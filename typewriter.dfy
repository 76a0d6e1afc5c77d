/** The typewriter effect of the hero section (`useTypewriter`).

    The hook keeps three state cells: the index of the current word, the number
    of characters of that word on screen, and whether it is deleting. Every
    firing of its timer performs exactly one of four transitions; the timer's
    wall-clock wait is modelled as a `real` number of milliseconds attached to
    the state the timer was scheduled from. */
module Typewriter {

  /** The role titles the portfolio passes to the hook. */
  const Titles: seq<string> := ["AWS Developer", "AI Engineer", "Python Developer"]

  /** The hook's default parameters: milliseconds per typed character, and the
      pause at full length before deletion starts. */
  const DefaultSpeed: nat := 100
  const DefaultPause: nat := 1500

  /** `index` selects the word, `subIndex` is the visible prefix length. */
  datatype TypeState = TypeState(index: nat, subIndex: nat, deleting: bool)

  /** The hook's initial state. */
  const Start: TypeState := TypeState(0, 0, false)

  /** The state names an existing word and does not reach past its end. */
  predicate InRange(words: seq<string>, s: TypeState) {
    s.index < |words| && s.subIndex <= |words[s.index]|
  }

  /** The string the hook returns: the first `subIndex` characters of the
      current word. */
  function Text(words: seq<string>, s: TypeState): (t: string)
    requires InRange(words, s)
    ensures |t| == s.subIndex && t <= words[s.index]
  {
    words[s.index][..s.subIndex]
  }

  /** Typing has reached the end of the current word. */
  predicate AtFull(words: seq<string>, s: TypeState)
    requires InRange(words, s)
  {
    !s.deleting && s.subIndex == |words[s.index]|
  }

  /** Deleting has emptied the current word. */
  predicate AtEmpty(s: TypeState) {
    s.deleting && s.subIndex == 0
  }

  /** One firing of the hook's timer. At full length it only switches to
      deleting (once the nested pause has elapsed); at zero while deleting it
      stops deleting and moves to the next word, wrapping modulo the list
      length; otherwise it moves `subIndex` one step in the current direction. */
  function Step(words: seq<string>, s: TypeState): (r: TypeState)
    requires InRange(words, s)
    ensures InRange(words, r)
  {
    if AtFull(words, s) then s.(deleting := true)
    else if AtEmpty(s) then TypeState((s.index + 1) % |words|, 0, false)
    else if s.deleting then s.(subIndex := s.subIndex - 1)
    else s.(subIndex := s.subIndex + 1)
  }

  /** `k` consecutive firings. */
  function Steps(words: seq<string>, s: TypeState, k: nat): (r: TypeState)
    requires InRange(words, s)
    ensures InRange(words, r)
    decreases k
  {
    if k == 0 then s else Steps(words, Step(words, s), k - 1)
  }

  /** The timeout the hook schedules from state `s`: half the speed while
      deleting, the full speed otherwise. It is exact, as a rational number. */
  function Delay(s: TypeState, speed: nat): (d: real)
    ensures s.deleting ==> d + d == speed as real
    ensures !s.deleting ==> d == speed as real
  {
    if s.deleting then speed as real / 2.0 else speed as real
  }

  /** The time from entering `s` until the state next changes: the timeout, plus
      the nested pause when the timeout found the word fully typed. */
  function Latency(words: seq<string>, s: TypeState, speed: nat, pause: nat): (r: real)
    requires InRange(words, s)
    ensures AtFull(words, s) ==> r == speed as real + pause as real
    ensures !AtFull(words, s) ==> r == Delay(s, speed)
    ensures r >= 0.0
  {
    Delay(s, speed) + (if AtFull(words, s) then pause as real else 0.0)
  }

  /** The time taken by `k` consecutive firings starting in `s`. */
  function Elapsed(words: seq<string>, s: TypeState, k: nat, speed: nat, pause: nat): (r: real)
    requires InRange(words, s)
    ensures k == 0 ==> r == 0.0
    ensures r >= 0.0
    decreases k
  {
    if k == 0 then 0.0
    else Latency(words, s, speed, pause) + Elapsed(words, Step(words, s), k - 1, speed, pause)
  }

  /** The number of firings needed to type, pause on, and delete `w`, and then
      move on to the next word. */
  function CycleLength(w: string): nat {
    2 * |w| + 2
  }

  /** The firings needed for the first `m` words of the list. */
  function PrefixPeriod(words: seq<string>, m: nat): nat
    requires m <= |words|
  {
    if m == 0 then 0 else PrefixPeriod(words, m - 1) + CycleLength(words[m - 1])
  }

  /** The firings needed to go once through the whole list. */
  function Period(words: seq<string>): nat {
    PrefixPeriod(words, |words|)
  }

  // ---------------------------------------------------------------------------
  // Single firings

  /** While typing below full length, a firing shows one more character of the
      same word and keeps typing. */
  lemma TickTypesOneCharacter(words: seq<string>, s: TypeState)
    requires InRange(words, s) && !s.deleting && s.subIndex < |words[s.index]|
    ensures Step(words, s) == s.(subIndex := s.subIndex + 1)
    ensures Text(words, Step(words, s)) == Text(words, s) + [words[s.index][s.subIndex]]
  {
    var w := words[s.index];
    assert w[..s.subIndex + 1] == w[..s.subIndex] + [w[s.subIndex]];
  }

  /** While deleting above zero, a firing removes the last visible character of
      the same word and keeps deleting. */
  lemma TickDeletesOneCharacter(words: seq<string>, s: TypeState)
    requires InRange(words, s) && s.deleting && s.subIndex > 0
    ensures Step(words, s) == s.(subIndex := s.subIndex - 1)
    ensures Text(words, Step(words, s)) + [words[s.index][s.subIndex - 1]] == Text(words, s)
  {
    var w := words[s.index];
    assert w[..s.subIndex - 1] + [w[s.subIndex - 1]] == w[..s.subIndex];
  }

  /** At full length a firing changes neither the word nor the visible text;
      it only starts deleting. */
  lemma TickAtFullStartsDeleting(words: seq<string>, s: TypeState)
    requires InRange(words, s) && AtFull(words, s)
    ensures Step(words, s) == TypeState(s.index, |words[s.index]|, true)
    ensures Text(words, Step(words, s)) == Text(words, s) == words[s.index]
  {
  }

  /** At zero while deleting a firing moves to the next word, wrapping around,
      with nothing visible and typing again. */
  lemma TickAtEmptyAdvancesWord(words: seq<string>, s: TypeState)
    requires InRange(words, s) && AtEmpty(s)
    ensures Step(words, s) == TypeState((s.index + 1) % |words|, 0, false)
    ensures Text(words, Step(words, s)) == Text(words, s) == ""
  {
  }

  // ---------------------------------------------------------------------------
  // Runs of firings

  /** Firings compose: `a + b` firings are `a` firings followed by `b`. */
  lemma {:induction false} StepsAdd(words: seq<string>, s: TypeState, a: nat, b: nat)
    requires InRange(words, s)
    ensures Steps(words, s, a + b) == Steps(words, Steps(words, s, a), b)
    decreases a
  {
    if a > 0 {
      StepsAdd(words, Step(words, s), a - 1, b);
    }
  }

  /** Typing `k` characters below full length takes `k` firings. */
  lemma {:induction false} TypingRun(words: seq<string>, i: nat, j: nat, k: nat)
    requires i < |words| && j + k <= |words[i]|
    ensures Steps(words, TypeState(i, j, false), k) == TypeState(i, j + k, false)
    decreases k
  {
    if k > 0 {
      TypingRun(words, i, j + 1, k - 1);
    }
  }

  /** Deleting `k` of `j` visible characters takes `k` firings. */
  lemma {:induction false} DeletingRun(words: seq<string>, i: nat, j: nat, k: nat)
    requires i < |words| && j <= |words[i]| && k <= j
    ensures Steps(words, TypeState(i, j, true), k) == TypeState(i, j - k, true)
    decreases k
  {
    if k > 0 {
      DeletingRun(words, i, j - 1, k - 1);
    }
  }

  /** One full cycle of word `i`: after `|w|` firings the whole word is shown,
      and after `2|w| + 2` firings nothing is shown and the next word (modulo the
      list length) is about to be typed. */
  lemma FullCycle(words: seq<string>, i: nat)
    requires i < |words|
    ensures InRange(words, Steps(words, TypeState(i, 0, false), |words[i]|))
    ensures Steps(words, TypeState(i, 0, false), |words[i]|) == TypeState(i, |words[i]|, false)
    ensures Text(words, Steps(words, TypeState(i, 0, false), |words[i]|)) == words[i]
    ensures Steps(words, TypeState(i, 0, false), CycleLength(words[i]))
         == TypeState((i + 1) % |words|, 0, false)
  {
    TypingRun(words, i, 0, |words[i]|);
    NextWord(words, i);
  }

  /** The second half of `FullCycle`: a cycle of word `i` ends where word
      `i + 1` (modulo the list length) starts. */
  lemma NextWord(words: seq<string>, i: nat)
    requires i < |words|
    ensures Steps(words, TypeState(i, 0, false), CycleLength(words[i]))
         == TypeState((i + 1) % |words|, 0, false)
  {
    var n := |words[i]|;
    var s0 := TypeState(i, 0, false);
    TypingRun(words, i, 0, n);
    var full := TypeState(i, n, false);
    assert Steps(words, full, 1) == TypeState(i, n, true);
    DeletingRun(words, i, n, n);
    assert Steps(words, TypeState(i, 0, true), 1) == TypeState((i + 1) % |words|, 0, false);
    StepsAdd(words, TypeState(i, n, true), n, 1);
    StepsAdd(words, full, 1, n + 1);
    StepsAdd(words, s0, n, n + 2);
    assert CycleLength(words[i]) == n + (n + 2);
  }

  /** A position below the list length is its own remainder. */
  lemma SmallModulo(a: nat, n: nat)
    requires a < n
    ensures a % n == a
  {
  }

  /** From the start, the first `m` words take `PrefixPeriod(words, m)` firings. */
  lemma {:induction false} PrefixCycles(words: seq<string>, m: nat)
    requires 0 < |words| && m <= |words|
    ensures Steps(words, Start, PrefixPeriod(words, m)) == TypeState(m % |words|, 0, false)
    decreases m
  {
    if m > 0 {
      var before := PrefixPeriod(words, m - 1);
      var cycle := CycleLength(words[m - 1]);
      assert PrefixPeriod(words, m) == before + cycle;
      PrefixCycles(words, m - 1);
      SmallModulo(m - 1, |words|);
      StepsAdd(words, Start, before, cycle);
      NextWord(words, m - 1);
      assert Steps(words, Start, PrefixPeriod(words, m))
          == Steps(words, TypeState(m - 1, 0, false), cycle);
    }
  }

  /** The effect never terminates and repeats itself: after going once through
      the list, every later state is the state `Period(words)` firings earlier. */
  lemma Periodic(words: seq<string>, k: nat)
    requires 0 < |words|
    ensures Steps(words, Start, Period(words)) == Start
    ensures Steps(words, Start, Period(words) + k) == Steps(words, Start, k)
  {
    PrefixCycles(words, |words|);
    StepsAdd(words, Start, Period(words), k);
  }

  /** The portfolio's own titles: after 13 firings "AWS Developer" is shown;
      after 28 nothing is shown and "AI Engineer" is the current word; the whole
      list repeats every 86 firings. */
  lemma TitlesFirstCycle()
    ensures Text(Titles, Steps(Titles, Start, 13)) == "AWS Developer"
    ensures Steps(Titles, Start, 28) == TypeState(1, 0, false)
    ensures Text(Titles, Steps(Titles, Start, 28)) == ""
    ensures Titles[Steps(Titles, Start, 28).index] == "AI Engineer"
    ensures Period(Titles) == 86 && Steps(Titles, Start, 86) == Start
  {
    assert |Titles[0]| == 13 && |Titles[1]| == 11 && |Titles[2]| == 16;
    FullCycle(Titles, 0);
    Periodic(Titles, 0);
  }

  // ---------------------------------------------------------------------------
  // Timing

  /** Elapsed time composes along with the firings. */
  lemma {:induction false} ElapsedAdd(words: seq<string>, s: TypeState, a: nat, b: nat, speed: nat, pause: nat)
    requires InRange(words, s)
    ensures Elapsed(words, s, a + b, speed, pause)
         == Elapsed(words, s, a, speed, pause) + Elapsed(words, Steps(words, s, a), b, speed, pause)
    decreases a
  {
    if a > 0 {
      ElapsedAdd(words, Step(words, s), a - 1, b, speed, pause);
    }
  }

  /** Typing `k` characters below full length takes `k` times the speed. */
  lemma {:induction false} TypingTime(words: seq<string>, i: nat, j: nat, k: nat, speed: nat, pause: nat)
    requires i < |words| && j + k <= |words[i]|
    ensures Elapsed(words, TypeState(i, j, false), k, speed, pause) == k as real * speed as real
    decreases k
  {
    if k > 0 {
      TypingTime(words, i, j + 1, k - 1, speed, pause);
      assert (k - 1) as real * speed as real + speed as real == k as real * speed as real;
    }
  }

  /** Deleting `k` characters takes `k` times half the speed. */
  lemma {:induction false} DeletingTime(words: seq<string>, i: nat, j: nat, k: nat, speed: nat, pause: nat)
    requires i < |words| && j <= |words[i]| && k <= j
    ensures Elapsed(words, TypeState(i, j, true), k, speed, pause) == k as real * speed as real / 2.0
    decreases k
  {
    if k > 0 {
      DeletingTime(words, i, j - 1, k - 1, speed, pause);
      assert speed as real / 2.0 + (k - 1) as real * speed as real / 2.0 == k as real * speed as real / 2.0;
    }
  }

  /** A full cycle of word `w` lasts `|w|` typing delays, one typing delay plus
      the pause at full length, `|w|` deleting delays and one more deleting delay
      before the next word: `(3|w| + 3) * speed / 2 + pause`. */
  lemma CycleDuration(words: seq<string>, i: nat, speed: nat, pause: nat)
    requires i < |words|
    ensures Elapsed(words, TypeState(i, 0, false), CycleLength(words[i]), speed, pause)
         == (3 * |words[i]| + 3) as real * speed as real / 2.0 + pause as real
  {
    var n := |words[i]|;
    var s0 := TypeState(i, 0, false);
    var full := TypeState(i, n, false);
    var del := TypeState(i, n, true);
    var typing := Elapsed(words, s0, n, speed, pause);
    var rest := Elapsed(words, full, n + 2, speed, pause);
    TypingRun(words, i, 0, n);
    TypingTime(words, i, 0, n, speed, pause);
    ElapsedAdd(words, s0, n, n + 2, speed, pause);
    assert CycleLength(words[i]) == n + (n + 2);
    DeleteAndAdvanceTime(words, i, speed, pause);
    CycleArithmetic(n, speed as real, pause as real);
  }

  /** From the fully typed word: the pause firing, `|w|` deletions and the move
      to the next word take `speed + pause + (|w| + 1) * speed / 2`. */
  lemma DeleteAndAdvanceTime(words: seq<string>, i: nat, speed: nat, pause: nat)
    requires i < |words|
    ensures Elapsed(words, TypeState(i, |words[i]|, false), |words[i]| + 2, speed, pause)
         == speed as real + pause as real + (|words[i]| + 1) as real * speed as real / 2.0
  {
    var n := |words[i]|;
    var sp := speed as real;
    var full := TypeState(i, n, false);
    var del := TypeState(i, n, true);
    var empty := TypeState(i, 0, true);
    DeletingRun(words, i, n, n);
    DeletingTime(words, i, n, n, speed, pause);
    assert Step(words, full) == del;
    assert Elapsed(words, full, 1, speed, pause) == sp + pause as real;
    assert Elapsed(words, empty, 1, speed, pause) == sp / 2.0;
    ElapsedAdd(words, del, n, 1, speed, pause);
    ElapsedAdd(words, full, 1, n + 1, speed, pause);
    assert n as real * sp / 2.0 + sp / 2.0 == (n + 1) as real * sp / 2.0;
  }

  /** The sum of the phases of one cycle. */
  lemma CycleArithmetic(n: nat, sp: real, p: real)
    ensures n as real * sp + (sp + p + (n + 1) as real * sp / 2.0) == (3 * n + 3) as real * sp / 2.0 + p
  {
  }

  /** With the hook's default speed and pause, typing, showing and deleting
      "AWS Developer" and moving on to "AI Engineer" takes 3.6 seconds. */
  lemma TitlesFirstCycleDuration()
    ensures Elapsed(Titles, Start, CycleLength(Titles[0]), DefaultSpeed, DefaultPause) == 3600.0
  {
    CycleDuration(Titles, 0, DefaultSpeed, DefaultPause);
    assert |Titles[0]| == 13;
  }


  // ---------------------------------------------------------------------------
  // The hook as a stateful object

  /** The hook instance: its parameters are fixed when it is created, and its
      three state cells are updated one firing at a time. */
  class TypewriterHook {
    const words: seq<string>
    const speed: nat
    const pause: nat
    var index: nat
    var subIndex: nat
    var deleting: bool

    function State(): TypeState
      reads this
    {
      TypeState(index, subIndex, deleting)
    }

    ghost predicate Valid()
      reads this
    {
      InRange(words, State())
    }

    /** Mounting the hook: first word, nothing typed. */
    constructor (words: seq<string>, speed: nat := DefaultSpeed, pause: nat := DefaultPause)
      requires |words| > 0
      ensures Valid()
      ensures this.words == words && this.speed == speed && this.pause == pause
      ensures State() == Start
    {
      this.words := words;
      this.speed := speed;
      this.pause := pause;
      index, subIndex, deleting := 0, 0, false;
    }

    /** The value the hook returns on each render. */
    function Displayed(): (t: string)
      reads this
      requires Valid()
      ensures |t| == subIndex && t <= words[index]
    {
      words[index][..subIndex]
    }

    /** The timer fires and its callback (and, at full length, the nested pause
      callback) runs; `waited` is how long that took since the last render. */
    method Tick() returns (waited: real)
      requires Valid()
      modifies this
      ensures Valid()
      ensures State() == Step(words, old(State()))
      ensures waited == Latency(words, old(State()), speed, pause)
    {
      waited := if deleting then speed as real / 2.0 else speed as real;
      if !deleting && subIndex == |words[index]| {
        waited := waited + pause as real;
        deleting := true;
        return;
      }
      if deleting && subIndex == 0 {
        deleting := false;
        index := (index + 1) % |words|;
        return;
      }
      subIndex := if deleting then subIndex - 1 else subIndex + 1;
    }
  }
}

/** The scroll tracker that decides which navigation item is highlighted
    (`handleScroll`).

    The page's sections are looked up by id; a section that is not mounted has
    no layout box. The layout is given as a map from the mounted sections to
    their `offsetTop`/`offsetHeight`, read at the moment of the scroll event. */
module Sections {
  import opened Wrappers

  /** The page regions that have an id and a navigation item. */
  datatype Section = Home | About | Skills | Experience | Contact | Resume

  /** The ids the scroll handler checks, in order. `Experience` is missing. */
  const Scanned: seq<Section> := [Home, About, Skills, Contact, Resume]

  /** The navigation bar's items, in order. */
  const NavItems: seq<Section> := [Home, About, Skills, Experience, Contact, Resume]

  /** The initial highlighted section. */
  const InitialSection: Section := Home

  /** Pixels added to the scroll offset, so that a section is highlighted a
      little before its top reaches the top of the viewport. */
  const Lookahead: int := 200

  /** A mounted element's vertical extent, in pixels. */
  datatype Bounds = Bounds(offsetTop: int, offsetHeight: int)

  /** The mounted sections and their boxes; an absent key is an id for which
      no element exists. */
  type Layout = map<Section, Bounds>

  /** The page position that is compared against the section boxes. */
  function Probe(scrollY: int): (p: int)
    ensures p - scrollY == Lookahead
  {
    scrollY + Lookahead
  }

  /** The half-open interval `[offsetTop, offsetTop + offsetHeight)` holds `p`. */
  predicate Contains(b: Bounds, p: int) {
    b.offsetTop <= p < b.offsetTop + b.offsetHeight
  }

  /** Section `s` is mounted and its box holds `p`. */
  predicate Hits(layout: Layout, s: Section, p: int) {
    s in layout && Contains(layout[s], p)
  }

  /** The first section of `sections` that is mounted and holds `p`, if any. */
  function FirstMatch(sections: seq<Section>, layout: Layout, p: int): (r: Option<Section>)
    ensures r.Some? ==> r.value in sections && Hits(layout, r.value, p)
    ensures r.None? <==> forall k :: 0 <= k < |sections| ==> !Hits(layout, sections[k], p)
  {
    if sections == [] then None
    else if Hits(layout, sections[0], p) then Some(sections[0])
    else FirstMatch(sections[1..], layout, p)
  }

  /** The highlighted section after a scroll event at offset `scrollY`: the first
      scanned section whose box holds the probe, or the previous one if none does. */
  function NextActive(active: Section, scrollY: int, layout: Layout): (next: Section)
    ensures next != active ==> next in Scanned && Hits(layout, next, Probe(scrollY))
  {
    FirstMatch(Scanned, layout, Probe(scrollY)).GetOr(active)
  }

  /** The scan of the handler: walks the ids in order, skips those that are not
      mounted, and stops at the first whose box holds the probe. */
  method Scan(sections: seq<Section>, layout: Layout, p: int) returns (found: Option<Section>)
    ensures found == FirstMatch(sections, layout, p)
  {
    found := None;
    for i := 0 to |sections|
      invariant found.None?
      invariant FirstMatch(sections, layout, p) == FirstMatch(sections[i..], layout, p)
    {
      var section := sections[i];
      if section in layout {
        var b := layout[section];
        if p >= b.offsetTop && p < b.offsetTop + b.offsetHeight {
          found := Some(section);
          break;
        }
      }
      assert sections[i..][1..] == sections[i + 1..];
    }
  }

  // ---------------------------------------------------------------------------
  // What the scan selects

  /** The earliest section whose box holds `p` is the one selected. */
  lemma {:induction false} FirstMatchIsEarliest(sections: seq<Section>, layout: Layout, p: int, k: nat)
    requires k < |sections| && Hits(layout, sections[k], p)
    requires forall j :: 0 <= j < k ==> !Hits(layout, sections[j], p)
    ensures FirstMatch(sections, layout, p) == Some(sections[k])
    decreases k
  {
    if k > 0 {
      assert !Hits(layout, sections[0], p);
      FirstMatchIsEarliest(sections[1..], layout, p, k - 1);
    }
  }

  /** Conversely, a selected section is at some position `k` that holds `p`, and
      no earlier section does. */
  lemma {:induction false} FirstMatchHasPosition(sections: seq<Section>, layout: Layout, p: int)
    requires FirstMatch(sections, layout, p).Some?
    ensures exists k :: 0 <= k < |sections| && sections[k] == FirstMatch(sections, layout, p).value
                        && Hits(layout, sections[k], p)
                        && forall j :: 0 <= j < k ==> !Hits(layout, sections[j], p)
  {
    if !Hits(layout, sections[0], p) {
      FirstMatchHasPosition(sections[1..], layout, p);
      var k :| 0 <= k < |sections[1..]| && sections[1..][k] == FirstMatch(sections[1..], layout, p).value
               && Hits(layout, sections[1..][k], p)
               && forall j :: 0 <= j < k ==> !Hits(layout, sections[1..][j], p);
      assert sections[k + 1] == sections[1..][k];
      assert forall j :: 1 <= j < k + 1 ==> sections[j] == sections[1..][j - 1];
    } else {
      assert sections[0] == FirstMatch(sections, layout, p).value;
    }
  }

  /** A scroll event whose probe lies in the first matching scanned section
      highlights that section. */
  lemma ScrollSelectsFirstHit(active: Section, scrollY: int, layout: Layout, k: nat)
    requires k < |Scanned| && Hits(layout, Scanned[k], Probe(scrollY))
    requires forall j :: 0 <= j < k ==> !Hits(layout, Scanned[j], Probe(scrollY))
    ensures NextActive(active, scrollY, layout) == Scanned[k]
  {
    FirstMatchIsEarliest(Scanned, layout, Probe(scrollY), k);
  }

  /** A scroll event whose probe lies in no mounted scanned section keeps the
      highlighted section; in particular an unmounted section is never chosen. */
  lemma ScrollMissKeepsActive(active: Section, scrollY: int, layout: Layout)
    requires forall k :: 0 <= k < |Scanned| ==> !Hits(layout, Scanned[k], Probe(scrollY))
    ensures NextActive(active, scrollY, layout) == active
  {
  }

  /** Scrolling never highlights "experience": it has a navigation item but the
      handler does not scan it, so it is highlighted after a scroll event exactly
      when it was highlighted before and no scanned section holds the probe. */
  lemma ExperienceNeverScrolledTo(active: Section, scrollY: int, layout: Layout)
    ensures Experience in NavItems && Experience !in Scanned
    ensures NextActive(active, scrollY, layout) == Experience
        <==> active == Experience && FirstMatch(Scanned, layout, Probe(scrollY)).None?
  {
    assert NavItems[3] == Experience;
    var m := FirstMatch(Scanned, layout, Probe(scrollY));
    if m.Some? {
      assert m.value in Scanned;
    }
  }

  /** Two mounted sections, home at [0, 800) and about at [800, 1600): a probe in
      the first box highlights home, one in the second highlights about, and one
      above the page keeps whatever was highlighted. */
  lemma TwoSectionPage(active: Section, scrollY: int)
    ensures var layout := map[Home := Bounds(0, 800), About := Bounds(800, 800)];
            && (0 <= Probe(scrollY) < 800 ==> NextActive(active, scrollY, layout) == Home)
            && (800 <= Probe(scrollY) < 1600 ==> NextActive(active, scrollY, layout) == About)
            && (Probe(scrollY) < 0 || 1600 <= Probe(scrollY) ==> NextActive(active, scrollY, layout) == active)
  {
    var layout := map[Home := Bounds(0, 800), About := Bounds(800, 800)];
    var p := Probe(scrollY);
    if 0 <= p < 800 {
      FirstMatchIsEarliest(Scanned, layout, p, 0);
    } else if 800 <= p < 1600 {
      FirstMatchIsEarliest(Scanned, layout, p, 1);
    } else {
      ScrollMissKeepsActive(active, scrollY, layout);
    }
  }
}

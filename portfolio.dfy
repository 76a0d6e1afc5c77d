/** The UI-local state of the main component: the highlighted navigation item,
    the mobile menu, the certifications dialog and the single expanded job card.

    The typewriter and the theme have their own modules; everything the
    component renders is left to the view. */
module Portfolio {
  import opened Wrappers
  import opened Sections

  /** Job cards are identified by the `id` of their experience entry. */
  type JobId = nat

  /** The ids of the three experience entries, in display order. */
  const JobIds: seq<JobId> := [1, 2, 3]

  /** Whether the stat cards of the about section open the dialog when clicked:
      "Years Experience" does not, "Cloud Certifications" does. */
  const StatClickable: seq<bool> := [false, true]

  /** A card is drawn expanded when its id is the expanded one. */
  predicate IsExpanded(expanded: Option<JobId>, id: JobId) {
    expanded == Some(id)
  }

  /** A click on job card `id`: collapse it if it is the expanded one, otherwise
      expand it in place of any other. */
  function ToggleExpanded(expanded: Option<JobId>, id: JobId): (next: Option<JobId>)
    ensures next == None || next == Some(id)
    ensures next == None <==> expanded == Some(id)
  {
    if expanded == Some(id) then None else Some(id)
  }

  /** After a click on `id`, card `k` is expanded exactly when it is the clicked
      card and that card was collapsed; every other card is collapsed. */
  lemma ClickExpandsOnlyClicked(expanded: Option<JobId>, id: JobId, k: JobId)
    ensures IsExpanded(ToggleExpanded(expanded, id), k) <==> k == id && !IsExpanded(expanded, id)
  {
  }

  /** Whatever the state, at most one of the page's job cards is drawn expanded. */
  lemma AtMostOneExpanded(expanded: Option<JobId>, a: nat, b: nat)
    requires a < |JobIds| && b < |JobIds|
    requires IsExpanded(expanded, JobIds[a]) && IsExpanded(expanded, JobIds[b])
    ensures a == b
  {
  }

  /** Two clicks on the same card restore the state exactly when no other card
      was expanded; from an expanded other card they collapse everything. */
  lemma ClickTwice(expanded: Option<JobId>, id: JobId)
    ensures ToggleExpanded(ToggleExpanded(expanded, id), id) == expanded
        <==> expanded == None || expanded == Some(id)
    ensures ToggleExpanded(ToggleExpanded(None, id), id) == None
  {
  }

  /** Clicks that reach the certifications dialog and the card that opens it. */
  datatype ModalClick =
    | StatCard(clickable: bool)  // a stat card of the about section
    | Backdrop                   // the dimmed overlay around the dialog
    | DialogBody                 // inside the dialog; propagation is stopped
    | CloseButton                // the dialog's close button

  /** The dialog's visibility after a click. */
  function CertModalAfter(open: bool, click: ModalClick): (r: bool)
    ensures click.Backdrop? || click.CloseButton? ==> !r
    ensures click == StatCard(true) ==> r
    ensures click.DialogBody? || click == StatCard(false) ==> r == open
  {
    match click
    case StatCard(clickable) => open || clickable
    case Backdrop => false
    case DialogBody => open
    case CloseButton => false
  }

  /** The dialog becomes visible only through a clickable stat card. */
  lemma ModalOpensOnlyFromClickableCard(open: bool, click: ModalClick)
    ensures !open && CertModalAfter(open, click) <==> !open && click == StatCard(true)
  {
  }

  /** Of the about section's stat cards exactly the second opens the dialog. */
  lemma OnlyCertificationsCardOpens(k: nat)
    requires k < |StatClickable|
    ensures CertModalAfter(false, StatCard(StatClickable[k])) <==> k == 1
  {
  }

  /** The component's state cells other than the theme and the typewriter. */
  class PortfolioApp {
    var activeSection: Section
    var mobileMenuOpen: bool
    var showCertModal: bool
    var expandedJob: Option<JobId>

    /** First render: "home" highlighted, menu and dialog closed, no card expanded. */
    constructor ()
      ensures activeSection == InitialSection && InitialSection == Home
      ensures !mobileMenuOpen && !showCertModal && expandedJob == None
    {
      activeSection := InitialSection;
      mobileMenuOpen := false;
      showCertModal := false;
      expandedJob := None;
    }

    /** The window's scroll handler at vertical offset `scrollY`. */
    method OnScroll(scrollY: int, layout: Layout)
      modifies this`activeSection
      ensures activeSection == NextActive(old(activeSection), scrollY, layout)
    {
      var found := Scan(Scanned, layout, Probe(scrollY));
      if found.Some? {
        activeSection := found.value;
      }
    }

    /** The hamburger button flips the menu. */
    method ToggleMobileMenu()
      modifies this`mobileMenuOpen
      ensures mobileMenuOpen == !old(mobileMenuOpen)
    {
      mobileMenuOpen := !mobileMenuOpen;
    }

    /** A navigation item of the mobile menu scrolls (not modelled) and closes the menu. */
    method SelectMobileNavItem()
      modifies this`mobileMenuOpen
      ensures !mobileMenuOpen
    {
      mobileMenuOpen := false;
    }

    /** A click that reaches the dialog or a stat card. */
    method ClickCertModal(click: ModalClick)
      modifies this`showCertModal
      ensures showCertModal == CertModalAfter(old(showCertModal), click)
    {
      match click
      case StatCard(clickable) =>
        if clickable {
          showCertModal := true;
        }
      case Backdrop =>
        showCertModal := false;
      case DialogBody =>
      case CloseButton =>
        showCertModal := false;
    }

    /** A click on job card `id`. */
    method ClickJob(id: JobId)
      modifies this`expandedJob
      ensures expandedJob == ToggleExpanded(old(expandedJob), id)
    {
      expandedJob := if expandedJob == Some(id) then None else Some(id);
    }
  }
}

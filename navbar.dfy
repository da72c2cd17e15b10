/** The navigation bar: which links are shown for a visitor, and the mobile menu. */
module Navbar {
  import opened Wrappers
  import opened Seqs

  /** A link: its `label` (here `caption`), its target, and an optional `requiresAuth` that reads as false when absent. */
  datatype NavItem = NavItem(caption: string, href: string, requiresAuth: Option<bool>)

  const NavItems: seq<NavItem> := [
    NavItem("홈", "/", None),
    NavItem("단어장 공유", "/shared/lists", None),
    NavItem("학습 자료", "#", None),
    NavItem("단어 학습", "/word", Some(true))
  ]

  predicate RequiresAuth(item: NavItem)
  {
    item.requiresAuth == Some(true)
  }

  /** `!item.requiresAuth || (item.requiresAuth && session)`. */
  predicate Visible(item: NavItem, signedIn: bool)
  {
    !RequiresAuth(item) || (RequiresAuth(item) && signedIn)
  }

  /** The links of the desktop bar, in `NAV_ITEMS` order. */
  function DesktopLinks(items: seq<NavItem>, signedIn: bool): (r: seq<NavItem>)
    ensures forall item :: item in r <==> item in items && (!RequiresAuth(item) || signedIn)
  {
    Filter(items, item => Visible(item, signedIn))
  }

  /** The links of the mobile menu: the same ones, and only while the menu is open. */
  function MobileLinks(items: seq<NavItem>, signedIn: bool, menuOpen: bool): (r: seq<NavItem>)
    ensures !menuOpen ==> r == []
  {
    if menuOpen then Filter(items, item => Visible(item, signedIn)) else []
  }

  /** An open mobile menu lists exactly the desktop links. */
  lemma MobileMatchesDesktop(items: seq<NavItem>, signedIn: bool)
    ensures MobileLinks(items, signedIn, true) == DesktopLinks(items, signedIn)
  {
  }

  /** Signed in, every item is shown, in order. */
  lemma SignedInSeesAll(items: seq<NavItem>)
    ensures DesktopLinks(items, true) == items
  {
    FilterAll(items, item => Visible(item, true));
  }

  /** Signed out, the bar shows every item but "단어 학습". */
  lemma SignedOutSeesPublicItems()
    ensures DesktopLinks(NavItems, false) == NavItems[..3]
    ensures forall item :: item in DesktopLinks(NavItems, false) ==> item.caption != "단어 학습"
  {
    var keep := (item: NavItem) => Visible(item, false);
    assert NavItems[3..][1..] == [];
    assert NavItems[2..][1..] == NavItems[3..];
    assert NavItems[1..][1..] == NavItems[2..];
    assert Filter(NavItems[3..], keep) == [];
    assert Filter(NavItems[2..], keep) == [NavItems[2]];
    assert Filter(NavItems[1..], keep) == [NavItems[1], NavItems[2]];
  }

  /** The sign-in links of the mobile menu appear only for a signed-out visitor with the menu open. */
  predicate ShowsMobileSignIn(signedIn: bool, menuOpen: bool)
  {
    menuOpen && !signedIn
  }

  class Navbar {
    const signedIn: bool
    var mobileMenuOpen: bool

    constructor (signedIn: bool)
      ensures this.signedIn == signedIn && !mobileMenuOpen
    {
      this.signedIn := signedIn;
      mobileMenuOpen := false;
    }

    function Links(): seq<NavItem>
      reads this
    {
      MobileLinks(NavItems, signedIn, mobileMenuOpen)
    }

    /** The menu button flips the menu. */
    method ToggleMenu()
      modifies this
      ensures mobileMenuOpen == !old(mobileMenuOpen)
    {
      mobileMenuOpen := !mobileMenuOpen;
    }

    /** Following a link of the mobile menu closes it. */
    method ClickMobileLink()
      requires mobileMenuOpen
      modifies this
      ensures !mobileMenuOpen && Links() == []
    {
      mobileMenuOpen := false;
    }
  }
}

/** Mobile navigation, in-page scrolling and the scroll-reactive header of
    script.js.  The hamburger and the `.nav-menu` each carry an `active`
    class; the menu is open when they do. */
module Navigation {
  import opened Wrappers

  /** Whether `.nav-menu` and the hamburger carry the class `active`. */
  datatype MenuState = MenuState(navActive: bool, hamburgerActive: bool) {
    /** Both elements agree on whether the menu is open. */
    predicate InSync() {
      navActive == hamburgerActive
    }
  }

  const Closed := MenuState(false, false)

  /** The hamburger's click handler: `classList.toggle('active')` on both
      elements, each flag flipped on its own. */
  function Toggle(m: MenuState): (r: MenuState)
    ensures r.InSync() <==> m.InSync()
    ensures r.navActive != m.navActive && r.hamburgerActive != m.hamburgerActive
  {
    MenuState(!m.navActive, !m.hamburgerActive)
  }

  /** The document's `keydown` handler: Escape closes the menu, any other
      key leaves it alone. */
  function AfterKey(m: MenuState, key: string): (r: MenuState)
    ensures key == "Escape" ==> r == Closed
    ensures key != "Escape" ==> r == m
  {
    if key == "Escape" then Closed else m
  }

  /** The document's `click` handler: a click outside both the hamburger
      and the menu closes the menu; a click inside either leaves it. */
  function AfterDocumentClick(m: MenuState, inHamburger: bool, inMenu: bool): (r: MenuState)
    ensures !inHamburger && !inMenu ==> r == Closed
    ensures inHamburger || inMenu ==> r == m
  {
    if !inHamburger && !inMenu then Closed else m
  }

  /** A nav link's click handler, as far as the menu is concerned: it is
      closed only when the link's target resolves. */
  function AfterNavLink(m: MenuState, resolves: bool): (r: MenuState)
    ensures resolves ==> r == Closed
    ensures !resolves ==> r == m
  {
    if resolves then Closed else m
  }

  /** Toggling twice restores both flags. */
  lemma ToggleTwice(m: MenuState)
    ensures Toggle(Toggle(m)) == m
  {
  }

  /** Closing is idempotent: a closed menu closes to itself. */
  lemma CloseIdempotent(key: string, inHamburger: bool, inMenu: bool)
    ensures AfterKey(Closed, key) == Closed
    ensures AfterDocumentClick(Closed, inHamburger, inMenu) == Closed
    ensures AfterNavLink(Closed, true) == Closed
  {
  }

  /** Everything that can happen to the menu. */
  datatype MenuEvent =
    | HamburgerClick
    | KeyDown(key: string)
    | DocumentClick(inHamburger: bool, inMenu: bool)
    | NavLinkClick(resolves: bool)

  function Apply(m: MenuState, e: MenuEvent): MenuState {
    match e
    case HamburgerClick => Toggle(m)
    case KeyDown(key) => AfterKey(m, key)
    case DocumentClick(h, n) => AfterDocumentClick(m, h, n)
    case NavLinkClick(r) => AfterNavLink(m, r)
  }

  /** The menu after the events `es`, in order. */
  function Replay(m: MenuState, es: seq<MenuEvent>): MenuState
    decreases |es|
  {
    if es == [] then m else Replay(Apply(m, es[0]), es[1..])
  }

  lemma {:induction false} ReplayAppend(m: MenuState, es: seq<MenuEvent>, e: MenuEvent)
    ensures Replay(m, es + [e]) == Apply(Replay(m, es), e)
    decreases |es|
  {
    if es != [] {
      assert (es + [e])[0] == es[0] && (es + [e])[1..] == es[1..] + [e];
      ReplayAppend(Apply(m, es[0]), es[1..], e);
    }
  }

  /** Starting in step, the two `active` flags stay equal whatever
      happens; a page that starts closed therefore never shows one open
      without the other. */
  lemma {:induction false} ReplayKeepsInSync(m: MenuState, es: seq<MenuEvent>)
    requires m.InSync()
    ensures Replay(m, es).InSync()
    decreases |es|
  {
    if es != [] {
      ReplayKeepsInSync(Apply(m, es[0]), es[1..]);
    }
  }

  /** Starting out of step, the flags stay unequal until something closes
      the menu: toggling alone never brings them together. */
  lemma {:induction false} TogglesKeepOutOfSync(m: MenuState, n: nat)
    requires !m.InSync()
    ensures !Replay(m, seq(n, _ => HamburgerClick)).InSync()
    decreases n
  {
    if n > 0 {
      var es := seq(n, _ => HamburgerClick);
      assert es[0] == HamburgerClick && es[1..] == seq(n - 1, _ => HamburgerClick);
      TogglesKeepOutOfSync(Toggle(m), n - 1);
    }
  }

  /** Whatever happened before, pressing Escape leaves the menu closed. */
  lemma EscapeEndsClosed(m: MenuState, es: seq<MenuEvent>)
    ensures Replay(m, es + [KeyDown("Escape")]) == Closed
  {
    ReplayAppend(m, es, KeyDown("Escape"));
  }

  class MobileMenu {
    var navActive: bool
    var hamburgerActive: bool

    function State(): MenuState
      reads this
    {
      MenuState(navActive, hamburgerActive)
    }

    /** A freshly loaded page: neither element is active. */
    constructor ()
      ensures State() == Closed
    {
      navActive, hamburgerActive := false, false;
    }

    /** The hamburger's click handler. */
    method HamburgerClick()
      modifies this
      ensures State() == Toggle(old(State()))
    {
      navActive := !navActive;
      hamburgerActive := !hamburgerActive;
    }

    /** `closeMobileMenu`. */
    method Close()
      modifies this
      ensures State() == Closed
    {
      navActive := false;
      hamburgerActive := false;
    }

    /** The document's `keydown` handler. */
    method KeyDown(key: string)
      modifies this
      ensures State() == AfterKey(old(State()), key)
    {
      if key == "Escape" {
        Close();
      }
    }

    /** The document's `click` handler, given where the target lies. */
    method DocumentClick(inHamburger: bool, inMenu: bool)
      modifies this
      ensures State() == AfterDocumentClick(old(State()), inHamburger, inMenu)
    {
      if !inHamburger && !inMenu {
        Close();
      }
    }
  }

  /** The `top` the page scrolls to for a section: its `offsetTop` less
      the height of the fixed header, so that the section's top edge comes
      to rest just below the header. */
  function ScrollTop(offsetTop: int, headerHeight: int): (top: int)
    ensures top + headerHeight == offsetTop
  {
    offsetTop - headerHeight
  }

  /** `href.startsWith('#')`. */
  predicate StartsWithHash(href: string) {
    |href| > 0 && href[0] == '#'
  }

  /** Where a click lands: on the hamburger, on a nav link (inside the
      menu), elsewhere inside the menu, on a hero button or elsewhere
      outside both. */
  datatype ClickTarget =
    | OnHamburger
    | OnNavLink(href: string)
    | InsideMenu
    | OnHeroButton(heroHref: Option<string>)
    | Elsewhere

  class Page {
    const menu: MobileMenu
    /** The selectors `document.querySelector` resolves, each with the
        `offsetTop` of the element it finds. */
    const sections: map<string, int>
    /** The `top` of every `window.scrollTo` call so far, in order. */
    var scrolls: seq<int>

    constructor (sections: map<string, int>)
      ensures fresh(menu) && menu.State() == Closed
      ensures this.sections == sections && scrolls == []
    {
      this.sections := sections;
      menu := new MobileMenu();
      scrolls := [];
    }

    /** A nav link's click handler.  It always cancels the default
        navigation; when `href` resolves it scrolls to the section and
        closes the menu, and otherwise does nothing else. */
    method NavLinkClick(href: string, headerHeight: int) returns (prevented: bool)
      modifies this, menu
      ensures prevented
      ensures href in sections ==>
        scrolls == old(scrolls) + [ScrollTop(sections[href], headerHeight)] && menu.State() == Closed
      ensures href !in sections ==>
        scrolls == old(scrolls) && menu.State() == old(menu.State())
    {
      prevented := true;
      if href in sections {
        scrolls := scrolls + [ScrollTop(sections[href], headerHeight)];
        menu.Close();
      }
    }

    /** A hero button's click handler.  Only an `href` that starts with `#`
        is handled: the default navigation is cancelled and, if the target
        resolves, the page scrolls to it.  The menu is never touched. */
    method HeroButtonClick(href: Option<string>, headerHeight: int) returns (prevented: bool)
      modifies this
      ensures prevented <==> href.Some? && StartsWithHash(href.value)
      ensures prevented && href.value in sections ==>
        scrolls == old(scrolls) + [ScrollTop(sections[href.value], headerHeight)]
      ensures !(prevented && href.value in sections) ==> scrolls == old(scrolls)
    {
      prevented := false;
      if href.Some? && StartsWithHash(href.value) {
        prevented := true;
        if href.value in sections {
          scrolls := scrolls + [ScrollTop(sections[href.value], headerHeight)];
        }
      }
    }

    /** One click as the page delivers it: first the handler of the element
        clicked, then the document's `click` listener as the event bubbles.
        A hero button is outside the menu, so the document listener closes
        the menu after that button's own handler has left it alone. */
    method Click(target: ClickTarget, headerHeight: int) returns (prevented: bool)
      modifies this, menu
      ensures target == OnHamburger ==> menu.State() == Toggle(old(menu.State())) && scrolls == old(scrolls)
      ensures target.OnNavLink? ==>
        menu.State() == AfterNavLink(old(menu.State()), target.href in sections) &&
        scrolls == old(scrolls) + (if target.href in sections then [ScrollTop(sections[target.href], headerHeight)] else [])
      ensures target == InsideMenu ==> menu.State() == old(menu.State()) && scrolls == old(scrolls)
      ensures target.OnHeroButton? || target == Elsewhere ==> menu.State() == Closed
      ensures target == Elsewhere ==> scrolls == old(scrolls)
      ensures target.OnHeroButton? ==>
        var href := target.heroHref;
        scrolls == old(scrolls) +
          (if href.Some? && StartsWithHash(href.value) && href.value in sections
           then [ScrollTop(sections[href.value], headerHeight)] else [])
      ensures prevented <==>
        target.OnNavLink? || (target.OnHeroButton? && target.heroHref.Some? && StartsWithHash(target.heroHref.value))
    {
      prevented := false;
      match target
      case OnHamburger =>
        menu.HamburgerClick();
        menu.DocumentClick(true, false);
      case OnNavLink(href) =>
        prevented := NavLinkClick(href, headerHeight);
        menu.DocumentClick(false, true);
      case InsideMenu =>
        menu.DocumentClick(false, true);
      case OnHeroButton(href) =>
        prevented := HeroButtonClick(href, headerHeight);
        menu.DocumentClick(false, false);
      case Elsewhere =>
        menu.DocumentClick(false, false);
    }
  }

  /** The two backgrounds of the header, past and before the threshold. */
  const ScrolledBackground := "rgba(15, 23, 42, 0.98)"
  const TopBackground := "rgba(15, 23, 42, 0.95)"

  /** The header's background for a vertical scroll offset: the darker one
      exactly when the page has scrolled more than 100 pixels. */
  function HeaderBackground(scrollY: int): (bg: string)
    ensures bg == ScrolledBackground <==> scrollY > 100
    ensures bg == ScrolledBackground || bg == TopBackground
  {
    if scrollY > 100 then ScrolledBackground else TopBackground
  }

  class Header {
    /** The header's `style.background`. */
    var background: string

    constructor (background: string)
      ensures this.background == background
    {
      this.background := background;
    }

    /** The window's `scroll` handler. */
    method OnScroll(scrollY: int)
      modifies this
      ensures background == HeaderBackground(scrollY)
    {
      if scrollY > 100 {
        background := ScrolledBackground;
      } else {
        background := TopBackground;
      }
    }
  }
}

/**
  The two navigation components: `BurgerMenu` (script.js:40-101), a two-state machine whose
  state is mirrored into the navigation panel, the burger button and the page body, and
  `ActiveMenu` (script.js:507-536), which marks the navigation links that point at the
  current page.
 */
module Navigation {
  import opened Wrappers
  import opened JsText

  /** The link targets that stand for the home page. */
  predicate IsHomeLink(p: string) {
    p == "/" || p == "/index.html"
  }

  /** The page the browser shows is the home page: `/` itself or any path ending in `/index.html`. */
  predicate OnHomePage(currentPath: string) {
    currentPath == "/" || EndsWith(currentPath, "/index.html")
  }

  /**
    The match rule of `ActiveMenu.init` for one link. `linkPath` is `getAttribute('href')`,
    absent when the link has no `href`; an empty or `#`-fragment target never matches.
   */
  predicate IsActivePath(linkPath: Option<string>, currentPath: string) {
    match linkPath
    case None => false
    case Some(p) =>
      if IsHomeLink(p) then OnHomePage(currentPath)
      else p != "" && !StartsWith(p, "#") && (currentPath == p || EndsWith(currentPath, p))
  }

  /**
    The rule without its redundant equality test: a home link is active exactly on the home
    page, and any other link (non-empty, not a fragment) exactly when the current path ends
    with it. The second case is not applied to home links, so `/` is not active on `/about/`.
   */
  lemma ActivePathIff(p: string, currentPath: string)
    ensures IsActivePath(Some(p), currentPath) <==>
      (IsHomeLink(p) && OnHomePage(currentPath)) ||
      (!IsHomeLink(p) && p != "" && !StartsWith(p, "#") && EndsWith(currentPath, p))
  {
    if currentPath == p {
      assert currentPath[|currentPath| - |p|..] == p;
    }
  }

  /** The two spellings of the home link are active on the same pages. */
  lemma HomeLinksAgree(currentPath: string)
    ensures IsActivePath(Some("/"), currentPath) == IsActivePath(Some("/index.html"), currentPath)
    ensures IsActivePath(Some("/"), currentPath) == OnHomePage(currentPath)
  {
  }

  /** A link is active on the page it points to, whatever it points to, unless it is empty or a fragment. */
  lemma LinkActiveOnItsOwnPage(p: string)
    requires p != "" && !StartsWith(p, "#")
    ensures IsActivePath(Some(p), p)
  {
    if IsHomeLink(p) && p == "/index.html" {
      assert p[|p| - |"/index.html"|..] == "/index.html";
    }
  }

  /**
    `ActiveMenu` never marks a link without `href`, with an empty one or with a fragment.
    (`ScrollSpy`, which is not part of this model, may mark a fragment link later.)
   */
  lemma FragmentsNeverActive(linkPath: Option<string>, currentPath: string)
    requires linkPath.None? || linkPath.value == "" || StartsWith(linkPath.value, "#")
    ensures !IsActivePath(linkPath, currentPath)
  {
    if linkPath.Some? && StartsWith(linkPath.value, "#") {
      assert linkPath.value[0] == '#';
    }
  }

  /** `/` is not active on `/about/` although `/about/` ends with `/`: home links only match the home page. */
  lemma RootLinkOnlyOnHomePage()
    ensures EndsWith("/about/", "/")
    ensures !IsActivePath(Some("/"), "/about/")
  {
    assert "/about/"[6..] == "/";
    assert !EndsWith("/about/", "/index.html");
  }

  /** A navigation link: its `href` and the two marks `ActiveMenu` sets. */
  class NavLink {
    const href: Option<string>
    /** `classList.contains('active')` */
    var active: bool
    /** The `aria-current` attribute. */
    var ariaCurrent: Option<string>

    constructor(href: Option<string>, active: bool, ariaCurrent: Option<string>)
      ensures this.href == href && this.active == active && this.ariaCurrent == ariaCurrent
    {
      this.href, this.active, this.ariaCurrent := href, active, ariaCurrent;
    }
  }

  /**
    `ActiveMenu.init`: every link loses both marks and gets them back exactly when it
    matches the current path, so afterwards the marks are the match rule and nothing else.
   */
  method MarkActiveLinks(links: seq<NavLink>, currentPath: string)
    modifies links`active, links`ariaCurrent
    ensures forall j | 0 <= j < |links| :: links[j].active == IsActivePath(links[j].href, currentPath)
    ensures forall j | 0 <= j < |links| ::
      links[j].ariaCurrent == if links[j].active then Some("page") else None
  {
    for i := 0 to |links|
      invariant forall j | 0 <= j < i :: links[j].active == IsActivePath(links[j].href, currentPath)
      invariant forall j | 0 <= j < i ::
        links[j].ariaCurrent == if links[j].active then Some("page") else None
    {
      var link := links[i];
      link.ariaCurrent := None;
      link.active := false;
      var isMatch := IsActivePath(link.href, currentPath);
      if isMatch {
        link.ariaCurrent := Some("page");
        link.active := true;
      }
    }
  }

  /** `nav.style.height` while the menu is open. */
  const OpenHeight := "calc(100vh - var(--header-h))"

  /** Below this viewport width the navigation is the collapsible mobile menu. */
  const Breakpoint := 768

  class BurgerMenu {
    /** Both the burger button and the navigation panel were found, so the listeners are installed. */
    const wired: bool
    var isOpen: bool
    /** The panel has the class `show`. */
    var navShown: bool
    /** `nav.style.height` */
    var navHeight: string
    /** The burger's `aria-expanded` attribute. */
    var ariaExpanded: Option<string>
    /** `document.body.style.overflow` */
    var bodyOverflow: string

    /**
      The page shows what `isOpen` says: panel shown at full height, burger expanded and
      page scrolling locked while open; all of it undone while closed.
     */
    predicate Synced()
      reads this
    {
      navShown == isOpen &&
      navHeight == (if isOpen then OpenHeight else "") &&
      ariaExpanded == Some(if isOpen then "true" else "false") &&
      bodyOverflow == (if isOpen then "hidden" else "")
    }

    /** The menu starts closed; the page keeps whatever it had until the first open or close. */
    constructor(burgerFound: bool, navFound: bool, navShown: bool, navHeight: string,
                ariaExpanded: Option<string>, bodyOverflow: string)
      ensures wired == (burgerFound && navFound) && !isOpen
      ensures this.navShown == navShown && this.navHeight == navHeight
      ensures this.ariaExpanded == ariaExpanded && this.bodyOverflow == bodyOverflow
    {
      wired := burgerFound && navFound;
      isOpen := false;
      this.navShown, this.navHeight := navShown, navHeight;
      this.ariaExpanded, this.bodyOverflow := ariaExpanded, bodyOverflow;
    }

    method Open()
      requires wired
      modifies this
      ensures isOpen && Synced()
    {
      isOpen := true;
      navShown := true;
      navHeight := OpenHeight;
      ariaExpanded := Some("true");
      bodyOverflow := "hidden";
    }

    method Close()
      requires wired
      modifies this
      ensures !isOpen && Synced()
    {
      isOpen := false;
      navShown := false;
      navHeight := "";
      ariaExpanded := Some("false");
      bodyOverflow := "";
    }

    /** The burger's click listener. */
    method Toggle()
      requires wired
      modifies this
      ensures isOpen == !old(isOpen) && Synced()
    {
      if isOpen {
        Close();
      } else {
        Open();
      }
    }

    /** A click on a navigation link closes an open menu on a narrow viewport. */
    method OnNavLinkClick(viewportWidth: int)
      requires wired
      modifies this
      ensures if old(isOpen) && viewportWidth < Breakpoint then !isOpen && Synced() else unchanged(this)
    {
      if isOpen && viewportWidth < Breakpoint {
        Close();
      }
    }

    /** Escape closes an open menu; any other key does nothing. */
    method OnKeyDown(key: string)
      requires wired
      modifies this
      ensures if key == "Escape" && old(isOpen) then !isOpen && Synced() else unchanged(this)
    {
      if key == "Escape" && isOpen {
        Close();
      }
    }

    /** A click anywhere outside both the panel and the burger closes an open menu. */
    method OnDocumentClick(insideNav: bool, insideBurger: bool)
      requires wired
      modifies this
      ensures if old(isOpen) && !insideNav && !insideBurger then !isOpen && Synced() else unchanged(this)
    {
      if isOpen && !insideNav && !insideBurger {
        Close();
      }
    }

    /** Growing the viewport to the desktop layout closes an open menu. */
    method OnResize(viewportWidth: int)
      requires wired
      modifies this
      ensures if viewportWidth >= Breakpoint && old(isOpen) then !isOpen && Synced() else unchanged(this)
    {
      if viewportWidth >= Breakpoint && isOpen {
        Close();
      }
    }
  }
}

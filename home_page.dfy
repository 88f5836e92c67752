/** The home page's tab bar: which tab is active, whether the login form replaces the tab
    content, and the lookup of the content to show. */
module HomePage {
  import opened Wrappers

  /** The names of the five tabs, in the order of the bar. */
  const Tabs: seq<string> := ["home", "about us", "services", "clients", "contact us"]

  /** `tabs.find(tab => tab.name === name)`: the index of the first tab of that name. */
  function FindTab(tabs: seq<string>, name: string): (r: Option<nat>)
    ensures r.Some? ==> r.value < |tabs| && tabs[r.value] == name &&
                        forall k :: 0 <= k < r.value ==> tabs[k] != name
    ensures r.None? <==> name !in tabs
  {
    if tabs == [] then None
    else if tabs[0] == name then Some(0)
    else match FindTab(tabs[1..], name)
      case None => None
      case Some(i) => Some(i + 1)
  }

  /** The tab names are distinct and none is empty. */
  lemma TabNamesDistinct()
    ensures forall i, j :: 0 <= i < j < |Tabs| ==> Tabs[i] != Tabs[j]
    ensures "" !in Tabs
  {
  }

  /** What the page body shows. */
  datatype Shown = LoginFormShown | TabContent(index: nat) | NothingShown

  /** The login form when it is open, else the content of the tab named `activeTab`. */
  function Content(showLogin: bool, activeTab: string): Shown {
    if showLogin then LoginFormShown
    else match FindTab(Tabs, activeTab)
      case Some(i) => TabContent(i)
      case None => NothingShown
  }

  /** The body shows the login form exactly when it is open, and otherwise the tab that
      carries the active name, or nothing when no tab does. */
  lemma ContentShown(showLogin: bool, activeTab: string)
    ensures Content(showLogin, activeTab) == LoginFormShown <==> showLogin
    ensures !showLogin && activeTab in Tabs ==>
              Content(showLogin, activeTab).TabContent? &&
              Tabs[Content(showLogin, activeTab).index] == activeTab
    ensures !showLogin && activeTab !in Tabs ==> Content(showLogin, activeTab) == NothingShown
  {
  }

  /** Clicking tab `i` shows that very tab. */
  lemma ClickedTabShown(i: nat)
    requires i < |Tabs|
    ensures Content(false, Tabs[i]) == TabContent(i)
  {
    TabNamesDistinct();
  }

  /** The two buttons inside the tabs name tabs that exist. */
  lemma ButtonsNameTabs()
    ensures Content(false, "services") == TabContent(2)
    ensures Content(false, "contact us") == TabContent(4)
  {
    ClickedTabShown(2);
    ClickedTabShown(4);
  }

  /** The home page component. */
  class Page {
    var activeTab: string
    var showLogin: bool

    constructor()
      ensures activeTab == "home" && !showLogin
    {
      activeTab := "home";
      showLogin := false;
    }

    /** The click handler of the button for tab `i`. */
    method ClickTab(i: nat)
      requires i < |Tabs|
      modifies this
      ensures activeTab == Tabs[i] && !showLogin
    {
      activeTab := Tabs[i];
      showLogin := false;
    }

    /** The click handler of the login button. */
    method ClickLogin()
      modifies this
      ensures showLogin && activeTab == ""
    {
      showLogin := true;
      activeTab := "";
    }

    /** The Learn More button of the home tab. */
    method LearnMore()
      modifies this
      ensures activeTab == "services" && showLogin == old(showLogin)
    {
      activeTab := "services";
    }

    /** The Contact Us button of the clients tab. */
    method ContactUs()
      modifies this
      ensures activeTab == "contact us" && showLogin == old(showLogin)
    {
      activeTab := "contact us";
    }

    /** Whether the button of tab `i` is drawn highlighted. */
    function Highlighted(i: nat): bool
      reads this
      requires i < |Tabs|
    {
      activeTab == Tabs[i]
    }

    /** What the page body shows. */
    function Body(): Shown
      reads this
    {
      Content(showLogin, activeTab)
    }
  }

  /** After the login click the form is shown and no tab is highlighted; a later tab click
      shows that tab and highlights it alone. */
  method LoginThenTab(i: nat) returns (afterLogin: Shown, anyHighlighted: bool, afterTab: Shown,
                                       highlightedAfter: seq<bool>)
    requires i < |Tabs|
    ensures afterLogin == LoginFormShown && !anyHighlighted
    ensures afterTab == TabContent(i)
    ensures |highlightedAfter| == |Tabs|
    ensures forall j :: 0 <= j < |Tabs| ==> (highlightedAfter[j] <==> j == i)
  {
    var page := new Page();
    page.ClickLogin();
    afterLogin := page.Body();
    anyHighlighted := false;
    var k := 0;
    while k < |Tabs|
      invariant 0 <= k <= |Tabs|
      invariant anyHighlighted <==> exists j :: 0 <= j < k && page.Highlighted(j)
    {
      anyHighlighted := anyHighlighted || page.Highlighted(k);
      k := k + 1;
    }
    TabNamesDistinct();
    page.ClickTab(i);
    afterTab := page.Body();
    ClickedTabShown(i);
    highlightedAfter := [];
    k := 0;
    while k < |Tabs|
      invariant 0 <= k <= |Tabs| && |highlightedAfter| == k
      invariant forall j :: 0 <= j < k ==> (highlightedAfter[j] <==> page.Highlighted(j))
    {
      highlightedAfter := highlightedAfter + [page.Highlighted(k)];
      k := k + 1;
    }
  }
}

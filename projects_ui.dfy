/**
 * The filter and pagination controller of the projects grid. Its state is
 * the active tab and the number of matching cards to show; every change of
 * state rewrites the hidden flag of every card and the state of the
 * "show more" button.
 *
 * The visibility rule is first stated on values (`Matches`, `CountMatching`,
 * `HiddenFlags`) with its properties proved as lemmas. The state transitions
 * are stated as a pure machine (`Pager`, `Next`, `Replay`). The class
 * `ProjectsController` then keeps the cards, the tabs and the counters in
 * place and is proved to follow both.
 */
module ProjectsUi {
  import opened Common

  /** The tab that shows every card. */
  const AllTab: string := "all"

  /** How many more cards one click on "show more" reveals. */
  const Step: int := 3

  // ---------------------------------------------------------------------------
  // Trimming a category attribute

  /** The characters `String.prototype.trim` removes: white space and line terminators. */
  predicate IsTrimmable(c: char) {
    || c == '\t' || c == '\n' || c == '\U{000B}' || c == '\U{000C}' || c == '\r'
    || c == ' ' || c == '\U{00A0}' || c == '\U{1680}' || ('\U{2000}' <= c <= '\U{200A}')
    || c == '\U{2028}' || c == '\U{2029}' || c == '\U{202F}' || c == '\U{205F}'
    || c == '\U{3000}' || c == '\U{FEFF}'
  }

  function TrimStart(s: string): string {
    if s != [] && IsTrimmable(s[0]) then TrimStart(s[1..]) else s
  }

  function TrimEnd(s: string): string {
    if s != [] && IsTrimmable(s[|s| - 1]) then TrimEnd(s[..|s| - 1]) else s
  }

  /** `String.prototype.trim`: strips white space from both ends. */
  function Trim(s: string): string {
    TrimEnd(TrimStart(s))
  }

  lemma {:induction false} TrimStartSpec(s: string)
    ensures var r := TrimStart(s);
      && |r| <= |s| && r == s[|s| - |r|..]
      && (forall k :: 0 <= k < |s| - |r| ==> IsTrimmable(s[k]))
      && (r == [] || !IsTrimmable(r[0]))
  {
    if s != [] && IsTrimmable(s[0]) {
      TrimStartSpec(s[1..]);
      var r := TrimStart(s[1..]);
      assert forall k :: 1 <= k < |s| - |r| ==> s[k] == s[1..][k - 1];
    }
  }

  lemma {:induction false} TrimEndSpec(s: string)
    ensures var r := TrimEnd(s);
      && |r| <= |s| && r == s[..|r|]
      && (forall k :: |r| <= k < |s| ==> IsTrimmable(s[k]))
      && (r == [] || !IsTrimmable(r[|r| - 1]))
  {
    if s != [] && IsTrimmable(s[|s| - 1]) {
      TrimEndSpec(s[..|s| - 1]);
    }
  }

  /**
   * Trimming keeps the slice of `s` that starts and ends with a character
   * that is not white space, and removes only white space around it.
   */
  lemma TrimSpec(s: string)
    ensures |TrimStart(s)| <= |s|
    ensures var r, i := Trim(s), |s| - |TrimStart(s)|;
      && i + |r| <= |s| && r == s[i..i + |r|]
      && (forall k :: 0 <= k < i ==> IsTrimmable(s[k]))
      && (forall k :: i + |r| <= k < |s| ==> IsTrimmable(s[k]))
      && (r == [] || (!IsTrimmable(r[0]) && !IsTrimmable(r[|r| - 1])))
  {
    var t := TrimStart(s);
    TrimStartSpec(s);
    TrimEndSpec(t);
    var r := TrimEnd(t);
    var i := |s| - |t|;
    assert r == s[i..i + |r|];
    forall k | i + |r| <= k < |s| ensures IsTrimmable(s[k]) {
      assert s[k] == t[k - i];
    }
    if r != [] {
      assert r[0] == t[0];
    }
  }

  /** A text without white space at its ends is left as it is. */
  lemma TrimKeepsTrimmed(s: string)
    requires s == [] || (!IsTrimmable(s[0]) && !IsTrimmable(s[|s| - 1]))
    ensures Trim(s) == s
  {
  }

  // ---------------------------------------------------------------------------
  // The visibility rule on values

  /** A card takes part in the active tab: every card for "all", else the cards of that category. */
  function Matches(activeTab: string, category: string): (m: bool)
    ensures activeTab == AllTab ==> m
    ensures activeTab != AllTab ==> (m <==> Trim(category) == activeTab)
    ensures activeTab != "" && Trim(category) == "" ==> (m <==> activeTab == AllTab)
  {
    activeTab == AllTab || Trim(category) == activeTab
  }

  /** A card without a category, or with only white space in it, is shown on the "all" tab only. */
  lemma BlankCategoryMatchesOnlyAll(activeTab: string, category: string)
    requires activeTab != "" && Trim(category) == ""
    ensures Matches(activeTab, category) <==> activeTab == AllTab
  {
  }

  /** How many of the first `n` categories match the active tab. */
  function CountMatchingUpTo(activeTab: string, cats: seq<string>, n: nat): (c: nat)
    requires n <= |cats|
    ensures c <= n
    ensures activeTab == AllTab ==> c == n
  {
    if n == 0 then 0
    else CountMatchingUpTo(activeTab, cats, n - 1) + (if Matches(activeTab, cats[n - 1]) then 1 else 0)
  }

  /** How many cards match the active tab (the eligible cards). */
  function CountMatching(activeTab: string, cats: seq<string>): nat {
    CountMatchingUpTo(activeTab, cats, |cats|)
  }

  /**
   * The rule card by card: card `i` is hidden exactly when it does not match
   * the active tab, or when it is the j-th matching card (counting from 1)
   * with j greater than `visible`.
   */
  predicate IsHidden(activeTab: string, visible: int, cats: seq<string>, i: nat)
    requires i < |cats|
  {
    !Matches(activeTab, cats[i]) || CountMatchingUpTo(activeTab, cats, i + 1) > visible
  }

  /** The hidden flag of every card. */
  function HiddenFlags(activeTab: string, visible: int, cats: seq<string>): (h: seq<bool>)
    ensures |h| == |cats|
  {
    seq(|cats|, i requires 0 <= i < |cats| => IsHidden(activeTab, visible, cats, i))
  }

  /** Counting the matching cards among the first `n` looks at those `n` cards only. */
  lemma {:induction false} CountMatchingPrefix(activeTab: string, cats: seq<string>, m: nat, n: nat)
    requires n <= m <= |cats|
    ensures CountMatchingUpTo(activeTab, cats[..m], n) == CountMatchingUpTo(activeTab, cats, n)
  {
    if n > 0 {
      CountMatchingPrefix(activeTab, cats, m, n - 1);
      assert cats[..m][n - 1] == cats[n - 1];
    }
  }

  /** A card's hidden flag depends on the cards before it and not on those after it. */
  lemma HiddenFlagsPrefix(activeTab: string, visible: int, cats: seq<string>, n: nat)
    requires n <= |cats|
    ensures HiddenFlags(activeTab, visible, cats[..n]) == HiddenFlags(activeTab, visible, cats)[..n]
  {
    forall i | 0 <= i < n
      ensures HiddenFlags(activeTab, visible, cats[..n])[i] == HiddenFlags(activeTab, visible, cats)[i]
    {
      CountMatchingPrefix(activeTab, cats, n, i + 1);
    }
  }

  /** One card of the walk in document order: its flag follows from the count of matching cards before it. */
  lemma HiddenStep(activeTab: string, visible: int, cats: seq<string>, i: nat)
    requires i < |cats|
    ensures CountMatchingUpTo(activeTab, cats, i + 1)
      == CountMatchingUpTo(activeTab, cats, i) + (if Matches(activeTab, cats[i]) then 1 else 0)
    ensures IsHidden(activeTab, visible, cats, i)
      == (!Matches(activeTab, cats[i]) || CountMatchingUpTo(activeTab, cats, i) + 1 > visible)
  {
  }

  /** The number of cards left visible. */
  function CountShown(h: seq<bool>): (n: nat)
    ensures n <= |h|
  {
    if h == [] then 0 else CountShown(h[..|h| - 1]) + (if h[|h| - 1] then 0 else 1)
  }

  lemma {:induction false} ShownCountUpTo(activeTab: string, visible: int, cats: seq<string>, n: nat)
    requires n <= |cats|
    ensures CountShown(HiddenFlags(activeTab, visible, cats)[..n])
      == if visible <= 0 then 0 else Min(visible, CountMatchingUpTo(activeTab, cats, n))
  {
    if n > 0 {
      ShownCountUpTo(activeTab, visible, cats, n - 1);
      var h := HiddenFlags(activeTab, visible, cats);
      assert h[..n][..n - 1] == h[..n - 1];
      assert h[..n][n - 1] == IsHidden(activeTab, visible, cats, n - 1);
    }
  }

  /**
   * Pagination shows as many matching cards as the page allows: all of them
   * when they fit, exactly `visible` of them otherwise, none for a page size
   * below one.
   */
  lemma ShownCount(activeTab: string, visible: int, cats: seq<string>)
    ensures CountShown(HiddenFlags(activeTab, visible, cats))
      == if visible <= 0 then 0 else Min(visible, CountMatching(activeTab, cats))
  {
    var h := HiddenFlags(activeTab, visible, cats);
    assert h[..|cats|] == h;
    ShownCountUpTo(activeTab, visible, cats, |cats|);
  }

  /** A card that does not match the active tab is always hidden, whatever the page size. */
  lemma NonMatchingHidden(activeTab: string, visible: int, cats: seq<string>, i: nat)
    requires i < |cats| && !Matches(activeTab, cats[i])
    ensures HiddenFlags(activeTab, visible, cats)[i]
  {
  }

  /** A larger page hides no card that a smaller page shows. */
  lemma MorePagesShowMore(activeTab: string, v1: int, v2: int, cats: seq<string>, i: nat)
    requires v1 <= v2 && i < |cats|
    ensures HiddenFlags(activeTab, v2, cats)[i] ==> HiddenFlags(activeTab, v1, cats)[i]
  {
  }

  /** On the "all" tab the first `visible` cards in document order are the ones shown. */
  lemma AllTabShowsPrefix(visible: int, cats: seq<string>, i: nat)
    requires i < |cats|
    ensures HiddenFlags(AllTab, visible, cats)[i] <==> i >= visible
  {
  }

  /**
   * A grid with categories web, cli, web on the "web" tab: exactly the two web
   * cards are eligible, and with room for two both are shown.
   */
  lemma WebTabScenario(visible: int)
    requires visible >= 2
    ensures CountMatching("web", ["web", "cli", "web"]) == 2
    ensures HiddenFlags("web", visible, ["web", "cli", "web"]) == [false, true, false]
  {
    var cats := ["web", "cli", "web"];
    assert !IsTrimmable('w') && !IsTrimmable('b') && !IsTrimmable('c') && !IsTrimmable('i');
    assert Trim("web") == "web" && Trim("cli") == "cli";
    assert Matches("web", cats[0]) && !Matches("web", cats[1]) && Matches("web", cats[2]);
    assert CountMatchingUpTo("web", cats, 1) == 1;
    assert CountMatchingUpTo("web", cats, 2) == 1;
    assert CountMatchingUpTo("web", cats, 3) == 2;
  }

  // ---------------------------------------------------------------------------
  // The state machine on values

  /** The controller's own state: the active tab and the page size. */
  datatype Pager = Pager(activeTab: string, visibleCount: int)

  /** The two user events: a click on a tab (naming the tab to select) and a click on "show more". */
  datatype UiEvent = SelectTab(tab: string) | ShowMore

  /**
   * The page size to start from: the configured `data-visible` when it is a
   * positive finite number, else the number of cards.
   */
  function InitialVisible(configured: NumberValue, cardCount: nat): (n: int)
    ensures n >= 1 || (n == 0 && cardCount == 0)
    ensures configured.Finite? && configured.value > 0 ==> n == configured.value
    ensures configured.NotFinite? || configured.value <= 0 ==> n == cardCount
  {
    if configured.Finite? && configured.value > 0 then configured.value else cardCount
  }

  function Next(initialVisible: int, p: Pager, e: UiEvent): (q: Pager)
    ensures e.SelectTab? ==> q == Pager(e.tab, initialVisible)
    ensures e.ShowMore? ==> q.activeTab == p.activeTab && q.visibleCount == p.visibleCount + Step
  {
    match e
    case SelectTab(t) => Pager(t, initialVisible)
    case ShowMore => p.(visibleCount := p.visibleCount + Step)
  }

  function Replay(initialVisible: int, p: Pager, events: seq<UiEvent>): Pager
    decreases |events|
  {
    if events == [] then p
    else Replay(initialVisible, Next(initialVisible, p, events[0]), events[1..])
  }

  function ShowMores(k: nat): (es: seq<UiEvent>)
    ensures |es| == k && forall j :: 0 <= j < k ==> es[j] == ShowMore
  {
    if k == 0 then [] else [ShowMore] + ShowMores(k - 1)
  }

  /** `k` clicks on "show more" add `k` steps to the page size and keep the tab. */
  lemma {:induction false} ShowMoresAdd(initialVisible: int, p: Pager, k: nat)
    ensures Replay(initialVisible, p, ShowMores(k)) == Pager(p.activeTab, p.visibleCount + Step * k)
    decreases k
  {
    if k > 0 {
      var es := ShowMores(k);
      assert es[1..] == ShowMores(k - 1);
      ShowMoresAdd(initialVisible, Next(initialVisible, p, ShowMore), k - 1);
    }
  }

  /** Selecting a tab and then clicking "show more" `k` times gives the initial page plus `k` steps. */
  lemma SelectThenShowMores(initialVisible: int, p: Pager, t: string, k: nat)
    ensures Replay(initialVisible, p, [SelectTab(t)] + ShowMores(k)) == Pager(t, initialVisible + Step * k)
  {
    var es := [SelectTab(t)] + ShowMores(k);
    assert es[1..] == ShowMores(k);
    ShowMoresAdd(initialVisible, Pager(t, initialVisible), k);
  }

  /** Replaying two runs of events one after the other is replaying their concatenation. */
  lemma {:induction false} ReplayAppend(initialVisible: int, p: Pager, a: seq<UiEvent>, b: seq<UiEvent>)
    ensures Replay(initialVisible, p, a + b) == Replay(initialVisible, Replay(initialVisible, p, a), b)
    decreases |a|
  {
    if a == [] {
      assert a + b == b;
    } else {
      assert (a + b)[0] == a[0] && (a + b)[1..] == a[1..] + b;
      ReplayAppend(initialVisible, Next(initialVisible, p, a[0]), a[1..], b);
    }
  }

  /** Selecting a tab forgets every earlier click: the page size is back to its initial value. */
  lemma SelectTabResets(initialVisible: int, p: Pager, history: seq<UiEvent>, t: string)
    ensures Replay(initialVisible, p, history + [SelectTab(t)]) == Pager(t, initialVisible)
  {
    ReplayAppend(initialVisible, p, history, [SelectTab(t)]);
  }

  // ---------------------------------------------------------------------------
  // The controller over the grid in place

  /** A project card as the controller sees it: its `data-category` ("" when absent) and its hidden flag. */
  datatype Card = Card(category: string, hidden: bool)

  /** A filter tab: its `data-tab`, whether it is marked active, and its `aria-selected` state. */
  datatype Tab = Tab(dataTab: string, active: bool, selected: bool)

  function Categories(cards: seq<Card>): (cats: seq<string>)
    ensures |cats| == |cards| && forall k :: 0 <= k < |cards| ==> cats[k] == cards[k].category
  {
    seq(|cards|, k requires 0 <= k < |cards| => cards[k].category)
  }

  function HiddenOf(cards: seq<Card>): (h: seq<bool>)
    ensures |h| == |cards| && forall k :: 0 <= k < |cards| ==> h[k] == cards[k].hidden
  {
    seq(|cards|, k requires 0 <= k < |cards| => cards[k].hidden)
  }

  /**
   * The walk of `apply` over the cards in document order: each card that does
   * not match is hidden, each matching card is counted and hidden once the
   * count passes the page size. Returns the number of matching cards.
   */
  method HideCards(cards: array<Card>, activeTab: string, visibleCount: int) returns (eligible: nat)
    modifies cards
    ensures Categories(cards[..]) == Categories(old(cards[..]))
    ensures HiddenOf(cards[..]) == HiddenFlags(activeTab, visibleCount, Categories(old(cards[..])))
    ensures eligible == CountMatching(activeTab, Categories(old(cards[..])))
  {
    ghost var cats := Categories(cards[..]);
    var shown := 0;
    eligible := 0;
    var i := 0;
    while i < cards.Length
      invariant 0 <= i <= cards.Length
      invariant forall k :: 0 <= k < cards.Length ==> cards[k].category == cats[k]
      invariant forall k :: 0 <= k < i ==> cards[k].hidden == IsHidden(activeTab, visibleCount, cats, k)
      invariant shown == eligible == CountMatchingUpTo(activeTab, cats, i)
    {
      HiddenStep(activeTab, visibleCount, cats, i);
      var matches := Matches(activeTab, cards[i].category);
      if !matches {
        cards[i] := cards[i].(hidden := true);
      } else {
        eligible := eligible + 1;
        shown := shown + 1;
        cards[i] := cards[i].(hidden := shown > visibleCount);
      }
      i := i + 1;
    }
    assert Categories(cards[..]) == cats;
    assert HiddenOf(cards[..]) == HiddenFlags(activeTab, visibleCount, cats);
  }

  class ProjectsController {
    const cards: array<Card>
    const tabs: array<Tab>
    const initialVisible: int
    const hasMoreButton: bool
    var activeTab: string
    var visibleCount: int
    var moreShown: bool      // the button is displayed
    var moreDisabled: bool   // the button is disabled

    function State(): Pager
      reads this
    {
      Pager(activeTab, visibleCount)
    }

    /** The grid shows what the state says. */
    ghost predicate CardsMatchState()
      reads this, cards
    {
      && HiddenOf(cards[..]) == HiddenFlags(activeTab, visibleCount, Categories(cards[..]))
      && (hasMoreButton ==>
            && moreShown == (visibleCount < CountMatching(activeTab, Categories(cards[..])))
            && moreDisabled == !moreShown)
    }

    /** Exactly the tabs whose `data-tab` is the active tab are marked, visually and for assistive technology. */
    ghost predicate TabsMatchState()
      reads this, tabs
    {
      forall k :: 0 <= k < tabs.Length ==>
        tabs[k].active == (tabs[k].dataTab == activeTab) && tabs[k].selected == tabs[k].active
    }

    ghost predicate Consistent()
      reads this, cards, tabs
    {
      CardsMatchState() && TabsMatchState()
    }

    /** Takes over the cards and tabs present in the document and selects the "all" tab. */
    constructor (cards: array<Card>, tabs: array<Tab>, configured: NumberValue, hasMoreButton: bool)
      modifies cards, tabs
      ensures this.cards == cards && this.tabs == tabs && this.hasMoreButton == hasMoreButton
      ensures initialVisible == InitialVisible(configured, cards.Length)
      ensures State() == Pager(AllTab, initialVisible)
      ensures Consistent()
      ensures Categories(cards[..]) == Categories(old(cards[..]))
      ensures forall k :: 0 <= k < tabs.Length ==> tabs[k].dataTab == old(tabs[k].dataTab)
    {
      this.cards := cards;
      this.tabs := tabs;
      this.hasMoreButton := hasMoreButton;
      initialVisible := InitialVisible(configured, cards.Length);
      visibleCount := InitialVisible(configured, cards.Length);
      activeTab := AllTab;
      moreShown, moreDisabled := false, true;
      new;
      SetTab(AllTab);
    }

    /** `apply`: recomputes every card's hidden flag and the "show more" button from the state. */
    method Apply()
      modifies cards, this`moreShown, this`moreDisabled
      ensures Categories(cards[..]) == Categories(old(cards[..]))
      ensures CardsMatchState()
      ensures !hasMoreButton ==> moreShown == old(moreShown) && moreDisabled == old(moreDisabled)
    {
      var eligible := HideCards(cards, activeTab, visibleCount);
      if hasMoreButton {
        var hasMore := visibleCount < eligible;
        moreShown := hasMore;
        moreDisabled := !hasMore;
      }
    }

    /** `setTab`: selects a tab, resets the page size, marks the tabs and re-applies. */
    method SetTab(next: string)
      modifies this`activeTab, this`visibleCount, this`moreShown, this`moreDisabled, cards, tabs
      ensures State() == Next(initialVisible, old(State()), SelectTab(next))
      ensures Consistent()
      ensures Categories(cards[..]) == Categories(old(cards[..]))
      ensures forall k :: 0 <= k < tabs.Length ==> tabs[k].dataTab == old(tabs[k].dataTab)
    {
      activeTab := next;
      visibleCount := initialVisible;
      for j := 0 to tabs.Length
        modifies tabs
        invariant forall k :: 0 <= k < j ==>
          tabs[k] == Tab(old(tabs[k].dataTab), old(tabs[k].dataTab) == next, old(tabs[k].dataTab) == next)
        invariant forall k :: j <= k < tabs.Length ==> tabs[k] == old(tabs[k])
      {
        var isActive := tabs[j].dataTab == next;
        tabs[j] := tabs[j].(active := isActive, selected := isActive);
      }
      Apply();
    }

    /** A click on the tab at `index`: a tab without a name selects "all". */
    method ClickTab(index: nat)
      requires index < tabs.Length
      modifies this`activeTab, this`visibleCount, this`moreShown, this`moreDisabled, cards, tabs
      ensures State() == Next(initialVisible, old(State()),
                              SelectTab(if old(tabs[index].dataTab) == "" then AllTab else old(tabs[index].dataTab)))
      ensures Consistent()
      ensures Categories(cards[..]) == Categories(old(cards[..]))
      ensures forall k :: 0 <= k < tabs.Length ==> tabs[k].dataTab == old(tabs[k].dataTab)
    {
      var next := if tabs[index].dataTab == "" then AllTab else tabs[index].dataTab;
      SetTab(next);
    }

    /** A click on "show more" (the handler exists only when the button does): one more step of cards. */
    method ClickShowMore()
      requires hasMoreButton
      requires TabsMatchState()
      modifies this`visibleCount, this`moreShown, this`moreDisabled, cards
      ensures State() == Next(initialVisible, old(State()), ShowMore)
      ensures Consistent()
      ensures Categories(cards[..]) == Categories(old(cards[..]))
    {
      visibleCount := visibleCount + Step;
      Apply();
    }
  }
}

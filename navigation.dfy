/**
 * The model-R `Flow`: a state machine over the logical page counter and
 * the current page's sub-page cursor, driven by button triggers.
 *
 * The button controller is reduced to the position it reports triggered
 * (`Option<ButtonPos>`, `None` for events that trigger nothing) and to the
 * layout the flow last gave it; the scrollbar to its page count and active
 * position.
 */
module Navigation {
  import opened Wrappers
  import opened Buttons
  import opened TextLayout
  import opened Pages

  /** Messages the flow returns to its caller. */
  datatype FlowMsg = Confirmed | ConfirmedIndex(index: nat) | Cancelled | Info

  /** The scrollbar as the flow drives it: total sub-pages and active one. */
  datatype ScrollBar = ScrollBar(pageCount: nat, activePage: nat)

  /**
   * Page-changing actions and the page counter they move to; `None` for
   * every other action. (`PrevPage` at page 0 gives -1, which a well-formed
   * flow never offers.)
   */
  function PageTarget(action: ButtonAction, pageCounter: nat, count: nat): Option<int>
  {
    match action
    case PrevPage => Some(pageCounter - 1)
    case NextPage => Some(pageCounter + 1)
    case FirstPage => Some(0)
    case LastPage => Some(count - 1)
    case _ => None
  }

  /** Actions that end the flow and the message each returns; `None` for every other action. */
  function FlowMessage(action: ButtonAction, pageCounter: nat, returnConfirmedIndex: bool): Option<FlowMsg>
  {
    match action
    case Cancel => Some(Cancelled)
    case Confirm => if returnConfirmedIndex then Some(ConfirmedIndex(pageCounter)) else Some(Confirmed)
    case Info => Some(FlowMsg.Info)
    case _ => None
  }

  /**
   * Every action either moves between pages, or ends the flow with a
   * message, or (`Select` and custom actions) does nothing at this layer,
   * and never two of these.
   */
  lemma ActionKinds(action: ButtonAction, pageCounter: nat, count: nat, returnConfirmedIndex: bool)
    ensures !(PageTarget(action, pageCounter, count).Some? && FlowMessage(action, pageCounter, returnConfirmedIndex).Some?)
    ensures PageTarget(action, pageCounter, count).None? && FlowMessage(action, pageCounter, returnConfirmedIndex).None?
        <==> action.Select? || action.Action?
    ensures FlowMessage(action, pageCounter, returnConfirmedIndex) == Some(Confirmed)
        <==> action.Confirm? && !returnConfirmedIndex
    ensures FlowMessage(action, pageCounter, returnConfirmedIndex).Some? && FlowMessage(action, pageCounter, returnConfirmedIndex).value.ConfirmedIndex?
        <==> action.Confirm? && returnConfirmedIndex
  {
  }

  /**
   * A flow whose page action tables keep the page counter in range: it has
   * a page, only pages after the first offer `PrevPage` and only pages
   * before the last offer `NextPage`.
   */
  ghost predicate WellFormed(pages: FlowPages)
  {
    && 0 < pages.pageCount
    && forall i: nat, pos: ButtonPos {:trigger pages.getPage(i).btnActions.GetAction(pos)} :: i < pages.pageCount ==>
         && (pages.getPage(i).btnActions.GetAction(pos) == Some(ButtonAction.PrevPage) ==> 0 < i)
         && (pages.getPage(i).btnActions.GetAction(pos) == Some(ButtonAction.NextPage) ==> i + 1 < pages.pageCount)
  }

  /** In a well-formed flow every page-changing action a page offers lands on a page of the flow. */
  lemma PageTargetInRange(pages: FlowPages, pageCounter: nat, pos: ButtonPos)
    requires WellFormed(pages) && pageCounter < pages.pageCount
    requires pages.getPage(pageCounter).btnActions.GetAction(pos).Some?
    ensures var t := PageTarget(pages.getPage(pageCounter).btnActions.GetAction(pos).value, pageCounter, pages.pageCount);
      t.Some? ==> 0 <= t.value < pages.pageCount
  {
    var a := pages.getPage(pageCounter).btnActions.GetAction(pos);
  }

  // ---------------------------------------------------------------------
  // Scrollbar position after an intra-page move
  // ---------------------------------------------------------------------

  /** The scrollbar position the flow sets after a sub-page move, as the flow computes it. */
  function InnerScrollbarAsWritten(pageCounter: nat, innerPage: nat): nat
  {
    pageCounter + innerPage
  }

  /**
   * The absolute sub-page index the scrollbar is meant to show: the
   * sub-pages of all earlier pages plus the sub-page within this one.
   */
  function InnerScrollbarIntended(pages: FlowPages, bounds: Rect, pageCounter: nat, innerPage: nat): nat
    requires pages.Valid()
  {
    pages.SubPagesBefore(bounds, pageCounter) + innerPage
  }

  /**
   * The intended position numbers every sub-page of the flow exactly once:
   * the sub-pages of page `i` occupy the positions from
   * `SubPagesBefore(i)` up to but excluding `SubPagesBefore(i + 1)`, so it
   * continues where a logical page change leaves the scrollbar and never
   * reaches the next page's positions.
   */
  lemma InnerScrollbarIntendedInRange(pages: FlowPages, bounds: Rect, pageCounter: nat, innerPage: nat)
    requires pages.Valid() && innerPage < pages.SubPagesOf(bounds, pageCounter)
    ensures InnerScrollbarIntended(pages, bounds, pageCounter, 0) == pages.SubPagesBefore(bounds, pageCounter)
    ensures pages.SubPagesBefore(bounds, pageCounter) <= InnerScrollbarIntended(pages, bounds, pageCounter, innerPage)
            < pages.SubPagesBefore(bounds, pageCounter + 1)
  {
  }

  /**
   * Two sub-pages of the flow get the same intended position only when
   * they are the same sub-page of the same page.
   */
  lemma {:induction false} InnerScrollbarIntendedInjective(pages: FlowPages, bounds: Rect, p1: nat, i1: nat, p2: nat, i2: nat)
    requires pages.Valid()
    requires i1 < pages.SubPagesOf(bounds, p1) && i2 < pages.SubPagesOf(bounds, p2)
    requires InnerScrollbarIntended(pages, bounds, p1, i1) == InnerScrollbarIntended(pages, bounds, p2, i2)
    ensures p1 == p2 && i1 == i2
  {
    if p1 < p2 {
      SubPagesBeforeSplit(pages, bounds, p1 + 1, p2);
      assert false;
    } else if p2 < p1 {
      SubPagesBeforeSplit(pages, bounds, p2 + 1, p1);
      assert false;
    }
  }

  /**
   * The position the flow computes after a sub-page move agrees with the
   * intended one exactly when every earlier page has a single sub-page;
   * otherwise it is behind by the surplus sub-pages of the earlier pages.
   */
  lemma InnerScrollbarAsWrittenAgreesIff(pages: FlowPages, bounds: Rect, pageCounter: nat, innerPage: nat)
    requires pages.Valid()
    ensures InnerScrollbarAsWritten(pageCounter, innerPage) <= InnerScrollbarIntended(pages, bounds, pageCounter, innerPage)
    ensures InnerScrollbarAsWritten(pageCounter, innerPage) == InnerScrollbarIntended(pages, bounds, pageCounter, innerPage)
        <==> forall j :: 0 <= j < pageCounter ==> pages.SubPagesOf(bounds, j) == 1
  {
    SubPagesBeforeIsIndexIff(pages, bounds, pageCounter);
  }

  /**
   * A layout engine for the example below: any content of two or more
   * characters overflows once after one character.
   */
  function SplitOnceEngine(ops: seq<Op>, bounds: Rect, offset: nat): LayoutFit
  {
    if offset == 0 && 2 <= TotalChars(ops) then OutOfBounds(1) else Fitting
  }

  /** A flow whose every page has the two-character text "ab". */
  function TwoSubPageFlow(): (pages: FlowPages)
    ensures pages.Valid()
  {
    FlowPages(
      (i: nat) => PageContent([Op.Text("ab")], EmptyLayout(), ButtonActions(None, None, None), NORMAL, None),
      3, 10, SplitOnceEngine)
  }

  /**
   * In a flow whose pages have two sub-pages each, arriving at page 1
   * puts the scrollbar at 2, and moving on to that page's second sub-page
   * leaves it at 2, where it should be at 3.
   */
  lemma ScrollbarStallsExample()
    ensures TwoSubPageFlow().SubPagesBefore(Rect(0, 0), 1) == 2
    ensures InnerScrollbarAsWritten(1, 1) == 2
    ensures InnerScrollbarIntended(TwoSubPageFlow(), Rect(0, 0), 1, 1) == 3
  {
    var pages := TwoSubPageFlow();
    var ops := [Op.Text("ab")];
    assert TotalChars(ops) == 2 by {
      assert ops[..0] == [];
    }
    assert Restarts(SplitOnceEngine, ops, Rect(0, 0), 1) == [1];
    assert Restarts(SplitOnceEngine, ops, Rect(0, 0), 0) == [0, 1];
    assert pages.SubPagesOf(Rect(0, 0), 0) == 2;
  }

  // ---------------------------------------------------------------------
  // Flow
  // ---------------------------------------------------------------------

  class Flow {
    const pages: FlowPages
    var currentPage: Page
    var title: Option<string>
    var scrollbar: ScrollBar
    var contentArea: Rect
    /** The layout shown by the button controller. */
    var buttons: ButtonLayout
    var pageCounter: nat
    var returnConfirmedIndex: bool

    ghost predicate Valid()
      reads this, currentPage
    {
      && pages.Valid() && WellFormed(pages)
      && pageCounter < pages.pageCount
      && currentPage.Valid()
      && currentPage.engine == pages.engine && currentPage.capacity == pages.capacity
      && currentPage.Content() == pages.getPage(pageCounter)
    }

    /**
     * The state right after a logical page change: the current page is
     * placed in the content area at its first sub-page, the scrollbar
     * shows that page's first sub-page and the buttons show its layout.
     */
    ghost predicate ShowsPageStart()
      reads this, currentPage
    {
      && pages.Valid() && currentPage.engine == pages.engine
      && currentPage.currentPage == 0
      && currentPage.bounds == contentArea
      && currentPage.pageCount == SubPageCount(pages.engine, currentPage.ops, contentArea)
      && scrollbar.activePage == pages.SubPagesBefore(contentArea, pageCounter)
      && buttons == currentPage.BtnLayout()
    }

    /** Whether the current page turns a trigger into a sub-page move. */
    predicate ConsumedByPage(trigger: Option<ButtonPos>)
      reads this, currentPage
    {
      || (trigger == Some(Left) && currentPage.HasPrevPage())
      || (trigger == Some(Right) && currentPage.HasNextPage())
    }

    /** The page action a trigger selects when the page does not consume it. */
    function TriggeredAction(trigger: Option<ButtonPos>): Option<ButtonAction>
      reads this, currentPage
    {
      if trigger.None? || ConsumedByPage(trigger) then None
      else currentPage.btnActions.GetAction(trigger.value)
    }

    /** Starts at page 0 with an empty button layout until the flow is placed. */
    constructor (pages: FlowPages)
      requires pages.Valid() && WellFormed(pages)
      ensures Valid() && this.pages == pages
      ensures pageCounter == 0 && fresh(currentPage)
      ensures currentPage.Content() == pages.getPage(0) && currentPage.currentPage == 0
      ensures title == None && !returnConfirmedIndex
      ensures buttons == EmptyLayout() && contentArea == Rect(0, 0)
    {
      var first := pages.Get(0);
      this.pages := pages;
      currentPage := first;
      title := None;
      contentArea := Rect(0, 0);
      scrollbar := ScrollBar(0, 0);
      buttons := EmptyLayout();
      pageCounter := 0;
      returnConfirmedIndex := false;
    }

    method WithCommonTitle(title: string)
      modifies this`title
      ensures this.title == Some(title)
    {
      this.title := Some(title);
    }

    method WithReturnConfirmedIndex()
      modifies this`returnConfirmedIndex
      ensures returnConfirmedIndex
    {
      returnConfirmedIndex := true;
    }

    /**
     * Rebuilds the current page from the factory, adopts its title when the
     * flow shows one, and moves the scrollbar to the page's first sub-page.
     */
    method ChangeCurrentPage()
      requires pages.Valid() && WellFormed(pages) && pageCounter < pages.pageCount
      modifies this`currentPage, this`title, this`scrollbar
      ensures Valid() && fresh(currentPage)
      ensures currentPage.Content() == pages.getPage(pageCounter) && currentPage.currentPage == 0
      ensures title == (if old(title).Some? && currentPage.title.Some? then currentPage.title else old(title))
      ensures scrollbar == old(scrollbar).(activePage := pages.SubPagesBefore(contentArea, pageCounter))
    {
      currentPage := pages.Get(pageCounter);
      if title.Some? {
        if currentPage.title.Some? {
          title := currentPage.title;
        }
      }
      var scrollbarActiveIndex := pages.ScrollbarPageIndex(contentArea, pageCounter);
      scrollbar := scrollbar.(activePage := scrollbarActiveIndex);
    }

    /** Hands the current page's button layout to the button controller. */
    method SetButtons()
      modifies this`buttons
      ensures buttons == currentPage.BtnLayout()
    {
      buttons := currentPage.BtnLayout();
    }

    /** Optionally rebuilds the current page, then places it and refreshes the buttons. */
    method Update(getNewPage: bool)
      requires pages.Valid() && WellFormed(pages) && pageCounter < pages.pageCount
      requires !getNewPage ==> Valid()
      modifies this, currentPage
      ensures Valid()
      ensures pageCounter == old(pageCounter) && contentArea == old(contentArea)
      ensures returnConfirmedIndex == old(returnConfirmedIndex)
      ensures getNewPage ==> fresh(currentPage) && currentPage.currentPage == 0
      ensures getNewPage ==> title == (if old(title).Some? && currentPage.title.Some? then currentPage.title else old(title))
      ensures getNewPage ==> scrollbar == old(scrollbar).(activePage := pages.SubPagesBefore(contentArea, pageCounter))
      ensures !getNewPage ==> currentPage == old(currentPage) && currentPage.currentPage == old(currentPage.currentPage)
      ensures !getNewPage ==> title == old(title) && scrollbar == old(scrollbar)
      ensures currentPage.bounds == contentArea
      ensures currentPage.pageCount == SubPageCount(currentPage.engine, currentPage.ops, contentArea)
      ensures buttons == currentPage.BtnLayout()
    {
      if getNewPage {
        ChangeCurrentPage();
      }
      var _ := currentPage.Place(contentArea);
      SetButtons();
    }

    method GoToPrevPage()
      requires Valid() && 0 < pageCounter
      modifies this, currentPage
      ensures Valid() && pageCounter == old(pageCounter) - 1
      ensures fresh(currentPage) && ShowsPageStart()
      ensures contentArea == old(contentArea) && returnConfirmedIndex == old(returnConfirmedIndex)
      ensures title == (if old(title).Some? && currentPage.title.Some? then currentPage.title else old(title))
      ensures scrollbar == old(scrollbar).(activePage := pages.SubPagesBefore(contentArea, pageCounter))
    {
      pageCounter := pageCounter - 1;
      Update(true);
    }

    method GoToNextPage()
      requires Valid() && pageCounter + 1 < pages.pageCount
      modifies this, currentPage
      ensures Valid() && pageCounter == old(pageCounter) + 1
      ensures fresh(currentPage) && ShowsPageStart()
      ensures contentArea == old(contentArea) && returnConfirmedIndex == old(returnConfirmedIndex)
      ensures title == (if old(title).Some? && currentPage.title.Some? then currentPage.title else old(title))
      ensures scrollbar == old(scrollbar).(activePage := pages.SubPagesBefore(contentArea, pageCounter))
    {
      pageCounter := pageCounter + 1;
      Update(true);
    }

    method GoToFirstPage()
      requires Valid()
      modifies this, currentPage
      ensures Valid() && pageCounter == 0
      ensures fresh(currentPage) && ShowsPageStart() && scrollbar.activePage == 0
      ensures contentArea == old(contentArea) && returnConfirmedIndex == old(returnConfirmedIndex)
      ensures title == (if old(title).Some? && currentPage.title.Some? then currentPage.title else old(title))
      ensures scrollbar == old(scrollbar).(activePage := pages.SubPagesBefore(contentArea, pageCounter))
    {
      pageCounter := 0;
      Update(true);
    }

    method GoToLastPage()
      requires Valid()
      modifies this, currentPage
      ensures Valid() && pageCounter == pages.pageCount - 1
      ensures fresh(currentPage) && ShowsPageStart()
      ensures contentArea == old(contentArea) && returnConfirmedIndex == old(returnConfirmedIndex)
      ensures title == (if old(title).Some? && currentPage.title.Some? then currentPage.title else old(title))
      ensures scrollbar == old(scrollbar).(activePage := pages.SubPagesBefore(contentArea, pageCounter))
    {
      pageCounter := pages.pageCount - 1;
      Update(true);
    }

    /**
     * After a sub-page move: moves the scrollbar to the page counter plus
     * the sub-page, then re-places the same page and refreshes the buttons.
     */
    method UpdateAfterCurrentChoiceInnerChange()
      requires Valid()
      modifies this, currentPage
      ensures Valid() && pageCounter == old(pageCounter) && title == old(title)
      ensures returnConfirmedIndex == old(returnConfirmedIndex)
      ensures currentPage == old(currentPage) && currentPage.currentPage == old(currentPage.currentPage)
      ensures scrollbar == old(scrollbar).(activePage := InnerScrollbarAsWritten(pageCounter, currentPage.currentPage))
      ensures contentArea == old(contentArea) && currentPage.bounds == contentArea
      ensures currentPage.pageCount == SubPageCount(currentPage.engine, currentPage.ops, contentArea)
      ensures buttons == currentPage.BtnLayout()
    {
      var innerPage := currentPage.GetCurrentPage();
      scrollbar := scrollbar.(activePage := pageCounter + innerPage);
      Update(false);
    }

    /**
     * Gives the current page the first chance at a Left or Right trigger:
     * it moves to its previous or next sub-page when it has one.
     */
    method EventConsumedByCurrentChoice(pos: ButtonPos) returns (consumed: bool)
      requires Valid()
      modifies this, currentPage
      ensures Valid() && consumed == old(ConsumedByPage(Some(pos)))
      ensures returnConfirmedIndex == old(returnConfirmedIndex)
      ensures consumed ==> pageCounter == old(pageCounter) && currentPage == old(currentPage) && title == old(title)
      ensures consumed ==>
        currentPage.currentPage == (if pos == Left then old(currentPage.currentPage) - 1 else old(currentPage.currentPage) + 1)
      ensures consumed ==> scrollbar == old(scrollbar).(activePage := InnerScrollbarAsWritten(pageCounter, currentPage.currentPage))
      ensures contentArea == old(contentArea)
      ensures consumed ==> currentPage.bounds == contentArea
      ensures consumed ==> buttons == currentPage.BtnLayout()
      ensures !consumed ==> unchanged(this) && unchanged(currentPage)
    {
      if pos == Left && currentPage.HasPrevPage() {
        currentPage.GoToPrevPage();
        UpdateAfterCurrentChoiceInnerChange();
        consumed := true;
      } else if pos == Right && currentPage.HasNextPage() {
        currentPage.GoToNextPage();
        UpdateAfterCurrentChoiceInnerChange();
        consumed := true;
      } else {
        consumed := false;
      }
    }

    /**
     * Places the flow. The split of `bounds` into title, content and button
     * areas is pixel geometry; its content area is given as `contentArea`.
     * The scrollbar is sized to the sub-pages of the whole flow and the
     * current page is placed, which fixes its button layout.
     */
    method Place(bounds: Rect, contentArea: Rect) returns (r: Rect)
      requires Valid()
      modifies this, currentPage
      ensures Valid() && r == bounds && this.contentArea == contentArea
      ensures returnConfirmedIndex == old(returnConfirmedIndex)
      ensures scrollbar == ScrollBar(pages.SubPagesBefore(contentArea, pages.pageCount), 0)
      ensures pageCounter == old(pageCounter) && title == old(title)
      ensures currentPage == old(currentPage) && currentPage.currentPage == old(currentPage.currentPage)
      ensures currentPage.bounds == contentArea
      ensures currentPage.pageCount == SubPageCount(currentPage.engine, currentPage.ops, contentArea)
      ensures buttons == currentPage.BtnLayout()
    {
      this.contentArea := contentArea;
      var completePageCount := pages.ScrollbarPageCount(contentArea);
      scrollbar := ScrollBar(completePageCount, 0);
      var _ := currentPage.Place(contentArea);
      buttons := currentPage.BtnLayout();
      r := bounds;
    }

    /**
     * Handles one event. A trigger the current page consumes moves its
     * sub-page; otherwise the triggered position's action either changes
     * the logical page, or returns a message, or does nothing.
     */
    method Event(trigger: Option<ButtonPos>) returns (msg: Option<FlowMsg>)
      requires Valid()
      modifies this, currentPage
      ensures Valid() && returnConfirmedIndex == old(returnConfirmedIndex)
      // A sub-page move within the current page.
      ensures old(ConsumedByPage(trigger)) ==>
        && msg == None && pageCounter == old(pageCounter) && currentPage == old(currentPage)
        && currentPage.currentPage ==
             (if trigger == Some(Left) then old(currentPage.currentPage) - 1 else old(currentPage.currentPage) + 1)
        && title == old(title) && contentArea == old(contentArea)
        && scrollbar == old(scrollbar).(activePage := InnerScrollbarAsWritten(pageCounter, currentPage.currentPage))
        && currentPage.bounds == contentArea
        && buttons == currentPage.BtnLayout()
      // A move to another logical page.
      ensures var a := old(TriggeredAction(trigger));
        a.Some? && PageTarget(a.value, old(pageCounter), pages.pageCount).Some? ==>
          && msg == None
          && pageCounter == PageTarget(a.value, old(pageCounter), pages.pageCount).value
          && fresh(currentPage) && currentPage.Content() == pages.getPage(pageCounter)
          && ShowsPageStart()
          && contentArea == old(contentArea)
          && title == (if old(title).Some? && currentPage.title.Some? then currentPage.title else old(title))
          && scrollbar == old(scrollbar).(activePage := pages.SubPagesBefore(contentArea, pageCounter))
      // An action that ends the flow, or none at all.
      ensures var a := old(TriggeredAction(trigger));
        !old(ConsumedByPage(trigger)) && (a.None? || PageTarget(a.value, old(pageCounter), pages.pageCount).None?) ==>
          && msg == (if a.Some? then FlowMessage(a.value, pageCounter, returnConfirmedIndex) else None)
          && unchanged(this) && unchanged(currentPage)
    {
      if trigger.None? {
        return None;
      }
      var pos := trigger.value;
      var consumed := EventConsumedByCurrentChoice(pos);
      if consumed {
        return None;
      }
      var action := currentPage.btnActions.GetAction(pos);
      msg := None;
      if action.Some? {
        match action.value {
          case PrevPage =>
            GoToPrevPage();
          case NextPage =>
            GoToNextPage();
          case FirstPage =>
            GoToFirstPage();
          case LastPage =>
            GoToLastPage();
          case Cancel =>
            msg := Some(Cancelled);
          case Confirm =>
            if returnConfirmedIndex {
              msg := Some(ConfirmedIndex(pageCounter));
            } else {
              msg := Some(Confirmed);
            }
          case Info =>
            msg := Some(FlowMsg.Info);
          case Select =>
          case Action(_) =>
        }
      }
    }
  }
}

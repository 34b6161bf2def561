/**
 * Intra-page pagination (`Page`) and the lazy page factory (`FlowPages`)
 * of the model-R flow.
 *
 * A page never stores its sub-page break points: it restarts the layout
 * engine from character offset 0 and advances by each `OutOfBounds`
 * answer until the engine answers `Fitting`. `Restarts` is that chain of
 * start offsets; the loops of `Page.CountPages` and `Page.ChangePage` are
 * proved against it.
 */
module Pages {
  import opened Wrappers
  import opened Buttons
  import opened TextLayout

  // ---------------------------------------------------------------------
  // The restart chain
  // ---------------------------------------------------------------------

  /**
   * The offsets at which the layout engine is started, beginning at
   * `offset` and advancing by each `OutOfBounds` answer, up to and
   * including the first offset whose answer is `Fitting`.
   */
  function Restarts(engine: Engine, ops: seq<Op>, bounds: Rect, offset: nat): (offs: seq<nat>)
    requires Paginates(engine)
    ensures 1 <= |offs| && offs[0] == offset
    ensures forall k :: 0 <= k < |offs| ==> offset <= offs[k]
    ensures offset <= TotalChars(ops) ==> |offs| <= TotalChars(ops) - offset + 1
    decreases TotalChars(ops) - offset
  {
    match engine(ops, bounds, offset)
    case Fitting => [offset]
    case OutOfBounds(n) => [offset] + Restarts(engine, ops, bounds, offset + n)
  }

  /** Number of sub-pages of a page's operations within `bounds`. */
  function SubPageCount(engine: Engine, ops: seq<Op>, bounds: Rect): nat
    requires Paginates(engine)
  {
    |Restarts(engine, ops, bounds, 0)|
  }

  /**
   * Every offset of the chain but the last overflows and the next offset is
   * advanced by exactly the characters it processed; the last one fits. So
   * the chain is strictly increasing and its length is one plus the number
   * of `OutOfBounds` answers.
   */
  lemma {:induction false} RestartChain(engine: Engine, ops: seq<Op>, bounds: Rect, offset: nat)
    requires Paginates(engine)
    ensures var offs := Restarts(engine, ops, bounds, offset);
      && engine(ops, bounds, offs[|offs| - 1]).Fitting?
      && forall k :: 0 <= k < |offs| - 1 ==>
           && engine(ops, bounds, offs[k]).OutOfBounds?
           && offs[k + 1] == offs[k] + engine(ops, bounds, offs[k]).processedChars
           && offs[k] < offs[k + 1]
    decreases TotalChars(ops) - offset
  {
    var offs := Restarts(engine, ops, bounds, offset);
    match engine(ops, bounds, offset)
    case Fitting =>
    case OutOfBounds(n) =>
      var rest := Restarts(engine, ops, bounds, offset + n);
      RestartChain(engine, ops, bounds, offset + n);
      assert offs == [offset] + rest;
      forall k | 0 <= k < |offs| - 1
        ensures engine(ops, bounds, offs[k]).OutOfBounds?
        ensures offs[k + 1] == offs[k] + engine(ops, bounds, offs[k]).processedChars
      {
        if k > 0 {
          assert offs[k] == rest[k - 1] && offs[k + 1] == rest[k];
        }
      }
  }

  /** A page always has at least one sub-page and at most one per character plus one. */
  lemma SubPageCountBounds(engine: Engine, ops: seq<Op>, bounds: Rect)
    requires Paginates(engine)
    ensures 1 <= SubPageCount(engine, ops, bounds) <= TotalChars(ops) + 1
  {
    var offs := Restarts(engine, ops, bounds, 0);
  }

  /**
   * The offset `ChangePage(toPage)` leaves in `charOffset`: the chain is
   * followed for at most `toPage` steps, stopping early at `Fitting`.
   */
  function OffsetAfter(engine: Engine, ops: seq<Op>, bounds: Rect, offset: nat, toPage: nat): nat
    decreases toPage
  {
    if toPage == 0 then offset
    else
      match engine(ops, bounds, offset)
      case Fitting => offset
      case OutOfBounds(n) => OffsetAfter(engine, ops, bounds, offset + n, toPage - 1)
  }

  /**
   * Changing to sub-page `k` starts the layout at the `k`-th offset of the
   * restart chain, or at its last offset when `k` is past the last sub-page.
   */
  lemma {:induction false} OffsetAfterFollowsChain(engine: Engine, ops: seq<Op>, bounds: Rect, offset: nat, k: nat)
    requires Paginates(engine)
    ensures var offs := Restarts(engine, ops, bounds, offset);
      OffsetAfter(engine, ops, bounds, offset, k) == offs[if k < |offs| then k else |offs| - 1]
    decreases k
  {
    if k > 0 {
      match engine(ops, bounds, offset)
      case Fitting =>
      case OutOfBounds(n) =>
        OffsetAfterFollowsChain(engine, ops, bounds, offset + n, k - 1);
    }
  }

  /**
   * Pagination completeness: for every sub-page `k` of a page, the layout
   * started at the offset `ChangePage(k)` selects fits exactly when `k` is
   * the last sub-page.
   */
  lemma PaginationComplete(engine: Engine, ops: seq<Op>, bounds: Rect, k: nat)
    requires Paginates(engine)
    requires k < SubPageCount(engine, ops, bounds)
    ensures engine(ops, bounds, OffsetAfter(engine, ops, bounds, 0, k)).Fitting?
        <==> k == SubPageCount(engine, ops, bounds) - 1
  {
    OffsetAfterFollowsChain(engine, ops, bounds, 0, k);
    RestartChain(engine, ops, bounds, 0);
  }

  // ---------------------------------------------------------------------
  // Page
  // ---------------------------------------------------------------------

  /**
   * What a page factory builds for one logical page: its operations, its
   * stored button layout and actions, its initial font and its title.
   */
  datatype PageContent = PageContent(
    ops: seq<Op>,
    btnLayout: ButtonLayout,
    btnActions: ButtonActions,
    font: Font,
    title: Option<string>)

  /** One logical screen of a flow, possibly spanning several sub-pages. */
  class Page {
    var ops: seq<Op>
    /** Capacity of the operation buffer. */
    const capacity: nat
    /** The layout engine of the page's text layout. */
    const engine: Engine
    var font: Font
    var bounds: Rect
    var btnLayout: ButtonLayout
    var btnActions: ButtonActions
    var currentPage: nat
    var pageCount: nat
    var charOffset: nat
    var title: Option<string>

    ghost predicate Valid()
      reads this
    {
      Paginates(engine) && 1 <= pageCount
    }

    ghost function Content(): PageContent
      reads this
    {
      PageContent(ops, btnLayout, btnActions, font, title)
    }

    /** `Page::new`: no operations, first of one sub-page, offset 0, no title. */
    constructor (btnLayout: ButtonLayout, btnActions: ButtonActions, initialTextFont: Font, capacity: nat, engine: Engine)
      requires Paginates(engine)
      ensures Valid()
      ensures this.btnLayout == btnLayout && this.btnActions == btnActions && font == initialTextFont
      ensures this.capacity == capacity && this.engine == engine
      ensures ops == [] && title == None
      ensures currentPage == 0 && pageCount == 1 && charOffset == 0
    {
      ops := [];
      this.capacity := capacity;
      this.engine := engine;
      font := initialTextFont;
      bounds := Rect(0, 0);
      this.btnLayout := btnLayout;
      this.btnActions := btnActions;
      currentPage := 0;
      pageCount := 1;
      charOffset := 0;
      title := None;
    }

    /** A page as the factory closure builds it, before it is placed. */
    constructor Build(content: PageContent, capacity: nat, engine: Engine)
      requires Paginates(engine)
      ensures Valid() && Content() == content
      ensures this.capacity == capacity && this.engine == engine
      ensures currentPage == 0 && pageCount == 1 && charOffset == 0
    {
      ops := content.ops;
      this.capacity := capacity;
      this.engine := engine;
      font := content.font;
      bounds := Rect(0, 0);
      btnLayout := content.btnLayout;
      btnActions := content.btnActions;
      currentPage := 0;
      pageCount := 1;
      charOffset := 0;
      title := content.title;
    }

    method WithTitle(title: string)
      modifies this`title
      ensures this.title == Some(title)
    {
      this.title := Some(title);
    }

    /** Appends an operation; when the buffer is full the operation is dropped. */
    method WithNewItem(item: Op)
      modifies this`ops
      ensures |old(ops)| < capacity ==> ops == old(ops) + [item]
      ensures |old(ops)| >= capacity ==> ops == old(ops)
    {
      if |ops| < capacity {
        ops := ops + [item];
      }
    }

    method SetCharOffset(charOffset: nat)
      modifies this`charOffset
      ensures this.charOffset == charOffset
    {
      this.charOffset := charOffset;
    }

    function LayoutContent(): LayoutFit
      reads this
    {
      engine(ops, bounds, charOffset)
    }

    /**
     * Counts the sub-pages by restarting the layout engine from offset 0
     * until it fits, then resets the offset to 0.
     */
    method CountPages() returns (count: nat)
      requires Valid()
      modifies this`charOffset
      ensures count == SubPageCount(engine, ops, bounds)
      ensures charOffset == 0
    {
      count := 1;
      var offset: nat := 0;
      SetCharOffset(offset);
      while true
        invariant charOffset == offset
        invariant count - 1 + |Restarts(engine, ops, bounds, offset)| == SubPageCount(engine, ops, bounds)
        decreases TotalChars(ops) - offset
      {
        var fit := LayoutContent();
        match fit
        case Fitting =>
          break;
        case OutOfBounds(processedChars) =>
          count := count + 1;
          offset := offset + processedChars;
          SetCharOffset(offset);
      }
      SetCharOffset(0);
    }

    /**
     * Moves `charOffset` to the start of sub-page `toPage`, stopping early
     * when the engine already fits.
     */
    method ChangePage(toPage: nat)
      modifies this`charOffset
      ensures charOffset == OffsetAfter(engine, ops, bounds, 0, toPage)
    {
      var activePage := 0;
      var offset: nat := 0;
      SetCharOffset(offset);
      while activePage < toPage
        invariant activePage <= toPage && charOffset == offset
        invariant OffsetAfter(engine, ops, bounds, offset, toPage - activePage)
               == OffsetAfter(engine, ops, bounds, 0, toPage)
      {
        var fit := LayoutContent();
        match fit
        case Fitting =>
          break;
        case OutOfBounds(processedChars) =>
          activePage := activePage + 1;
          offset := offset + processedChars;
          SetCharOffset(offset);
      }
    }

    /** Stores the bounds and recounts the sub-pages; the sub-page index stays. */
    method Place(bounds: Rect) returns (r: Rect)
      requires Valid()
      modifies this`bounds, this`pageCount, this`charOffset
      ensures Valid() && r == bounds && this.bounds == bounds
      ensures pageCount == SubPageCount(engine, ops, bounds)
      ensures charOffset == 0 && currentPage == old(currentPage)
    {
      this.bounds := bounds;
      SubPageCountBounds(engine, ops, bounds);
      pageCount := CountPages();
      r := bounds;
    }

    predicate HasPrevPage()
      reads this
    {
      currentPage > 0
    }

    predicate HasNextPage()
      reads this
    {
      currentPage < pageCount - 1
    }

    /**
     * The button layout shown for the current sub-page: arrows for paging
     * within the page take over the side buttons, and the middle button is
     * hidden until the last sub-page.
     */
    function BtnLayout(): (layout: ButtonLayout)
      reads this
      ensures HasNextPage() ==> layout.btnMiddle == None && layout.btnRight == Some(DownArrowIconWide)
      ensures !HasNextPage() ==> layout.btnMiddle == btnLayout.btnMiddle && layout.btnRight == btnLayout.btnRight
      ensures HasPrevPage() && !HasNextPage() ==> layout.btnLeft == Some(UpArrowIcon)
      ensures HasPrevPage() && HasNextPage() ==> layout.btnLeft == Some(UpArrowIconWide)
      ensures !HasPrevPage() ==> layout.btnLeft == btnLayout.btnLeft
    {
      var btnLeft :=
        if HasPrevPage() && !HasNextPage() then Some(UpArrowIcon)
        else if HasPrevPage() then Some(UpArrowIconWide)
        else btnLayout.btnLeft;
      var btnMiddle := if HasNextPage() then None else btnLayout.btnMiddle;
      var btnRight := if HasNextPage() then Some(DownArrowIconWide) else btnLayout.btnRight;
      ButtonLayout(btnLeft, btnMiddle, btnRight)
    }

    method GoToPrevPage()
      requires currentPage > 0
      modifies this`currentPage
      ensures currentPage == old(currentPage) - 1
    {
      currentPage := currentPage - 1;
    }

    method GoToNextPage()
      modifies this`currentPage
      ensures currentPage == old(currentPage) + 1
    {
      currentPage := currentPage + 1;
    }

    function GetCurrentPage(): nat
      reads this
    {
      currentPage
    }
  }

  /** A page of a single sub-page shows its stored button layout unchanged. */
  lemma SingleSubPageKeepsLayout(page: Page)
    requires page.pageCount == 1 && page.currentPage == 0
    ensures page.BtnLayout() == page.btnLayout
  {
  }

  // ---------------------------------------------------------------------
  // FlowPages
  // ---------------------------------------------------------------------

  /**
   * The whole flow as a lazy factory: `getPage` builds the page of any
   * index on demand, `pageCount` pages in all; nothing else is stored.
   */
  datatype FlowPages = FlowPages(getPage: nat -> PageContent, pageCount: nat, capacity: nat, engine: Engine)
  {
    ghost predicate Valid()
    {
      Paginates(engine)
    }

    /** Builds a fresh, unplaced page for `pageIndex`. */
    method Get(pageIndex: nat) returns (page: Page)
      requires Valid()
      ensures fresh(page) && page.Valid()
      ensures page.Content() == getPage(pageIndex) && page.engine == engine && page.capacity == capacity
      ensures page.currentPage == 0 && page.pageCount == 1 && page.charOffset == 0
    {
      page := new Page.Build(getPage(pageIndex), capacity, engine);
    }

    function Count(): nat
    {
      pageCount
    }

    /** Sub-pages of page `pageIndex` when placed within `bounds`. */
    function SubPagesOf(bounds: Rect, pageIndex: nat): nat
      requires Valid()
    {
      SubPageCount(engine, getPage(pageIndex).ops, bounds)
    }

    /**
     * Sum of the sub-page counts of the pages before `pageIndex`: the
     * absolute scrollbar position of that page's first sub-page.
     */
    function SubPagesBefore(bounds: Rect, pageIndex: nat): (n: nat)
      requires Valid()
      ensures pageIndex <= n
    {
      if pageIndex == 0 then 0
      else
        SubPageCountBounds(engine, getPage(pageIndex - 1).ops, bounds);
        SubPagesBefore(bounds, pageIndex - 1) + SubPagesOf(bounds, pageIndex - 1)
    }

    /** Builds and places every page before `pageIndex`, summing their sub-pages. */
    method ScrollbarPageIndex(bounds: Rect, pageIndex: nat) returns (count: nat)
      requires Valid()
      ensures count == SubPagesBefore(bounds, pageIndex)
    {
      count := 0;
      for i := 0 to pageIndex
        invariant count == SubPagesBefore(bounds, i)
      {
        var currentPage := Get(i);
        var _ := currentPage.Place(bounds);
        count := count + currentPage.pageCount;
      }
    }

    /** Total number of sub-pages of the whole flow. */
    method ScrollbarPageCount(bounds: Rect) returns (count: nat)
      requires Valid()
      ensures count == SubPagesBefore(bounds, pageCount)
    {
      count := ScrollbarPageIndex(bounds, pageCount);
    }
  }

  /**
   * The absolute position grows at least as fast as the page index: from
   * page `i` to page `j` it grows by the sub-pages of the pages in between.
   */
  lemma {:induction false} SubPagesBeforeSplit(pages: FlowPages, bounds: Rect, i: nat, j: nat)
    requires pages.Valid() && i <= j
    ensures pages.SubPagesBefore(bounds, i) + (j - i) <= pages.SubPagesBefore(bounds, j)
    decreases j - i
  {
    if i < j {
      SubPagesBeforeSplit(pages, bounds, i, j - 1);
      SubPageCountBounds(pages.engine, pages.getPage(j - 1).ops, bounds);
    }
  }

  /**
   * The absolute position of page `i` equals `i` exactly when every page
   * before it has a single sub-page.
   */
  lemma {:induction false} SubPagesBeforeIsIndexIff(pages: FlowPages, bounds: Rect, i: nat)
    requires pages.Valid()
    ensures pages.SubPagesBefore(bounds, i) == i
        <==> forall j :: 0 <= j < i ==> pages.SubPagesOf(bounds, j) == 1
  {
    if i > 0 {
      SubPagesBeforeIsIndexIff(pages, bounds, i - 1);
      SubPageCountBounds(pages.engine, pages.getPage(i - 1).ops, bounds);
      if pages.SubPagesBefore(bounds, i) == i {
        forall j | 0 <= j < i ensures pages.SubPagesOf(bounds, j) == 1 {
          if j < i - 1 {
            SubPageCountBounds(pages.engine, pages.getPage(j).ops, bounds);
          }
        }
      }
    }
  }
}

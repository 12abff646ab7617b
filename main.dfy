/** The plugin itself (src/main.rs): the state held between host calls, the
    event adapter `update`, and `render`, which composes the status line from
    the segment views and routes a pending mouse click to the tab it struck.

    Host calls are not modelled as effects: the tab switch `update` or
    `render` asks the host for is returned as a value, and the segment
    providers, whose code is not part of this model, hand their views to
    `Render` as an argument. */
module Plugin {
  import opened Wrappers
  import opened View

  /** Host data the plugin only stores and compares for equality. */
  type ModeInfo(==)
  type DateTime(==)
  type TabDetails(==)

  /** A tab descriptor from the host's tab-list snapshot. */
  datatype Tab = Tab(details: TabDetails, active: bool)

  /** The events `update` distinguishes. `Other` stands for every event it
      ignores: a permission result, a mouse event other than a left click or
      a scroll, and any event the plugin did not subscribe to. */
  datatype Event =
    | ModeUpdate(modeInfo: ModeInfo)
    | TabUpdate(tabs: seq<Tab>)
    | LeftClick(col: nat)
    | ScrollUp
    | ScrollDown
    | Timer(now: DateTime)
    | Other

  /** The fields of `State`, as a value. */
  datatype Snapshot = Snapshot(
    tabs: seq<Tab>,
    activeTabIdx: nat,
    modeInfo: ModeInfo,
    mouseClickPos: nat,
    shouldChangeTab: bool,
    now: DateTime)

  /** What handling one event yields: the new fields, whether a render is
      needed, and the tab (1-based) the host is asked to switch to, if any. */
  datatype Outcome = Outcome(next: Snapshot, shouldRender: bool, switchTo: Option<nat>)

  /** The derived `Default` of `State`; the defaults of the host's own types
      are parameters. */
  function Initial(modeInfo: ModeInfo, now: DateTime): (s: Snapshot)
    ensures s.tabs == [] && s.activeTabIdx == 0 && s.mouseClickPos == 0 && !s.shouldChangeTab
  {
    Snapshot([], 0, modeInfo, 0, false, now)
  }

  /** `tabs.iter().position(|t| t.active)`. */
  function FirstActive(tabs: seq<Tab>): (r: Option<nat>)
    ensures r.Some? ==> r.value < |tabs| && tabs[r.value].active
    ensures r.Some? ==> forall j :: 0 <= j < r.value ==> !tabs[j].active
    ensures r.None? <==> forall j :: 0 <= j < |tabs| ==> !tabs[j].active
  {
    if tabs == [] then None
    else if tabs[0].active then Some(0)
    else match FirstActive(tabs[1..])
      case None => None
      case Some(k) => Some(k + 1)
  }

  /** `min(active + 1, count)`: one tab to the right, but not past the last. */
  function ScrollUpTarget(active: nat, count: nat): (r: nat)
    ensures r <= count && r <= active + 1
    ensures active + 1 <= count ==> r == active + 1
    ensures active + 1 >= count ==> r == count
  {
    if active + 1 <= count then active + 1 else count
  }

  /** `usize::saturating_sub`: the least natural `r` with `a <= r + b`. */
  function SaturatingSub(a: nat, b: nat): (r: nat)
    ensures r <= a && a <= r + b
    ensures a >= b ==> r + b == a
    ensures a < b ==> r == 0
  {
    if a >= b then a - b else 0
  }

  /** `max(active.saturating_sub(1), 1)`: one tab to the left, but not before
      the first. */
  function ScrollDownTarget(active: nat): (r: nat)
    ensures r >= 1
    ensures active >= 2 ==> r == active - 1
    ensures active <= 2 ==> r == 1
  {
    var down := SaturatingSub(active, 1);
    if down >= 1 then down else 1
  }

  /** The specification of `update`: the new fields, the render flag and the
      requested tab switch for one event. */
  function Step(s: Snapshot, e: Event): (o: Outcome)
    ensures !o.shouldRender ==> o.next == s && o.switchTo.None?
    ensures o.switchTo.Some? <==> e.ScrollUp? || e.ScrollDown?
    ensures o.next.tabs != s.tabs || o.next.activeTabIdx != s.activeTabIdx ==> e.TabUpdate?
    ensures o.next.mouseClickPos != s.mouseClickPos || o.next.shouldChangeTab != s.shouldChangeTab ==> e.LeftClick?
    ensures o.next.shouldChangeTab ==> s.shouldChangeTab || e.LeftClick?
  {
    match e
    case ModeUpdate(m) =>
      Outcome(s.(modeInfo := m), s.modeInfo != m, None)
    case TabUpdate(ts) =>
      (match FirstActive(ts)
       case Some(pos) =>
         var idx := pos + 1;
         Outcome(s.(activeTabIdx := idx, tabs := ts), s.activeTabIdx != idx || s.tabs != ts, None)
       case None =>
         Outcome(s, false, None))
    case LeftClick(col) =>
      var moved := s.mouseClickPos != col;
      Outcome(s.(mouseClickPos := col, shouldChangeTab := s.shouldChangeTab || moved), moved, None)
    case ScrollUp =>
      Outcome(s, true, Some(ScrollUpTarget(s.activeTabIdx, |s.tabs|)))
    case ScrollDown =>
      Outcome(s, true, Some(ScrollDownTarget(s.activeTabIdx)))
    case Timer(t) =>
      Outcome(s.(now := t), s.now != t, None)
    case Other =>
      Outcome(s, false, None)
  }

  /** The relation between the tab list and the active index that every
      reachable state keeps: before the first tab list arrives both are
      empty/zero; after it, the index is 1 + the position of the first active
      tab. */
  ghost predicate Consistent(s: Snapshot)
  {
    ActiveIndexOf(s.tabs, s.activeTabIdx)
  }

  ghost predicate ActiveIndexOf(tabs: seq<Tab>, activeTabIdx: nat)
  {
    if tabs == [] then activeTabIdx == 0
    else activeTabIdx >= 1 && FirstActive(tabs) == Some(activeTabIdx - 1)
  }

  lemma InitialConsistent(modeInfo: ModeInfo, now: DateTime)
    ensures Consistent(Initial(modeInfo, now))
  {
  }

  lemma StepPreservesConsistent(s: Snapshot, e: Event)
    requires Consistent(s)
    ensures Consistent(Step(s, e).next)
  {
  }

  lemma ModeUpdateRule(s: Snapshot, m: ModeInfo)
    ensures Step(s, ModeUpdate(m)).next == s.(modeInfo := m)
    ensures Step(s, ModeUpdate(m)).shouldRender <==> s.modeInfo != m
    ensures Step(s, ModeUpdate(m)).switchTo.None?
  {
  }

  /** An identical mode update delivered twice asks for no second render. */
  lemma ModeUpdateTwice(s: Snapshot, m: ModeInfo)
    ensures !Step(Step(s, ModeUpdate(m)).next, ModeUpdate(m)).shouldRender
  {
  }

  lemma TabUpdateWithActiveTab(s: Snapshot, ts: seq<Tab>)
    requires exists i :: 0 <= i < |ts| && ts[i].active
    ensures var o := Step(s, TabUpdate(ts));
      && o.next.activeTabIdx >= 1
      && o.next.activeTabIdx <= |ts|
      && ts[o.next.activeTabIdx - 1].active
      && (forall j :: 0 <= j < o.next.activeTabIdx - 1 ==> !ts[j].active)
      && o.next == s.(activeTabIdx := o.next.activeTabIdx, tabs := ts)
      && (o.shouldRender <==> s.activeTabIdx != o.next.activeTabIdx || s.tabs != ts)
      && o.switchTo.None?
  {
  }

  /** A tab list without an active tab is dropped. */
  lemma TabUpdateWithoutActiveTab(s: Snapshot, ts: seq<Tab>)
    requires forall i :: 0 <= i < |ts| ==> !ts[i].active
    ensures Step(s, TabUpdate(ts)) == Outcome(s, false, None)
  {
  }

  lemma LeftClickRule(s: Snapshot, col: nat)
    ensures var o := Step(s, LeftClick(col));
      && o.next.mouseClickPos == col
      && (o.shouldRender <==> s.mouseClickPos != col)
      && o.next.shouldChangeTab == (s.shouldChangeTab || s.mouseClickPos != col)
      && o.next == s.(mouseClickPos := col, shouldChangeTab := o.next.shouldChangeTab)
      && o.switchTo.None?
  {
  }

  /** A second click at the same column changes nothing and asks for nothing. */
  lemma ClickDebounce(s: Snapshot, col: nat)
    ensures var first := Step(s, LeftClick(col)).next;
      Step(first, LeftClick(col)) == Outcome(first, false, None)
  {
  }

  lemma ScrollRule(s: Snapshot)
    ensures Step(s, ScrollUp) == Outcome(s, true, Some(ScrollUpTarget(s.activeTabIdx, |s.tabs|)))
    ensures Step(s, ScrollDown) == Outcome(s, true, Some(ScrollDownTarget(s.activeTabIdx)))
  {
  }

  /** In a reachable state with tabs, both scroll directions ask for a tab
      that exists. */
  lemma ScrollTargetsExist(s: Snapshot)
    requires Consistent(s) && s.tabs != []
    ensures var up := Step(s, ScrollUp).switchTo;
      up.Some? && 1 <= up.value <= |s.tabs|
    ensures var down := Step(s, ScrollDown).switchTo;
      down.Some? && 1 <= down.value <= |s.tabs|
    ensures Step(s, ScrollDown).switchTo.value <= s.activeTabIdx <= Step(s, ScrollUp).switchTo.value
  {
  }

  lemma TimerRule(s: Snapshot, t: DateTime)
    ensures Step(s, Timer(t)) == Outcome(s.(now := t), s.now != t, None)
  {
  }

  lemma OtherIgnored(s: Snapshot)
    ensures Step(s, Other) == Outcome(s, false, None)
  {
  }

  // ---------------------------------------------------------------------------
  // Line composition

  /** The views `render` obtains from the segment providers. */
  datatype Segments = Segments(mode: View, layout: View, tabs: View, session: View, datetime: View)

  predicate SegmentsWellFormed(segs: Segments)
  {
    && WellFormed(segs.mode)
    && WellFormed(segs.layout)
    && WellFormed(segs.tabs)
    && WellFormed(segs.session)
    && WellFormed(segs.datetime)
  }

  const FallbackMessage: string := "WHOA, YOU LIKE TABS DON'T YOU. IT'S TIME TO HANDLE IT."

  /** Every character of the message is printable ASCII, one column wide, so
      its display width is its length. */
  const FallbackWidth: nat := |FallbackMessage|

  function Fallback(): (b: Block)
    ensures b.body == FallbackMessage && b.len == FallbackWidth && b.tabIndex.None?
  {
    ErrorBlock(FallbackMessage, FallbackWidth)
  }

  /** The one-column gap after the layout segment. */
  function Pad(): (b: Block)
    ensures b.len == 1 && b.tabIndex.None?
  {
    Bg(1)
  }

  /** The width of everything, the full tab list included: with well-formed
      views, the width of the line without a filler. */
  function Occupied(segs: Segments): (r: nat)
    ensures SegmentsWellFormed(segs) ==> r == SumLens(
      segs.mode.blocks + segs.layout.blocks + [Pad()] + segs.tabs.blocks + segs.session.blocks + segs.datetime.blocks)
  {
    var a := segs.mode.blocks + segs.layout.blocks;
    var b := a + [Pad()];
    var c := b + segs.tabs.blocks;
    var d := c + segs.session.blocks;
    SumLensAppend(segs.mode.blocks, segs.layout.blocks);
    SumLensAppend(a, [Pad()]);
    SumLensAppend(b, segs.tabs.blocks);
    SumLensAppend(c, segs.session.blocks);
    SumLensAppend(d, segs.datetime.blocks);
    segs.mode.len + segs.layout.len + segs.session.len + segs.tabs.len + segs.datetime.len + Pad().len
  }

  /** The branch test of `render`: with well-formed views, the line with the
      full tab list and no filler is wider than the terminal. */
  predicate Overflows(segs: Segments, cols: nat): (r: bool)
    ensures SegmentsWellFormed(segs) ==> (r <==> SumLens(
      segs.mode.blocks + segs.layout.blocks + [Pad()] + segs.tabs.blocks + segs.session.blocks + segs.datetime.blocks) > cols)
  {
    Occupied(segs) > cols
  }

  /** What stands between the pad and the spacer: the full tab list, or the
      fallback message, which is no tab, when the tabs do not fit. */
  function Middle(segs: Segments, cols: nat): (r: seq<Block>)
    ensures WellFormed(segs.tabs) ==> SumLens(r) == if Overflows(segs, cols) then FallbackWidth else segs.tabs.len
    ensures Overflows(segs, cols) ==> forall k :: 0 <= k < |r| ==> r[k].tabIndex.None?
  {
    if Overflows(segs, cols) then [Fallback()] else segs.tabs.blocks
  }

  /** The width left of the spacer: with well-formed views, the width of
      the blocks written before it. Together with the width right of it, the
      width of the line without a filler. */
  function LeftLen(segs: Segments, cols: nat): (r: nat)
    ensures SegmentsWellFormed(segs) ==> r == SumLens(segs.mode.blocks + segs.layout.blocks + [Pad()] + Middle(segs, cols))
    ensures r + RightLen(segs) == if Overflows(segs, cols) then FallbackOccupied(segs) else Occupied(segs)
  {
    var a := segs.mode.blocks + segs.layout.blocks;
    var b := a + [Pad()];
    SumLensAppend(segs.mode.blocks, segs.layout.blocks);
    SumLensAppend(a, [Pad()]);
    SumLensAppend(b, Middle(segs, cols));
    assert SumLens([Pad()]) == 1;
    segs.mode.len + segs.layout.len + Pad().len + (if Overflows(segs, cols) then Fallback().len else segs.tabs.len)
  }

  /** The width right of the spacer: with well-formed views, the width of
      the blocks written after it. */
  function RightLen(segs: Segments): (r: nat)
    ensures WellFormed(segs.session) && WellFormed(segs.datetime) ==> r == SumLens(segs.session.blocks + segs.datetime.blocks)
  {
    SumLensAppend(segs.session.blocks, segs.datetime.blocks);
    segs.session.len + segs.datetime.len
  }

  /** The blocks of the line, left to right, or `None` when the spacer's
      subtraction would underflow (possible only on the fallback path). */
  function Compose(segs: Segments, cols: nat): (r: Option<seq<Block>>)
    ensures r.None? <==> Overflows(segs, cols) && cols < FallbackOccupied(segs)
    ensures r.Some? && Overflows(segs, cols) ==> Fallback() in r.value
  {
    var left, right := LeftLen(segs, cols), RightLen(segs);
    if cols < left + right then None
    else Some(segs.mode.blocks + segs.layout.blocks + [Pad()] + Middle(segs, cols)
              + SpacerBlocks(Spacer(cols, left, right)) + segs.session.blocks + segs.datetime.blocks)
  }

  /** When everything fits, the line is the full tab list, followed by a
      filler of exactly the leftover width, or by nothing if there is none. */
  lemma NormalComposition(segs: Segments, cols: nat)
    requires Occupied(segs) <= cols
    ensures Compose(segs, cols) == Some(
      segs.mode.blocks + segs.layout.blocks + [Pad()] + segs.tabs.blocks
      + (if Occupied(segs) == cols then [] else [Bg(cols - Occupied(segs))])
      + segs.session.blocks + segs.datetime.blocks)
  {
  }

  /** The width of the line with the fallback message in place of the tabs:
      with well-formed views, the width of that line's blocks without a
      filler. */
  function FallbackOccupied(segs: Segments): (r: nat)
    ensures SegmentsWellFormed(segs) ==> r == SumLens(
      segs.mode.blocks + segs.layout.blocks + [Pad()] + [Fallback()] + segs.session.blocks + segs.datetime.blocks)
  {
    var a := segs.mode.blocks + segs.layout.blocks;
    var b := a + [Pad()];
    var c := b + [Fallback()];
    var d := c + segs.session.blocks;
    SumLensAppend(segs.mode.blocks, segs.layout.blocks);
    SumLensAppend(a, [Pad()]);
    SumLensAppend(b, [Fallback()]);
    SumLensAppend(c, segs.session.blocks);
    SumLensAppend(d, segs.datetime.blocks);
    assert SumLens([Pad()]) == 1 && SumLens([Fallback()]) == FallbackWidth;
    segs.mode.len + segs.layout.len + Pad().len + FallbackWidth + segs.session.len + segs.datetime.len
  }

  /** When the full tab list does not fit, the fallback message replaces it;
      if even that does not fit, the spacer's subtraction underflows. */
  lemma FallbackComposition(segs: Segments, cols: nat)
    requires Occupied(segs) > cols
    ensures cols < FallbackOccupied(segs) ==> Compose(segs, cols).None?
    ensures cols >= FallbackOccupied(segs) ==> Compose(segs, cols) == Some(
      segs.mode.blocks + segs.layout.blocks + [Pad()] + [Fallback()]
      + (if FallbackOccupied(segs) == cols then [] else [Bg(cols - FallbackOccupied(segs))])
      + segs.session.blocks + segs.datetime.blocks)
  {
  }

  /** A terminal too narrow even for the fallback message makes the spacer
      underflow: no mode, layout, session or clock text, a 40-column tab list
      and 30 columns. */
  lemma FallbackCanUnderflow()
    ensures var tabs := View([Block("tabs", 40, Some(0))], 40);
      var empty := View([], 0);
      var segs := Segments(empty, empty, tabs, empty, empty);
      SegmentsWellFormed(segs) && Overflows(segs, 30) && Compose(segs, 30).None?
  {
  }

  /** Whenever a line is composed, its blocks fill the terminal width exactly. */
  lemma {:induction false} ComposedWidth(segs: Segments, cols: nat)
    requires SegmentsWellFormed(segs)
    requires Compose(segs, cols).Some?
    ensures SumLens(Compose(segs, cols).value) == cols
  {
    var left, right := LeftLen(segs, cols), RightLen(segs);
    var spacer := SpacerBlocks(Spacer(cols, left, right));
    var c := segs.mode.blocks + segs.layout.blocks + [Pad()] + Middle(segs, cols);
    var d := c + spacer;
    var e := d + segs.session.blocks;
    SumLensAppend(c, spacer);
    SumLensAppend(d, segs.session.blocks);
    SumLensAppend(e, segs.datetime.blocks);
    assert SumLens(d) == cols - right;
  }

  // ---------------------------------------------------------------------------
  // Click routing

  /** The host-facing (1-based) tabs whose block covers the column `click`,
      when the blocks are laid out from column `cursor` on. */
  function HitsFrom(blocks: seq<Block>, cursor: nat, click: nat): (r: seq<nat>)
    ensures click < cursor || cursor + SumLens(blocks) <= click ==> r == []
  {
    if blocks == [] then []
    else Hit(blocks[0], cursor, click) + HitsFrom(blocks[1..], cursor + blocks[0].len, click)
  }

  /** The host-facing tab of block `b`, starting at column `cursor`, if it is a
      tab block that covers the column `click`. */
  function Hit(b: Block, cursor: nat, click: nat): (r: seq<nat>)
    ensures |r| <= 1
  {
    if b.tabIndex.Some? && cursor <= click < cursor + b.len then [b.tabIndex.value + 1] else []
  }

  /** The column where block `k` starts. */
  ghost function Start(blocks: seq<Block>, k: nat): nat
    requires k <= |blocks|
  {
    SumLens(blocks[..k])
  }

  /** Block `k` is a tab and, laid out from `cursor`, spans the column `click`. */
  ghost predicate StrikesAt(blocks: seq<Block>, cursor: nat, click: nat, k: nat)
  {
    && k < |blocks|
    && blocks[k].tabIndex.Some?
    && cursor + Start(blocks, k) <= click < cursor + Start(blocks, k) + blocks[k].len
  }

  lemma StartCons(blocks: seq<Block>, k: nat)
    requires k < |blocks|
    ensures Start(blocks, k + 1) == blocks[0].len + Start(blocks[1..], k)
  {
    assert blocks[..k + 1][1..] == blocks[1..][..k];
  }

  /** Routing resolves a click to exactly the tab whose block it falls in, or
      to nothing when it falls in no tab's block. */
  lemma {:induction false} HitsFromResolves(blocks: seq<Block>, cursor: nat, click: nat)
    ensures forall k: nat :: StrikesAt(blocks, cursor, click, k) ==>
      HitsFrom(blocks, cursor, click) == [blocks[k].tabIndex.value + 1]
    ensures (forall k: nat :: !StrikesAt(blocks, cursor, click, k)) ==> HitsFrom(blocks, cursor, click) == []
  {
    if blocks != [] {
      var b, rest := blocks[0], blocks[1..];
      var next := cursor + b.len;
      HitsFromResolves(rest, next, click);
      forall k: nat | 1 <= k <= |rest|
        ensures StrikesAt(blocks, cursor, click, k) <==> StrikesAt(rest, next, click, k - 1)
      {
        StartCons(blocks, k - 1);
      }
      forall k: nat | k < |rest|
        ensures StrikesAt(rest, next, click, k) <==> StrikesAt(blocks, cursor, click, k + 1)
      {
        StartCons(blocks, k);
      }
      assert Start(blocks, 0) == 0;
      if forall k: nat :: !StrikesAt(blocks, cursor, click, k) {
        assert !StrikesAt(blocks, cursor, click, 0);
        forall k: nat ensures !StrikesAt(rest, next, click, k) {
          if k < |rest| {
            assert !StrikesAt(blocks, cursor, click, k + 1);
          }
        }
      }
    }
  }

  /** At most one tab switch per click: the blocks' column ranges are
      disjoint. */
  lemma HitsAtMostOne(blocks: seq<Block>, cursor: nat, click: nat)
    ensures |HitsFrom(blocks, cursor, click)| <= 1
  {
    HitsFromResolves(blocks, cursor, click);
    if exists k: nat :: StrikesAt(blocks, cursor, click, k) {
      var k :| StrikesAt(blocks, cursor, click, k);
    }
  }

  /** Tabs 0, 1, 2 at columns [0,10), [10,18), [18,25): a click at column 12
      switches to host tab 2, a click at column 25 to none. */
  lemma ClickExample()
    ensures var blocks := [Block("a", 10, Some(0)), Block("b", 8, Some(1)), Block("c", 7, Some(2))];
      HitsFrom(blocks, 0, 12) == [2] && HitsFrom(blocks, 0, 25) == []
  {
  }

  /** One step of the walk over the blocks: the part already handled, `done`,
      grows by the head of the rest. */
  lemma HitsFromStep(blocks: seq<Block>, i: nat, cursor: nat, click: nat, done: seq<nat>)
    requires i < |blocks|
    ensures done + HitsFrom(blocks[i..], cursor, click)
         == (done + Hit(blocks[i], cursor, click)) + HitsFrom(blocks[i + 1..], cursor + blocks[i].len, click)
  {
    assert blocks[i..][1..] == blocks[i + 1..];
  }

  lemma SumLensStep(blocks: seq<Block>, i: nat, done: nat)
    requires i < |blocks|
    ensures done + SumLens(blocks[i..]) == (done + blocks[i].len) + SumLens(blocks[i + 1..])
  {
    assert blocks[i..][1..] == blocks[i + 1..];
  }

  lemma ConcatStep(blocks: seq<Block>, i: nat, done: string)
    requires i < |blocks|
    ensures done + Concat(blocks[i..]) == (done + blocks[i].body) + Concat(blocks[i + 1..])
  {
    assert blocks[i..][1..] == blocks[i + 1..];
  }

  /** The loop of `render` that writes the bodies one after the other and
      checks each tab block against the pending click. */
  method EmitBar(blocks: seq<Block>, pending: bool, click: nat) returns (bar: string, switches: seq<nat>, cursor: nat)
    ensures bar == Concat(blocks)
    ensures cursor == SumLens(blocks)
    ensures switches == if pending then HitsFrom(blocks, 0, click) else []
    ensures |switches| <= 1
  {
    bar, switches, cursor := "", [], 0;
    ghost var found: seq<nat> := [];
    for i := 0 to |blocks|
      invariant cursor + SumLens(blocks[i..]) == SumLens(blocks)
      invariant bar + Concat(blocks[i..]) == Concat(blocks)
      invariant found + HitsFrom(blocks[i..], cursor, click) == HitsFrom(blocks, 0, click)
      invariant switches == if pending then found else []
    {
      var block := blocks[i];
      HitsFromStep(blocks, i, cursor, click, found);
      ConcatStep(blocks, i, bar);
      SumLensStep(blocks, i, cursor);
      bar := bar + block.body;
      if block.tabIndex.Some? {
        if pending && cursor <= click < cursor + block.len {
          switches := switches + [block.tabIndex.value + 1];
        }
      }
      found := found + Hit(block, cursor, click);
      cursor := cursor + block.len;
    }
    HitsAtMostOne(blocks, 0, click);
  }

  /** The block-building part of `render`: the pieces in their final order,
      with the fallback message in place of the tabs when they do not fit. */
  method ComposeBlocks(cols: nat, segs: Segments) returns (line: Option<seq<Block>>)
    ensures line == Compose(segs, cols)
  {
    var pad := Pad();
    var occupied := segs.mode.len + segs.layout.len + segs.session.len + segs.tabs.len + segs.datetime.len + pad.len;
    var blocks: seq<Block> := [];
    blocks := blocks + segs.mode.blocks;
    blocks := blocks + segs.layout.blocks;
    blocks := blocks + [pad];
    assert blocks == segs.mode.blocks + segs.layout.blocks + [pad];
    var mid: seq<Block>;
    var spacer: Option<Block>;
    if occupied > cols {
      var error := Fallback();
      var left, right := segs.mode.len + segs.layout.len + pad.len + error.len, segs.session.len + segs.datetime.len;
      if cols < left + right {
        // `total_len - left_len - right_len` underflows in `Spacer::render`.
        return None;
      }
      spacer := Spacer(cols, left, right);
      mid := [error];
      assert left == LeftLen(segs, cols) && mid == Middle(segs, cols);
    } else {
      var left, right := segs.mode.len + segs.layout.len + pad.len + segs.tabs.len, segs.session.len + segs.datetime.len;
      // left + right == occupied <= cols, so the subtraction cannot underflow.
      spacer := Spacer(cols, left, right);
      mid := segs.tabs.blocks;
      assert left == LeftLen(segs, cols) && mid == Middle(segs, cols);
    }
    assert spacer == Spacer(cols, LeftLen(segs, cols), RightLen(segs));
    blocks := blocks + mid;
    match spacer {
      case Some(space) => blocks := blocks + [space];
      case None =>
    }
    assert blocks == segs.mode.blocks + segs.layout.blocks + [pad] + mid + SpacerBlocks(spacer);
    blocks := blocks + segs.session.blocks;
    blocks := blocks + segs.datetime.blocks;
    line := Some(blocks);
  }

  // ---------------------------------------------------------------------------
  // Rendering

  /** What one call of `render` produces: nothing while no tab list has
      arrived; nothing when the spacer's subtraction underflows; otherwise the
      line's blocks, its text (before the row-clearing suffix) and the tab
      switches it asks for. */
  datatype Frame =
    | Skipped
    | Aborted
    | Drawn(blocks: seq<Block>, bar: string, switches: seq<nat>)

  /** The specification of `render`. */
  function Draw(s: Snapshot, cols: nat, segs: Segments): (f: Frame)
    ensures f.Drawn? ==> |f.switches| <= 1
    ensures f.Drawn? && !s.shouldChangeTab ==> f.switches == []
    ensures f.Drawn? && SegmentsWellFormed(segs) ==> SumLens(f.blocks) == cols
  {
    if s.tabs == [] then Skipped
    else match Compose(segs, cols)
      case None => Aborted
      case Some(blocks) =>
        HitsAtMostOne(blocks, 0, s.mouseClickPos);
        assert SegmentsWellFormed(segs) ==> SumLens(blocks) == cols by {
          if SegmentsWellFormed(segs) {
            ComposedWidth(segs, cols);
          }
        }
        Drawn(blocks, Concat(blocks), if s.shouldChangeTab then HitsFrom(blocks, 0, s.mouseClickPos) else [])
  }

  /** What the click router promises about the switches it requests for a
      line: at most one; none without a pending click or when the click is in
      no tab block; otherwise the 1-based index of the tab block it is in. */
  ghost predicate Routed(blocks: seq<Block>, pending: bool, click: nat, switches: seq<nat>)
  {
    && |switches| <= 1
    && (!pending ==> switches == [])
    && (pending && (forall k: nat :: !StrikesAt(blocks, 0, click, k)) ==> switches == [])
    && (forall k: nat :: pending && StrikesAt(blocks, 0, click, k) ==>
          switches == [blocks[k].tabIndex.value + 1])
  }

  lemma RoutingResolves(blocks: seq<Block>, pending: bool, click: nat)
    ensures Routed(blocks, pending, click, if pending then HitsFrom(blocks, 0, click) else [])
  {
    HitsAtMostOne(blocks, 0, click);
    HitsFromResolves(blocks, 0, click);
  }

  /** A drawn line fills the width exactly, is the bodies of its blocks in
      order, and switches to the struck tab, if any, only when a click is
      pending. */
  lemma DrawnLine(s: Snapshot, cols: nat, segs: Segments)
    requires SegmentsWellFormed(segs)
    requires Draw(s, cols, segs).Drawn?
    ensures var f := Draw(s, cols, segs);
      && SumLens(f.blocks) == cols
      && f.bar == Concat(f.blocks)
      && Routed(f.blocks, s.shouldChangeTab, s.mouseClickPos, f.switches)
  {
    var blocks := Compose(segs, cols).value;
    ComposedWidth(segs, cols);
    RoutingResolves(blocks, s.shouldChangeTab, s.mouseClickPos);
  }

  /** The line is drawn exactly when tabs are known and the spacer does not
      underflow; the choice depends on the widths and `cols` only. */
  lemma DrawSucceeds(s: Snapshot, cols: nat, segs: Segments)
    ensures Draw(s, cols, segs).Skipped? <==> s.tabs == []
    ensures Draw(s, cols, segs).Aborted? <==> s.tabs != [] && Overflows(segs, cols) && cols < FallbackOccupied(segs)
  {
  }

  class State {
    var tabs: seq<Tab>
    var activeTabIdx: nat
    var modeInfo: ModeInfo
    var mouseClickPos: nat
    var shouldChangeTab: bool
    var now: DateTime

    function Current(): Snapshot
      reads this
    {
      Snapshot(tabs, activeTabIdx, modeInfo, mouseClickPos, shouldChangeTab, now)
    }

    ghost predicate Valid()
      reads this
    {
      ActiveIndexOf(tabs, activeTabIdx)
    }

    constructor (defaultModeInfo: ModeInfo, defaultNow: DateTime)
      ensures Current() == Initial(defaultModeInfo, defaultNow)
      ensures Valid()
    {
      tabs := [];
      activeTabIdx := 0;
      modeInfo := defaultModeInfo;
      mouseClickPos := 0;
      shouldChangeTab := false;
      now := defaultNow;
    }

    /** `update`: handles one event in place and returns whether to render and
        the tab switch it asks the host for. */
    method Update(e: Event) returns (shouldRender: bool, switchTo: Option<nat>)
      modifies this
      ensures Step(old(Current()), e) == Outcome(Current(), shouldRender, switchTo)
      ensures old(Valid()) ==> Valid()
    {
      ghost var before := Current();
      shouldRender := false;
      switchTo := None;
      match e {
      case ModeUpdate(m) =>
        shouldRender := modeInfo != m;
        modeInfo := m;
      case TabUpdate(ts) =>
        var position := FirstActive(ts);
        if position.Some? {
          var idx := position.value + 1;
          shouldRender := activeTabIdx != idx || tabs != ts;
          activeTabIdx := idx;
          tabs := ts;
        }
      case LeftClick(col) =>
        if mouseClickPos != col {
          shouldRender := true;
          shouldChangeTab := true;
        }
        mouseClickPos := col;
      case ScrollUp =>
        shouldRender := true;
        switchTo := Some(ScrollUpTarget(activeTabIdx, |tabs|));
      case ScrollDown =>
        shouldRender := true;
        switchTo := Some(ScrollDownTarget(activeTabIdx));
      case Timer(t) =>
        shouldRender := t != now;
        now := t;
      case Other =>
      }
      if Consistent(before) {
        StepPreservesConsistent(before, e);
      }
    }

    /** `render(cols)`: composes the line from the segment views, routes the
        pending click, and clears the one-shot click flag. */
    method Render(cols: nat, segs: Segments) returns (frame: Frame)
      requires SegmentsWellFormed(segs)
      modifies this
      ensures frame == Draw(old(Current()), cols, segs)
      ensures frame.Drawn? ==> SumLens(frame.blocks) == cols && |frame.switches| <= 1
      ensures Current() == if frame.Drawn? then old(Current()).(shouldChangeTab := false) else old(Current())
      ensures old(Valid()) ==> Valid()
    {
      if tabs == [] {
        return Skipped;
      }
      var line := ComposeBlocks(cols, segs);
      if line.None? {
        return Aborted;
      }
      var blocks := line.value;
      var bar, switches, cursor := EmitBar(blocks, shouldChangeTab, mouseClickPos);
      ComposedWidth(segs, cols);
      shouldChangeTab := false;
      frame := Drawn(blocks, bar, switches);
    }
  }
}

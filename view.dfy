/** The building blocks of the status line (src/view.rs): a `Block` is a piece
    of text with a known display width and, for tab labels, the 0-based index
    of the tab it shows; a `View` is a provider's run of blocks together with
    the total width the provider computed for it.

    Bodies are modelled as the unstyled text: the terminal colour codes that
    `style!(..).paint` wraps around them carry no width and are left out. */
module View {
  import opened Wrappers

  datatype Block = Block(body: string, len: nat, tabIndex: Option<nat>)

  datatype View = View(blocks: seq<Block>, len: nat)

  /** The derived `Default` of `Block`. */
  function DefaultBlock(): (b: Block)
    ensures |b.body| == 0 && b.len == 0 && b.tabIndex.None?
  {
    Block("", 0, None)
  }

  /** Total display width of a run of blocks. */
  function SumLens(blocks: seq<Block>): nat
  {
    if blocks == [] then 0 else blocks[0].len + SumLens(blocks[1..])
  }

  /** The text obtained by writing the bodies one after the other; it starts
      with the first body. */
  function Concat(blocks: seq<Block>): (r: string)
    ensures blocks != [] ==> blocks[0].body <= r
  {
    if blocks == [] then "" else blocks[0].body + Concat(blocks[1..])
  }

  /** A provider's precomputed width is trusted by the composer; this is the
      condition under which that trust is justified. */
  predicate WellFormed(v: View)
  {
    v.len == SumLens(v.blocks)
  }

  lemma {:induction false} SumLensAppend(a: seq<Block>, b: seq<Block>)
    ensures SumLens(a + b) == SumLens(a) + SumLens(b)
  {
    if a == [] {
      assert a + b == b;
    } else {
      assert (a + b)[1..] == a[1..] + b;
      SumLensAppend(a[1..], b);
    }
  }

  /** Writing two runs of blocks one after the other writes their texts one
      after the other. */
  lemma {:induction false} ConcatAppend(a: seq<Block>, b: seq<Block>)
    ensures Concat(a + b) == Concat(a) + Concat(b)
  {
    if a == [] {
      assert a + b == b;
    } else {
      assert (a + b)[1..] == a[1..] + b;
      ConcatAppend(a[1..], b);
    }
  }

  /** `n` blank columns, the text `format!("{: <1$}", "", n)` pads to. */
  function Spaces(n: nat): (s: string)
    ensures |s| == n
    ensures forall i :: 0 <= i < n ==> s[i] == ' '
  {
    seq(n, _ => ' ')
  }

  /** `Bg::render(cols)`: a background filler exactly `cols` columns wide that
      is not a tab. */
  function Bg(cols: nat): (b: Block)
    ensures b.len == cols && b.tabIndex.None?
    ensures |b.body| == cols && forall i :: 0 <= i < cols ==> b.body[i] == ' '
  {
    Block(Spaces(cols), cols, None)
  }

  /** `Spacer::render(total, (left, right))`. The source subtracts on `usize`,
      so it is only defined when the left and right parts fit in the total;
      below that the subtraction underflows. */
  function Spacer(total: nat, left: nat, right: nat): (r: Option<Block>)
    requires total >= left + right
    ensures r.None? <==> total == left + right
    ensures r.Some? ==> left + r.value.len + right == total
    ensures r.Some? ==> r.value.tabIndex.None? && r.value.body == Spaces(r.value.len)
  {
    var room := total - left - right;
    if room > 0 then Some(Bg(room)) else None
  }

  /** The blocks a spacer outcome contributes to the line: its one filler
      block, or none. */
  function SpacerBlocks(spacer: Option<Block>): (bs: seq<Block>)
    ensures SumLens(bs) == if spacer.Some? then spacer.value.len else 0
  {
    match spacer
    case Some(b) => [b]
    case None => []
  }

  /** `Error::render(message)`: a warning block that is not a tab. Its width is
      the Unicode display width of the message, which the caller supplies
      because that measurement belongs to a foreign library. */
  function ErrorBlock(message: string, width: nat): (b: Block)
    ensures b.body == message && b.len == width && b.tabIndex.None?
  {
    Block(message, width, None)
  }
}

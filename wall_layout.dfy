/** Placement of comment bubbles on the wall screen: each bubble's size
    comes from the length of its text, a cursor packs the bubbles left to
    right and wraps back to the left margin, and each bubble gets an
    animation duration and delay from its index. */
module WallLayout {
  import opened Comments

  /** Gap between neighbouring bubbles, in pixels. */
  const MinMargin := 20
  /** Left margin, and where the cursor goes back to on a wrap, in pixels. */
  const MinLeft := 40
  /** The right margin: the packing limit is `screenWidth - RightMargin`. */
  const RightMargin := 40

  // ---------------------------------------------------------------------------
  // Bubble size

  /** A positive length in pixels; every bubble width is one. */
  type Pixels = n: int | n > 0 witness 1

  /** The length used for sizing: the display text's, but at least 1. */
  function SizingLength(item: CommentItem): (len: nat)
    ensures len >= 1
  {
    var n := Utf16Length(DisplayText(item));
    if n < 1 then 1 else n
  }

  /** The sizing length is the comment's length (at least 1) for an
      anonymous comment, and name + separator + comment when the name is
      shown. */
  lemma SizingLengthCounts(item: CommentItem)
    ensures SizingLength(item) >= Utf16Length(item.comment)
    ensures !IsTruthy(item.name) ==>
      SizingLength(item) == (if Utf16Length(item.comment) == 0 then 1 else Utf16Length(item.comment))
    ensures IsTruthy(item.name) ==> SizingLength(item) == Utf16Length(item.name.value) + 1 + Utf16Length(item.comment)
  {
    DisplayTextLength(item);
  }

  /** Width in pixels for a text of `len` units: 6 px a unit above 120 px,
      saturating at 420 px. */
  function Width(len: nat): (w: int)
    requires len >= 1
    ensures 126 <= w <= 420
    ensures w == 420 <==> len >= 50
  {
    var raw := 120 + 6 * len;
    if raw < 420 then raw else 420
  }

  /** Height in pixels for a text of `len` units: 0.9 px a unit above 52 px,
      rounded down, saturating at 140 px. */
  function Height(len: nat): (h: int)
    requires len >= 1
    ensures 52 <= h <= 140
    ensures h == 140 <==> len >= 98
  {
    var raw := 52 + (9 * len) / 10;
    if raw < 140 then raw else 140
  }

  lemma WidthMonotone(a: nat, b: nat)
    requires 1 <= a <= b
    ensures Width(a) <= Width(b)
  {
  }

  lemma HeightMonotone(a: nat, b: nat)
    requires 1 <= a <= b
    ensures Height(a) <= Height(b)
  {
  }

  function ItemWidth(item: CommentItem): Pixels
  {
    Width(SizingLength(item))
  }

  function ItemHeight(item: CommentItem): int
  {
    Height(SizingLength(item))
  }

  /** The widths of the bubbles, in packing order. */
  function Widths(items: seq<CommentItem>): (ws: seq<Pixels>)
    ensures |ws| == |items|
    ensures forall k :: 0 <= k < |ws| ==> 126 <= ws[k] <= 420
  {
    seq(|items|, k requires 0 <= k < |items| => ItemWidth(items[k]))
  }

  // ---------------------------------------------------------------------------
  // The packing cursor

  /** A bubble of `width` does not fit at `cursor` when it and the gap after
      it would cross `maxRight`. */
  predicate Overflows(cursor: int, width: int, maxRight: int)
  {
    cursor + width + MinMargin > maxRight
  }

  /** The left edge a bubble gets: the cursor, or the left margin on a wrap. */
  function PlaceAt(cursor: int, width: int, maxRight: int): int
  {
    if Overflows(cursor, width, maxRight) then MinLeft else cursor
  }

  /** The cursor after packing bubbles of widths `ws`, starting at MinLeft:
      it never drops below MinLeft, and after a bubble it is at least that
      bubble's width and the gap past the margin. */
  function CursorAfter(ws: seq<Pixels>, maxRight: int): (c: int)
    ensures c >= MinLeft
    ensures ws != [] ==> c >= MinLeft + ws[|ws| - 1] + MinMargin
  {
    if ws == [] then MinLeft
    else
      var w := ws[|ws| - 1];
      PlaceAt(CursorAfter(ws[..|ws| - 1], maxRight), w, maxRight) + w + MinMargin
  }

  /** Whether bubble `i` wrapped back to the left margin. */
  predicate WrapsAt(ws: seq<Pixels>, i: nat, maxRight: int)
    requires i < |ws|
  {
    Overflows(CursorAfter(ws[..i], maxRight), ws[i], maxRight)
  }

  /** The left edge, in pixels, of bubble `i`: at the left margin, or far
      enough left that the bubble and its gap end by `maxRight`. */
  function LeftEdge(ws: seq<Pixels>, i: nat, maxRight: int): (x: int)
    requires i < |ws|
    ensures x == MinLeft || x + ws[i] + MinMargin <= maxRight
  {
    PlaceAt(CursorAfter(ws[..i], maxRight), ws[i], maxRight)
  }

  /** The centre, in pixels, of bubble `i`. */
  function Centre(ws: seq<Pixels>, i: nat, maxRight: int): real
    requires i < |ws|
  {
    LeftEdge(ws, i, maxRight) as real + ws[i] as real / 2.0
  }

  /** No bubble's left edge is left of the left margin. */
  lemma LeftEdgeAtLeastMinLeft(ws: seq<Pixels>, i: nat, maxRight: int)
    requires i < |ws|
    ensures LeftEdge(ws, i, maxRight) >= MinLeft
  {
  }

  /** Every bubble either fits with its trailing gap before `maxRight`, or
      wrapped and sits at the left margin. */
  lemma FitsOrWraps(ws: seq<Pixels>, i: nat, maxRight: int)
    requires i < |ws|
    ensures !WrapsAt(ws, i, maxRight) ==> LeftEdge(ws, i, maxRight) + ws[i] + MinMargin <= maxRight
    ensures WrapsAt(ws, i, maxRight) ==> LeftEdge(ws, i, maxRight) == MinLeft
  {
  }

  lemma CursorAfterStep(ws: seq<Pixels>, i: nat, maxRight: int)
    requires i < |ws|
    ensures CursorAfter(ws[..i + 1], maxRight) == LeftEdge(ws, i, maxRight) + ws[i] + MinMargin
  {
    assert ws[..i + 1][..i] == ws[..i];
  }

  /** Without a wrap, a bubble starts exactly one gap after the right edge of
      the one before it, so neighbouring centres are half of each width plus
      the gap apart. */
  lemma NextLeftEdge(ws: seq<Pixels>, i: nat, maxRight: int)
    requires i + 1 < |ws|
    ensures !WrapsAt(ws, i + 1, maxRight) ==>
      LeftEdge(ws, i + 1, maxRight) == LeftEdge(ws, i, maxRight) + ws[i] + MinMargin &&
      Centre(ws, i + 1, maxRight) - Centre(ws, i, maxRight) ==
        (ws[i] + ws[i + 1]) as real / 2.0 + MinMargin as real
    ensures WrapsAt(ws, i + 1, maxRight) ==> LeftEdge(ws, i + 1, maxRight) == MinLeft
  {
    CursorAfterStep(ws, i, maxRight);
  }

  /** Within one row (no wrap after bubble `i` up to bubble `j`), bubble `j`
      starts at least one gap right of where bubble `i` ends: they do not
      overlap. */
  lemma {:induction false} NoOverlapWithinRow(ws: seq<Pixels>, i: nat, j: nat, maxRight: int)
    requires i < j < |ws|
    requires forall k :: i < k <= j ==> !WrapsAt(ws, k, maxRight)
    ensures LeftEdge(ws, i, maxRight) + ws[i] + MinMargin <= LeftEdge(ws, j, maxRight)
  {
    NextLeftEdge(ws, j - 1, maxRight);
    if i < j - 1 {
      NoOverlapWithinRow(ws, i, j - 1, maxRight);
    }
  }

  // ---------------------------------------------------------------------------
  // Positions as a percentage of the screen width

  /** The JavaScript number `px / screenWidth * 100`, kept exact as the
      fraction num / den with den the screen width; den == 0 stands for the
      +Infinity that JavaScript gives for a zero width (px is always
      positive here). */
  datatype Percent = Percent(num: int, den: nat)
  {
    predicate IsInfinite() { den == 0 }

    function Value(): real
      requires den > 0
    {
      num as real / den as real
    }
  }

  /** The percentage of the screen width at pixel `twicePx / 2`. */
  function PercentOf(twicePx: int, screenWidth: nat): Percent
  {
    Percent(twicePx * 50, screenWidth)
  }

  datatype Position = Position(left: Percent, width: int, height: int)

  /** The position of bubble `i` when `items` are packed on a screen
      `screenWidth` pixels wide. */
  function PositionAt(items: seq<CommentItem>, i: nat, screenWidth: nat): (p: Position)
    requires i < |items|
    ensures 126 <= p.width <= 420 && 52 <= p.height <= 140
    ensures p.left.den == screenWidth
  {
    var ws := Widths(items);
    var x := LeftEdge(ws, i, screenWidth - RightMargin);
    Position(PercentOf(2 * x + ws[i], screenWidth), ws[i], ItemHeight(items[i]))
  }

  lemma MulAtLeast(q: real, d: real, bound: real)
    requires q >= bound && d > 0.0
    ensures q * d >= bound * d
  {
    assert q * d == bound * d + (q - bound) * d;
  }

  /** A fraction with positive numerator below `bound` times its positive
      denominator lies strictly between 0 and `bound`. */
  lemma FractionBetween(num: int, den: nat, bound: int)
    requires den > 0 && 0 < num < bound * den
    ensures 0.0 < num as real / den as real < bound as real
  {
    var q := num as real / den as real;
    var d := den as real;
    assert q * d == num as real;
    if q >= bound as real {
      MulAtLeast(q, d, bound as real);
      assert false;
    }
    if q <= 0.0 {
      MulAtLeast(-q, d, 0.0);
      assert false;
    }
  }

  /** A bubble that fitted without wrapping has its centre strictly inside
      the screen: 0 < left < 100. */
  lemma FittedLeftInsideScreen(items: seq<CommentItem>, i: nat, screenWidth: nat)
    requires i < |items| && screenWidth > 0
    requires !WrapsAt(Widths(items), i, screenWidth - RightMargin)
    ensures !PositionAt(items, i, screenWidth).left.IsInfinite()
    ensures 0.0 < PositionAt(items, i, screenWidth).left.Value() < 100.0
  {
    var ws := Widths(items);
    var maxRight := screenWidth - RightMargin;
    LeftEdgeAtLeastMinLeft(ws, i, maxRight);
    FitsOrWraps(ws, i, maxRight);
    var x := LeftEdge(ws, i, maxRight);
    assert 0 < 2 * x + ws[i] < 2 * screenWidth;
    var left := PositionAt(items, i, screenWidth).left;
    assert left == Percent((2 * x + ws[i]) * 50, screenWidth);
    FractionBetween(left.num, left.den, 100);
  }

  /** A bubble that wrapped has its centre between 103 and 250 pixels, so
      on a screen narrower than that it is placed past the right edge. */
  lemma WrappedCentre(items: seq<CommentItem>, i: nat, screenWidth: nat)
    requires i < |items|
    requires WrapsAt(Widths(items), i, screenWidth - RightMargin)
    ensures 103.0 <= Centre(Widths(items), i, screenWidth - RightMargin) <= 250.0
  {
  }

  /** With a 100 px wide screen the first bubble is centred at 103 px, past
      the right edge: `left` is not confined to [0, 100]. */
  lemma NarrowScreenOverflows()
    ensures PositionAt([CommentItem(None, "a", 0, "x")], 0, 100).left.Value() == 103.0
  {
    var items := [CommentItem(None, "a", 0, "x")];
    assert Utf16Length("a") == 1;
    assert Widths(items) == [126];
    assert WrapsAt(Widths(items), 0, 60);
  }

  // ---------------------------------------------------------------------------
  // Maps keyed by comment id

  function Ids(items: seq<CommentItem>): set<string>
  {
    set k | 0 <= k < |items| :: items[k].id
  }

  lemma IdsSnoc(items: seq<CommentItem>)
    requires items != []
    ensures Ids(items) == Ids(items[..|items| - 1]) + {items[|items| - 1].id}
  {
    var n := |items| - 1;
    forall id | id in Ids(items) ensures id in Ids(items[..n]) + {items[n].id} {
      var k :| 0 <= k < |items| && items[k].id == id;
      if k < n { assert items[..n][k] == items[k]; }
    }
  }

  /** A JavaScript Map filled by `map.set(items[k].id, vals[k])` for k in
      order: a later comment with the same id overwrites an earlier one. */
  function Assign<V>(items: seq<CommentItem>, vals: seq<V>): map<string, V>
    requires |vals| == |items|
  {
    if items == [] then map[]
    else
      var n := |items| - 1;
      Assign(items[..n], vals[..n])[items[n].id := vals[n]]
  }

  /** Every comment's id has an entry, and nothing else does. */
  lemma {:induction false} AssignKeys<V>(items: seq<CommentItem>, vals: seq<V>)
    requires |vals| == |items|
    ensures Assign(items, vals).Keys == Ids(items)
  {
    if items != [] {
      AssignKeys(items[..|items| - 1], vals[..|items| - 1]);
      IdsSnoc(items);
    }
  }

  /** The entry of the last comment with a given id holds that comment's value. */
  lemma {:induction false} AssignLatest<V>(items: seq<CommentItem>, vals: seq<V>, i: nat)
    requires |vals| == |items| && i < |items|
    requires forall j :: i < j < |items| ==> items[j].id != items[i].id
    ensures items[i].id in Assign(items, vals) && Assign(items, vals)[items[i].id] == vals[i]
  {
    var n := |items| - 1;
    if i < n {
      AssignLatest(items[..n], vals[..n], i);
    }
  }

  lemma AssignStep<V>(items: seq<CommentItem>, vals: seq<V>, i: nat)
    requires |vals| == |items| && i < |items|
    ensures Assign(items[..i + 1], vals[..i + 1]) == Assign(items[..i], vals[..i])[items[i].id := vals[i]]
  {
    assert items[..i + 1][..i] == items[..i];
    assert vals[..i + 1][..i] == vals[..i];
  }

  // ---------------------------------------------------------------------------
  // The position map (calculateNonOverlappingPositions)

  /** The positions of all bubbles, in packing order. */
  function Positions(items: seq<CommentItem>, screenWidth: nat): (ps: seq<Position>)
    ensures |ps| == |items|
  {
    seq(|items|, i requires 0 <= i < |items| => PositionAt(items, i, screenWidth))
  }

  /** The map from comment id to position: every comment's id has an
      entry, and nothing else does. */
  function PositionMap(items: seq<CommentItem>, screenWidth: nat): (m: map<string, Position>)
    ensures m.Keys == Ids(items)
  {
    AssignKeys(items, Positions(items, screenWidth));
    Assign(items, Positions(items, screenWidth))
  }

  /** The entry of the last comment with a given id is that comment's
      position. */
  lemma PositionMapLatest(items: seq<CommentItem>, i: nat, screenWidth: nat)
    requires i < |items|
    requires forall j :: i < j < |items| ==> items[j].id != items[i].id
    ensures items[i].id in PositionMap(items, screenWidth)
    ensures PositionMap(items, screenWidth)[items[i].id] == PositionAt(items, i, screenWidth)
  {
    AssignLatest(items, Positions(items, screenWidth), i);
  }

  /** The position of bubble `i`, from its left edge and its width. */
  lemma PositionAtEdge(items: seq<CommentItem>, i: nat, screenWidth: nat, x: int, w: int)
    requires i < |items|
    requires w == ItemWidth(items[i]) && x == LeftEdge(Widths(items), i, screenWidth - RightMargin)
    ensures Positions(items, screenWidth)[i] == Position(PercentOf(2 * x + w, screenWidth), w, ItemHeight(items[i]))
  {
    PositionsAt(items, i, screenWidth);
    PositionAtUnfold(items, i, screenWidth, x, w);
  }

  lemma PositionsAt(items: seq<CommentItem>, i: nat, screenWidth: nat)
    requires i < |items|
    ensures Positions(items, screenWidth)[i] == PositionAt(items, i, screenWidth)
  {
  }

  lemma PositionAtUnfold(items: seq<CommentItem>, i: nat, screenWidth: nat, x: int, w: int)
    requires i < |items|
    requires w == ItemWidth(items[i]) && x == LeftEdge(Widths(items), i, screenWidth - RightMargin)
    ensures PositionAt(items, i, screenWidth) == Position(PercentOf(2 * x + w, screenWidth), w, ItemHeight(items[i]))
  {
    var ws := Widths(items);
    assert PositionAt(items, i, screenWidth) ==
      Position(PercentOf(2 * LeftEdge(ws, i, screenWidth - RightMargin) + ws[i], screenWidth), ws[i], ItemHeight(items[i]));
    assert ws[i] == w;
  }

  /** calculateNonOverlappingPositions: one pass with a cursor that starts at
      the left margin, resets to it when the next bubble would not fit, and
      otherwise moves past each bubble and its gap. */
  method CalculateNonOverlappingPositions(items: seq<CommentItem>, screenWidth: nat)
    returns (positions: map<string, Position>)
    ensures positions == PositionMap(items, screenWidth)
  {
    positions := map[];
    ghost var ps := Positions(items, screenWidth);
    ghost var ws := Widths(items);
    var maxRight := screenWidth - RightMargin;
    var currentX := MinLeft;
    for i := 0 to |items|
      invariant currentX == CursorAfter(ws[..i], maxRight)
      invariant positions == Assign(items[..i], ps[..i])
    {
      var len := SizingLength(items[i]);
      var width := Width(len);
      var height := Height(len);
      if currentX + width + MinMargin > maxRight {
        currentX := MinLeft;
      }
      PositionAtEdge(items, i, screenWidth, currentX, width);
      CursorAfterStep(ws, i, maxRight);
      AssignStep(items, ps, i);
      var left := PercentOf(2 * currentX + width, screenWidth);
      positions := positions[items[i].id := Position(left, width, height)];
      currentX := currentX + width + MinMargin;
    }
    assert items[..|items|] == items && ps[..|items|] == ps;
  }

  // ---------------------------------------------------------------------------
  // Animation timing (bubbleLayout)

  /** Seconds a bubble takes to rise: 15 s, plus 2 s for each step of the
      index modulo 5. */
  function Duration(index: nat): (d: int)
    ensures d in {15, 17, 19, 21, 23}
  {
    15 + (index % 5) * 2
  }

  /** Seconds before a bubble starts: half a second per index. */
  function Delay(index: nat): (d: real)
    ensures d >= 0.0 && d * 2.0 == index as real
  {
    index as real * 0.5
  }

  lemma DurationPeriodic(index: nat)
    ensures Duration(index + 5) == Duration(index)
  {
  }

  lemma DelayIncreasing(i: nat, j: nat)
    requires i < j
    ensures Delay(i) < Delay(j)
  {
  }

  datatype Bubble = Bubble(left: Percent, width: int, height: int, duration: int, delay: real)

  function BubbleOf(p: Position, index: nat): Bubble
  {
    Bubble(p.left, p.width, p.height, Duration(index), Delay(index))
  }

  /** The layout map: for each comment whose id has a position, that
      position with the comment's own timing; later indices overwrite. */
  function BubbleMap(items: seq<CommentItem>, positions: map<string, Position>): (m: map<string, Bubble>)
    ensures forall id :: id in m ==>
      id in positions && m[id].left == positions[id].left &&
      m[id].width == positions[id].width && m[id].height == positions[id].height
  {
    if items == [] then map[]
    else
      var n := |items| - 1;
      var rest := BubbleMap(items[..n], positions);
      if items[n].id in positions then rest[items[n].id := BubbleOf(positions[items[n].id], n)] else rest
  }

  lemma {:induction false} BubbleMapKeys(items: seq<CommentItem>, positions: map<string, Position>)
    ensures BubbleMap(items, positions).Keys == Ids(items) * positions.Keys
  {
    if items != [] {
      var n := |items| - 1;
      BubbleMapKeys(items[..n], positions);
      IdsSnoc(items);
    }
  }

  lemma {:induction false} BubbleMapLatest(items: seq<CommentItem>, positions: map<string, Position>, i: nat)
    requires i < |items| && items[i].id in positions
    requires forall j :: i < j < |items| ==> items[j].id != items[i].id
    ensures items[i].id in BubbleMap(items, positions)
    ensures BubbleMap(items, positions)[items[i].id] == BubbleOf(positions[items[i].id], i)
  {
    var n := |items| - 1;
    if i < n {
      BubbleMapLatest(items[..n], positions, i);
    }
  }

  lemma BubbleMapStep(items: seq<CommentItem>, positions: map<string, Position>, i: nat)
    requires i < |items|
    ensures BubbleMap(items[..i + 1], positions) ==
      if items[i].id in positions
      then BubbleMap(items[..i], positions)[items[i].id := BubbleOf(positions[items[i].id], i)]
      else BubbleMap(items[..i], positions)
  {
    assert items[..i + 1][..i] == items[..i];
  }

  /** Every comment gets a bubble, and nothing else does. */
  lemma BubbleLayoutKeys(items: seq<CommentItem>, screenWidth: nat)
    ensures BubbleMap(items, PositionMap(items, screenWidth)).Keys == Ids(items)
  {
    BubbleMapKeys(items, PositionMap(items, screenWidth));
  }

  /** The bubble of the last comment with a given id has that comment's
      position and the duration and delay of its index. */
  lemma BubbleLayoutLatest(items: seq<CommentItem>, screenWidth: nat, i: nat)
    requires i < |items|
    requires forall j :: i < j < |items| ==> items[j].id != items[i].id
    ensures items[i].id in BubbleMap(items, PositionMap(items, screenWidth))
    ensures BubbleMap(items, PositionMap(items, screenWidth))[items[i].id] ==
      BubbleOf(PositionAt(items, i, screenWidth), i)
  {
    PositionMapLatest(items, i, screenWidth);
    BubbleMapLatest(items, PositionMap(items, screenWidth), i);
  }

  /** bubbleLayout: the position map, then one pass over the comments that
      attaches each index's duration and delay. */
  method BubbleLayout(items: seq<CommentItem>, screenWidth: nat) returns (layout: map<string, Bubble>)
    ensures layout == BubbleMap(items, PositionMap(items, screenWidth))
  {
    var positionMap := CalculateNonOverlappingPositions(items, screenWidth);
    layout := map[];
    for index := 0 to |items|
      invariant layout == BubbleMap(items[..index], positionMap)
    {
      BubbleMapStep(items, positionMap, index);
      var id := items[index].id;
      if id !in positionMap {
        continue;
      }
      var position := positionMap[id];
      var duration := 15 + (index % 5) * 2;
      var delay := index as real * 0.5;
      var bubble := Bubble(position.left, position.width, position.height, duration, delay);
      assert bubble == BubbleOf(position, index);
      layout := layout[id := bubble];
    }
    assert items[..|items|] == items;
  }
}

/**
 Cursor and scrolling of gui/src/buffer_views.rs. A line is counted in bytes, as the code does, not in
 glyphs.
 */
module BufferViews {
  const SCROLLOFF := 3

  datatype Position = Position(lineIndex: int, columnIndex: int)

  function Add(p: Position, q: Position): Position {
    Position(p.lineIndex + q.lineIndex, p.columnIndex + q.columnIndex)
  }

  function Min(a: int, b: int): int { if a < b then a else b }

  function Max(a: int, b: int): int { if a < b then b else a }

  /** The line at the top after scrolling to `top` in a buffer of `n` lines. */
  function ClampTop(top: int, n: int): int {
    Max(Min(top, n - 1), 0)
  }

  /** The position nearest to the wanted one that lies in the buffer. */
  function Reached(wanted: Position, lines: seq<string>): Position
    requires lines != []
  {
    var line := Max(0, Min(|lines| - 1, wanted.lineIndex));
    Position(line, Max(0, Min(|lines[line]| - 1, wanted.columnIndex)))
  }

  /** The top line after the cursor has come to `line`: up first, then down. */
  function Followed(top: int, line: int, height: nat, n: int): int {
    var up := if line - top < SCROLLOFF then ClampTop(top + (line - top - SCROLLOFF), n) else top;
    var below := up + height - line;
    if below < SCROLLOFF then ClampTop(up + (SCROLLOFF - below), n) else up
  }

  // ---------- Nearest ----------

  function Distance(a: int, b: int): nat { if a < b then b - a else a - b }

  /** Of all numbers from `low` to `high`, `x` is the one nearest to `wanted`. */
  ghost predicate Nearest(x: int, wanted: int, low: int, high: int) {
    low <= x <= high && forall y :: low <= y <= high && y != x ==> Distance(x, wanted) < Distance(y, wanted)
  }

  /** Scrolling reaches the line of the buffer that is nearest to where it was to go. */
  lemma ClampTopIsNearest(top: int, n: int)
    requires n > 0
    ensures Nearest(ClampTop(top, n), top, 0, n - 1)
  {
  }

  /** The last column of a line, or the first if the line is empty. */
  function LastColumn(line: string): nat {
    if line == "" then 0 else |line| - 1
  }

  /** The line nearest to the wanted one, and on that line the column nearest to the wanted one. */
  ghost predicate NearestPosition(p: Position, wanted: Position, lines: seq<string>) {
    && Nearest(p.lineIndex, wanted.lineIndex, 0, |lines| - 1)
    && Nearest(p.columnIndex, wanted.columnIndex, 0, LastColumn(lines[p.lineIndex]))
  }

  lemma ReachedIsNearest(wanted: Position, lines: seq<string>)
    requires lines != []
    ensures NearestPosition(Reached(wanted, lines), wanted, lines)
  {
  }

  function Sum(xs: seq<int>): int {
    if xs == [] then 0 else xs[0] + Sum(xs[1..])
  }

  /** Where a cursor is wanted after moves one after another. */
  function Moved(p: Position, deltas: seq<Position>): Position
    decreases |deltas|
  {
    if deltas == [] then p else Moved(Add(p, deltas[0]), deltas[1..])
  }

  function LineDeltas(deltas: seq<Position>): seq<int> {
    seq(|deltas|, i requires 0 <= i < |deltas| => deltas[i].lineIndex)
  }

  function ColumnDeltas(deltas: seq<Position>): seq<int> {
    seq(|deltas|, i requires 0 <= i < |deltas| => deltas[i].columnIndex)
  }

  /** Lines and columns add up each for itself, so nothing is lost by running against a border. */
  lemma {:induction false} MovesAddUp(p: Position, deltas: seq<Position>)
    ensures Moved(p, deltas).lineIndex == p.lineIndex + Sum(LineDeltas(deltas))
    ensures Moved(p, deltas).columnIndex == p.columnIndex + Sum(ColumnDeltas(deltas))
    decreases |deltas|
  {
    if deltas != [] {
      assert LineDeltas(deltas)[1..] == LineDeltas(deltas[1..]);
      assert ColumnDeltas(deltas)[1..] == ColumnDeltas(deltas[1..]);
      MovesAddUp(Add(p, deltas[0]), deltas[1..]);
    }
  }

  // ---------- What following the cursor is for ----------

  /** The cursor's line is on the screen, with enough lines below it. */
  predicate Visible(top: int, line: int, height: nat) {
    0 <= top <= line && line + SCROLLOFF <= top + height
  }

  /** There are enough lines above it too, or the buffer starts at the top of the screen. */
  predicate Margin(top: int, line: int) {
    line - top >= SCROLLOFF || top == 0
  }

  ghost predicate AlwaysVisible(height: nat) {
    forall top, line, n | 0 <= top < n && 0 <= line < n :: Visible(Followed(top, line, height, n), line, height)
  }

  ghost predicate AlwaysMargin(height: nat) {
    forall top, line, n | 0 <= top < n && 0 <= line < n :: Margin(Followed(top, line, height, n), line)
  }

  /** The cursor is kept on the screen in every buffer and from every position if and only if the view
      is at least three lines high. */
  lemma AlwaysVisibleIff(height: nat)
    ensures AlwaysVisible(height) <==> height >= 3
  {
    if height < 3 {
      assert !Visible(Followed(0, 10, height, 20), 10, height);
    }
  }

  /** The margin above the cursor is kept in every buffer and from every position if and only if the
      view is at least six lines high. */
  lemma AlwaysMarginIff(height: nat)
    ensures AlwaysMargin(height) <==> height >= 6
  {
    if height < 6 {
      assert !Margin(Followed(0, 10, height, 20), 10);
    }
  }

  /** Following an unmoved cursor again changes nothing, if the view is high enough. */
  lemma FollowedTwice(top: int, line: int, height: nat, n: int)
    requires 0 <= top < n && 0 <= line < n && height >= 6
    ensures Followed(Followed(top, line, height, n), line, height, n) == Followed(top, line, height, n)
  {
  }

  /** In a view that is high enough, the cursor is followed by the least scrolling that shows it with its
      margins. */
  lemma FollowedIsNearest(top: int, line: int, height: nat, n: int, other: int)
    requires 0 <= top < n && 0 <= line < n && height >= 6
    requires 0 <= other < n && Visible(other, line, height) && Margin(other, line)
    ensures Distance(Followed(top, line, height, n), top) <= Distance(other, top)
    ensures 0 <= Followed(top, line, height, n) < n
    ensures Visible(Followed(top, line, height, n), line, height) && Margin(Followed(top, line, height, n), line)
  {
  }

  // ---------- The objects ----------

  class BufferView {
    const cursorId: string
    const height: nat
    const lines: seq<string>
    var topLineIndex: int
    var wantedPosition: Position
    var position: Position

    constructor (cursorId: string, height: nat, lines: seq<string>)
      requires lines != []
      ensures Valid() && this.cursorId == cursorId && this.height == height && this.lines == lines
    {
      this.cursorId, this.height, this.lines := cursorId, height, lines;
      topLineIndex, wantedPosition, position := 0, Position(0, 0), Position(0, 0);
      ReachedIsNearest(Position(0, 0), lines);
    }

    ghost predicate Valid()
      reads this
    {
      && lines != [] && 0 <= topLineIndex < |lines|
      && position == Reached(wantedPosition, lines) && NearestPosition(position, wantedPosition, lines)
    }

    method Scroll(delta: int)
      requires Valid()
      modifies this`topLineIndex
      ensures Valid() && topLineIndex == ClampTop(old(topLineIndex) + delta, |lines|)
      ensures Nearest(topLineIndex, old(topLineIndex) + delta, 0, |lines| - 1)
    {
      topLineIndex := topLineIndex + delta;
      topLineIndex := Min(topLineIndex, |lines| - 1);
      topLineIndex := Max(topLineIndex, 0);
    }

    /** The body of `move_cursor` for the view whose cursor is meant. */
    method MoveCursor(delta: Position)
      requires Valid()
      modifies this
      ensures Valid() && wantedPosition == Add(old(wantedPosition), delta)
      ensures wantedPosition.lineIndex == old(wantedPosition.lineIndex) + delta.lineIndex
      ensures wantedPosition.columnIndex == old(wantedPosition.columnIndex) + delta.columnIndex
      ensures topLineIndex == Followed(old(topLineIndex), position.lineIndex, height, |lines|)
      ensures height >= 3 ==> Visible(topLineIndex, position.lineIndex, height)
      ensures height >= 6 ==> Margin(topLineIndex, position.lineIndex)
    {
      wantedPosition := Add(wantedPosition, delta);
      var newPos := wantedPosition;
      newPos := newPos.(lineIndex := Max(0, Min(|lines| - 1, newPos.lineIndex)));
      newPos := newPos.(columnIndex := Max(0, Min(|lines[newPos.lineIndex]| - 1, newPos.columnIndex)));
      position := newPos;
      ReachedIsNearest(wantedPosition, lines);
      var topDiff := newPos.lineIndex - topLineIndex;
      if topDiff < SCROLLOFF {
        Scroll(topDiff - SCROLLOFF);
      }
      var bottomDiff := topLineIndex + height - newPos.lineIndex;
      if bottomDiff < SCROLLOFF {
        Scroll(SCROLLOFF - bottomDiff);
      }
    }
  }

  /** `BufferViews::move_cursor`: some view with that cursor moves, the others stay. */
  method MoveCursor(views: set<BufferView>, id: string, delta: Position) returns (known: bool)
    requires forall v :: v in views ==> v.Valid()
    modifies views
    ensures forall v :: v in views ==> v.Valid()
    ensures known <==> exists v :: v in views && v.cursorId == id
    ensures known ==> exists v :: v in views && v.cursorId == id
                                  && v.wantedPosition == Add(old(v.wantedPosition), delta)
                                  && forall w :: w in views && w != v ==> unchanged(w)
    ensures !known ==> unchanged(views)
  {
    var rest := views;
    while rest != {}
      invariant rest <= views && forall v :: v in views - rest ==> v.cursorId != id
      invariant unchanged(views)
      decreases rest
    {
      var view :| view in rest;
      rest := rest - {view};
      if view.cursorId == id {
        view.MoveCursor(delta);
        return true;
      }
    }
    return false;
  }
}

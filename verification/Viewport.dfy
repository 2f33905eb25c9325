// Composing the sidebar pane and keeping its viewport still
// (cmd/orchard-sidebar: compose.go, layout.go, cards.go, selection.go).

module Viewport {
  datatype Row = Row(session: string, pinned: bool, attached: bool)

  /** One rendered line: its text, the row a click on it selects (-1 for none), what it copies, and
      whether it is the separator under the pinned block. */
  datatype ViewLine = ViewLine(text: string, row: int, copy: string, sep: bool)

  const MIN_LIST_ROWS := 3

  // ---- bands --------------------------------------------------------------------------------

  datatype PaneLayout = PaneLayout(headerH: int, listY: int, listH: int, footerY: int, footerH: int)

  function LayoutPane(height: int, headerH: int, footerH: int): PaneLayout {
    if height <= 0 then PaneLayout(0, 0, 0, 0, 0)
    else
      var head := if headerH > height then height else if headerH < 0 then 0 else headerH;
      var rest := height - head;
      var cut := if footerH > rest - MIN_LIST_ROWS then rest - MIN_LIST_ROWS else footerH;
      var foot := if cut < 0 then 0 else cut;
      PaneLayout(head, head, rest - foot, head + (rest - foot), foot)
  }

  /** The three bands tile the pane; the header yields last and the list keeps its minimum unless the
      header already takes the room. */
  lemma LayoutTiles(height: int, headerH: nat, footerH: nat)
    requires height > 0
    ensures var lay := LayoutPane(height, headerH, footerH);
            && 0 <= lay.headerH <= headerH && 0 <= lay.footerH <= footerH && 0 <= lay.listH
            && lay.listY == lay.headerH && lay.footerY == lay.listY + lay.listH
            && lay.footerY + lay.footerH == height
            && (lay.headerH < headerH ==> lay.headerH == height)
            && (lay.footerH > 0 ==> lay.listH >= MIN_LIST_ROWS)
            && (lay.footerH < footerH ==> lay.listH <= MIN_LIST_ROWS)
  {
  }

  function ClampBand(lines: seq<ViewLine>, n: int, keepTail: bool): seq<ViewLine> {
    if n <= 0 then []
    else if |lines| <= n then lines
    else if keepTail then lines[|lines| - n..]
    else lines[..n]
  }

  // ---- which lines a row occupies -----------------------------------------------------------

  function FirstLine(lines: seq<ViewLine>, row: int): (lo: int)
    ensures -1 <= lo < |lines| && (lo >= 0 ==> lines[lo].row == row)
    ensures forall k :: 0 <= k < (if lo < 0 then |lines| else lo) ==> lines[k].row != row
  {
    if lines == [] then -1
    else
      var n := |lines| - 1;
      var lo := FirstLine(lines[..n], row);
      if lo < 0 && lines[n].row == row then n else lo
  }

  function LastLine(lines: seq<ViewLine>, row: int): (hi: int)
    ensures -1 <= hi < |lines| && (hi >= 0 ==> lines[hi].row == row)
    ensures forall k :: hi < k < |lines| ==> lines[k].row != row
  {
    if lines == [] then -1
    else if lines[|lines| - 1].row == row then |lines| - 1
    else LastLine(lines[..|lines| - 1], row)
  }

  method RowSpan(lines: seq<ViewLine>, row: int) returns (lo: int, hi: int)
    ensures lo == FirstLine(lines, row) && hi == LastLine(lines, row)
  {
    lo, hi := -1, -1;
    for i := 0 to |lines|
      invariant lo == FirstLine(lines[..i], row) && hi == LastLine(lines[..i], row)
    {
      assert lines[..i + 1][..i] == lines[..i];
      if lines[i].row == row {
        if lo < 0 {
          lo := i;
        }
        hi := i;
      }
    }
    assert lines[..|lines|] == lines;
  }

  predicate RowOnScreen(lines: seq<ViewLine>, row: int, off: int, listH: int) {
    listH > 0 && FirstLine(lines, row) >= 0 && LastLine(lines, row) >= off && FirstLine(lines, row) < off + listH
  }

  /** A click lands on a drawn line, so the row it selects is on screen and the snap never fires for it. */
  lemma ClickedRowIsOnScreen(lines: seq<ViewLine>, off: nat, listH: nat, y: nat)
    requires off <= y < off + listH && y < |lines|
    ensures RowOnScreen(lines, lines[y].row, off, listH)
  {
    assert FirstLine(lines, lines[y].row) >= 0;
  }

  // ---- scrolling ----------------------------------------------------------------------------

  function ClampOffset(off: int, n: int, listH: int): int {
    var top := if off > n - listH then n - listH else off;
    if top < 0 then 0 else top
  }

  /** The offsets that leave no room unused below the list. */
  predicate ValidOffset(off: int, n: nat, listH: int) { 0 <= off && (off <= n - listH || off == 0) }

  lemma ClampIsValid(off: int, n: nat, listH: int)
    ensures ValidOffset(ClampOffset(off, n, listH), n, listH)
    ensures ClampOffset(off, n, listH) == off <==> ValidOffset(off, n, listH)
  {
  }

  function ScrollOffset(lines: seq<ViewLine>, listH: int, cursor: int, cur: int): int {
    if listH <= 0 || |lines| <= listH then 0
    else
      var lo, hi := FirstLine(lines, cursor), LastLine(lines, cursor);
      if lo < 0 then cur
      else
        var up := if hi >= cur + listH then hi - listH + 1 else cur;
        var off := if lo < up then lo else up;
        ClampOffset(off, |lines|, listH)
  }

  predicate ShowsAll(off: int, lo: int, hi: int, listH: int) { off <= lo && hi < off + listH }

  function Distance(a: int, b: int): int { if a < b then b - a else a - b }

  /** The snap is the least move: a card that fits is shown whole, and no valid offset that shows it
      whole is nearer to where the viewport was. */
  lemma SnapIsLeastMove(lines: seq<ViewLine>, listH: int, cursor: int, cur: int, other: int)
    requires listH > 0 && ValidOffset(cur, |lines|, listH) && FirstLine(lines, cursor) >= 0
    requires LastLine(lines, cursor) - FirstLine(lines, cursor) < listH
    ensures var off := ScrollOffset(lines, listH, cursor, cur);
            var lo, hi := FirstLine(lines, cursor), LastLine(lines, cursor);
            && ValidOffset(off, |lines|, listH) && ShowsAll(off, lo, hi, listH)
            && (ValidOffset(other, |lines|, listH) && ShowsAll(other, lo, hi, listH)
                ==> Distance(off, cur) <= Distance(other, cur))
  {
  }

  /** A card taller than the viewport shows its first line on top. */
  lemma TallCardShowsItsTop(lines: seq<ViewLine>, listH: int, cursor: int, cur: int)
    requires listH > 0 && FirstLine(lines, cursor) >= 0
    requires LastLine(lines, cursor) - FirstLine(lines, cursor) >= listH
    ensures ScrollOffset(lines, listH, cursor, cur) == FirstLine(lines, cursor)
  {
  }

  // ---- the viewport state -------------------------------------------------------------------

  datatype View = View(rows: seq<Row>, cursor: int, scroll: int, snapSel: bool, anchorSess: string, anchorDelta: int)

  predicate RowAt(rows: seq<Row>, i: int) { 0 <= i < |rows| }

  /** The first line of a session's card, -1 when it draws nothing. */
  function SessionLine(rows: seq<Row>, list: seq<ViewLine>, session: string): (i: int)
    ensures -1 <= i < |list|
    ensures i >= 0 ==> RowAt(rows, list[i].row) && rows[list[i].row].session == session
    ensures forall k :: 0 <= k < (if i < 0 then |list| else i) ==>
              !(RowAt(rows, list[k].row) && rows[list[k].row].session == session)
  {
    if list == [] then -1
    else
      var n := |list| - 1;
      var i := SessionLine(rows, list[..n], session);
      if i < 0 && RowAt(rows, list[n].row) && rows[list[n].row].session == session then n else i
  }

  function AnchoredOffset(v: View, list: seq<ViewLine>): int {
    if v.scroll == 0 then 0
    else if v.anchorSess == "" then v.scroll
    else
      var i := SessionLine(v.rows, list, v.anchorSess);
      if i < 0 then v.scroll else i + v.anchorDelta
  }

  /** The first line from off on that belongs to a row, |list| when there is none. */
  function AnchorLine(rows: seq<Row>, list: seq<ViewLine>, off: nat): (i: nat)
    requires off <= |list|
    ensures off <= i <= |list|
    ensures i < |list| ==> RowAt(rows, list[i].row)
    ensures forall j :: off <= j < i ==> !RowAt(rows, list[j].row)
    decreases |list| - off
  {
    if off == |list| || RowAt(rows, list[off].row) then off else AnchorLine(rows, list, off + 1)
  }

  function Anchored(v: View, list: seq<ViewLine>, off: nat): View {
    if off > |list| then v.(scroll := off, snapSel := false, anchorSess := "", anchorDelta := 0)
    else
      var i := AnchorLine(v.rows, list, off);
      if i == |list| then v.(scroll := off, snapSel := false, anchorSess := "", anchorDelta := 0)
      else
        var first := FirstLine(list, list[i].row);
        v.(scroll := off, snapSel := false, anchorSess := v.rows[list[i].row].session,
           anchorDelta := off - (if first < 0 then 0 else first))
  }

  function NextOffset(v: View, list: seq<ViewLine>, listH: int): (off: nat)
    ensures ValidOffset(off, |list|, listH)
  {
    var off := ClampOffset(AnchoredOffset(v, list), |list|, listH);
    if v.snapSel && !RowOnScreen(list, v.cursor, off, listH) then
      ScrollOffset(list, listH, v.cursor, off)
    else off
  }

  /** What composing does to the viewport. */
  function Rendered(v: View, list: seq<ViewLine>, listH: int): View {
    Anchored(v, list, NextOffset(v, list, listH))
  }

  ghost predicate DistinctSessions(rows: seq<Row>) {
    forall i, j :: 0 <= i < j < |rows| ==> rows[i].session != rows[j].session
  }

  lemma SessionLineIsFirstLine(rows: seq<Row>, list: seq<ViewLine>, row: int)
    requires DistinctSessions(rows) && RowAt(rows, row)
    ensures SessionLine(rows, list, rows[row].session) == FirstLine(list, row)
  {
  }

  /** The anchor records the offset: reading it back over the same lines gives the offset again. */
  lemma AnchorRecordsOffset(v: View, list: seq<ViewLine>, off: nat)
    requires DistinctSessions(v.rows) && off <= |list|
    ensures var w := Anchored(v, list, off);
            && w.scroll == off && AnchoredOffset(w, list) == off
            && (w.anchorSess != "" ==>
                  var line := SessionLine(v.rows, list, w.anchorSess);
                  line >= 0 && w.anchorDelta == off - line)
  {
    var i := AnchorLine(v.rows, list, off);
    if i < |list| {
      SessionLineIsFirstLine(v.rows, list, list[i].row);
      assert FirstLine(list, list[i].row) >= 0;
    }
  }

  /** Composing twice in a row changes nothing. */
  lemma RenderIsIdempotent(v: View, list: seq<ViewLine>, listH: nat)
    requires DistinctSessions(v.rows)
    ensures Rendered(Rendered(v, list, listH), list, listH) == Rendered(v, list, listH)
  {
    hide AnchoredOffset, ScrollOffset, RowOnScreen, SessionLine;
    AnchorRecordsOffset(v, list, NextOffset(v, list, listH));
  }

  ghost predicate NamedSessions(rows: seq<Row>) { forall i :: 0 <= i < |rows| ==> rows[i].session != "" }

  /** Line k is the first at or below off that belongs to a card. */
  ghost predicate TopCard(rows: seq<Row>, list: seq<ViewLine>, off: int, k: int) {
    && 0 <= off <= k < |list| && RowAt(rows, list[k].row)
    && forall j :: off <= j < k ==> !RowAt(rows, list[j].row)
  }

  /** Composing anchors the viewport whenever a card's line is left at or below its top, and then to the card
      of the first such line. */
  lemma AnchorIsTopCard(v: View, list: seq<ViewLine>, listH: nat)
    requires NamedSessions(v.rows)
    ensures var w := Rendered(v, list, listH);
            && (w.anchorSess != "" <==> exists k :: w.scroll <= k < |list| && RowAt(v.rows, list[k].row))
            && (w.anchorSess != "" <==> exists k :: TopCard(v.rows, list, w.scroll, k))
            && forall k :: TopCard(v.rows, list, w.scroll, k) ==> w.anchorSess == v.rows[list[k].row].session
  {
    var off := NextOffset(v, list, listH);
    var i := AnchorLine(v.rows, list, off);
    hide NextOffset, AnchorLine;
    if i < |list| {
      assert TopCard(v.rows, list, off, i);
    }
  }

  /** Viewport stability. A composed pane is refreshed: rows arrive, vanish, re-sort, and are composed
      again without a selection move. Parked at the top the viewport stays there. Below it the card on top
      decides (line k being its first in view): if it is still drawn, its first line keeps its screen position
      exactly when no end of the list clamps the offset; if it is gone, or no card was on top, the viewport
      stays as far as the list reaches. */
  lemma AnchoredCardStays(v: View, list: seq<ViewLine>, listH: nat,
                          rows: seq<Row>, cursor: int, list2: seq<ViewLine>, listH2: nat, k: int)
    requires DistinctSessions(v.rows) && NamedSessions(v.rows)
    ensures var w := Rendered(v, list, listH);
            var w2 := Rendered(w.(rows := rows, cursor := cursor), list2, listH2);
            && (w.scroll == 0 ==> w2.scroll == 0)
            && ((forall i :: w.scroll <= i < |list| ==> !RowAt(v.rows, list[i].row)) ==>
                  w2.scroll == ClampOffset(w.scroll, |list2|, listH2))
    ensures var w := Rendered(v, list, listH);
            var w2 := Rendered(w.(rows := rows, cursor := cursor), list2, listH2);
            TopCard(v.rows, list, w.scroll, k) && w.scroll > 0 ==>
              var session := v.rows[list[k].row].session;
              var line, line2 := SessionLine(v.rows, list, session), SessionLine(rows, list2, session);
              && line >= 0
              && (line2 >= 0 ==>
                    (line2 - w2.scroll == line - w.scroll <==> ValidOffset(line2 - (line - w.scroll), |list2|, listH2)))
              && (line2 < 0 ==> w2.scroll == ClampOffset(w.scroll, |list2|, listH2))
  {
    hide *;
    var w := Rendered(v, list, listH);
    AnchorIsTopCard(v, list, listH);
    AnchorIsBehind(v, list, listH);
    Refreshed(w.(rows := rows, cursor := cursor), list2, listH2);
    ClampIsValid(SessionLine(rows, list2, w.anchorSess) + w.anchorDelta, |list2|, listH2);
    ClampAtTop(|list2|, listH2);
  }

  lemma ClampAtTop(n: nat, listH: nat)
    ensures ClampOffset(0, n, listH) == 0
  {
  }

  lemma AnchorIsBehind(v: View, list: seq<ViewLine>, listH: nat)
    requires DistinctSessions(v.rows)
    ensures var w := Rendered(v, list, listH);
            && w.scroll >= 0 && !w.snapSel
            && (w.anchorSess != "" ==>
                  SessionLine(v.rows, list, w.anchorSess) >= 0 && w.anchorDelta == w.scroll - SessionLine(v.rows, list, w.anchorSess))
  {
    hide NextOffset;
    AnchorRecordsOffset(v, list, NextOffset(v, list, listH));
  }

  lemma RenderedScroll(v: View, list: seq<ViewLine>, listH: int)
    ensures Rendered(v, list, listH).scroll == NextOffset(v, list, listH)
  {
    hide NextOffset, AnchorLine;
  }

  /** Without a selection move composing goes where the anchor says. */
  lemma Refreshed(w: View, list: seq<ViewLine>, listH: nat)
    requires !w.snapSel
    ensures Rendered(w, list, listH).scroll
            == ClampOffset(if w.scroll == 0 then 0
                           else if w.anchorSess != "" && SessionLine(w.rows, list, w.anchorSess) >= 0
                           then SessionLine(w.rows, list, w.anchorSess) + w.anchorDelta
                           else w.scroll, |list|, listH)
  {
    RenderedScroll(w, list, listH);
    hide Rendered, ScrollOffset, RowOnScreen, SessionLine, AnchorLine, FirstLine;
  }

  /** The lines of a row lie together. */
  ghost predicate Unbroken(list: seq<ViewLine>, row: int) {
    forall k :: 0 <= FirstLine(list, row) <= k <= LastLine(list, row) ==> list[k].row == row
  }

  ghost predicate Drawn(list: seq<ViewLine>, row: int, off: int, listH: int) {
    exists k :: 0 <= k < |list| && off <= k < off + listH && list[k].row == row
  }

  lemma OnScreenIsDrawn(list: seq<ViewLine>, row: int, off: nat, listH: nat)
    requires Unbroken(list, row)
    ensures RowOnScreen(list, row, off, listH) <==> Drawn(list, row, off, listH)
  {
    var lo, hi := FirstLine(list, row), LastLine(list, row);
    if RowOnScreen(list, row, off, listH) {
      assert list[if lo < off then off else lo].row == row;
    }
  }

  /** The viewport leaves the place its anchor gives it only for a selection that moved and is not drawn there,
      and then the selection is drawn. */
  lemma SnapShowsSelection(v: View, list: seq<ViewLine>, listH: nat)
    requires Unbroken(list, v.cursor)
    ensures var off, was := NextOffset(v, list, listH), ClampOffset(AnchoredOffset(v, list), |list|, listH);
            && (!v.snapSel || Drawn(list, v.cursor, was, listH) ==> off == was)
            && (v.snapSel && listH > 0 && (exists k :: 0 <= k < |list| && list[k].row == v.cursor) ==> Drawn(list, v.cursor, off, listH))
  {
    var off, was := NextOffset(v, list, listH), ClampOffset(AnchoredOffset(v, list), |list|, listH);
    OnScreenIsDrawn(list, v.cursor, was, listH);
    OnScreenIsDrawn(list, v.cursor, off, listH);
    if k :| 0 <= k < |list| && list[k].row == v.cursor {
      assert 0 <= FirstLine(list, v.cursor) <= LastLine(list, v.cursor);
    }
    hide AnchoredOffset, Unbroken, Drawn;
  }

  /** A snap for a session that has no row yet (cursor -1) looks for lines that map to row -1. It moves the
      viewport exactly when there is room to scroll, such a line is drawn, and none is on screen. */
  lemma ParkedSnapMoves(v: View, list: seq<ViewLine>, listH: nat)
    requires v.cursor == -1 && listH > 0
    ensures var off := NextOffset(v.(snapSel := false), list, listH);
            NextOffset(v.(snapSel := true), list, listH) != off
            <==> |list| > listH && FirstLine(list, -1) >= 0 && !RowOnScreen(list, -1, off, listH)
  {
  }
}

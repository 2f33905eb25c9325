// One composed pane of the sidebar: the cards, the three bands, the overlays and the mouse maps
// (cmd/orchard-sidebar: cards.go, compose.go, menuview.go, updateview.go, selection.go).

module Frame {
  import opened Viewport
  import opened Splitting

  // ---- the cards ----------------------------------------------------------------------------

  /** What a card says on its li-th line, for the n-th visible card showing row i. */
  type CardText = (nat, nat, nat) -> string

  function CardHeight(compact: bool): nat { if compact then 2 else 4 }

  /** Lines above the n-th of a run of cards. */
  function Above(compact: bool, n: int): int { if compact then 2 * n else 4 * n }

  predicate VisibleIn(rows: seq<Row>, vis: seq<nat>) { forall n :: 0 <= n < |vis| ==> vis[n] < |rows| }

  ghost predicate Increasing(vis: seq<nat>) { forall m, n :: 0 <= m < n < |vis| ==> vis[m] < vis[n] }

  /** The rows the filter keeps, by index in the model. */
  method VisibleRows(rows: seq<Row>, keeps: Row -> bool) returns (vis: seq<nat>)
    ensures VisibleIn(rows, vis) && Increasing(vis)
    ensures forall i: nat :: i in vis <==> i < |rows| && keeps(rows[i])
  {
    vis := [];
    for i := 0 to |rows|
      invariant VisibleIn(rows, vis) && Increasing(vis)
      invariant forall j: nat :: j in vis <==> j < i && keeps(rows[j])
    {
      if keeps(rows[i]) {
        assert forall n :: 0 <= n < |vis| ==> vis[n] in vis;
        vis := vis + [i];
      }
    }
  }

  function Block(text: CardText, compact: bool, n: nat, i: nat): (b: seq<ViewLine>)
    ensures |b| == CardHeight(compact)
    ensures forall li :: 0 <= li < |b| ==> b[li] == ViewLine(text(n, i, li), i, "", false)
  {
    seq(CardHeight(compact), li requires li >= 0 => ViewLine(text(n, i, li), i, "", false))
  }

  function Blocks(text: CardText, compact: bool, vis: seq<nat>, lo: nat, hi: nat): (b: seq<ViewLine>)
    requires lo <= hi <= |vis|
    ensures |b| == Above(compact, hi - lo)
    decreases hi
  {
    if lo == hi then [] else Blocks(text, compact, vis, lo, hi - 1) + Block(text, compact, hi - 1, vis[hi - 1])
  }

  predicate PinnedBefore(rows: seq<Row>, vis: seq<nat>, n: nat)
    requires VisibleIn(rows, vis) && n <= |vis|
  {
    exists j :: 0 <= j < n && rows[vis[j]].pinned
  }

  predicate Boundary(rows: seq<Row>, vis: seq<nat>, n: nat)
    requires VisibleIn(rows, vis) && n < |vis|
  {
    !rows[vis[n]].pinned && PinnedBefore(rows, vis, n)
  }

  /** Where the pinned block ends: the first unpinned card under a pinned one, |vis| when there is none. */
  function SepAt(rows: seq<Row>, vis: seq<nat>, n: nat := 0): (p: nat)
    requires VisibleIn(rows, vis) && n <= |vis|
    ensures n <= p <= |vis| && (p < |vis| ==> Boundary(rows, vis, p))
    ensures forall j :: n <= j < p ==> !Boundary(rows, vis, j)
    decreases |vis| - n
  {
    if n == |vis| || Boundary(rows, vis, n) then n else SepAt(rows, vis, n + 1)
  }

  function SepLine(dashes: string): ViewLine { ViewLine(dashes, -1, "", true) }

  /** The scrolling band: every visible card in order, one separator where the pinned block ends. */
  function CardLines(text: CardText, dashes: string, compact: bool, rows: seq<Row>, vis: seq<nat>): seq<ViewLine>
    requires VisibleIn(rows, vis)
  {
    var p := SepAt(rows, vis);
    Blocks(text, compact, vis, 0, p)
    + (if p < |vis| then [SepLine(dashes)] else [])
    + Blocks(text, compact, vis, p, |vis|)
  }

  method AppendCard(before: seq<ViewLine>, text: CardText, compact: bool, n: nat, i: nat) returns (out: seq<ViewLine>)
    ensures out == before + Block(text, compact, n, i)
  {
    ghost var block := Block(text, compact, n, i);
    out := before;
    for li := 0 to CardHeight(compact)
      invariant out == before + block[..li]
    {
      out := out + [ViewLine(text(n, i, li), i, "", false)];
      assert block[..li + 1] == block[..li] + [block[li]];
    }
  }

  /** What the band says when the filter keeps nothing: two lines that belong to no row. */
  function NoMatchLines(message: string): seq<ViewLine> {
    [ViewLine("", -1, "", false), ViewLine(message, -1, "", false)]
  }

  /** The list band: the cards, or with a query and no card the message, or nothing. */
  function ListLines(text: CardText, dashes: string, compact: bool, rows: seq<Row>, vis: seq<nat>,
                     query: string, message: string): seq<ViewLine>
    requires VisibleIn(rows, vis)
  {
    if vis == [] && query != "" then NoMatchLines(message) else CardLines(text, dashes, compact, rows, vis)
  }

  method Cards(text: CardText, dashes: string, compact: bool, rows: seq<Row>, vis: seq<nat>, query: string, message: string)
    returns (out: seq<ViewLine>)
    requires VisibleIn(rows, vis)
    ensures out == ListLines(text, dashes, compact, rows, vis, query, message)
    ensures vis == [] && query == "" ==> out == []
    ensures vis == [] && query != "" ==>
              |out| == 2 && out[0].text == "" && out[1].text == message && out[0].row == out[1].row == -1
  {
    if |vis| == 0 {
      return if query != "" then NoMatchLines(message) else [];
    }
    out := DrawCards(text, dashes, compact, rows, vis);
  }

  method DrawCards(text: CardText, dashes: string, compact: bool, rows: seq<Row>, vis: seq<nat>)
    returns (out: seq<ViewLine>)
    requires VisibleIn(rows, vis)
    ensures out == CardLines(text, dashes, compact, rows, vis)
  {
    hide Block;
    ghost var p := SepAt(rows, vis);
    out := [];
    var pinnedSeen, sepDone := false, false;
    for n := 0 to |vis|
      invariant pinnedSeen == PinnedBefore(rows, vis, n) && sepDone == (p < n)
      invariant n <= p ==> out == Blocks(text, compact, vis, 0, n)
      invariant n > p ==> out == Blocks(text, compact, vis, 0, p) + [SepLine(dashes)] + Blocks(text, compact, vis, p, n)
    {
      assert n < p ==> !Boundary(rows, vis, n);
      assert n == p ==> Boundary(rows, vis, n);
      var i := vis[n];
      if !rows[i].pinned && pinnedSeen && !sepDone {
        out := out + [SepLine(dashes)];
        sepDone := true;
      }
      if rows[i].pinned {
        pinnedSeen := true;
      }
      out := AppendCard(out, text, compact, n, i);
    }
  }

  lemma {:induction false} BlocksAt(text: CardText, compact: bool, vis: seq<nat>, lo: nat, hi: nat, n: nat, li: nat)
    requires lo <= n < hi <= |vis| && li < CardHeight(compact)
    ensures Blocks(text, compact, vis, lo, hi)[Above(compact, n - lo) + li] == ViewLine(text(n, vis[n], li), vis[n], "", false)
    decreases hi
  {
    if n < hi - 1 {
      BlocksAt(text, compact, vis, lo, hi - 1, n, li);
    }
  }

  /** The card of the n-th visible row starts here. */
  function CardStart(compact: bool, rows: seq<Row>, vis: seq<nat>, n: nat): int
    requires VisibleIn(rows, vis)
  {
    Above(compact, n) + (if SepAt(rows, vis) <= n then 1 else 0)
  }

  /** Where each card sits depends on how many cards there are above it and nothing they say. */
  lemma CardGrid(text: CardText, dashes: string, compact: bool, rows: seq<Row>, vis: seq<nat>, n: nat, li: nat)
    requires VisibleIn(rows, vis) && n < |vis| && li < CardHeight(compact)
    ensures CardStart(compact, rows, vis, n) + li < |CardLines(text, dashes, compact, rows, vis)|
    ensures CardLines(text, dashes, compact, rows, vis)[CardStart(compact, rows, vis, n) + li]
            == ViewLine(text(n, vis[n], li), vis[n], "", false)
  {
    var p := SepAt(rows, vis);
    if n < p {
      BlocksAt(text, compact, vis, 0, p, n, li);
    } else {
      BlocksAt(text, compact, vis, p, |vis|, n, li);
    }
  }

  /** Every line of the band belongs to exactly one card or is the one separator, which is drawn exactly
      when an unpinned card is listed under a pinned one. */
  lemma LineOwner(text: CardText, dashes: string, compact: bool, rows: seq<Row>, vis: seq<nat>, k: nat)
    returns (n: nat, li: nat)
    requires VisibleIn(rows, vis) && k < |CardLines(text, dashes, compact, rows, vis)|
    ensures var p := SepAt(rows, vis);
            if p < |vis| && k == Above(compact, p) then
              CardLines(text, dashes, compact, rows, vis)[k] == SepLine(dashes)
            else
              && n < |vis| && li < CardHeight(compact) && k == CardStart(compact, rows, vis, n) + li
              && CardLines(text, dashes, compact, rows, vis)[k] == ViewLine(text(n, vis[n], li), vis[n], "", false)
  {
    var p := SepAt(rows, vis);
    var j := if p < |vis| && k > Above(compact, p) then k - 1 else k;
    n, li := if compact then j / 2 else j / 4, if compact then j % 2 else j % 4;
    if !(p < |vis| && k == Above(compact, p)) {
      CardGrid(text, dashes, compact, rows, vis, n, li);
    }
  }

  /** A card is one unbroken run of CardHeight lines: its first and last line are where the grid says. */
  lemma CardSpan(text: CardText, dashes: string, compact: bool, rows: seq<Row>, vis: seq<nat>, n: nat)
    requires VisibleIn(rows, vis) && Increasing(vis) && n < |vis|
    ensures var list := CardLines(text, dashes, compact, rows, vis);
            && FirstLine(list, vis[n]) == CardStart(compact, rows, vis, n)
            && LastLine(list, vis[n]) == CardStart(compact, rows, vis, n) + CardHeight(compact) - 1
  {
    hide CardLines, SepAt, Block;
    var list, row := CardLines(text, dashes, compact, rows, vis), vis[n];
    CardGrid(text, dashes, compact, rows, vis, n, 0);
    CardGrid(text, dashes, compact, rows, vis, n, CardHeight(compact) - 1);
    var a, li := LineOwner(text, dashes, compact, rows, vis, FirstLine(list, row));
    var b, lj := LineOwner(text, dashes, compact, rows, vis, LastLine(list, row));
  }

  /** A row the filter hides draws nothing, so it is never on screen. */
  lemma HiddenRowDrawsNothing(text: CardText, dashes: string, compact: bool, rows: seq<Row>, vis: seq<nat>, row: nat)
    requires VisibleIn(rows, vis) && row !in vis
    ensures FirstLine(CardLines(text, dashes, compact, rows, vis), row) == -1
  {
    var first := FirstLine(CardLines(text, dashes, compact, rows, vis), row);
    if first >= 0 {
      var n, li := LineOwner(text, dashes, compact, rows, vis, first);
    }
  }

  // ---- composing the bands ------------------------------------------------------------------

  /** The lines the list band shows: the list from off on, padded so the footer stays at the bottom. */
  function Window(list: seq<ViewLine>, off: nat, listH: nat): (w: seq<ViewLine>)
    ensures |w| == listH
    ensures forall i :: 0 <= i < listH ==> w[i] == (if off + i < |list| then list[off + i] else ViewLine("", -1, "", false))
  {
    seq(listH, i requires i >= 0 => if off + i < |list| then list[off + i] else ViewLine("", -1, "", false))
  }

  function Bands(head: seq<ViewLine>, list: seq<ViewLine>, foot: seq<ViewLine>, off: nat, lay: PaneLayout): seq<ViewLine>
    requires lay.listH >= 0
  {
    ClampBand(head, lay.headerH, false) + Window(list, off, lay.listH) + ClampBand(foot, lay.footerH, true)
  }

  /** The bands tile the pane exactly: the header's first lines on top, the footer's last lines at the
      bottom, whatever the list holds and wherever it is scrolled. */
  lemma BandsTile(head: seq<ViewLine>, list: seq<ViewLine>, foot: seq<ViewLine>, off: nat, height: nat)
    requires height > 0
    ensures var lay := LayoutPane(height, |head|, |foot|);
            var out := Bands(head, list, foot, off, lay);
            && |out| == height && lay.listH >= 0 && lay.footerY == height - lay.footerH
            && out[..lay.headerH] == head[..lay.headerH]
            && out[lay.listY..lay.footerY] == Window(list, off, lay.listH)
            && out[lay.footerY..] == foot[|foot| - lay.footerH..]
  {
    LayoutTiles(height, |head|, |foot|);
  }

  /** Before the height is known the pane is as tall as its bands. No line is clipped or padded exactly
      when the list fills its minimum or there is no footer to take lines from: a shorter list takes
      its minimum from the footer even then. */
  lemma UnknownHeightDrawsAll(head: seq<ViewLine>, list: seq<ViewLine>, foot: seq<ViewLine>)
    ensures var lay := LayoutPane(|head| + |list| + |foot|, |head|, |foot|);
            && ((lay.headerH == |head| && lay.listH == |list| && lay.footerH == |foot|)
                <==> |list| >= MIN_LIST_ROWS || foot == [])
            && (|list| >= MIN_LIST_ROWS || foot == [] ==> Bands(head, list, foot, 0, lay) == head + list + foot)
  {
    var lay := LayoutPane(|head| + |list| + |foot|, |head|, |foot|);
    if |list| >= MIN_LIST_ROWS || foot == [] {
      assert Window(list, 0, lay.listH) == list;
    }
  }

  // ---- the overlays -------------------------------------------------------------------------

  /** An overlay box of these lines with its top at y0: it covers, it never grows the pane. */
  function Stamped(out: seq<ViewLine>, box: seq<string>, y0: nat): (r: seq<ViewLine>)
    ensures |r| == |out|
    ensures forall y :: 0 <= y < |out| ==>
              r[y] == (if y0 <= y < y0 + |box| then ViewLine(box[y - y0], -1, "", false) else out[y])
  {
    seq(|out|, y requires 0 <= y < |out| =>
      if y0 <= y < y0 + |box| then ViewLine(box[y - y0], -1, "", false) else out[y])
  }

  method Stamp(out: seq<ViewLine>, box: seq<string>, y0: nat) returns (r: seq<ViewLine>)
    ensures r == Stamped(out, box, y0)
  {
    r := out;
    var i := 0;
    while i < |box| && y0 + i < |out|
      invariant 0 <= i <= |box| && |r| == |out|
      invariant forall y :: 0 <= y < |out| ==>
                  r[y] == (if y0 <= y < y0 + i then ViewLine(box[y - y0], -1, "", false) else out[y])
    {
      r := r[y0 + i := ViewLine(box[i], -1, "", false)];
      i := i + 1;
    }
  }

  predicate Fits(box: seq<string>, height: int) { 0 < |box| <= height }

  /** The update overlay hangs under the header, pushed up where it would run off the pane. */
  function UpdateTop(box: seq<string>, height: int, headerH: int): int {
    if headerH + |box| > height then (if height - |box| < 0 then 0 else height - |box|) else headerH
  }

  /** The row menu hangs under the line it was opened on, likewise. */
  function MenuTop(box: seq<string>, height: int, anchor: int): nat {
    var y := if anchor + 1 < height - |box| then anchor + 1 else height - |box|;
    if y < 0 then 0 else y
  }

  /** A drawn overlay lies wholly inside the pane, as low as it can without leaving its place: no lower than
      right under the header, or right under the line the menu was opened on. */
  lemma OverlaysFit(box: seq<string>, height: int, headerH: nat, anchor: int)
    requires Fits(box, height)
    ensures 0 <= UpdateTop(box, height, headerH) <= headerH && UpdateTop(box, height, headerH) + |box| <= height
    ensures MenuTop(box, height, anchor) + |box| <= height
    ensures anchor >= -1 ==> MenuTop(box, height, anchor) <= anchor + 1
    ensures UpdateTop(box, height, headerH) == headerH || UpdateTop(box, height, headerH) + |box| == height
    ensures anchor >= -1 ==> MenuTop(box, height, anchor) == anchor + 1 || MenuTop(box, height, anchor) + |box| == height
  {
  }

  // ---- the frame ----------------------------------------------------------------------------

  datatype MenuBox = MenuBox(y: nat, h: nat)

  datatype PaneFrame = PaneFrame(text: string, lineToRow: seq<int>, lineToCopy: seq<string>, menuBox: MenuBox, pinSep: int)
  {
    /** The row under a screen line, -1 off the pane and on chrome. */
    function RowAtLine(y: int): int {
      if 0 <= y < |lineToRow| && lineToRow[y] >= 0 then lineToRow[y] else -1
    }
  }

  datatype Overlays = Overlays(update: seq<string>, menu: seq<string>, anchor: int)

  function Rows(out: seq<ViewLine>): (m: seq<int>)
    ensures |m| == |out| && forall y :: 0 <= y < |m| ==> m[y] == out[y].row
  {
    seq(|out|, y requires 0 <= y < |out| => out[y].row)
  }

  function Copies(out: seq<ViewLine>): (m: seq<string>)
    ensures |m| == |out| && forall y :: 0 <= y < |m| ==> m[y] == out[y].copy
  {
    seq(|out|, y requires 0 <= y < |out| => out[y].copy)
  }

  function Texts(out: seq<ViewLine>): (m: seq<string>)
    ensures |m| == |out| && forall y :: 0 <= y < |m| ==> m[y] == out[y].text
  {
    seq(|out|, y requires 0 <= y < |out| => out[y].text)
  }

  /** The lines joined by newlines, with none after the last. */
  function Joined(texts: seq<string>): string {
    if texts == [] then "" else if |texts| == 1 then texts[0] else texts[0] + ['\n'] + Joined(texts[1..])
  }

  /** The terminal draws the joined text as exactly the lines it was made from. */
  lemma {:induction false} JoinedSplits(texts: seq<string>)
    requires texts != [] && forall i :: 0 <= i < |texts| ==> '\n' !in texts[i]
    ensures Split(Joined(texts), '\n') == texts
  {
    SplitNone(texts[0], '\n');
    if |texts| > 1 {
      JoinedSplits(texts[1..]);
      SplitAt(texts[0], '\n', Joined(texts[1..]));
    } else {
      assert texts == [texts[0]];
    }
  }

  function LastSep(w: seq<ViewLine>): (i: int)
    ensures -1 <= i < |w| && (i >= 0 ==> w[i].sep) && forall k :: i < k < |w| ==> !w[k].sep
  {
    if w == [] then -1 else if w[|w| - 1].sep then |w| - 1 else LastSep(w[..|w| - 1])
  }

  function PinSep(list: seq<ViewLine>, off: nat, lay: PaneLayout): int
    requires lay.listH >= 0
  {
    var i := LastSep(Window(list, off, lay.listH));
    if i < 0 then -1 else lay.headerH + i
  }

  function Tall(height: int, head: seq<ViewLine>, list: seq<ViewLine>, foot: seq<ViewLine>): int {
    if height <= 0 then |head| + |list| + |foot| else height
  }

  /** The finished pane: bands, then the update overlay, then the row menu over both. */
  function Painted(head: seq<ViewLine>, list: seq<ViewLine>, foot: seq<ViewLine>, off: nat, height: nat, over: Overlays):
    seq<ViewLine>
  {
    var lay := LayoutPane(height, |head|, |foot|);
    var bands := Bands(head, list, foot, off, lay);
    var under := if Fits(over.update, height) then Stamped(bands, over.update, UpdateTop(over.update, height, lay.headerH)) else bands;
    if Fits(over.menu, height) then Stamped(under, over.menu, MenuTop(over.menu, height, over.anchor)) else under
  }

  /** What the layout puts on screen line y. */
  lemma BandAt(head: seq<ViewLine>, list: seq<ViewLine>, foot: seq<ViewLine>, off: nat, height: nat, y: nat)
    requires height > 0 && y < height
    ensures var lay := LayoutPane(height, |head|, |foot|);
            var out := Bands(head, list, foot, off, lay);
            && |out| == height
            && (if y < lay.headerH then y < |head| && out[y] == head[y]
                else if y < lay.footerY then out[y] == Window(list, off, lay.listH)[y - lay.headerH]
                else |foot| - (height - y) >= 0 && out[y] == foot[|foot| - (height - y)])
  {
    LayoutTiles(height, |head|, |foot|);
  }

  /** The frame composing makes of a viewport and its bands. */
  function Composed(v: View, head: seq<ViewLine>, list: seq<ViewLine>, foot: seq<ViewLine>, height: int, over: Overlays):
    PaneFrame
  {
    var tall := Tall(height, head, list, foot);
    var lay := LayoutPane(tall, |head|, |foot|);
    var off := NextOffset(v, list, lay.listH);
    var out := Painted(head, list, foot, off, tall, over);
    PaneFrame(Joined(Texts(out)), Rows(out), Copies(out),
              if Fits(over.menu, tall) then MenuBox(MenuTop(over.menu, tall, over.anchor), |over.menu|) else MenuBox(0, 0),
              PinSep(list, off, lay))
  }

  function ListHeight(head: seq<ViewLine>, list: seq<ViewLine>, foot: seq<ViewLine>, height: int): int {
    LayoutPane(Tall(height, head, list, foot), |head|, |foot|).listH
  }

  /** Composing twice in a row changes neither scroll nor anchor nor anything of the frame. */
  lemma ComposingTwice(v: View, head: seq<ViewLine>, list: seq<ViewLine>, foot: seq<ViewLine>, height: int, over: Overlays)
    requires DistinctSessions(v.rows)
    ensures var w := Rendered(v, list, ListHeight(head, list, foot, height));
            && Rendered(w, list, ListHeight(head, list, foot, height)) == w
            && Composed(w, head, list, foot, height, over) == Composed(v, head, list, foot, height, over)
  {
    var listH := ListHeight(head, list, foot, height);
    RenderIsIdempotent(v, list, listH);
    RenderedScroll(v, list, listH);
    RenderedScroll(Rendered(v, list, listH), list, listH);
    hide NextOffset, Rendered, Painted, Joined, Texts, Rows, Copies, PinSep, MenuTop, DistinctSessions;
  }

  /** The frame is painted where the viewport stands once composed, and its maps and its separator are those
      of the painted lines. */
  lemma FrameShowsViewport(v: View, head: seq<ViewLine>, list: seq<ViewLine>, foot: seq<ViewLine>, height: int, over: Overlays)
    ensures var tall := Tall(height, head, list, foot);
            var w := Rendered(v, list, ListHeight(head, list, foot, height));
            var frame := Composed(v, head, list, foot, height, over);
            var out := Painted(head, list, foot, w.scroll, tall, over);
            && w.scroll >= 0 && tall >= 0
            && frame.text == Joined(Texts(out)) && |frame.lineToRow| == |frame.lineToCopy| == |out|
            && (forall y :: 0 <= y < |out| ==> frame.lineToRow[y] == out[y].row && frame.lineToCopy[y] == out[y].copy)
            && frame.pinSep == PinSep(list, w.scroll, LayoutPane(tall, |head|, |foot|))
            && (if Fits(over.menu, tall) then frame.menuBox == MenuBox(MenuTop(over.menu, tall, over.anchor), |over.menu|)
                else frame.menuBox.h == 0)
  {
    RenderedScroll(v, list, ListHeight(head, list, foot, height));
    hide NextOffset, Rendered, Painted, Joined, Texts, Rows, Copies, PinSep, MenuTop;
  }

  predicate Covered(over: Overlays, height: int, headerH: int, y: int) {
    || (Fits(over.menu, height) && 0 <= y - MenuTop(over.menu, height, over.anchor) < |over.menu|)
    || (Fits(over.update, height) && 0 <= y - UpdateTop(over.update, height, headerH) < |over.update|)
  }

  /** The frame has exactly the pane's height; outside the overlays every screen line is the header line,
      list line or footer line the layout puts there; under one it is the overlay's own line, the menu's where
      both cover it, and answers no click. */
  lemma ExactFrame(head: seq<ViewLine>, list: seq<ViewLine>, foot: seq<ViewLine>, off: nat, height: nat, over: Overlays, y: nat)
    requires height > 0 && y < height
    ensures var lay := LayoutPane(height, |head|, |foot|);
            var out := Painted(head, list, foot, off, height, over);
            && |out| == height
            && (if Covered(over, height, lay.headerH, y) then
                  var dm, du := y - MenuTop(over.menu, height, over.anchor), y - UpdateTop(over.update, height, lay.headerH);
                  && out[y].row == -1 && out[y].copy == "" && !out[y].sep
                  && (Fits(over.menu, height) && 0 <= dm < |over.menu| ==> out[y].text == over.menu[dm])
                  && (!(Fits(over.menu, height) && 0 <= dm < |over.menu|) ==> 0 <= du < |over.update| && out[y].text == over.update[du])
                else if y < lay.headerH then y < |head| && out[y] == head[y]
                else if y < lay.footerY then out[y] == Window(list, off, lay.listH)[y - lay.headerH]
                else |foot| - (height - y) >= 0 && out[y] == foot[|foot| - (height - y)])
  {
    hide LayoutPane, Bands, Window;
    BandAt(head, list, foot, off, height, y);
  }

  predicate Chrome(band: seq<ViewLine>) { forall i :: 0 <= i < |band| ==> band[i].row == -1 }

  lemma PaintedRowIsCard(head: seq<ViewLine>, list: seq<ViewLine>, foot: seq<ViewLine>, off: nat, height: nat,
                         over: Overlays, y: nat)
    requires Chrome(head) && Chrome(foot)
    requires height > 0 && y < height
    requires |Painted(head, list, foot, off, height, over)| == height
    requires Painted(head, list, foot, off, height, over)[y].row >= 0
    ensures var lay := LayoutPane(height, |head|, |foot|);
            var row := Painted(head, list, foot, off, height, over)[y].row;
            && lay.headerH <= y < lay.footerY && !Covered(over, height, lay.headerH, y)
            && off + (y - lay.headerH) < |list| && list[off + (y - lay.headerH)].row == row
            && RowOnScreen(list, row, off, lay.listH)
  {
    hide Painted, Covered, RowOnScreen;
    var lay := LayoutPane(height, |head|, |foot|);
    LayoutTiles(height, |head|, |foot|);
    ExactFrame(head, list, foot, off, height, over, y);
    ClickedRowIsOnScreen(list, off, lay.listH, off + (y - lay.headerH));
  }

  /** Wherever on the screen a click falls, it answers with a row only on an uncovered list line of that row,
      and the card it selects is on screen. */
  lemma ClickHitsDrawnCard(v: View, head: seq<ViewLine>, list: seq<ViewLine>, foot: seq<ViewLine>, height: int,
                           over: Overlays, y: int)
    requires Chrome(head) && Chrome(foot)
    ensures var tall := Tall(height, head, list, foot);
            var lay := LayoutPane(tall, |head|, |foot|);
            var off := Rendered(v, list, ListHeight(head, list, foot, height)).scroll;
            var row := Composed(v, head, list, foot, height, over).RowAtLine(y);
            row >= 0 ==>
              && lay.headerH <= y < lay.footerY && !Covered(over, tall, lay.headerH, y)
              && 0 <= off + (y - lay.headerH) < |list| && list[off + (y - lay.headerH)].row == row
              && RowOnScreen(list, row, off, lay.listH)
  {
    hide *;
    var frame := Composed(v, head, list, foot, height, over);
    var off := Rendered(v, list, ListHeight(head, list, foot, height)).scroll;
    FrameShowsViewport(v, head, list, foot, height, over);
    PaintedHeight(head, list, foot, off, Tall(height, head, list, foot), over);
    AnswerIsRow(frame, y);
    if frame.RowAtLine(y) >= 0 {
      PaintedRowIsCard(head, list, foot, off, Tall(height, head, list, foot), over, y);
    }
  }

  lemma AnswerIsRow(frame: PaneFrame, y: int)
    ensures frame.RowAtLine(y) >= 0 ==> 0 <= y < |frame.lineToRow| && frame.lineToRow[y] == frame.RowAtLine(y)
  {
  }

  lemma PaintedHeight(head: seq<ViewLine>, list: seq<ViewLine>, foot: seq<ViewLine>, off: nat, height: nat, over: Overlays)
    ensures |Painted(head, list, foot, off, height, over)| == height
  {
    if height > 0 {
      ExactFrame(head, list, foot, off, height, over, 0);
    }
  }

  lemma SameRowsSameSpan(a: seq<ViewLine>, b: seq<ViewLine>, row: int)
    requires |a| == |b| && forall k :: 0 <= k < |a| ==> a[k].row == b[k].row
    ensures FirstLine(a, row) == FirstLine(b, row) && LastLine(a, row) == LastLine(b, row)
  {
  }

  /** A click on a drawn card that leaves the rows where they are does not move the viewport. */
  lemma ClickKeepsViewport(v: View, list: seq<ViewLine>, listH: nat, y: nat, redrawn: seq<ViewLine>)
    requires DistinctSessions(v.rows)
    requires v == Rendered(v, list, listH)
    requires v.scroll <= y < v.scroll + listH && y < |list|
    requires |redrawn| == |list| && forall k :: 0 <= k < |list| ==> redrawn[k].row == list[k].row
    ensures Rendered(v.(cursor := list[y].row, snapSel := true), redrawn, listH).scroll == v.scroll
  {
    hide *;
    var row := list[y].row;
    RenderedScroll(v, list, listH);
    ClickedRowIsOnScreen(list, v.scroll, listH, y);
    SameRowsSameSpan(list, redrawn, row);
    SameRowsSameCards(v.rows, list, redrawn, v.anchorSess);
    RenderedScroll(v.(cursor := row, snapSel := true), redrawn, listH);
    StaysInView(v, list, listH, row, redrawn);
  }

  lemma SameRowsSameCards(rows: seq<Row>, a: seq<ViewLine>, b: seq<ViewLine>, session: string)
    requires |a| == |b| && forall k :: 0 <= k < |a| ==> a[k].row == b[k].row
    ensures SessionLine(rows, a, session) == SessionLine(rows, b, session)
  {
  }

  lemma StaysInView(v: View, list: seq<ViewLine>, listH: nat, row: int, redrawn: seq<ViewLine>)
    requires v == Rendered(v, list, listH) && v.scroll == NextOffset(v, list, listH)
    requires |redrawn| == |list| && RowOnScreen(list, row, v.scroll, listH)
    requires FirstLine(list, row) == FirstLine(redrawn, row) && LastLine(list, row) == LastLine(redrawn, row)
    requires SessionLine(v.rows, list, v.anchorSess) == SessionLine(v.rows, redrawn, v.anchorSess)
    ensures NextOffset(v.(cursor := row, snapSel := true), redrawn, listH) == v.scroll
  {
    assert !v.snapSel by {
      hide NextOffset, AnchorLine;
    }
    hide Rendered, ScrollOffset, SessionLine, FirstLine, LastLine, ClampOffset;
    assert v.scroll == ClampOffset(AnchoredOffset(v, list), |list|, listH);
  }

  /** The recorded separator line is where the separator is drawn, or -1 when it is scrolled out of view
      or there is none. */
  lemma PinSepIsOnScreen(text: CardText, dashes: string, compact: bool, rows: seq<Row>, vis: seq<nat>, off: nat, lay: PaneLayout)
    requires VisibleIn(rows, vis) && lay.listH >= 0
    ensures var p := SepAt(rows, vis);
            PinSep(CardLines(text, dashes, compact, rows, vis), off, lay)
            == if p < |vis| && off <= Above(compact, p) < off + lay.listH then lay.headerH + Above(compact, p) - off else -1
  {
    hide CardLines, SepAt, Block;
    var list, p := CardLines(text, dashes, compact, rows, vis), SepAt(rows, vis);
    var w := Window(list, off, lay.listH);
    var i := LastSep(w);
    forall k | 0 <= k < |list|
      ensures list[k].sep <==> p < |vis| && k == Above(compact, p)
    {
      var n, li := LineOwner(text, dashes, compact, rows, vis, k);
    }
    SeparatorIsDrawn(text, dashes, compact, rows, vis);
    assert p < |vis| && off <= Above(compact, p) < off + lay.listH ==> w[Above(compact, p) - off].sep;
  }

  /** The only card line that maps to row -1 is the separator. */
  lemma NoRowIsSeparator(text: CardText, dashes: string, compact: bool, rows: seq<Row>, vis: seq<nat>)
    requires VisibleIn(rows, vis)
    ensures var list, p := CardLines(text, dashes, compact, rows, vis), SepAt(rows, vis);
            var at := if p < |vis| then Above(compact, p) else -1;
            FirstLine(list, -1) == at && LastLine(list, -1) == at
  {
    var list, p := CardLines(text, dashes, compact, rows, vis), SepAt(rows, vis);
    SeparatorIsDrawn(text, dashes, compact, rows, vis);
    hide CardLines, SepAt, Block;
    forall k | 0 <= k < |list|
      ensures list[k].row == -1 <==> p < |vis| && k == Above(compact, p)
    {
      var n, li := LineOwner(text, dashes, compact, rows, vis, k);
    }
    assert p < |vis| ==> list[Above(compact, p)].row == -1;
  }

  /** So over cards a snap for a session without a row moves the viewport exactly when there is room to
      scroll and a separator is drawn out of view. Over the message of a filter it never does. */
  lemma ParkedSnapOnList(v: View, text: CardText, dashes: string, compact: bool, rows: seq<Row>, vis: seq<nat>,
                         query: string, message: string, listH: nat)
    requires VisibleIn(rows, vis) && v.cursor == -1 && listH > 0
    ensures var list, p := ListLines(text, dashes, compact, rows, vis, query, message), SepAt(rows, vis);
            var off := NextOffset(v.(snapSel := false), list, listH);
            NextOffset(v.(snapSel := true), list, listH) != off
            <==> p < |vis| && |list| > listH && !(off <= Above(compact, p) < off + listH)
  {
    var list := ListLines(text, dashes, compact, rows, vis, query, message);
    ParkedSnapMoves(v, list, listH);
    if vis == [] && query != "" {
      MessageHasNoRow(message);
    } else {
      NoRowIsSeparator(text, dashes, compact, rows, vis);
    }
    hide CardLines, SepAt, NextOffset;
  }

  lemma MessageHasNoRow(message: string)
    ensures FirstLine(NoMatchLines(message), -1) == 0 && LastLine(NoMatchLines(message), -1) == 1
  {
    var list := NoMatchLines(message);
    assert list[0].row == -1 && list[1].row == -1;
  }

  /** One pinned and one unpinned card, two lines of room, parked on the last lines: the snap scrolls up to
      the separator between the cards. */
  lemma ParkedCursorSnapsToSeparator(text: CardText, dashes: string)
    ensures var rows, vis := [Row("a", true, false), Row("b", false, false)], [0, 1];
            var list := CardLines(text, dashes, false, rows, vis);
            var v := View(rows, -1, 6, false, "", 0);
            NextOffset(v, list, 2) == 6 && NextOffset(v.(snapSel := true), list, 2) == Above(false, SepAt(rows, vis)) == 4
  {
    var rows, vis := [Row("a", true, false), Row("b", false, false)], [0, 1];
    assert rows[vis[0]].pinned && !Boundary(rows, vis, 0);
    assert Boundary(rows, vis, 1);
    assert SepAt(rows, vis) == 1;
    assert |CardLines(text, dashes, false, rows, vis)| == 9;
    NoRowIsSeparator(text, dashes, false, rows, vis);
    hide CardLines, SepAt;
  }

  lemma SeparatorIsDrawn(text: CardText, dashes: string, compact: bool, rows: seq<Row>, vis: seq<nat>)
    requires VisibleIn(rows, vis)
    ensures SepAt(rows, vis) < |vis| ==> Above(compact, SepAt(rows, vis)) < |CardLines(text, dashes, compact, rows, vis)|
  {
  }

  // ---- the pane as the program keeps it ------------------------------------------------------

  /** What reanchorCursor leaves: the bar follows its session, parks while that session has no row, and
      before anyone chose a session takes the first attached row. */
  ghost predicate CursorFollows(rows: seq<Row>, was: string, cursor: int, session: string) {
    if rows == [] then cursor == 0 && session == was
    else if was != "" then
      && session == was
      && (if exists i :: 0 <= i < |rows| && rows[i].session == was
          then 0 <= cursor < |rows| && rows[cursor].session == was && forall i :: 0 <= i < cursor ==> rows[i].session != was
          else cursor == -1)
    else
      && 0 <= cursor < |rows| && session == rows[cursor].session
      && (forall i :: 0 <= i < cursor ==> !rows[i].attached)
      && (rows[cursor].attached || (cursor == 0 && forall i :: 0 <= i < |rows| ==> !rows[i].attached))
  }

  class Sidebar {
    var view: View
    var cursorSess: string
    var pane: PaneFrame

    constructor (rows: seq<Row>)
      ensures view == View(rows, 0, 0, false, "", 0) && cursorSess == ""
    {
      view := View(rows, 0, 0, false, "", 0);
      cursorSess := "";
      pane := PaneFrame("", [], [], MenuBox(0, 0), -1);
    }

    method FindAnchored(list: seq<ViewLine>) returns (off: int)
      ensures off == AnchoredOffset(view, list)
    {
      if view.scroll == 0 {
        return 0;
      }
      if view.anchorSess == "" {
        return view.scroll;
      }
      for i := 0 to |list|
        invariant forall k :: 0 <= k < i ==> !(RowAt(view.rows, list[k].row) && view.rows[list[k].row].session == view.anchorSess)
      {
        if RowAt(view.rows, list[i].row) && view.rows[list[i].row].session == view.anchorSess {
          return i + view.anchorDelta;
        }
      }
      return view.scroll;
    }

    method FindOffset(list: seq<ViewLine>, listH: int) returns (off: nat)
      ensures off == NextOffset(view, list, listH)
    {
      var anchored := FindAnchored(list);
      off := ClampOffset(anchored, |list|, listH);
      if view.snapSel {
        var lo, hi := RowSpan(list, view.cursor);
        if !(listH > 0 && lo >= 0 && hi >= off && lo < off + listH) {
          off := ScrollOffset(list, listH, view.cursor, off);
        }
      }
    }

    method Anchor(list: seq<ViewLine>, off: nat)
      requires off <= |list|
      modifies this`view
      ensures view == Anchored(old(view), list, off)
    {
      ghost var was := view;
      view := view.(scroll := off, snapSel := false, anchorSess := "", anchorDelta := 0);
      var i := off;
      while i < |list|
        invariant off <= i <= |list| && view == was.(scroll := off, snapSel := false, anchorSess := "", anchorDelta := 0)
        invariant AnchorLine(was.rows, list, off) == AnchorLine(was.rows, list, i)
      {
        if RowAt(view.rows, list[i].row) {
          var lo, hi := RowSpan(list, list[i].row);
          view := view.(anchorSess := view.rows[list[i].row].session, anchorDelta := off - (if lo < 0 then 0 else lo));
          return;
        }
        i := i + 1;
      }
    }

    method DrawBands(head: seq<ViewLine>, list: seq<ViewLine>, foot: seq<ViewLine>, off: nat, lay: PaneLayout)
      returns (out: seq<ViewLine>, pinSep: int)
      requires 0 <= lay.headerH <= |head| && lay.listH >= 0
      ensures out == Bands(head, list, foot, off, lay) && pinSep == PinSep(list, off, lay)
    {
      out, pinSep := ClampBand(head, lay.headerH, false), -1;
      ghost var top, w := out, Window(list, off, lay.listH);
      for i := 0 to lay.listH
        invariant out == top + w[..i]
        invariant pinSep == if LastSep(w[..i]) < 0 then -1 else lay.headerH + LastSep(w[..i])
      {
        assert w[..i + 1] == w[..i] + [w[i]] && w[..i + 1][..i] == w[..i];
        if off + i < |list| {
          if list[off + i].sep {
            pinSep := |out|;
          }
          out := out + [list[off + i]];
        } else {
          out := out + [ViewLine("", -1, "", false)];
        }
      }
      assert w[..lay.listH] == w;
      out := out + ClampBand(foot, lay.footerH, true);
    }

    method Publish(out: seq<ViewLine>) returns (texts: seq<string>, lineMap: seq<int>, copyMap: seq<string>)
      ensures texts == Texts(out) && lineMap == Rows(out) && copyMap == Copies(out)
    {
      texts, lineMap, copyMap := [], [], [];
      for i := 0 to |out|
        invariant texts == Texts(out)[..i] && lineMap == Rows(out)[..i] && copyMap == Copies(out)[..i]
      {
        texts, lineMap, copyMap := texts + [out[i].text], lineMap + [out[i].row], copyMap + [out[i].copy];
      }
    }

    /** Compose the pane: the viewport moves as Rendered says and the frame is Composed, its maps read off the
        covered result. */
    method Render(head: seq<ViewLine>, list: seq<ViewLine>, foot: seq<ViewLine>, height: int, over: Overlays)
      modifies this`view, this`pane
      ensures view == Rendered(old(view), list, ListHeight(head, list, foot, height))
      ensures pane == Composed(old(view), head, list, foot, height, over)
    {
      hide NextOffset, Anchored, PinSep, Bands, Stamped, UpdateTop, MenuTop, Rows, Copies, Texts, Joined;
      var tall := Tall(height, head, list, foot);
      var lay := LayoutPane(tall, |head|, |foot|);
      if tall > 0 {
        LayoutTiles(tall, |head|, |foot|);
      }
      var off := FindOffset(list, lay.listH);
      Anchor(list, off);
      var out, pinSep := DrawBands(head, list, foot, off, lay);
      if Fits(over.update, tall) {
        OverlaysFit(over.update, tall, lay.headerH, over.anchor);
        out := Stamp(out, over.update, UpdateTop(over.update, tall, lay.headerH));
      }
      var box := MenuBox(0, 0);
      if Fits(over.menu, tall) {
        var y0 := MenuTop(over.menu, tall, over.anchor);
        out := Stamp(out, over.menu, y0);
        box := MenuBox(y0, |over.menu|);
      }
      var texts, lineMap, copyMap := Publish(out);
      pane := PaneFrame(Joined(texts), lineMap, copyMap, box, pinSep);
    }

    method ScrollBy(d: int)
      requires view.scroll >= 0
      modifies this`view
      ensures view == Scrolled(old(view), d)
    {
      view := view.(anchorSess := "", anchorDelta := 0, scroll := view.scroll + d);
      if view.scroll < 0 {
        view := view.(scroll := 0);
      }
    }

    method ReanchorCursor()
      modifies this`view, this`cursorSess
      ensures view == old(view).(cursor := view.cursor)
      ensures CursorFollows(view.rows, old(cursorSess), view.cursor, cursorSess)
    {
      if view.rows == [] {
        view := view.(cursor := 0);
        return;
      }
      if cursorSess != "" {
        for i := 0 to |view.rows|
          invariant view == old(view) && cursorSess == old(cursorSess)
          invariant forall k :: 0 <= k < i ==> view.rows[k].session != cursorSess
        {
          if view.rows[i].session == cursorSess {
            view := view.(cursor := i);
            return;
          }
        }
        view := view.(cursor := -1);
        return;
      }
      var best := 0;
      while best < |view.rows| && !view.rows[best].attached
        invariant 0 <= best <= |view.rows| && forall k :: 0 <= k < best ==> !view.rows[k].attached
      {
        best := best + 1;
      }
      best := if best < |view.rows| then best else 0;
      view, cursorSess := view.(cursor := best), view.rows[best].session;
    }
  }

  function Scrolled(v: View, d: int): View {
    v.(anchorSess := "", anchorDelta := 0, scroll := if v.scroll + d < 0 then 0 else v.scroll + d)
  }

  /** A wheel roll goes where it was pointed as far as the list reaches and selects nothing; rolling back
      returns to where it was exactly when the roll was not held at an end, or the viewport was already at
      the other one. */
  lemma ScrollRoundTrip(v: View, d: int, list: seq<ViewLine>, listH: nat)
    requires !v.snapSel && ValidOffset(v.scroll, |list|, listH)
    ensures var there := Rendered(Scrolled(v, d), list, listH);
            var back := Rendered(Scrolled(there, -d), list, listH);
            && there.scroll == ClampOffset(v.scroll + d, |list|, listH) && back.cursor == there.cursor == v.cursor
            && (back.scroll == v.scroll
                <==> || ValidOffset(v.scroll + d, |list|, listH)
                     || (d < 0 && v.scroll == ClampOffset(|list|, |list|, listH))
                     || (d > 0 && v.scroll == 0))
  {
    hide AnchorLine;
    RenderedScroll(Scrolled(v, d), list, listH);
    RenderedScroll(Scrolled(Rendered(Scrolled(v, d), list, listH), -d), list, listH);
  }
}

// Highlighting the matched characters of a path
// (cmd/orchard-sidebar: dirsearch.go, dirpick.go). Positions count runes.

module Highlight {
  import opened Sequences

  /** A run [start, end) of matched runes. */
  datatype Span = Span(start: int, end: int)

  ghost predicate Covers(spans: seq<Span>, j: int) { exists k :: 0 <= k < |spans| && spans[k].start <= j < spans[k].end }

  /** In order, none empty, and none touching the next. */
  ghost predicate Apart(spans: seq<Span>) {
    && (forall k :: 0 <= k < |spans| ==> spans[k].start < spans[k].end)
    && (forall k :: 0 < k < |spans| ==> spans[k - 1].end < spans[k].start)
  }

  ghost predicate Ascending(p: seq<int>) { forall i, j :: 0 <= i < j < |p| ==> p[i] <= p[j] }

  // ---- folding positions into runs ----------------------------------------------------------

  lemma {:induction false} NoDupMeansOnce(s: seq<int>)
    ensures NoDup(s) <==> forall x :: multiset(s)[x] <= 1
  {
    if s != [] {
      var n := |s| - 1;
      NoDupMeansOnce(s[..n]);
      assert s == s[..n] + [s[n]];
      if s[n] in s[..n] {
        var i :| 0 <= i < n && s[..n][i] == s[n];
        assert s[i] == s[n];
        assert multiset(s)[s[n]] >= 2;
      } else {
        assert forall i :: 0 <= i < n ==> s[i] in s[..n];
        assert multiset(s[..n])[s[n]] == 0;
        assert forall x :: x != s[n] ==> multiset(s)[x] == multiset(s[..n])[x];
      }
    }
  }

  method Insert(p: seq<int>, x: int) returns (q: seq<int>)
    requires Ascending(p)
    ensures Ascending(q) && multiset(q) == multiset(p) + multiset{x}
  {
    var at := |p|;
    while at > 0 && p[at - 1] > x
      invariant 0 <= at <= |p| && forall j :: at <= j < |p| ==> p[j] > x
    {
      at := at - 1;
    }
    InsertAdds(p, x, at);
    InsertAscends(p, x, at);
    q := p[..at] + [x] + p[at..];
  }

  lemma InsertAscends(p: seq<int>, x: int, at: nat)
    requires at <= |p| && Ascending(p) && (at > 0 ==> p[at - 1] <= x) && forall j :: at <= j < |p| ==> p[j] > x
    ensures Ascending(p[..at] + [x] + p[at..])
  {
    var q := p[..at] + [x] + p[at..];
    assert forall i :: 0 <= i < |q| ==> q[i] == if i < at then p[i] else if i == at then x else p[i - 1];
  }

  /** An insertion sort in place of the library's. */
  method SortInts(pos: seq<int>) returns (p: seq<int>)
    ensures Ascending(p) && multiset(p) == multiset(pos)
  {
    p := [];
    for i := 0 to |pos|
      invariant Ascending(p) && multiset(p) == multiset(pos[..i])
    {
      assert pos[..i + 1] == pos[..i] + [pos[i]];
      p := Insert(p, pos[i]);
    }
    assert pos[..|pos|] == pos;
  }

  /** The runs closed so far with the open one. */
  function Open(spans: seq<Span>, start: int, prev: int): seq<Span> { spans + [Span(start, prev + 1)] }

  lemma CoversSnoc(spans: seq<Span>, s: Span, more: seq<Span>)
    requires more == spans + [s]
    ensures forall j :: Covers(more, j) <==> Covers(spans, j) || s.start <= j < s.end
    ensures Apart(more) <==> Apart(spans) && s.start < s.end && (spans != [] ==> spans[|spans| - 1].end < s.start)
  {
    assert forall k :: 0 <= k < |spans| ==> more[k] == spans[k];
    assert more[|spans|] == s;
    forall j
      ensures Covers(more, j) <==> Covers(spans, j) || s.start <= j < s.end
    {
      if Covers(spans, j) {
        var k :| 0 <= k < |spans| && spans[k].start <= j < spans[k].end;
        assert more[k].start <= j < more[k].end;
      }
    }
  }

  /** What the fold of p[..i] has so far: the closed runs and the open one cover exactly those positions,
      and they stand apart exactly when no position came twice. */
  ghost predicate Folded(p: seq<int>, i: nat, spans: seq<Span>, start: int, prev: int)
    requires 0 < i <= |p|
  {
    && start <= prev && prev == p[i - 1]
    && (forall j :: Covers(Open(spans, start, prev), j) <==> j in p[..i])
    && (Apart(Open(spans, start, prev)) <==> NoDup(p[..i]))
  }

  lemma FoldStarts(p: seq<int>)
    requires p != []
    ensures Folded(p, 1, [], p[0], p[0])
  {
    CoversSnoc([], Span(p[0], p[0] + 1), Open([], p[0], p[0]));
    assert p[..1] == [p[0]];
  }

  lemma NoDupSnoc(p: seq<int>, i: nat)
    requires Ascending(p) && 0 < i < |p|
    ensures NoDup(p[..i + 1]) <==> NoDup(p[..i]) && p[i - 1] < p[i]
    ensures forall j :: j in p[..i + 1] <==> j in p[..i] || j == p[i]
  {
    var q := p[..i + 1];
    assert q == p[..i] + [p[i]];
    assert q[i - 1] == p[i - 1] && q[i] == p[i];
    if NoDup(q) {
      assert forall j, k :: 0 <= j < k < i ==> q[j] != q[k];
    }
  }

  lemma FoldGrows(p: seq<int>, i: nat, spans: seq<Span>, start: int, prev: int)
    requires Ascending(p) && 0 < i < |p| && Folded(p, i, spans, start, prev) && p[i] == prev + 1
    ensures Folded(p, i + 1, spans, start, p[i])
  {
    CoversSnoc(spans, Span(start, prev + 1), Open(spans, start, prev));
    CoversSnoc(spans, Span(start, p[i] + 1), Open(spans, start, p[i]));
    NoDupSnoc(p, i);
    assert Apart(Open(spans, start, p[i])) <==> NoDup(p[..i + 1]);
    var now := Open(spans, start, p[i]);
    forall j
      ensures Covers(now, j) <==> j in p[..i + 1]
    {
      assert Covers(Open(spans, start, prev), j) <==> j in p[..i];
    }
  }

  lemma FoldCloses(p: seq<int>, i: nat, spans: seq<Span>, start: int, prev: int)
    requires Ascending(p) && 0 < i < |p| && Folded(p, i, spans, start, prev) && p[i] != prev + 1
    ensures Folded(p, i + 1, Open(spans, start, prev), p[i], p[i])
  {
    var was := Open(spans, start, prev);
    CoversSnoc(was, Span(p[i], p[i] + 1), Open(was, p[i], p[i]));
    NoDupSnoc(p, i);
    assert p[i - 1] <= p[i];
    hide Covers, Apart, NoDup, Ascending;
  }

  /** The runs hold exactly the matched positions, and they are ordered and never touch exactly when no
      position was given twice. */
  method MatchSpans(pos: seq<int>) returns (spans: seq<Span>)
    ensures forall j :: Covers(spans, j) <==> j in pos
    ensures Apart(spans) <==> NoDup(pos)
  {
    spans := [];
    if pos == [] {
      return;
    }
    var p := SortInts(pos);
    SamePositions(pos, p);
    var start, prev := p[0], p[0];
    FoldStarts(p);
    for i := 1 to |p|
      invariant Folded(p, i, spans, start, prev)
    {
      if p[i] == prev + 1 {
        FoldGrows(p, i, spans, start, prev);
        prev := p[i];
      } else {
        FoldCloses(p, i, spans, start, prev);
        spans := spans + [Span(start, prev + 1)];
        start, prev := p[i], p[i];
      }
    }
    assert p[..|p|] == p;
    spans := spans + [Span(start, prev + 1)];
    assert Open(spans[..|spans| - 1], start, prev) == spans;
  }

  lemma SamePositions(pos: seq<int>, p: seq<int>)
    requires multiset(p) == multiset(pos)
    ensures |p| == |pos| && (NoDup(p) <==> NoDup(pos)) && forall j :: j in p <==> j in pos
  {
    NoDupMeansOnce(p);
    NoDupMeansOnce(pos);
    assert |multiset(p)| == |multiset(pos)|;
    assert forall j :: j in p <==> j in multiset(p);
    assert forall j :: j in pos <==> j in multiset(pos);
  }

  // ---- shortening the home directory --------------------------------------------------------

  predicate UnderHome(path: string, home: string) { home != "" && (path == home || home + "/" <= path) }

  /** The path is the home directory or lies in it. */
  lemma UnderHomeExactly(path: string, home: string)
    ensures UnderHome(path, home)
            <==> home != "" && |home| <= |path| && path[..|home|] == home && (|path| == |home| || path[|home|] == '/')
  {
    if |home| < |path| && path[..|home|] == home && path[|home|] == '/' {
      assert path == home + "/" + path[|home| + 1..];
    }
    if home + "/" <= path {
      assert path[..|home|] == (home + "/")[..|home|] == home;
      assert path[|home|] == (home + "/")[|home|];
    }
  }

  function Shown(path: string, home: string): (disp: string)
    ensures UnderHome(path, home) ==>
              |disp| == |path| - (|home| - 1) && disp[0] == '~'
              && forall j :: 1 <= j < |disp| ==> disp[j] == path[j + |home| - 1]
    ensures !UnderHome(path, home) ==> disp == path
  {
    if UnderHome(path, home) then "~" + path[|home|..] else path
  }

  /** A shown rune after the "~" is highlighted exactly when the rune it stands for was; the "~" never is. */
  method AbbrevHome(path: string, home: string, spans: seq<Span>) returns (disp: string, out: seq<Span>)
    requires Apart(spans)
    ensures disp == Shown(path, home) && Apart(out)
    ensures !UnderHome(path, home) ==> out == spans
    ensures UnderHome(path, home) ==> forall j :: Covers(out, j) <==> j >= 1 && Covers(spans, j + |home| - 1)
  {
    hide UnderHome, Shown;
    disp := Shown(path, home);
    if !UnderHome(path, home) {
      return disp, spans;
    }
    var delta := |home| - 1;
    out := [];
    NothingCovered();
    assert spans[..0] == [];
    hide Covers, Apart;
    for i := 0 to |spans|
      invariant Apart(out) && (out != [] ==> i > 0 && out[|out| - 1].end == spans[i - 1].end - delta)
      invariant forall j :: Covers(out, j) <==> j >= 1 && Covers(spans[..i], j + delta)
    {
      var st, en := spans[i].start - delta, spans[i].end - delta;
      CoversSnoc(spans[..i], spans[i], spans[..i + 1]);
      NotEmpty(spans, i);
      if en > 1 {
        st := if st < 1 then 1 else st;
        CoversSnoc(out, Span(st, en), out + [Span(st, en)]);
        KeptApart(spans, i, out, delta);
        out := out + [Span(st, en)];
      } else {
        SkippedMeansNone(spans, i, out, delta);
      }
    }
    assert spans[..|spans|] == spans;
  }

  lemma NothingCovered()
    ensures Apart([]) && forall j :: !Covers([], j)
  {
  }

  lemma NotEmpty(spans: seq<Span>, i: nat)
    requires Apart(spans) && i < |spans|
    ensures spans[i].start < spans[i].end
  {
  }

  lemma SkippedMeansNone(spans: seq<Span>, i: nat, out: seq<Span>, delta: int)
    requires Apart(spans) && Apart(out) && i < |spans| && spans[i].end - delta <= 1
    requires forall j :: Covers(out, j) <==> j >= 1 && Covers(spans[..i], j + delta)
    ensures out == []
  {
    if out != [] {
      var last := out[|out| - 1];
      assert Covers(out, last.start);
      var k :| 0 <= k < i && spans[..i][k].start <= last.start + delta < spans[..i][k].end;
      ApartOrdered(spans, k, i);
      assert false;
    }
  }

  lemma {:induction false} ApartOrdered(spans: seq<Span>, i: nat, j: nat)
    requires Apart(spans) && i < j < |spans|
    ensures spans[i].end < spans[j].start
  {
    if i < j - 1 {
      ApartOrdered(spans, i, j - 1);
    }
  }

  lemma KeptApart(spans: seq<Span>, i: nat, out: seq<Span>, delta: int)
    requires Apart(spans) && i < |spans|
    requires out != [] ==> i > 0 && out[|out| - 1].end == spans[i - 1].end - delta
    ensures out != [] ==> out[|out| - 1].end < spans[i].start - delta
  {
  }

  // ---- drawing ------------------------------------------------------------------------------

  /** A stretch of text in one style. */
  datatype Piece = Piece(text: string, hi: bool)

  /** The characters drawn, each with whether it is highlighted. */
  function Cells(pieces: seq<Piece>): seq<(char, bool)> {
    if pieces == [] then []
    else
      var last := pieces[|pieces| - 1];
      Cells(pieces[..|pieces| - 1]) + seq(|last.text|, i requires 0 <= i < |last.text| => (last.text[i], last.hi))
  }

  lemma CellsSnoc(pieces: seq<Piece>, p: Piece)
    ensures |Cells(pieces + [p])| == |Cells(pieces)| + |p.text|
    ensures forall j :: 0 <= j < |Cells(pieces)| ==> Cells(pieces + [p])[j] == Cells(pieces)[j]
    ensures forall j :: |Cells(pieces)| <= j < |Cells(pieces)| + |p.text| ==>
              Cells(pieces + [p])[j] == (p.text[j - |Cells(pieces)|], p.hi)
  {
    assert (pieces + [p])[..|pieces|] == pieces;
  }

  /** The first i runes are drawn as they should be. */
  ghost predicate DrawnTo(disp: string, spans: seq<Span>, pieces: seq<Piece>, i: int) {
    |Cells(pieces)| == i <= |disp| && forall j :: 0 <= j < i ==> Cells(pieces)[j] == (disp[j], Covers(spans, j))
  }

  lemma DrawMore(disp: string, spans: seq<Span>, pieces: seq<Piece>, i: nat, to: nat, hi: bool)
    requires DrawnTo(disp, spans, pieces, i) && i <= to <= |disp|
    requires forall j :: i <= j < to ==> (Covers(spans, j) <==> hi)
    ensures DrawnTo(disp, spans, pieces + [Piece(disp[i..to], hi)], to)
  {
    CellsSnoc(pieces, Piece(disp[i..to], hi));
  }

  /** What is not inside the k-th run but lies before it and after the one before it is unmatched. */
  lemma GapIsUncovered(spans: seq<Span>, k: nat, j: int)
    requires Apart(spans) && k <= |spans|
    requires k > 0 ==> spans[k - 1].end <= j
    requires k < |spans| ==> j < spans[k].start
    ensures !Covers(spans, j)
  {
    if Covers(spans, j) {
      var m :| 0 <= m < |spans| && spans[m].start <= j < spans[m].end;
      if m < k - 1 {
        ApartOrdered(spans, m, k - 1);
      }
      if m > k {
        ApartOrdered(spans, k, m);
      }
      assert false;
    }
  }

  /** Append the stretch [i, to) in one style. */
  method Write(disp: string, spans: seq<Span>, pieces: seq<Piece>, i: nat, to: nat, hi: bool) returns (more: seq<Piece>)
    requires DrawnTo(disp, spans, pieces, i) && i <= to <= |disp|
    requires forall j :: i <= j < to ==> (Covers(spans, j) <==> hi)
    ensures DrawnTo(disp, spans, more, to)
  {
    DrawMore(disp, spans, pieces, i, to, hi);
    more := pieces + [Piece(disp[i..to], hi)];
  }

  lemma GapBefore(spans: seq<Span>, k: nat, i: int, to: int)
    requires Apart(spans) && k <= |spans|
    requires k > 0 ==> spans[k - 1].end <= i
    requires k < |spans| ==> to <= spans[k].start
    ensures forall j :: i <= j < to ==> !Covers(spans, j)
  {
    forall j | i <= j < to
      ensures !Covers(spans, j)
    {
      GapIsUncovered(spans, k, j);
    }
  }

  /** With its styles erased the drawing is the shown path, and exactly the covered runes are highlighted. */
  method RenderMatch(disp: string, spans: seq<Span>) returns (pieces: seq<Piece>)
    requires Apart(spans) && forall k :: 0 <= k < |spans| ==> spans[k].start >= 0
    ensures DrawnTo(disp, spans, pieces, |disp|)
  {
    pieces := [];
    assert DrawnTo(disp, spans, pieces, 0);
    if |spans| == 0 {
      GapBefore(spans, 0, 0, |disp|);
      pieces := Write(disp, spans, pieces, 0, |disp|, false);
      return;
    }
    hide DrawnTo, Covers;
    var i, k := 0, 0;
    while k < |spans| && spans[k].start < |disp|
      invariant 0 <= k <= |spans| && 0 <= i <= |disp| && DrawnTo(disp, spans, pieces, i)
      invariant i == if k == 0 then 0 else if spans[k - 1].end < |disp| then spans[k - 1].end else |disp|
    {
      var end := if spans[k].end < |disp| then spans[k].end else |disp|;
      if spans[k].start > i {
        GapBefore(spans, k, i, spans[k].start);
        pieces := Write(disp, spans, pieces, i, spans[k].start, false);
      }
      InsideIsCovered(spans, k);
      pieces := Write(disp, spans, pieces, spans[k].start, end, true);
      i := end;
      k := k + 1;
    }
    if i < |disp| {
      GapBefore(spans, k, i, |disp|);
      pieces := Write(disp, spans, pieces, i, |disp|, false);
    }
  }

  lemma InsideIsCovered(spans: seq<Span>, k: nat)
    requires k < |spans|
    ensures forall j :: spans[k].start <= j < spans[k].end ==> Covers(spans, j)
  {
  }

  /** The whole pipeline. A path in the home directory is shown with a "~" for it, and any other as it is; a
      shown rune is highlighted exactly when the rune it stands for was matched, and the "~" never is. */
  method DrawMatch(path: string, home: string, pos: seq<int>) returns (pieces: seq<Piece>)
    requires NoDup(pos) && forall j <- pos :: 0 <= j < |path|
    ensures var under := home != "" && |home| <= |path| && path[..|home|] == home && (|path| == |home| || path[|home|] == '/');
            var at := if under then |home| - 1 else 0;
            && |Cells(pieces)| == |path| - at
            && forall j :: 0 <= j < |path| - at ==>
                 Cells(pieces)[j] == if under && j == 0 then ('~', false) else (path[j + at], j + at in pos)
  {
    hide *;
    var spans := MatchSpans(pos);
    var disp, out := AbbrevHome(path, home, spans);
    CoverFromStart(path, home, pos, spans, out);
    pieces := RenderMatch(disp, out);
    DrawnMatch(path, home, pos, spans, out, pieces);
  }

  /** The runs out cover the shown runes that stand for matched ones. */
  ghost predicate Shifted(path: string, home: string, spans: seq<Span>, out: seq<Span>) {
    if UnderHome(path, home) then forall j :: Covers(out, j) <==> j >= 1 && Covers(spans, j + |home| - 1) else out == spans
  }

  lemma CoverFromStart(path: string, home: string, pos: seq<int>, spans: seq<Span>, out: seq<Span>)
    requires forall j <- pos :: 0 <= j < |path|
    requires forall j :: Covers(spans, j) <==> j in pos
    requires !UnderHome(path, home) ==> out == spans
    requires UnderHome(path, home) ==> forall j :: Covers(out, j) <==> j >= 1 && Covers(spans, j + |home| - 1)
    requires Apart(out)
    ensures forall k :: 0 <= k < |out| ==> out[k].start >= 0
    ensures Shifted(path, home, spans, out)
  {
    hide UnderHome;
    forall k | 0 <= k < |out|
      ensures out[k].start >= 0
    {
      assert Covers(out, out[k].start);
    }
  }

  lemma DrawnMatch(path: string, home: string, pos: seq<int>, spans: seq<Span>, out: seq<Span>, pieces: seq<Piece>)
    requires forall j :: Covers(spans, j) <==> j in pos
    requires Shifted(path, home, spans, out) && DrawnTo(Shown(path, home), out, pieces, |Shown(path, home)|)
    ensures var under := home != "" && |home| <= |path| && path[..|home|] == home && (|path| == |home| || path[|home|] == '/');
            var at := if under then |home| - 1 else 0;
            && |Cells(pieces)| == |path| - at
            && forall j :: 0 <= j < |path| - at ==>
                 Cells(pieces)[j] == if under && j == 0 then ('~', false) else (path[j + at], j + at in pos)
  {
    hide *;
    UnderHomeExactly(path, home);
    var disp := Shown(path, home);
    ShownSize(path, home);
    CellsSize(disp, out, pieces);
    var under := UnderHome(path, home);
    var at := if under then |home| - 1 else 0;
    forall j | 0 <= j < |path| - at
      ensures Cells(pieces)[j] == if under && j == 0 then ('~', false) else (path[j + at], j + at in pos)
    {
      RuneDrawn(path, home, pos, spans, out, pieces, j);
    }
  }

  lemma ShownSize(path: string, home: string)
    ensures |Shown(path, home)| == if UnderHome(path, home) then |path| - (|home| - 1) else |path|
  {
    hide UnderHome, Shown;
  }

  lemma CellsSize(disp: string, out: seq<Span>, pieces: seq<Piece>)
    requires DrawnTo(disp, out, pieces, |disp|)
    ensures |Cells(pieces)| == |disp|
  {
  }

  lemma RuneDrawn(path: string, home: string, pos: seq<int>, spans: seq<Span>, out: seq<Span>, pieces: seq<Piece>, j: nat)
    requires forall j :: Covers(spans, j) <==> j in pos
    requires Shifted(path, home, spans, out) && DrawnTo(Shown(path, home), out, pieces, |Shown(path, home)|)
    requires j < |Shown(path, home)|
    ensures |Cells(pieces)| == |Shown(path, home)|
    ensures UnderHome(path, home) ==> j == 0 || j + |home| - 1 < |path|
    ensures Cells(pieces)[j] == if UnderHome(path, home) && j == 0 then ('~', false)
                                else if UnderHome(path, home) then (path[j + |home| - 1], j + |home| - 1 in pos)
                                else (path[j], j in pos)
  {
    hide UnderHome, Covers, Shown, Cells;
    assert Cells(pieces)[j] == (Shown(path, home)[j], Covers(out, j));
  }
}

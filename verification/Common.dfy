// Small shared vocabulary: optional values, counting, insertion, splitting and trimming text.

module Options {
  datatype Option<+T> = None | Some(value: T)

  /** The first answer that is there, as a scan that stops at its first hit gives. */
  function OrElse<T>(a: Option<T>, b: Option<T>): Option<T> {
    if a.Some? then a else b
  }
}

module Counting {
  /** How many elements of s satisfy p. */
  ghost function Count<T>(s: seq<T>, p: T -> bool): nat {
    if s == [] then 0
    else Count(s[..|s| - 1], p) + (if p(s[|s| - 1]) then 1 else 0)
  }

  lemma {:induction false} CountConcat<T>(a: seq<T>, b: seq<T>, p: T -> bool)
    ensures Count(a + b, p) == Count(a, p) + Count(b, p)
    decreases |b|
  {
    if b == [] {
      assert a + b == a;
    } else {
      assert (a + b)[..|a + b| - 1] == a + b[..|b| - 1];
      CountConcat(a, b[..|b| - 1], p);
    }
  }

  lemma {:induction false} CountLe<T>(s: seq<T>, p: T -> bool, q: T -> bool)
    requires forall x :: x in s && p(x) ==> q(x)
    ensures Count(s, p) <= Count(s, q)
  {
    if s != [] {
      CountLe(s[..|s| - 1], p, q);
    }
  }

  lemma CountSnoc<T>(s: seq<T>, x: T, p: T -> bool)
    ensures Count(s + [x], p) == Count(s, p) + (if p(x) then 1 else 0)
  {
    assert (s + [x])[..|s|] == s;
  }

  lemma {:induction false} CountUpdate<T>(s: seq<T>, i: nat, x: T, p: T -> bool)
    requires i < |s|
    ensures Count(s[i := x], p) == Count(s, p) - (if p(s[i]) then 1 else 0) + (if p(x) then 1 else 0)
  {
    var n := |s| - 1;
    if i < n {
      CountUpdate(s[..n], i, x, p);
      assert s[i := x][..n] == s[..n][i := x];
    } else {
      assert s[i := x][..n] == s[..n];
    }
  }

  lemma CountMiddle<T>(a: seq<T>, x: T, b: seq<T>, p: T -> bool)
    ensures Count(a + [x] + b, p) == Count(a + b, p) + (if p(x) then 1 else 0)
  {
    CountSnoc(a, x, p);
    CountConcat(a + [x], b, p);
    CountConcat(a, b, p);
  }

  lemma CountRemove<T>(s: seq<T>, i: nat, p: T -> bool)
    requires i < |s|
    ensures Count(s[..i] + s[i + 1..], p) == Count(s, p) - (if p(s[i]) then 1 else 0)
  {
    hide Count;
    assert s == s[..i] + [s[i]] + s[i + 1..];
    CountMiddle(s[..i], s[i], s[i + 1..], p);
  }

  /** Covering p by q and r bounds its count by theirs. */
  lemma {:induction false} CountCover<T>(s: seq<T>, p: T -> bool, q: T -> bool, r: T -> bool)
    requires forall x :: x in s && p(x) ==> q(x) || r(x)
    ensures Count(s, p) <= Count(s, q) + Count(s, r)
  {
    if s != [] {
      CountCover(s[..|s| - 1], p, q, r);
    }
  }

  lemma {:induction false} CountNone<T>(s: seq<T>, p: T -> bool)
    requires forall x :: x in s ==> !p(x)
    ensures Count(s, p) == 0
  {
    if s != [] {
      CountNone(s[..|s| - 1], p);
    }
  }

  lemma {:induction false} CountAll<T>(s: seq<T>, p: T -> bool)
    requires forall x :: x in s ==> p(x)
    ensures Count(s, p) == |s|
  {
    if s != [] {
      CountAll(s[..|s| - 1], p);
    }
  }

  lemma {:induction false} CountAtMost<T>(s: seq<T>, p: T -> bool)
    ensures Count(s, p) <= |s|
  {
    if s != [] {
      CountAtMost(s[..|s| - 1], p);
    }
  }

  lemma {:induction false} CountWitness<T>(s: seq<T>, p: T -> bool) returns (x: T)
    requires Count(s, p) > 0
    ensures x in s && p(x)
  {
    if p(s[|s| - 1]) {
      x := s[|s| - 1];
    } else {
      x := CountWitness(s[..|s| - 1], p);
    }
  }

  lemma {:induction false} CountHas<T>(s: seq<T>, p: T -> bool, i: nat)
    requires i < |s| && p(s[i])
    ensures Count(s, p) > 0
  {
    if i < |s| - 1 {
      CountHas(s[..|s| - 1], p, i);
    }
  }
}

module Sequences {
  predicate NoDup<T(==)>(s: seq<T>) { forall i, j :: 0 <= i < j < |s| ==> s[i] != s[j] }

  /** d lists the elements of s, each once, in the order of first sight. */
  ghost predicate FirstSightings<T(!new)>(s: seq<T>, d: seq<T>) {
    && NoDup(d) && (forall x :: x in d <==> x in s)
    && forall i, j :: 0 <= i < j < |d| ==> SeenBefore(s, d[i], d[j])
  }

  ghost predicate SeenBefore<T>(s: seq<T>, x: T, y: T) { exists m :: 0 <= m < |s| && s[m] == x && y !in s[..m] }

  lemma SightOneMore<T(!new)>(s: seq<T>, d: seq<T>, x: T)
    requires FirstSightings(s, d)
    ensures FirstSightings(s + [x], if x in s then d else d + [x])
  {
    var now, d2 := s + [x], if x in s then d else d + [x];
    forall i, j | 0 <= i < j < |d2|
      ensures SeenBefore(now, d2[i], d2[j])
    {
      assert d2[i] in s;
      var m :| 0 <= m < |s| && s[m] == d2[i] && (j < |d| ==> d[j] !in s[..m]);
      assert now[m] == d2[i] && now[..m] == s[..m];
    }
  }

  /** out is what keep lets through of s, in order. */
  ghost predicate KeptInOrder<T>(s: seq<T>, keep: T -> bool, out: seq<T>) { exists at: seq<int> :: KeptAt(s, keep, out, at) }

  ghost predicate KeptAt<T>(s: seq<T>, keep: T -> bool, out: seq<T>, at: seq<int>) {
    && |at| == |out| && (forall k :: 0 <= k < |at| ==> 0 <= at[k] < |s| && out[k] == s[at[k]])
    && (forall j, k :: 0 <= j < k < |at| ==> at[j] < at[k])
    && (forall i :: 0 <= i < |s| ==> (keep(s[i]) <==> i in at))
  }

  lemma NothingKept<T>(s: seq<T>, keep: T -> bool)
    requires s == []
    ensures KeptInOrder(s, keep, [])
  {
    assert KeptAt(s, keep, [], []);
  }

  lemma KeepOneMore<T>(s: seq<T>, keep: T -> bool, out: seq<T>, x: T)
    requires KeptInOrder(s, keep, out)
    ensures KeptInOrder(s + [x], keep, out + (if keep(x) then [x] else []))
  {
    var at :| KeptAt(s, keep, out, at);
    var at2 := at + (if keep(x) then [|s|] else []);
    assert KeptAt(s + [x], keep, out + (if keep(x) then [x] else []), at2);
  }

  lemma InsertAdds<T>(s: seq<T>, x: T, at: nat)
    requires at <= |s|
    ensures multiset(s[..at] + [x] + s[at..]) == multiset(s) + multiset{x}
  {
    assert s == s[..at] + s[at..];
  }
}

module Splitting {
  /** The pieces of s between occurrences of sep, in order; always at least one. */
  function Split<T(==)>(s: seq<T>, sep: T): (pieces: seq<seq<T>>)
    ensures |pieces| > 0
  {
    if s == [] then [[]]
    else
      var rest := Split(s[1..], sep);
      if s[0] == sep then [[]] + rest else [[s[0]] + rest[0]] + rest[1..]
  }

  lemma {:induction false} SplitNone<T>(s: seq<T>, sep: T)
    requires sep !in s
    ensures Split(s, sep) == [s]
  {
    if s != [] {
      SplitNone(s[1..], sep);
      assert [s[0]] + s[1..] == s;
    }
  }

  /** seg lies in s from lo to hi, free of separators and bounded by them or by the ends of s. */
  ghost predicate PieceAt<T>(s: seq<T>, sep: T, seg: seq<T>, lo: int, hi: int) {
    && 0 <= lo <= hi <= |s| && s[lo..hi] == seg && sep !in seg
    && (lo == 0 || s[lo - 1] == sep) && (hi == |s| || s[hi] == sep)
  }

  ghost predicate PieceAfter<T>(s: seq<T>, sep: T, seg: seq<T>) { exists lo, hi :: 0 < lo && PieceAt(s, sep, seg, lo, hi) }

  /** The first piece starts s, and the others are what lies after a separator. */
  lemma {:induction false} PiecesAt<T>(s: seq<T>, sep: T, seg: seq<T>)
    ensures PieceAt(s, sep, Split(s, sep)[0], 0, |Split(s, sep)[0]|)
    ensures seg in Split(s, sep)[1..] <==> PieceAfter(s, sep, seg)
  {
    if s == [] {
      assert Split(s, sep)[1..] == [];
    } else {
      var rest, first := s[1..], Split(s[1..], sep)[0];
      PiecesAt(rest, sep, seg);
      assert Split(rest, sep) == [first] + Split(rest, sep)[1..];
      assert Split(s, sep)[1..] == if s[0] == sep then Split(rest, sep) else Split(rest, sep)[1..];
      assert Split(s, sep)[0] == if s[0] == sep then [] else [s[0]] + first;
      hide Split, PieceAt, PieceAfter;
      PieceGrows(s, sep, seg, first);
    }
  }

  lemma PieceGrows<T>(s: seq<T>, sep: T, seg: seq<T>, first: seq<T>)
    requires s != [] && PieceAt(s[1..], sep, first, 0, |first|)
    ensures var now := if s[0] == sep then [] else [s[0]] + first;
            PieceAt(s, sep, now, 0, |now|)
    ensures PieceAfter(s, sep, seg) <==> PieceAfter(s[1..], sep, seg) || (s[0] == sep && seg == first)
  {
    var rest := s[1..];
    if s[0] != sep {
      assert s[..1 + |first|] == [s[0]] + rest[..|first|];
    }
    hide PieceAt;
    forall lo, hi | 0 < lo
      ensures PieceAt(s, sep, seg, lo, hi) <==> (lo == 1 ==> s[0] == sep) && PieceAt(rest, sep, seg, lo - 1, hi - 1)
    {
      PieceShifts(s, sep, seg, lo, hi);
    }
    OnePieceAt(rest, sep, first, seg);
    if lo, hi :| 0 < lo && PieceAt(rest, sep, seg, lo, hi) {
      assert PieceAt(s, sep, seg, lo + 1, hi + 1);
    }
    if s[0] == sep && seg == first {
      assert PieceAt(s, sep, seg, 1, 1 + |first|);
    }
  }

  lemma PieceShifts<T>(s: seq<T>, sep: T, seg: seq<T>, lo: int, hi: int)
    requires s != [] && 0 < lo
    ensures PieceAt(s, sep, seg, lo, hi) <==> (lo == 1 ==> s[0] == sep) && PieceAt(s[1..], sep, seg, lo - 1, hi - 1)
  {
    if lo <= hi <= |s| {
      var a, b := s[lo..hi], s[1..][lo - 1..hi - 1];
      assert |a| == |b| && forall k :: 0 <= k < |a| ==> a[k] == b[k];
      assert a == b;
    }
  }

  /** Only one piece lies at the start. */
  lemma OnePieceAt<T>(s: seq<T>, sep: T, a: seq<T>, b: seq<T>)
    requires PieceAt(s, sep, a, 0, |a|)
    ensures forall hi :: PieceAt(s, sep, b, 0, hi) ==> a == b
  {
    forall hi | PieceAt(s, sep, b, 0, hi)
      ensures a == b
    {
      assert a == s[..|a|] && b == s[..|b|];
      assert |a| == |b|;
    }
  }

  /** The pieces of s are exactly the stretches between separators. */
  lemma SplitIsExact<T>(s: seq<T>, sep: T, seg: seq<T>)
    ensures seg in Split(s, sep) <==> exists lo, hi :: PieceAt(s, sep, seg, lo, hi)
  {
    PiecesAt(s, sep, seg);
    OnePieceAt(s, sep, Split(s, sep)[0], seg);
    assert Split(s, sep) == [Split(s, sep)[0]] + Split(s, sep)[1..];
  }

  lemma {:induction false} SplitAt<T>(a: seq<T>, sep: T, b: seq<T>)
    ensures Split(a + [sep] + b, sep) == Split(a, sep) + Split(b, sep)
    decreases |a|
  {
    var s := a + [sep] + b;
    if a == [] {
      assert s[1..] == b;
    } else {
      assert s[1..] == a[1..] + [sep] + b;
      SplitAt(a[1..], sep, b);
    }
  }
}

module Text {
  /** Unicode White_Space, the set strings.TrimSpace trims. */
  predicate IsSpace(c: char) {
    || '\U{0009}' <= c <= '\U{000D}'
    || c in {' ', '\U{0085}', '\U{00A0}', '\U{1680}', '\U{2028}', '\U{2029}', '\U{202F}', '\U{205F}', '\U{3000}'}
    || '\U{2000}' <= c <= '\U{200A}'
  }

  function TrimLeft(s: string, cut: char -> bool): (t: string)
    ensures t == [] || !cut(t[0])
    ensures |t| <= |s| && t == s[|s| - |t|..] && forall k :: 0 <= k < |s| - |t| ==> cut(s[k])
  {
    if s != [] && cut(s[0]) then TrimLeft(s[1..], cut) else s
  }

  function TrimRight(s: string, cut: char -> bool): (t: string)
    ensures t == [] || !cut(t[|t| - 1])
    ensures t <= s && forall k :: |t| <= k < |s| ==> cut(s[k])
  {
    if s != [] && cut(s[|s| - 1]) then TrimRight(s[..|s| - 1], cut) else s
  }

  function Trim(s: string, cut: char -> bool): string { TrimRight(TrimLeft(s, cut), cut) }

  function TrimSpace(s: string): string { Trim(s, IsSpace) }
}

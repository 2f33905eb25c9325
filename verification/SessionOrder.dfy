// The order of the session list: what sorts a row, what moves it, and the pinned block
// (cmd/orchard-sidebar: model.go, apply.go, pin.go, selection.go).

module SessionOrder {
  import opened Options
  import opened Sequences

  datatype Row = Row(session: string, fake: bool, hooked: bool, attached: bool, state: string, mission: string,
                     cwd: string, lastAct: int, lastAttached: Option<int>, created: int, pinRank: nat)

  datatype Hook = Hook(state: string, mission: string, cwd: string, lastAct: int)

  datatype Meta = Meta(lastAttached: Option<int>, created: int)

  /** The part of a row that places it. */
  datatype Key = Key(pinRank: nat, lastAttached: Option<int>, created: int, session: string)

  function KeyOf(r: Row): Key { Key(r.pinRank, r.lastAttached, r.created, r.session) }

  function Keys(rows: seq<Row>): (ks: seq<Key>)
    ensures |ks| == |rows| && forall i :: 0 <= i < |rows| ==> ks[i] == KeyOf(rows[i])
  {
    seq(|rows|, i requires 0 <= i < |rows| => KeyOf(rows[i]))
  }

  // ---- the comparator -----------------------------------------------------------------------

  predicate NameLess(a: string, b: string) {
    if b == [] then false
    else if a == [] then true
    else if a[0] != b[0] then a[0] < b[0]
    else NameLess(a[1..], b[1..])
  }

  /** a is a proper prefix of b, or has the smaller character where they first differ. */
  ghost predicate Alphabetical(a: string, b: string) {
    exists k :: 0 <= k <= |a| && k < |b| && a[..k] == b[..k] && (k == |a| || a[k] < b[k])
  }

  lemma {:induction false} NameLessExactly(a: string, b: string)
    ensures NameLess(a, b) <==> Alphabetical(a, b)
  {
    if a == [] {
      assert b != [] ==> a[..0] == b[..0];
    } else if b != [] && a[0] == b[0] {
      NameLessExactly(a[1..], b[1..]);
      if k :| 0 <= k <= |a| && k < |b| && a[..k] == b[..k] && (k == |a| || a[k] < b[k]) {
        assert k > 0;
        assert a[1..][..k - 1] == a[..k][1..] && b[1..][..k - 1] == b[..k][1..];
      }
      if k :| 0 <= k <= |a[1..]| && k < |b[1..]| && a[1..][..k] == b[1..][..k] && (k == |a[1..]| || a[1..][k] < b[1..][k]) {
        assert a[..k + 1] == [a[0]] + a[1..][..k] && b[..k + 1] == [b[0]] + b[1..][..k];
      }
    } else if b != [] {
      assert a[..0] == b[..0];
      forall k | 0 < k <= |a| && k < |b|
        ensures a[..k] != b[..k]
      {
        assert a[..k][0] != b[..k][0];
      }
    }
  }

  /** What sortRows asks of two rows: does a belong above b? */
  predicate Before(a: Key, b: Key) {
    if (a.pinRank > 0) != (b.pinRank > 0) then a.pinRank > 0
    else if a.pinRank > 0 then a.pinRank < b.pinRank
    else if a.lastAttached.None? != b.lastAttached.None? then b.lastAttached.None?
    else if a.lastAttached != b.lastAttached then a.lastAttached.value > b.lastAttached.value
    else if a.created != b.created then a.created > b.created
    else NameLess(a.session, b.session)
  }

  lemma {:induction false} NameOrder(a: string, b: string)
    ensures NameLess(a, b) ==> !NameLess(b, a) && a != b
    ensures a != b ==> NameLess(a, b) || NameLess(b, a)
  {
    if a != [] && b != [] && a[0] == b[0] {
      NameOrder(a[1..], b[1..]);
      assert a == [a[0]] + a[1..] && b == [b[0]] + b[1..];
    }
  }

  lemma {:induction false} NameTransitive(a: string, b: string, c: string)
    requires NameLess(a, b) && NameLess(b, c)
    ensures NameLess(a, c)
  {
    if a != [] && a[0] == b[0] == c[0] {
      NameTransitive(a[1..], b[1..], c[1..]);
    }
  }

  /** The comparator is a strict order, and total on rows of different sessions with different ranks. */
  lemma BeforeIsStrict(a: Key, b: Key)
    ensures Before(a, b) ==> !Before(b, a)
    ensures a.session != b.session && (a.pinRank > 0 ==> a.pinRank != b.pinRank) ==> Before(a, b) || Before(b, a)
  {
    hide NameLess;
    NameOrder(a.session, b.session);
  }

  /** Not being below is transitive, which is what a sort needs of its comparator. */
  lemma NotBelowTransitive(a: Key, b: Key, c: Key)
    requires !Before(b, a) && !Before(c, b)
    ensures !Before(c, a)
  {
    hide NameLess;
    NameOrder(a.session, b.session);
    NameOrder(b.session, c.session);
    NameOrder(a.session, c.session);
    if NameLess(a.session, b.session) && NameLess(b.session, c.session) {
      NameTransitive(a.session, b.session, c.session);
    }
  }

  // ---- sorting ------------------------------------------------------------------------------

  /** No row belongs above one listed before it. */
  ghost predicate InOrder(ks: seq<Key>) { forall i, j :: 0 <= i < j < |ks| ==> !Before(ks[j], ks[i]) }

  ghost predicate Distinct(ks: seq<Key>) {
    forall i, j :: 0 <= i < j < |ks| ==>
      ks[i].session != ks[j].session && (ks[i].pinRank > 0 ==> ks[i].pinRank != ks[j].pinRank)
  }

  ghost predicate Sorted(ks: seq<Key>) { forall i, j :: 0 <= i < j < |ks| ==> Before(ks[i], ks[j]) }

  lemma DistinctInOrderIsSorted(ks: seq<Key>)
    requires Distinct(ks) && InOrder(ks)
    ensures Sorted(ks)
  {
    forall i, j | 0 <= i < j < |ks|
      ensures Before(ks[i], ks[j])
    {
      BeforeIsStrict(ks[i], ks[j]);
    }
  }

  /** There is one sorted arrangement of any set of rows. */
  lemma {:induction false} SortedIsUnique(a: seq<Key>, b: seq<Key>)
    requires Sorted(a) && Sorted(b) && forall k :: k in a <==> k in b
    ensures a == b
  {
    hide Before;
    if a != [] {
      assert a[0] in b;
    }
    if b != [] {
      assert b[0] in a;
      if a[0] != b[0] {
        assert Before(a[0], b[0]) && Before(b[0], a[0]);
        BeforeIsStrict(a[0], b[0]);
        assert false;
      }
      HeadIsNotInTail(a);
      HeadIsNotInTail(b);
      assert a == [a[0]] + a[1..] && b == [b[0]] + b[1..];
      forall k
        ensures k in a[1..] <==> k in b[1..]
      {
        assert k in a <==> k == a[0] || k in a[1..];
        assert k in b <==> k == b[0] || k in b[1..];
      }
      SortedIsUnique(a[1..], b[1..]);
    }
  }

  lemma HeadIsNotInTail(a: seq<Key>)
    requires Sorted(a) && a != []
    ensures a[0] !in a[1..] && Sorted(a[1..])
  {
    hide Before;
    if a[0] in a[1..] {
      assert Before(a[0], a[0]);
      BeforeIsStrict(a[0], a[0]);
      assert false;
    }
  }

  function Only(rows: seq<Row>, p: Row -> bool): seq<Row> {
    if rows == [] then []
    else Only(rows[..|rows| - 1], p) + (if p(rows[|rows| - 1]) then [rows[|rows| - 1]] else [])
  }

  /** Rows the comparator does not tell from one of key k. */
  function TiedWith(k: Key): Row -> bool { (r: Row) => !Before(KeyOf(r), k) && !Before(k, KeyOf(r)) }

  /** Rows the comparator does not tell apart keep their order. */
  ghost predicate Stable(rows: seq<Row>, out: seq<Row>) {
    forall k: Key :: Only(out, TiedWith(k)) == Only(rows, TiedWith(k))
  }

  lemma {:induction false} OnlyConcat(a: seq<Row>, b: seq<Row>, p: Row -> bool)
    ensures Only(a + b, p) == Only(a, p) + Only(b, p)
    decreases |b|
  {
    if b == [] {
      assert a + b == a;
    } else {
      assert (a + b)[..|a + b| - 1] == a + b[..|b| - 1];
      OnlyConcat(a, b[..|b| - 1], p);
    }
  }

  lemma {:induction false} OnlyNone(rows: seq<Row>, p: Row -> bool)
    requires forall i :: 0 <= i < |rows| ==> !p(rows[i])
    ensures Only(rows, p) == []
  {
    if rows != [] {
      OnlyNone(rows[..|rows| - 1], p);
    }
  }

  lemma OnlyOne(r: Row, p: Row -> bool)
    ensures Only([r], p) == if p(r) then [r] else []
  {
    assert [r][..0] == [];
  }

  /** A row put above those it belongs above is the last of its ties. */
  lemma InsertIsStable(rows: seq<Row>, r: Row, at: nat)
    requires at <= |rows| && forall j :: at <= j < |rows| ==> Before(KeyOf(r), KeyOf(rows[j]))
    ensures Stable(rows + [r], rows[..at] + [r] + rows[at..])
  {
    hide Before, Only;
    forall k: Key
      ensures Only(rows[..at] + [r] + rows[at..], TiedWith(k)) == Only(rows + [r], TiedWith(k))
    {
      var p, a, b := TiedWith(k), rows[..at], rows[at..];
      if p(r) {
        forall i | 0 <= i < |b|
          ensures !p(b[i])
        {
          if p(b[i]) {
            NotBelowTransitive(KeyOf(b[i]), k, KeyOf(r));
          }
        }
        OnlyNone(b, p);
      }
      assert rows == a + b;
      OnlyConcat(a, b, p);
      OnlyConcat(a + b, [r], p);
      OnlyConcat(a + [r], b, p);
      OnlyConcat(a, [r], p);
      OnlyOne(r, p);
    }
  }

  lemma StableSnoc(rows: seq<Row>, sorted: seq<Row>, r: Row, out: seq<Row>)
    requires Stable(rows, sorted) && Stable(sorted + [r], out)
    ensures Stable(rows + [r], out)
  {
    hide Only, TiedWith;
    forall k: Key
      ensures Only(out, TiedWith(k)) == Only(rows + [r], TiedWith(k))
    {
      OnlyConcat(rows, [r], TiedWith(k));
      OnlyConcat(sorted, [r], TiedWith(k));
    }
  }

  method Insert(rows: seq<Row>, r: Row) returns (out: seq<Row>)
    requires InOrder(Keys(rows))
    ensures multiset(out) == multiset(rows) + multiset{r} && InOrder(Keys(out)) && Stable(rows + [r], out)
  {
    hide Before, Stable;
    var at := |rows|;
    while at > 0 && Before(KeyOf(r), KeyOf(rows[at - 1]))
      invariant 0 <= at <= |rows| && forall j :: at <= j < |rows| ==> Before(KeyOf(r), KeyOf(rows[j]))
    {
      at := at - 1;
    }
    InsertKeepsOrder(rows, r, at);
    InsertAdds(rows, r, at);
    InsertIsStable(rows, r, at);
    out := rows[..at] + [r] + rows[at..];
  }

  /** An insertion sort in place of the library's stable sort. */
  method SortRows(rows: seq<Row>) returns (out: seq<Row>)
    ensures multiset(out) == multiset(rows) && InOrder(Keys(out)) && Stable(rows, out)
  {
    hide Before, Only;
    out := [];
    assert Stable(rows[..0], out);
    hide Stable;
    for i := 0 to |rows|
      invariant multiset(out) == multiset(rows[..i]) && InOrder(Keys(out)) && Stable(rows[..i], out)
    {
      TakeAdds(rows, i);
      ghost var sorted := out;
      out := Insert(out, rows[i]);
      StableSnoc(rows[..i], sorted, rows[i], out);
      assert rows[..i + 1] == rows[..i] + [rows[i]];
    }
    assert rows[..|rows|] == rows;
  }

  lemma TakeAdds(rows: seq<Row>, i: nat)
    requires i < |rows|
    ensures multiset(rows[..i + 1]) == multiset(rows[..i]) + multiset{rows[i]}
  {
    assert rows[..i + 1] == rows[..i] + [rows[i]];
  }

  lemma InsertKeepsOrder(out: seq<Row>, r: Row, at: nat)
    requires InOrder(Keys(out)) && at <= |out|
    requires at > 0 ==> !Before(KeyOf(r), KeyOf(out[at - 1]))
    requires forall j :: at <= j < |out| ==> Before(KeyOf(r), KeyOf(out[j]))
    ensures InOrder(Keys(out[..at] + [r] + out[at..]))
  {
    hide Before;
    var ks, now := Keys(out), Keys(out[..at] + [r] + out[at..]);
    forall j | 0 <= j < at
      ensures !Before(KeyOf(r), ks[j])
    {
      if j < at - 1 {
        assert !Before(ks[at - 1], ks[j]);
        NotBelowTransitive(ks[j], ks[at - 1], KeyOf(r));
      }
    }
    forall j | at <= j < |out|
      ensures !Before(ks[j], KeyOf(r))
    {
      BeforeIsStrict(KeyOf(r), ks[j]);
    }
    assert forall j :: 0 <= j < |now| ==> now[j] == if j < at then ks[j] else if j == at then KeyOf(r) else ks[j - 1];
  }

  // ---- what the order does not depend on ----------------------------------------------------

  /** out is rows as sortRows leaves them. */
  ghost predicate Arranged(rows: seq<Row>, out: seq<Row>) { multiset(out) == multiset(rows) && InOrder(Keys(out)) }

  lemma {:induction false} PermutedKeys(a: seq<Row>, b: seq<Row>)
    requires multiset(a) == multiset(b)
    ensures forall k :: k in Keys(a) <==> k in Keys(b)
    ensures |a| == |b| && (Distinct(Keys(a)) ==> Distinct(Keys(b)))
  {
    forall k
      ensures k in Keys(a) <==> k in Keys(b)
    {
      if k in Keys(a) {
        var i :| 0 <= i < |a| && Keys(a)[i] == k;
        assert a[i] in multiset(b);
        var j :| 0 <= j < |b| && b[j] == a[i];
        assert Keys(b)[j] == k;
      }
      if k in Keys(b) {
        var i :| 0 <= i < |b| && Keys(b)[i] == k;
        assert b[i] in multiset(a);
        var j :| 0 <= j < |a| && a[j] == b[i];
        assert Keys(a)[j] == k;
      }
    }
    assert |multiset(a)| == |multiset(b)|;
    if Distinct(Keys(a)) {
      forall i, j | 0 <= i < j < |b|
        ensures Keys(b)[i].session != Keys(b)[j].session
        ensures Keys(b)[i].pinRank > 0 ==> Keys(b)[i].pinRank != Keys(b)[j].pinRank
      {
        TwoInOneMultiset(a, b, i, j);
      }
    }
  }

  lemma OnceInDistinct(a: seq<Row>, m: nat)
    requires Distinct(Keys(a)) && m < |a|
    ensures multiset(a)[a[m]] == 1
  {
    forall x | 0 <= x < |a| && x != m
      ensures a[x] != a[m]
    {
      assert Keys(a)[x].session != Keys(a)[m].session;
    }
    hide Distinct, Keys;
    var before, after := a[..m], a[m + 1..];
    assert a[m] !in before && a[m] !in after;
    assert a == before + [a[m]] + after;
  }

  lemma TwiceInSeq(b: seq<Row>, i: nat, j: nat)
    requires i < j < |b| && b[i] == b[j]
    ensures multiset(b)[b[i]] >= 2
  {
    assert b == b[..i] + [b[i]] + b[i + 1..j] + [b[j]] + b[j + 1..];
  }

  lemma TwoInOneMultiset(a: seq<Row>, b: seq<Row>, i: nat, j: nat)
    requires multiset(a) == multiset(b) && i < j < |b| && Distinct(Keys(a))
    ensures Keys(b)[i].session != Keys(b)[j].session
    ensures Keys(b)[i].pinRank > 0 ==> Keys(b)[i].pinRank != Keys(b)[j].pinRank
  {
    assert b[i] in multiset(a) && b[j] in multiset(a);
    var m :| 0 <= m < |a| && a[m] == b[i];
    var n :| 0 <= n < |a| && a[n] == b[j];
    OnceInDistinct(a, m);
    if b[i] == b[j] {
      TwiceInSeq(b, i, j);
    }
    assert m != n;
    assert Keys(a)[m] == Keys(b)[i] && Keys(a)[n] == Keys(b)[j];
  }

  lemma ArrangedIsSorted(rows: seq<Row>, out: seq<Row>)
    requires Distinct(Keys(rows)) && Arranged(rows, out)
    ensures Sorted(Keys(out)) && Distinct(Keys(out)) && |out| == |rows|
    ensures forall k :: k in Keys(out) <==> k in Keys(rows)
  {
    PermutedKeys(rows, out);
    DistinctInOrderIsSorted(Keys(out));
  }

  /** No change to state, mission, activity, attachment or anything else outside the keys reorders the
      list, whatever order the rows arrive in. */
  lemma OnlyKeysPlace(rows: seq<Row>, changed: seq<Row>, out: seq<Row>, out2: seq<Row>)
    requires Distinct(Keys(rows)) && Distinct(Keys(changed)) && forall k :: k in Keys(rows) <==> k in Keys(changed)
    requires Arranged(rows, out) && Arranged(changed, out2)
    ensures Keys(out) == Keys(out2)
  {
    ArrangedIsSorted(rows, out);
    ArrangedIsSorted(changed, out2);
    SortedIsUnique(Keys(out), Keys(out2));
  }

  /** The list does not depend on the order its rows were collected in. */
  lemma ArrivalOrderIsIrrelevant(rows: seq<Row>, shuffled: seq<Row>, out: seq<Row>, out2: seq<Row>)
    requires Distinct(Keys(rows)) && multiset(rows) == multiset(shuffled)
    requires Arranged(rows, out) && Arranged(shuffled, out2)
    ensures out == out2
  {
    PermutedKeys(rows, shuffled);
    OnlyKeysPlace(rows, shuffled, out, out2);
    ArrangedIsSorted(rows, out);
    forall i | 0 <= i < |out|
      ensures out[i] == out2[i]
    {
      assert out[i] in multiset(out2);
      var j :| 0 <= j < |out2| && out2[j] == out[i];
      assert Keys(out)[i] == Keys(out2)[j] == Keys(out)[j];
    }
  }

  /** The order with one session's card taken out. */
  function Without(ks: seq<Key>, session: string): seq<Key> {
    if ks == [] then []
    else Without(ks[..|ks| - 1], session) + (if ks[|ks| - 1].session == session then [] else [ks[|ks| - 1]])
  }

  lemma {:induction false} WithoutHas(ks: seq<Key>, session: string)
    ensures forall k :: k in Without(ks, session) <==> k in ks && k.session != session
    ensures Sorted(ks) ==> Sorted(Without(ks, session))
  {
    hide Before;
    if ks != [] {
      var n := |ks| - 1;
      WithoutHas(ks[..n], session);
      assert ks == ks[..n] + [ks[n]];
      if Sorted(ks) {
        assert Sorted(ks[..n]);
        assert forall k <- ks[..n] :: Before(k, ks[n]);
        assert forall i :: 0 <= i < |Without(ks[..n], session)| ==> Without(ks[..n], session)[i] in ks[..n];
      }
    }
  }

  /** Changing the keys of one session moves that session's card and no other: the rest keep their order. */
  lemma OnlyOneMoves(rows: seq<Row>, changed: seq<Row>, session: string, out: seq<Row>, out2: seq<Row>)
    requires Distinct(Keys(rows)) && Distinct(Keys(changed)) && |rows| == |changed|
    requires forall i :: 0 <= i < |rows| ==>
               KeyOf(rows[i]) == KeyOf(changed[i]) || (rows[i].session == session && changed[i].session == session)
    requires Arranged(rows, out) && Arranged(changed, out2)
    ensures Without(Keys(out), session) == Without(Keys(out2), session)
  {
    ArrangedIsSorted(rows, out);
    ArrangedIsSorted(changed, out2);
    WithoutHas(Keys(out), session);
    WithoutHas(Keys(out2), session);
    forall k
      ensures k in Keys(rows) && k.session != session <==> k in Keys(changed) && k.session != session
    {
      if k in Keys(rows) && k.session != session {
        var i :| 0 <= i < |rows| && Keys(rows)[i] == k;
        assert Keys(changed)[i] == k;
      }
      if k in Keys(changed) && k.session != session {
        var i :| 0 <= i < |rows| && Keys(changed)[i] == k;
        assert Keys(rows)[i] == k;
      }
    }
    SortedIsUnique(Without(Keys(out), session), Without(Keys(out2), session));
  }

  /** Read top down, unpinned rows are by recency, never-attached ones last, then newest first, then by name. */
  lemma RecencyThenCreationThenName(rows: seq<Row>, i: nat, j: nat)
    requires InOrder(Keys(rows)) && Distinct(Keys(rows)) && i < j < |rows|
    requires rows[i].pinRank == 0
    ensures rows[j].pinRank == 0
    ensures rows[j].lastAttached.Some? ==>
              rows[i].lastAttached.Some? && rows[i].lastAttached.value >= rows[j].lastAttached.value
    ensures rows[i].lastAttached == rows[j].lastAttached ==> rows[i].created >= rows[j].created
    ensures rows[i].lastAttached == rows[j].lastAttached && rows[i].created == rows[j].created ==>
              Alphabetical(rows[i].session, rows[j].session)
  {
    NameLessExactly(rows[i].session, rows[j].session);
    hide NameLess, Alphabetical;
    DistinctInOrderIsSorted(Keys(rows));
    assert Before(Keys(rows)[i], Keys(rows)[j]);
  }

  // ---- attaching promotes -------------------------------------------------------------------

  function Stamp(r: Row, meta: map<string, Meta>): Row {
    if r.session in meta then r.(lastAttached := meta[r.session].lastAttached, created := meta[r.session].created) else r
  }

  function Stamped(rows: seq<Row>, meta: map<string, Meta>): (out: seq<Row>)
    ensures |out| == |rows| && forall i :: 0 <= i < |rows| ==> out[i] == Stamp(rows[i], meta)
  {
    seq(|rows|, i requires 0 <= i < |rows| => Stamp(rows[i], meta))
  }

  /** The metadata with this session attached just now. */
  function Attached(meta: map<string, Meta>, session: string, now: int): map<string, Meta> {
    meta[session := Meta(Some(now), if session in meta then meta[session].created else 0)]
  }

  lemma StampKeepsDistinct(rows: seq<Row>, meta: map<string, Meta>)
    requires Distinct(Keys(rows))
    ensures Distinct(Keys(Stamped(rows, meta)))
  {
    forall i, j | 0 <= i < j < |rows|
      ensures Keys(Stamped(rows, meta))[i].session != Keys(Stamped(rows, meta))[j].session
      ensures Keys(Stamped(rows, meta))[i].pinRank > 0 ==> Keys(Stamped(rows, meta))[i].pinRank != Keys(Stamped(rows, meta))[j].pinRank
    {
      assert Keys(rows)[i].session != Keys(rows)[j].session;
    }
  }

  /** A sorted list, every other session attached earlier than now, and what promoting one makes of it. */
  ghost predicate Promoted(rows: seq<Row>, meta: map<string, Meta>, session: string, now: int, out: seq<Row>) {
    && Distinct(Keys(rows)) && InOrder(Keys(rows)) && Stamped(rows, meta) == rows
    && (forall i :: 0 <= i < |rows| && rows[i].session != session && rows[i].lastAttached.Some? ==> rows[i].lastAttached.value < now)
    && Arranged(Stamped(rows, Attached(meta, session, now)), out)
  }

  /** Only the promoted session's card moves. */
  lemma PromoteMovesOnlyOne(rows: seq<Row>, meta: map<string, Meta>, session: string, now: int, out: seq<Row>)
    requires Promoted(rows, meta, session, now, out)
    ensures Without(Keys(out), session) == Without(Keys(rows), session)
  {
    hide Before;
    var moved := Stamped(rows, Attached(meta, session, now));
    StampKeepsDistinct(rows, Attached(meta, session, now));
    assert forall i :: 0 <= i < |rows| ==> rows[i] == Stamp(rows[i], meta);
    OnlyOneMoves(rows, moved, session, rows, out);
  }

  /** It goes to the place under the pinned block. */
  lemma PromotedIsOnTop(rows: seq<Row>, meta: map<string, Meta>, session: string, now: int, out: seq<Row>, i: nat, j: nat)
    requires Promoted(rows, meta, session, now, out)
    requires i < j < |out| && out[j].session == session && out[j].pinRank == 0
    ensures out[i].pinRank > 0
  {
    hide Before;
    StampKeepsDistinct(rows, Attached(meta, session, now));
    ArrangedIsSorted(Stamped(rows, Attached(meta, session, now)), out);
    assert Before(Keys(out)[i], Keys(out)[j]) && Keys(out)[i].session != Keys(out)[j].session;
    TopUnderPins(rows, meta, session, now, out, i, j);
  }

  /** A pinned card does not move at all. */
  lemma PinnedIsNotPromoted(rows: seq<Row>, meta: map<string, Meta>, session: string, now: int, out: seq<Row>, at: nat)
    requires Promoted(rows, meta, session, now, out)
    requires at < |rows| && rows[at].session == session && rows[at].pinRank > 0
    ensures |out| == |rows| && forall i :: 0 <= i < |rows| ==> out[i].session == rows[i].session
  {
    hide Before;
    var moved := Stamped(rows, Attached(meta, session, now));
    StampKeepsDistinct(rows, Attached(meta, session, now));
    forall i | 0 <= i < |rows| && i != at
      ensures KeyOf(moved[i]) == KeyOf(rows[i])
    {
      assert Keys(rows)[i].session != Keys(rows)[at].session;
      assert rows[i] == Stamp(rows[i], meta);
    }
    PinnedStays(rows, moved, at, session);
    OnlyKeysPlace(moved, moved, moved, out);
    assert forall i :: 0 <= i < |rows| ==> Keys(out)[i].session == Keys(moved)[i].session;
  }

  lemma TopUnderPins(rows: seq<Row>, meta: map<string, Meta>, session: string, now: int, out: seq<Row>, i: nat, j: nat)
    requires Stamped(rows, meta) == rows
    requires forall m :: 0 <= m < |rows| && rows[m].session != session && rows[m].lastAttached.Some? ==>
               rows[m].lastAttached.value < now
    requires multiset(out) == multiset(Stamped(rows, Attached(meta, session, now)))
    requires i < j < |out| && out[j].session == session && out[j].pinRank == 0
    requires Before(KeyOf(out[i]), KeyOf(out[j])) && KeyOf(out[i]).session != session
    ensures out[i].pinRank > 0
  {
    var moved := Stamped(rows, Attached(meta, session, now));
    assert out[i] in multiset(moved) && out[j] in multiset(moved);
    var m :| 0 <= m < |moved| && moved[m] == out[i];
    var n :| 0 <= n < |moved| && moved[n] == out[j];
    assert moved[m] == Stamp(rows[m], Attached(meta, session, now)) == Stamp(rows[m], meta) == rows[m];
    assert moved[n].lastAttached == Some(now);
  }

  lemma PinnedStays(rows: seq<Row>, moved: seq<Row>, at: nat, session: string)
    requires Distinct(Keys(rows)) && InOrder(Keys(rows)) && |moved| == |rows|
    requires at < |rows| && rows[at].session == session && rows[at].pinRank > 0
    requires forall i :: 0 <= i < |rows| && i != at ==> KeyOf(moved[i]) == KeyOf(rows[i])
    requires moved[at].session == session && moved[at].pinRank == rows[at].pinRank
    ensures InOrder(Keys(moved))
  {
    forall i, j | 0 <= i < j < |moved|
      ensures !Before(Keys(moved)[j], Keys(moved)[i])
    {
      assert !Before(Keys(rows)[j], Keys(rows)[i]);
    }
  }

  // ---- the pinned block ---------------------------------------------------------------------

  function OtherThan(name: string): string -> bool { n => n != name }

  function AmongSet(live: set<string>): string -> bool { n => n in live }

  function Among(names: seq<string>): string -> bool { n => n in names }

  function Kept(names: seq<string>, keep: string -> bool): seq<string> {
    if names == [] then []
    else Kept(names[..|names| - 1], keep) + (if keep(names[|names| - 1]) then [names[|names| - 1]] else [])
  }

  /** Keeping some of the names keeps exactly those, each as often as it was there. */
  lemma {:induction false} KeptHas(names: seq<string>, keep: string -> bool)
    ensures forall n :: n in Kept(names, keep) <==> n in names && keep(n)
    ensures NoDup(names) ==> NoDup(Kept(names, keep))
  {
    if names != [] {
      var n := |names| - 1;
      KeptHas(names[..n], keep);
      assert names == names[..n] + [names[n]];
      assert NoDup(names) ==> names[n] !in names[..n];
    }
  }

  lemma {:induction false} KeptKeepsOrder(names: seq<string>, keep: string -> bool)
    ensures KeptInOrder(names, keep, Kept(names, keep))
  {
    hide KeptInOrder;
    if names == [] {
      NothingKept(names, keep);
    } else {
      var n := |names| - 1;
      KeptKeepsOrder(names[..n], keep);
      KeepOneMore(names[..n], keep, Kept(names[..n], keep), names[n]);
      assert names == names[..n] + [names[n]];
    }
  }

  lemma {:induction false} KeptAll(names: seq<string>, keep: string -> bool)
    requires forall i :: 0 <= i < |names| ==> keep(names[i])
    ensures Kept(names, keep) == names
  {
    if names != [] {
      KeptAll(names[..|names| - 1], keep);
    }
  }

  /** 1-based place in the pinned list, 0 when unpinned. */
  function RankOf(pinned: seq<string>, name: string): (r: nat)
    ensures r <= |pinned| && (r > 0 ==> pinned[r - 1] == name)
    ensures r == 0 <==> name !in pinned
  {
    if pinned == [] then 0
    else if pinned[|pinned| - 1] == name then |pinned|
    else
      assert pinned == pinned[..|pinned| - 1] + [pinned[|pinned| - 1]];
      RankOf(pinned[..|pinned| - 1], name)
  }

  /** For a name pinned twice that is its last place. */
  lemma {:induction false} RankIsLast(pinned: seq<string>, name: string)
    ensures forall j :: RankOf(pinned, name) <= j < |pinned| ==> pinned[j] != name
  {
    if pinned != [] && pinned[|pinned| - 1] != name {
      RankIsLast(pinned[..|pinned| - 1], name);
    }
  }

  function Toggled(pinned: seq<string>, name: string): seq<string> {
    if name == "" then pinned
    else if name in pinned then Kept(pinned, OtherThan(name))
    else pinned + [name]
  }

  /** Unpinning what was just pinned undoes it; pinning what was just unpinned puts it last. */
  lemma ToggleTwice(pinned: seq<string>, name: string)
    requires name != ""
    ensures name !in pinned ==> Toggled(Toggled(pinned, name), name) == pinned
    ensures name in pinned ==> Toggled(Toggled(pinned, name), name) == Kept(pinned, OtherThan(name)) + [name]
  {
    if name !in pinned {
      assert (pinned + [name])[..|pinned|] == pinned;
      KeptAll(pinned, OtherThan(name));
    } else {
      KeptHas(pinned, OtherThan(name));
    }
  }

  /** A toggle changes whether its own session is pinned and no other's, and never pins one twice. */
  lemma ToggleIsPrecise(pinned: seq<string>, name: string, other: string)
    requires name != ""
    ensures other in Toggled(pinned, name) <==> (if other == name then name !in pinned else other in pinned)
    ensures NoDup(pinned) ==> NoDup(Toggled(pinned, name))
  {
    KeptHas(pinned, OtherThan(name));
  }

  function IndexOf(names: seq<string>, name: string, from: nat := 0): (i: int)
    requires from <= |names|
    ensures i == -1 || (from <= i < |names| && names[i] == name)
    ensures forall j :: from <= j < (if i < 0 then |names| else i) ==> names[j] != name
    decreases |names| - from
  {
    if from == |names| then -1 else if names[from] == name then from else IndexOf(names, name, from + 1)
  }

  function Reordered(pinned: seq<string>, name: string, dir: int): seq<string> {
    var at := IndexOf(pinned, name);
    if at < 0 || !(0 <= at + dir < |pinned|) then pinned
    else pinned[at := pinned[at + dir]][at + dir := name]
  }

  lemma SwapIsPermutation<T>(s: seq<T>, i: nat, j: nat)
    requires i < |s| && j < |s| && NoDup(s)
    ensures var t := s[i := s[j]][j := s[i]];
            multiset(t) == multiset(s) && NoDup(t) && t[i := t[j]][j := t[i]] == s
  {
  }

  lemma IndexIs(names: seq<string>, i: nat)
    requires NoDup(names) && i < |names|
    ensures IndexOf(names, names[i]) == i
  {
  }

  /** A move swaps the pin with its neighbour and holds at the ends of the block. */
  lemma ReorderSwaps(pinned: seq<string>, name: string, dir: int)
    requires NoDup(pinned)
    ensures var moved := Reordered(pinned, name, dir);
            && NoDup(moved) && multiset(moved) == multiset(pinned)
            && (0 <= IndexOf(pinned, name) && 0 <= IndexOf(pinned, name) + dir < |pinned| ==>
                  IndexOf(moved, name) == IndexOf(pinned, name) + dir)
  {
    hide NoDup, IndexOf;
    var at := IndexOf(pinned, name);
    if at >= 0 && 0 <= at + dir < |pinned| {
      SwapIsPermutation(pinned, at, at + dir);
      IndexIs(Reordered(pinned, name, dir), at + dir);
    }
  }

  /** Moving a pin and moving it back changes nothing exactly when the first move was not held back at an
      end of the block that the second one then leaves. */
  lemma ReorderBack(pinned: seq<string>, name: string, dir: int)
    requires NoDup(pinned) && (dir == 1 || dir == -1)
    ensures Reordered(Reordered(pinned, name, dir), name, -dir) == pinned
            <==> name !in pinned || 0 <= IndexOf(pinned, name) + dir < |pinned| || |pinned| == 1
  {
    hide NoDup;
    var at := IndexOf(pinned, name);
    hide IndexOf;
    if at >= 0 {
      if 0 <= at + dir < |pinned| {
        ReorderSwaps(pinned, name, dir);
        SwapIsPermutation(pinned, at, at + dir);
      } else if |pinned| > 1 {
        IndexIs(pinned, at - dir);
        assert Reordered(pinned, name, -dir)[at] == pinned[at - dir] != pinned[at];
      }
    }
  }

  function RankRow(r: Row, pinned: seq<string>): Row { r.(pinRank := RankOf(pinned, r.session)) }

  ghost predicate DistinctNames(rows: seq<Row>) { forall i, j :: 0 <= i < j < |rows| ==> rows[i].session != rows[j].session }

  ghost predicate RanksFrom(rows: seq<Row>, pinned: seq<string>) {
    forall i :: 0 <= i < |rows| ==> rows[i].pinRank == RankOf(pinned, rows[i].session)
  }

  lemma RankedIsDistinct(rows: seq<Row>, pinned: seq<string>)
    requires DistinctNames(rows) && RanksFrom(rows, pinned)
    ensures Distinct(Keys(rows))
  {
    forall i, j | 0 <= i < j < |rows|
      ensures Keys(rows)[i].session != Keys(rows)[j].session
      ensures Keys(rows)[i].pinRank > 0 ==> Keys(rows)[i].pinRank != Keys(rows)[j].pinRank
    {
      assert rows[i].pinRank == RankOf(pinned, rows[i].session) && rows[j].pinRank == RankOf(pinned, rows[j].session);
    }
  }

  function Sessions(ks: seq<Key>): (names: seq<string>)
    ensures |names| == |ks| && forall i :: 0 <= i < |ks| ==> names[i] == ks[i].session
  {
    seq(|ks|, i requires 0 <= i < |ks| => ks[i].session)
  }

  /** The pinned names that are listed, in pin order; a name pinned twice counts at its last place. */
  function PinOrder(pinned: seq<string>, names: seq<string>, n: nat): seq<string>
    requires n <= |pinned|
  {
    if n == 0 then []
    else PinOrder(pinned, names, n - 1)
         + (if RankOf(pinned, pinned[n - 1]) == n && pinned[n - 1] in names then [pinned[n - 1]] else [])
  }

  lemma {:induction false} PinOrderHas(pinned: seq<string>, names: seq<string>, n: nat, name: string)
    requires n <= |pinned|
    ensures name in PinOrder(pinned, names, n) <==> 0 < RankOf(pinned, name) <= n && name in names
  {
    if n > 0 {
      PinOrderHas(pinned, names, n - 1, name);
      hide RankOf;
      assert RankOf(pinned, name) == n ==> pinned[n - 1] == name;
    }
  }

  /** For a pinned list without duplicates, which every gesture keeps, that is the list filtered. */
  lemma {:induction false} PinOrderIsKept(pinned: seq<string>, names: seq<string>, n: nat)
    requires NoDup(pinned) && n <= |pinned|
    ensures PinOrder(pinned, names, n) == Kept(pinned[..n], Among(names))
  {
    if n > 0 {
      PinOrderIsKept(pinned, names, n - 1);
      assert pinned[..n][..n - 1] == pinned[..n - 1];
      assert RankOf(pinned, pinned[n - 1]) == n;
    }
  }

  /** The keys of those names, out of ks. */
  ghost function PinnedKeys(pinned: seq<string>, ks: seq<Key>, n: nat): (out: seq<Key>)
    requires n <= |pinned|
    ensures forall k <- out :: k in ks && 0 < RankOf(pinned, k.session) <= n
    ensures Sessions(out) == PinOrder(pinned, Sessions(ks), n)
  {
    if n == 0 then []
    else
      var before, name := PinnedKeys(pinned, ks, n - 1), pinned[n - 1];
      if RankOf(pinned, name) == n && name in Sessions(ks) then
        var i :| 0 <= i < |ks| && Sessions(ks)[i] == name;
        assert Sessions(before + [ks[i]]) == Sessions(before) + [name];
        before + [ks[i]]
      else before
  }

  lemma {:induction false} PinnedKeysSorted(pinned: seq<string>, ks: seq<Key>, n: nat)
    requires n <= |pinned|
    requires forall k <- ks :: k.pinRank == RankOf(pinned, k.session)
    ensures Sorted(PinnedKeys(pinned, ks, n))
  {
    hide RankOf;
    if n > 0 {
      PinnedKeysSorted(pinned, ks, n - 1);
      var before, all := PinnedKeys(pinned, ks, n - 1), PinnedKeys(pinned, ks, n);
      assert forall k <- before :: 0 < k.pinRank < n;
      if all != before {
        var k := all[|before|];
        assert k.session == Sessions(all)[|before|] == pinned[n - 1];
        assert k in all && k.pinRank == n;
      }
    }
  }

  lemma BlockIsPinned(pinned: seq<string>, ks: seq<Key>, p: nat, k: Key)
    requires p <= |ks| && forall i :: 0 <= i < |ks| ==> (ks[i].pinRank > 0 <==> i < p)
    requires forall i :: 0 <= i < |ks| ==> ks[i].pinRank == RankOf(pinned, ks[i].session)
    requires k in PinnedKeys(pinned, ks, |pinned|)
    ensures k in ks[..p]
  {
    hide PinnedKeys, PinOrder, RankOf, Sessions;
    var i :| 0 <= i < |ks| && ks[i] == k;
    assert ks[i].pinRank == RankOf(pinned, k.session);
    assert i < p && ks[..p][i] == k;
  }

  lemma PinnedIsInBlock(pinned: seq<string>, ks: seq<Key>, i: nat)
    requires Distinct(ks) && i < |ks| && RankOf(pinned, ks[i].session) > 0
    ensures ks[i] in PinnedKeys(pinned, ks, |pinned|)
  {
    hide PinnedKeys, PinOrder, Distinct;
    PinOrderHas(pinned, Sessions(ks), |pinned|, ks[i].session);
    assert Sessions(ks)[i] == ks[i].session;
    BlockKey(pinned, ks, i, PinnedKeys(pinned, ks, |pinned|));
  }

  lemma BlockKey(pinned: seq<string>, ks: seq<Key>, i: nat, block: seq<Key>)
    requires Distinct(ks) && i < |ks| && ks[i].session in Sessions(block)
    requires forall k <- block :: k in ks
    ensures ks[i] in block
  {
    var j :| 0 <= j < |block| && Sessions(block)[j] == ks[i].session;
    assert block[j] in block;
    var m :| 0 <= m < |ks| && ks[m] == block[j];
    assert ks[m].session == ks[i].session;
  }

  /** The list opens with the pinned sessions that exist, in pin order, and no pinned one follows. */
  lemma PinnedBlockFirst(rows: seq<Row>, pinned: seq<string>)
    requires DistinctNames(rows) && RanksFrom(rows, pinned) && InOrder(Keys(rows))
    ensures var names := PinOrder(pinned, Sessions(Keys(rows)), |pinned|);
            && |names| <= |rows| && Sessions(Keys(rows))[..|names|] == names
            && (forall i :: |names| <= i < |rows| ==> rows[i].pinRank == 0)
            && (NoDup(pinned) ==> names == Kept(pinned, Among(Sessions(Keys(rows)))))
  {
    hide Before, RankOf, NoDup, Kept, PinnedKeys, PinOrder;
    var ks := Keys(rows);
    RankedIsDistinct(rows, pinned);
    DistinctInOrderIsSorted(ks);
    var p := BlockEnd(ks);
    var block := PinnedKeys(pinned, ks, |pinned|);
    PinnedKeysSorted(pinned, ks, |pinned|);
    forall k
      ensures k in block <==> k in ks[..p]
    {
      if k in block {
        BlockIsPinned(pinned, ks, p, k);
      }
      if k in ks[..p] {
        var i :| 0 <= i < p && ks[..p][i] == k;
        assert ks[i] == k && ks[i].pinRank == RankOf(pinned, ks[i].session);
        PinnedIsInBlock(pinned, ks, i);
      }
    }
    SortedPrefix(ks, p);
    SortedIsUnique(block, ks[..p]);
    assert Sessions(ks)[..p] == Sessions(ks[..p]);
    assert forall i :: 0 <= i < |rows| ==> rows[i].pinRank == ks[i].pinRank;
    if NoDup(pinned) {
      PinOrderIsKept(pinned, Sessions(ks), |pinned|);
      assert pinned[..|pinned|] == pinned;
    }
  }

  lemma SortedPrefix(ks: seq<Key>, p: nat)
    requires Sorted(ks) && p <= |ks|
    ensures Sorted(ks[..p])
  {
  }

  lemma {:induction false} BlockEnd(ks: seq<Key>) returns (p: nat)
    requires Sorted(ks)
    ensures p <= |ks| && forall i :: 0 <= i < |ks| ==> (ks[i].pinRank > 0 <==> i < p)
  {
    p := 0;
    while p < |ks| && ks[p].pinRank > 0
      invariant p <= |ks| && forall i :: 0 <= i < p ==> ks[i].pinRank > 0
    {
      p := p + 1;
    }
    forall i | p < i < |ks|
      ensures ks[i].pinRank == 0
    {
      assert Before(ks[p], ks[i]);
    }
  }
}

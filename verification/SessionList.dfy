// Rebuilding the session list after any lane lands, and the gestures that reorder it
// (cmd/orchard-sidebar: apply.go, fake.go, pin.go, selection.go).

module SessionList {
  import opened Options
  import opened Sequences
  import opened SessionOrder

  /** The hook lane's word on a row; a synthetic row has none. */
  function Overlay(r: Row, hooks: map<string, Hook>): Row {
    if r.fake then r
    else if r.session in hooks then
      var h := hooks[r.session];
      r.(state := h.state, hooked := true, mission := h.mission, cwd := h.cwd,
         lastAct := if h.lastAct > r.lastAct then h.lastAct else r.lastAct)
    else r.(hooked := false)
  }

  function HookRow(session: string, h: Hook): Row {
    Row(session, false, true, false, h.state, h.mission, h.cwd, h.lastAct, None, 0, 0)
  }

  function Place(r: Row, meta: map<string, Meta>, pinned: seq<string>): Row { RankRow(Stamp(r, meta), pinned) }

  function Named(rows: seq<Row>): set<string> { set r | r in rows :: r.session }

  /** Every row a rebuild lists: the lane's rows under the hook overlay, one for each session only the hooks
      know, and the synthetic ones. */
  function Members(rows: seq<Row>, hooks: map<string, Hook>, fakes: seq<Row>): set<Row> {
    (set r | r in rows :: Overlay(r, hooks))
    + (set s | s in hooks && s !in Named(rows) :: HookRow(s, hooks[s]))
    + (set f | f in fakes && f.session !in Named(rows) && f.session !in hooks)
  }

  /** The four lanes a rebuild reads besides the rows. */
  datatype Lanes = Lanes(hooks: map<string, Hook>, fakes: seq<Row>, meta: map<string, Meta>, pinned: seq<string>)

  function Listed(rows: seq<Row>, lanes: Lanes): set<Row> {
    set m | m in Members(rows, lanes.hooks, lanes.fakes) :: Place(m, lanes.meta, lanes.pinned)
  }

  /** out is a rebuilt list. */
  ghost predicate Rebuilt(rows: seq<Row>, lanes: Lanes, out: seq<Row>) {
    && DistinctNames(out) && RanksFrom(out, lanes.pinned) && InOrder(Keys(out))
    && (forall r :: r in out <==> r in Listed(rows, lanes))
  }

  /** There is one rebuilt list: neither the order the lane served its rows in nor the order the hook map
      is walked in shows. */
  lemma RebuildIsCanonical(rows: seq<Row>, shuffled: seq<Row>, lanes: Lanes, a: seq<Row>, b: seq<Row>)
    requires forall r :: r in rows <==> r in shuffled
    requires Rebuilt(rows, lanes, a) && Rebuilt(shuffled, lanes, b)
    ensures a == b
  {
    hide RanksFrom, Listed;
    SameListed(rows, shuffled, lanes);
    RankedIsDistinct(a, lanes.pinned);
    RankedIsDistinct(b, lanes.pinned);
    SameRowsInOrder(a, b);
  }

  lemma SameListed(rows: seq<Row>, shuffled: seq<Row>, lanes: Lanes)
    requires forall r :: r in rows <==> r in shuffled
    ensures Listed(rows, lanes) == Listed(shuffled, lanes)
  {
    assert Named(rows) == Named(shuffled);
    assert Members(rows, lanes.hooks, lanes.fakes) == Members(shuffled, lanes.hooks, lanes.fakes);
  }

  lemma SameRowsInOrder(a: seq<Row>, b: seq<Row>)
    requires Distinct(Keys(a)) && Distinct(Keys(b)) && InOrder(Keys(a)) && InOrder(Keys(b))
    requires forall r :: r in a <==> r in b
    ensures a == b
  {
    hide Before;
    DistinctInOrderIsSorted(Keys(a));
    DistinctInOrderIsSorted(Keys(b));
    forall k
      ensures k in Keys(a) <==> k in Keys(b)
    {
      SameRowsSameKeys(a, b, k);
      SameRowsSameKeys(b, a, k);
    }
    SortedIsUnique(Keys(a), Keys(b));
    forall i | 0 <= i < |a|
      ensures a[i] == b[i]
    {
      assert a[i] in b;
      var j :| 0 <= j < |b| && b[j] == a[i];
      assert Keys(b)[j].session == Keys(b)[i].session;
    }
  }

  lemma SameRowsSameKeys(a: seq<Row>, b: seq<Row>, k: Key)
    requires forall r :: r in a <==> r in b
    ensures k in Keys(a) ==> k in Keys(b)
  {
    if k in Keys(a) {
      var i :| 0 <= i < |a| && Keys(a)[i] == k;
      assert a[i] in b;
      var j :| 0 <= j < |b| && b[j] == a[i];
      assert Keys(b)[j] == k;
    }
  }

  /** No hook changes the order: whatever the state files say of the sessions listed, the list names them in
      the same order. */
  lemma HooksNeverReorder(rows: seq<Row>, lanes: Lanes, hooks: map<string, Hook>, a: seq<Row>, b: seq<Row>)
    requires hooks.Keys == lanes.hooks.Keys
    requires Rebuilt(rows, lanes, a) && Rebuilt(rows, lanes.(hooks := hooks), b)
    ensures Keys(a) == Keys(b)
  {
    hide RanksFrom, Listed;
    RankedIsDistinct(a, lanes.pinned);
    RankedIsDistinct(b, lanes.pinned);
    DistinctInOrderIsSorted(Keys(a));
    DistinctInOrderIsSorted(Keys(b));
    forall k
      ensures k in Keys(a) <==> k in Keys(b)
    {
      HooksKeepKey(rows, lanes, hooks, a, b, k);
      assert lanes == lanes.(hooks := hooks).(hooks := lanes.hooks);
      HooksKeepKey(rows, lanes.(hooks := hooks), lanes.hooks, b, a, k);
    }
    SortedIsUnique(Keys(a), Keys(b));
  }

  lemma HooksKeepKey(rows: seq<Row>, lanes: Lanes, hooks: map<string, Hook>, a: seq<Row>, b: seq<Row>, k: Key)
    requires hooks.Keys == lanes.hooks.Keys
    requires forall r :: r in a <==> r in Listed(rows, lanes)
    requires forall r :: r in b <==> r in Listed(rows, lanes.(hooks := hooks))
    ensures k in Keys(a) ==> k in Keys(b)
  {
    if k in Keys(a) {
      var i :| 0 <= i < |a| && Keys(a)[i] == k;
      assert a[i] in Listed(rows, lanes);
      var m :| m in Members(rows, lanes.hooks, lanes.fakes) && Place(m, lanes.meta, lanes.pinned) == a[i];
      var other := OtherMember(rows, lanes.hooks, hooks, lanes.fakes, m);
      var placed := Place(other, lanes.meta, lanes.pinned);
      assert placed in Listed(rows, lanes.(hooks := hooks));
      var j :| 0 <= j < |b| && b[j] == placed;
      assert Keys(b)[j] == k;
    }
  }

  lemma OtherMember(rows: seq<Row>, was: map<string, Hook>, hooks: map<string, Hook>, fakes: seq<Row>, m: Row) returns (other: Row)
    requires hooks.Keys == was.Keys && m in Members(rows, was, fakes)
    ensures other in Members(rows, hooks, fakes)
    ensures KeyOf(other) == KeyOf(m)
  {
    if r :| r in rows && m == Overlay(r, was) {
      other := Overlay(r, hooks);
    } else if s :| s in was && s !in Named(rows) && m == HookRow(s, was[s]) {
      other := HookRow(s, hooks[s]);
      assert s in hooks;
    } else {
      other := m;
    }
  }

  // ---- what a rebuilt list says -------------------------------------------------------------

  /** The keys of a listed row: tmux's where it knows the session, else those it came with, and its pin. */
  ghost predicate HasKeys(r: Row, lanes: Lanes, lastAttached: Option<int>, created: int) {
    && r.pinRank == RankOf(lanes.pinned, r.session)
    && (if r.session in lanes.meta
        then r.lastAttached == lanes.meta[r.session].lastAttached && r.created == lanes.meta[r.session].created
        else r.lastAttached == lastAttached && r.created == created)
  }

  /** r lists x as it came. */
  ghost predicate ListsAsIs(x: Row, lanes: Lanes, r: Row) {
    && r.session == x.session && r.fake == x.fake && r.attached == x.attached && r.hooked == x.hooked
    && r.state == x.state && r.mission == x.mission && r.cwd == x.cwd && r.lastAct == x.lastAct
    && HasKeys(r, lanes, x.lastAttached, x.created)
  }

  /** r lists x with what its state file says: state, mission and directory, and the later activity. */
  ghost predicate ListsHooked(x: Row, h: Hook, lanes: Lanes, r: Row) {
    && r.session == x.session && r.fake == x.fake && r.attached == x.attached && r.hooked
    && r.state == h.state && r.mission == h.mission && r.cwd == h.cwd
    && r.lastAct >= h.lastAct && r.lastAct >= x.lastAct && (r.lastAct == h.lastAct || r.lastAct == x.lastAct)
    && HasKeys(r, lanes, x.lastAttached, x.created)
  }

  /** r lists a session that only its state file tells of. */
  ghost predicate ListsHook(session: string, h: Hook, lanes: Lanes, r: Row) {
    && r.session == session && !r.fake && !r.attached && r.hooked
    && r.state == h.state && r.mission == h.mission && r.cwd == h.cwd && r.lastAct == h.lastAct
    && HasKeys(r, lanes, None, 0)
  }

  /** How the rebuilt list shows a row of the fast lane. */
  ghost predicate ShowsRow(x: Row, lanes: Lanes, r: Row) {
    if x.fake then ListsAsIs(x, lanes, r)
    else if x.session in lanes.hooks then ListsHooked(x, lanes.hooks[x.session], lanes, r)
    else ListsAsIs(x.(hooked := false), lanes, r)
  }

  /** Every row of the list is a row of the fast lane shown so, or a session that only its state file tells of,
      or a synthetic row that neither knows; and each of these is listed. */
  lemma ListSaysWhatLanesSay(rows: seq<Row>, lanes: Lanes, out: seq<Row>)
    requires Rebuilt(rows, lanes, out)
    ensures forall r :: r in out ==>
              || (exists x :: x in rows && ShowsRow(x, lanes, r))
              || (r.session in lanes.hooks && r.session !in Named(rows) && ListsHook(r.session, lanes.hooks[r.session], lanes, r))
              || (exists f :: f in lanes.fakes && f.session !in Named(rows) && f.session !in lanes.hooks && ListsAsIs(f, lanes, r))
    ensures forall x :: x in rows ==> exists r :: r in out && ShowsRow(x, lanes, r)
    ensures forall s :: s in lanes.hooks && s !in Named(rows) ==> exists r :: r in out && ListsHook(s, lanes.hooks[s], lanes, r)
    ensures forall f :: f in lanes.fakes && f.session !in Named(rows) && f.session !in lanes.hooks ==>
              exists r :: r in out && ListsAsIs(f, lanes, r)
  {
    hide ShowsRow, ListsHook, ListsAsIs, RanksFrom, Named;
    forall r | r in out
      ensures || (exists x :: x in rows && ShowsRow(x, lanes, r))
              || (r.session in lanes.hooks && r.session !in Named(rows) && ListsHook(r.session, lanes.hooks[r.session], lanes, r))
              || (exists f :: f in lanes.fakes && f.session !in Named(rows) && f.session !in lanes.hooks && ListsAsIs(f, lanes, r))
    {
      var m :| m in Members(rows, lanes.hooks, lanes.fakes) && r == Place(m, lanes.meta, lanes.pinned);
      if x :| x in rows && m == Overlay(x, lanes.hooks) {
        RowShown(x, lanes);
      } else if s :| s in lanes.hooks && s !in Named(rows) && m == HookRow(s, lanes.hooks[s]) {
        HookShown(s, lanes);
      } else {
        FakeShown(m, lanes);
      }
    }
    forall x | x in rows
      ensures exists r :: r in out && ShowsRow(x, lanes, r)
    {
      RowShown(x, lanes);
      assert Overlay(x, lanes.hooks) in Members(rows, lanes.hooks, lanes.fakes);
      assert Place(Overlay(x, lanes.hooks), lanes.meta, lanes.pinned) in out;
    }
    forall s | s in lanes.hooks && s !in Named(rows)
      ensures exists r :: r in out && ListsHook(s, lanes.hooks[s], lanes, r)
    {
      HookShown(s, lanes);
      assert HookRow(s, lanes.hooks[s]) in Members(rows, lanes.hooks, lanes.fakes);
      assert Place(HookRow(s, lanes.hooks[s]), lanes.meta, lanes.pinned) in out;
    }
    forall f | f in lanes.fakes && f.session !in Named(rows) && f.session !in lanes.hooks
      ensures exists r :: r in out && ListsAsIs(f, lanes, r)
    {
      FakeShown(f, lanes);
      assert f in Members(rows, lanes.hooks, lanes.fakes);
      assert Place(f, lanes.meta, lanes.pinned) in out;
    }
  }

  lemma RowShown(x: Row, lanes: Lanes)
    ensures ShowsRow(x, lanes, Place(Overlay(x, lanes.hooks), lanes.meta, lanes.pinned))
  {
    hide RankOf;
  }

  lemma HookShown(s: string, lanes: Lanes)
    requires s in lanes.hooks
    ensures ListsHook(s, lanes.hooks[s], lanes, Place(HookRow(s, lanes.hooks[s]), lanes.meta, lanes.pinned))
    ensures Place(HookRow(s, lanes.hooks[s]), lanes.meta, lanes.pinned).session == s
  {
    hide RankOf;
  }

  lemma FakeShown(f: Row, lanes: Lanes)
    ensures ListsAsIs(f, lanes, Place(f, lanes.meta, lanes.pinned))
  {
    hide RankOf;
  }

  // ---- the passes of a rebuild --------------------------------------------------------------

  function Overlaid(rows: seq<Row>, hooks: map<string, Hook>): (out: seq<Row>)
    ensures |out| == |rows| && forall i :: 0 <= i < |rows| ==> out[i] == Overlay(rows[i], hooks)
  {
    seq(|rows|, i requires 0 <= i < |rows| => Overlay(rows[i], hooks))
  }

  function Placed(rows: seq<Row>, meta: map<string, Meta>, pinned: seq<string>): (out: seq<Row>)
    ensures |out| == |rows| && forall i :: 0 <= i < |rows| ==> out[i] == Place(rows[i], meta, pinned)
  {
    seq(|rows|, i requires 0 <= i < |rows| => Place(rows[i], meta, pinned))
  }

  method OverlayAll(rows: seq<Row>, hooks: map<string, Hook>) returns (out: seq<Row>, seen: set<string>)
    ensures out == Overlaid(rows, hooks) && seen == Named(rows)
  {
    hide Overlay;
    out, seen := rows, {};
    for i := 0 to |rows|
      invariant |out| == |rows| && seen == Named(rows[..i])
      invariant forall j :: 0 <= j < |rows| ==> out[j] == if j < i then Overlay(rows[j], hooks) else rows[j]
    {
      assert rows[..i + 1] == rows[..i] + [rows[i]];
      seen, out := seen + {rows[i].session}, out[i := Overlay(rows[i], hooks)];
    }
    assert rows[..|rows|] == rows;
  }

  class Sidebar {
    var rows: seq<Row>
    var lanes: Lanes

    constructor (fakes: seq<Row>, pinned: seq<string>)
      requires DistinctNames(fakes)
      ensures rows == [] && lanes == Lanes(map[], fakes, map[], pinned)
    {
      rows, lanes := [], Lanes(map[], fakes, map[], pinned);
    }

    method ApplyHooks()
      requires DistinctNames(rows)
      modifies this`rows
      ensures DistinctNames(rows)
      ensures forall r :: r in rows <==>
                r in Overlaid(old(rows), lanes.hooks)
                || exists s :: s in lanes.hooks && s !in Named(old(rows)) && r == HookRow(s, lanes.hooks[s])
    {
      var out, seen := OverlayAll(rows, lanes.hooks);
      var more := HookedOnly(lanes.hooks, seen);
      assert forall j :: 0 <= j < |more| ==> more[j] in more;
      assert forall i :: 0 <= i < |rows| ==> rows[i].session in seen;
      DistinctAppend(out, more);
      rows := out + more;
    }

    method AppendFakes()
      requires DistinctNames(rows) && DistinctNames(lanes.fakes)
      modifies this`rows
      ensures DistinctNames(rows)
      ensures forall r :: r in rows <==> r in old(rows) || (r in lanes.fakes && r.session !in Named(old(rows)))
    {
      var have := Named(rows);
      var kept := FakesOnly(lanes.fakes, have);
      assert forall j :: 0 <= j < |kept| ==> kept[j] in kept;
      assert forall i :: 0 <= i < |rows| ==> rows[i].session in have;
      DistinctAppend(rows, kept);
      rows := rows + kept;
    }

    /** applyOrder, then applyPins. */
    method ApplyKeys()
      modifies this`rows
      ensures rows == Placed(old(rows), lanes.meta, lanes.pinned)
    {
      var out := rows;
      for i := 0 to |rows|
        invariant |out| == |rows|
        invariant forall j :: 0 <= j < |rows| ==> out[j] == if j < i then Stamp(rows[j], lanes.meta) else rows[j]
      {
        if rows[i].session in lanes.meta {
          var m := lanes.meta[rows[i].session];
          out := out[i := rows[i].(lastAttached := m.lastAttached, created := m.created)];
        }
      }
      var rank := Ranks(lanes.pinned);
      for i := 0 to |rows|
        invariant |out| == |rows|
        invariant forall j :: 0 <= j < |rows| ==>
                    out[j] == if j < i then Place(rows[j], lanes.meta, lanes.pinned) else Stamp(rows[j], lanes.meta)
      {
        out := out[i := out[i].(pinRank := if out[i].session in rank then rank[out[i].session] else 0)];
      }
      rows := out;
    }

    /** Everything view-facing is derived again; the list is the rebuilt one. */
    method Rebuild()
      requires DistinctNames(rows) && DistinctNames(lanes.fakes)
      modifies this`rows
      ensures Rebuilt(old(rows), lanes, rows)
    {
      ghost var start := rows;
      ApplyHooks();
      ghost var hooked := rows;
      AppendFakes();
      MembersCollected(start, lanes, hooked, rows);
      ghost var members := rows;
      ApplyKeys();
      ghost var placed := rows;
      var sorted := SortRows(rows);
      rows := sorted;
      RebuiltFrom(start, lanes, members, placed, rows);
    }

    method Promote(session: string, now: int)
      modifies this`rows, this`lanes
      ensures lanes == old(lanes).(meta := Attached(old(lanes).meta, session, now))
      ensures session in lanes.meta && lanes.meta[session].lastAttached == Some(now)
      ensures session in old(lanes).meta ==> lanes.meta[session].created == old(lanes).meta[session].created
      ensures forall s :: s != session ==>
                (s in lanes.meta <==> s in old(lanes).meta) && (s in lanes.meta ==> lanes.meta[s] == old(lanes).meta[s])
      ensures exists placed :: Arranged(placed, rows) && placed == Stamped(old(rows), lanes.meta)
    {
      var created := if session in lanes.meta then lanes.meta[session].created else 0;
      lanes := lanes.(meta := lanes.meta[session := Meta(Some(now), created)]);
      var out := rows;
      for i := 0 to |rows|
        invariant |out| == |rows|
        invariant forall j :: 0 <= j < |rows| ==> out[j] == if j < i then Stamp(rows[j], lanes.meta) else rows[j]
      {
        out := out[i := Stamp(rows[i], lanes.meta)];
      }
      assert out == Stamped(rows, lanes.meta);
      var sorted := SortRows(out);
      rows := sorted;
      assert Arranged(out, rows);
    }

    method TogglePin(name: string)
      requires DistinctNames(rows) && DistinctNames(lanes.fakes)
      modifies this`rows, this`lanes
      ensures lanes == old(lanes).(pinned := Toggled(old(lanes).pinned, name))
      ensures if name == "" then rows == old(rows) else Rebuilt(old(rows), lanes, rows)
    {
      if name == "" {
        return;
      }
      if name in lanes.pinned {
        var kept := Keep(lanes.pinned, OtherThan(name));
        lanes := lanes.(pinned := kept);
      } else {
        lanes := lanes.(pinned := lanes.pinned + [name]);
      }
      Rebuild();
    }

    method ReorderPin(name: string, dir: int) returns (moved: bool)
      requires DistinctNames(rows) && DistinctNames(lanes.fakes)
      modifies this`rows, this`lanes
      ensures lanes == old(lanes).(pinned := Reordered(old(lanes).pinned, name, dir))
      ensures moved <==> name in old(lanes).pinned && 0 <= IndexOf(old(lanes).pinned, name) + dir < |old(lanes).pinned|
      ensures if moved then Rebuilt(old(rows), lanes, rows) else rows == old(rows)
    {
      var at := -1;
      for i := 0 to |lanes.pinned|
        invariant at == -1 && lanes == old(lanes) && rows == old(rows)
        invariant forall j :: 0 <= j < i ==> lanes.pinned[j] != name
      {
        if lanes.pinned[i] == name {
          at := i;
          break;
        }
      }
      if at < 0 || !(0 <= at + dir < |lanes.pinned|) {
        return false;
      }
      var pinned := lanes.pinned;
      lanes := lanes.(pinned := pinned[at := pinned[at + dir]][at + dir := pinned[at]]);
      Rebuild();
      moved := true;
    }

    /** A pin whose session a real snapshot no longer lists is dropped; a live one never is, and the rest keep
        their order. */
    method PruneStalePins(live: set<string>)
      modifies this`lanes
      ensures lanes == old(lanes).(pinned := Kept(old(lanes).pinned, AmongSet(live)))
      ensures KeptInOrder(old(lanes).pinned, n => n in live, lanes.pinned)
    {
      var kept := Keep(lanes.pinned, AmongSet(live));
      lanes := lanes.(pinned := kept);
    }
  }

  method Keep(names: seq<string>, keep: string -> bool) returns (kept: seq<string>)
    ensures kept == Kept(names, keep)
    ensures KeptInOrder(names, keep, kept)
  {
    KeptKeepsOrder(names, keep);
    hide KeptInOrder;
    kept := [];
    for i := 0 to |names|
      invariant kept == Kept(names[..i], keep)
    {
      assert names[..i + 1][..i] == names[..i];
      if keep(names[i]) {
        kept := kept + [names[i]];
      }
    }
    assert names[..|names|] == names;
  }

  method Ranks(pinned: seq<string>) returns (rank: map<string, nat>)
    ensures forall n :: (if n in rank then rank[n] else 0) == RankOf(pinned, n)
  {
    rank := map[];
    for i := 0 to |pinned|
      invariant forall n :: (if n in rank then rank[n] else 0) == RankOf(pinned[..i], n)
    {
      assert pinned[..i + 1][..i] == pinned[..i];
      rank := rank[pinned[i] := i + 1];
    }
    assert pinned[..|pinned|] == pinned;
  }

  /** A row for each session the hooks know and the lane did not list, in no particular order. */
  method HookedOnly(hooks: map<string, Hook>, seen: set<string>) returns (out: seq<Row>)
    ensures DistinctNames(out)
    ensures forall r :: r in out <==> exists s :: s in hooks && s !in seen && r == HookRow(s, hooks[s])
  {
    out := [];
    var todo := hooks.Keys;
    while todo != {}
      invariant todo <= hooks.Keys && DistinctNames(out)
      invariant forall r :: r in out <==> exists s :: s in hooks.Keys - todo && s !in seen && r == HookRow(s, hooks[s])
      decreases todo
    {
      var s :| s in todo;
      todo := todo - {s};
      if s !in seen {
        assert forall i :: 0 <= i < |out| ==> out[i] in out;
        out := out + [HookRow(s, hooks[s])];
      }
    }
  }

  method FakesOnly(fakes: seq<Row>, have: set<string>) returns (out: seq<Row>)
    requires DistinctNames(fakes)
    ensures DistinctNames(out)
    ensures forall r :: r in out <==> r in fakes && r.session !in have
  {
    out := [];
    for i := 0 to |fakes|
      invariant DistinctNames(out)
      invariant forall r :: r in out <==> r in fakes[..i] && r.session !in have
    {
      assert fakes[..i + 1] == fakes[..i] + [fakes[i]];
      if fakes[i].session !in have {
        assert forall j :: 0 <= j < |out| ==> out[j] in fakes[..i];
        out := out + [fakes[i]];
      }
    }
    assert fakes[..|fakes|] == fakes;
  }

  lemma DistinctAppend(a: seq<Row>, b: seq<Row>)
    requires DistinctNames(a) && DistinctNames(b)
    requires forall i, j :: 0 <= i < |a| && 0 <= j < |b| ==> a[i].session != b[j].session
    ensures DistinctNames(a + b)
  {
  }

  /** hooked is rows under the overlay, and one for each session only the hooks know. */
  ghost predicate Hooked(rows: seq<Row>, hooks: map<string, Hook>, hooked: seq<Row>) {
    forall r :: r in hooked <==>
      r in Overlaid(rows, hooks) || exists s :: s in hooks && s !in Named(rows) && r == HookRow(s, hooks[s])
  }

  lemma HookedNames(rows: seq<Row>, hooks: map<string, Hook>, hooked: seq<Row>)
    requires Hooked(rows, hooks, hooked)
    ensures Named(hooked) == Named(rows) + hooks.Keys
  {
    forall name
      ensures name in Named(hooked) <==> name in Named(rows) || name in hooks
    {
      if name in Named(rows) {
        var r :| r in rows && r.session == name;
        var i :| 0 <= i < |rows| && rows[i] == r;
        assert Overlaid(rows, hooks)[i] in hooked;
      } else if name in hooks {
        assert HookRow(name, hooks[name]) in hooked;
      }
    }
  }

  lemma MembersCollected(rows: seq<Row>, lanes: Lanes, hooked: seq<Row>, all: seq<Row>)
    requires Hooked(rows, lanes.hooks, hooked)
    requires forall r :: r in all <==> r in hooked || (r in lanes.fakes && r.session !in Named(hooked))
    ensures forall r :: r in all <==> r in Members(rows, lanes.hooks, lanes.fakes)
  {
    HookedNames(rows, lanes.hooks, hooked);
    hide Named, Overlay;
    forall r
      ensures r in Overlaid(rows, lanes.hooks) <==> exists x :: x in rows && r == Overlay(x, lanes.hooks)
    {
      if x :| x in rows && r == Overlay(x, lanes.hooks) {
        var i :| 0 <= i < |rows| && rows[i] == x;
        assert Overlaid(rows, lanes.hooks)[i] == r;
      }
    }
  }

  lemma RebuiltFrom(rows: seq<Row>, lanes: Lanes, members: seq<Row>, placed: seq<Row>, out: seq<Row>)
    requires DistinctNames(members) && forall r :: r in members <==> r in Members(rows, lanes.hooks, lanes.fakes)
    requires placed == Placed(members, lanes.meta, lanes.pinned) && Arranged(placed, out)
    ensures Rebuilt(rows, lanes, out)
  {
    hide Before;
    assert RanksFrom(placed, lanes.pinned) && DistinctNames(placed);
    RankedIsDistinct(placed, lanes.pinned);
    PermutedKeys(placed, out);
    forall i, j | 0 <= i < j < |out|
      ensures out[i].session != out[j].session
    {
      assert Keys(out)[i].session != Keys(out)[j].session;
    }
    forall r
      ensures r in out <==> r in Listed(rows, lanes)
      ensures r in out ==> r.pinRank == RankOf(lanes.pinned, r.session)
    {
      assert r in out <==> r in multiset(placed);
      if r in placed {
        var i :| 0 <= i < |placed| && placed[i] == r;
        assert members[i] in members;
      }
      if r in Listed(rows, lanes) {
        var m :| m in Members(rows, lanes.hooks, lanes.fakes) && r == Place(m, lanes.meta, lanes.pinned);
        var i :| 0 <= i < |members| && members[i] == m;
        assert placed[i] == r;
      }
    }
  }
}

// When the sidebar rings: sessions that newly need attention (cmd/orchard-sidebar: bell.go, model.go).

module Bell {
  datatype Row = Row(session: string, fake: bool, state: string)

  /** The states a human has to act on. */
  predicate NeedsAttention(r: Row) { r.state == "input" || r.state == "stalled" }

  function Present(rows: seq<Row>): set<string> { set r | r in rows :: r.session }

  /** The real sessions that need attention in a list. */
  function Needy(rows: seq<Row>): set<string> { set r | r in rows && !r.fake && NeedsAttention(r) :: r.session }

  datatype Memory = Memory(attnSeen: set<string>, seeded: bool)

  function Remembered(m: Memory, rows: seq<Row>): Memory {
    Memory((m.attnSeen + Needy(rows)) - (Present(rows) - Needy(rows)), m.seeded || rows != [])
  }

  predicate Rings(m: Memory, rows: seq<Row>, on: bool) { m.seeded && on && !(Needy(rows) <= m.attnSeen) }

  // ---- history ------------------------------------------------------------------------------

  function After(lists: seq<seq<Row>>): Memory {
    if lists == [] then Memory({}, false) else Remembered(After(lists[..|lists| - 1]), lists[|lists| - 1])
  }

  /** A real row of the session waits for input or has stalled. */
  predicate NeedsIn(rows: seq<Row>, session: string) {
    exists r :: r in rows && r.session == session && !r.fake && (r.state == "input" || r.state == "stalled")
  }

  predicate ListedIn(rows: seq<Row>, session: string) { exists r :: r in rows && r.session == session }

  /** Whether a session needed attention when it was last listed. */
  ghost predicate NeededLast(lists: seq<seq<Row>>, session: string) {
    exists i :: 0 <= i < |lists| && NeedsIn(lists[i], session) && forall j :: i < j < |lists| ==> !ListedIn(lists[j], session)
  }

  lemma NeededLastSnoc(lists: seq<seq<Row>>, last: seq<Row>, session: string)
    ensures NeededLast(lists + [last], session) <==> if ListedIn(last, session) then NeedsIn(last, session) else NeededLast(lists, session)
  {
    NeedsIsListed(last, session);
    hide NeedsIn, ListedIn;
    var all := lists + [last];
    assert all[|lists|] == last && forall i :: 0 <= i < |lists| ==> all[i] == lists[i];
    if !ListedIn(last, session) && NeededLast(lists, session) {
      var i :| 0 <= i < |lists| && NeedsIn(lists[i], session) && forall j :: i < j < |lists| ==> !ListedIn(lists[j], session);
      assert NeedsIn(all[i], session);
    }
  }

  lemma NeedsIsListed(rows: seq<Row>, session: string)
    ensures NeedsIn(rows, session) ==> ListedIn(rows, session)
    ensures session in Needy(rows) <==> NeedsIn(rows, session)
    ensures session in Present(rows) <==> ListedIn(rows, session)
  {
  }

  predicate EverListed(lists: seq<seq<Row>>) { exists i :: 0 <= i < |lists| && lists[i] != [] }

  lemma {:induction false} MemoryIsHistory(lists: seq<seq<Row>>, session: string)
    ensures session in After(lists).attnSeen <==> NeededLast(lists, session)
    ensures After(lists).seeded <==> EverListed(lists)
  {
    if lists != [] {
      var before, last := lists[..|lists| - 1], lists[|lists| - 1];
      MemoryIsHistory(before, session);
      OneMoreList(After(before), last, session);
      EverListedSnoc(before, last);
      NeededLastSnoc(before, last, session);
      NeedsIsListed(last, session);
      assert lists == before + [last];
      hide Remembered, Present, Needy, EverListed, NeededLast, NeedsIn, ListedIn;
    }
  }

  lemma OneMoreList(m: Memory, rows: seq<Row>, session: string)
    ensures session in Remembered(m, rows).attnSeen
            <==> if session in Present(rows) then session in Needy(rows) else session in m.attnSeen
    ensures Remembered(m, rows).seeded <==> m.seeded || rows != []
  {
    NeedyIsPresent(rows);
    hide Needy, Present;
  }

  lemma EverListedSnoc(lists: seq<seq<Row>>, last: seq<Row>)
    ensures EverListed(lists + [last]) <==> EverListed(lists) || last != []
  {
    var all := lists + [last];
    assert all[|lists|] == last;
    if EverListed(lists) {
      var i :| 0 <= i < |lists| && lists[i] != [];
      assert all[i] != [];
    }
  }

  lemma NeedyIsPresent(rows: seq<Row>)
    ensures Needy(rows) <= Present(rows)
  {
  }

  /** The bell rings exactly when it is on, some earlier list had rows, and some real session needs
      attention now that did not when it was last listed, or was never listed. */
  lemma RingsOnNewNeed(lists: seq<seq<Row>>, rows: seq<Row>, on: bool)
    ensures Rings(After(lists), rows, on)
            <==> on && EverListed(lists)
                 && exists r :: r in rows && !r.fake && (r.state == "input" || r.state == "stalled") && !NeededLast(lists, r.session)
  {
    forall s
      ensures s in After(lists).attnSeen <==> NeededLast(lists, s)
    {
      MemoryIsHistory(lists, s);
    }
    MemoryIsHistory(lists, "");
    hide NeededLast, EverListed, After;
  }

  /** Vanishing and coming back never rings again: however many lists a session is missing from, it is
      remembered as it was last seen. */
  lemma {:induction false} VanishingIsRemembered(lists: seq<seq<Row>>, gap: seq<seq<Row>>, session: string)
    requires forall i :: 0 <= i < |gap| ==> !ListedIn(gap[i], session)
    ensures NeededLast(lists + gap, session) == NeededLast(lists, session)
  {
    if gap == [] {
      assert lists + gap == lists;
    } else {
      var n := |gap| - 1;
      assert lists + gap == lists + gap[..n] + [gap[n]];
      VanishingIsRemembered(lists, gap[..n], session);
      NeededLastSnoc(lists + gap[..n], gap[n], session);
    }
  }

  class Sidebar {
    var memory: Memory
    var bell: bool

    constructor (bell: bool)
      ensures memory == After([]) && this.bell == bell
    {
      memory, this.bell := Memory({}, false), bell;
    }

    method Sort(rows: seq<Row>) returns (now: set<string>, present: set<string>)
      ensures now == Needy(rows) && present == Present(rows)
    {
      now, present := {}, {};
      for i := 0 to |rows|
        invariant now == Needy(rows[..i]) && present == Present(rows[..i])
      {
        assert rows[..i + 1] == rows[..i] + [rows[i]];
        present := present + {rows[i].session};
        if !rows[i].fake && NeedsAttention(rows[i]) {
          now := now + {rows[i].session};
        }
      }
      assert rows[..|rows|] == rows;
    }

    method BellCheck(rows: seq<Row>) returns (rang: bool)
      modifies this`memory
      ensures memory == Remembered(old(memory), rows)
      ensures rang == Rings(old(memory), rows, bell)
    {
      var now, present := Sort(rows);
      var ring, seen := false, memory.attnSeen;
      var todo := now;
      while todo != {}
        invariant todo <= now && seen == memory.attnSeen + (now - todo) && memory == old(memory)
        invariant ring <==> !(now - todo <= memory.attnSeen)
        decreases todo
      {
        var s :| s in todo;
        if s !in seen {
          ring := true;
        }
        seen := seen + {s};
        todo := todo - {s};
      }
      seen := Forget(seen, present, now);
      rang := false;
      if !memory.seeded {
        memory := Memory(seen, |rows| > 0);
        return;
      }
      memory := memory.(attnSeen := seen);
      rang := ring && bell;
    }

    /** A session is forgotten only while it is listed and has left the bucket. */
    method Forget(seen: set<string>, present: set<string>, now: set<string>) returns (kept: set<string>)
      ensures kept == seen - (present - now)
    {
      kept := seen;
      var todo := seen;
      while todo != {}
        invariant todo <= seen && kept == seen - ((present - now) - todo)
        decreases todo
      {
        var s :| s in todo;
        if s in present && s !in now {
          kept := kept - {s};
        }
        todo := todo - {s};
      }
    }
  }
}

// Pane crash-loop recovery (cmd/orchard-shell: recover.go, recover_log.go, recover_pane.go).
//
// Every death of a pane reads the recovery log, decides, acts and appends one event. The log is
// the only state, and it is rotated; the theorems at the end speak about whole runs of deaths.

module Recovery {
  import opened Options
  import opened Counting

  /** Nanoseconds; 0 is Go's zero time, "never". */
  type Time = int

  const SECOND: Time := 1_000_000_000
  const CRASH_LOOP_WINDOW: Time := 60 * SECOND
  const CRASH_LOOP_BOUND := 5
  const HALT_DEBOUNCE: Time := 5 * SECOND
  const LOG_KEEP := 500

  datatype Pane = Sidebar | Inner | Split

  datatype Action =
    | ReattachInner
    | NewInnerSession
    | RespawnSidebar
    | CrashLoopHalt
    | Noop
    | CloseSplit
  {
    predicate Restart() { ReattachInner? || NewInnerSession? || RespawnSidebar? }
  }

  datatype Event = Event(pane: Pane, action: Action, at: Time)

  datatype RecoverInput = RecoverInput(
    pane: Pane, innerHasSessions: bool, history: seq<Time>, retry: bool, lastHalt: Time, now: Time)

  // ---- the decision -------------------------------------------------------------------------

  function RestartsWithin(history: seq<Time>, now: Time, window: Time): nat {
    if history == [] then 0
    else
      RestartsWithin(history[..|history| - 1], now, window)
      + (if now - history[|history| - 1] <= window then 1 else 0)
  }

  function DecideRecovery(input: RecoverInput): Action {
    if input.pane == Split then CloseSplit
    else if !input.retry && input.lastHalt != 0 && input.now - input.lastHalt <= HALT_DEBOUNCE then Noop
    else if !input.retry && RestartsWithin(input.history, input.now, CRASH_LOOP_WINDOW) > CRASH_LOOP_BOUND
      then CrashLoopHalt
    else if input.pane == Sidebar then RespawnSidebar
    else if !input.innerHasSessions then NewInnerSession
    else ReattachInner
  }

  // ---- what the log says --------------------------------------------------------------------

  /** The restart times of one pane, in log order. */
  function HistoryOf(log: seq<Event>, pane: Pane): seq<Time> {
    if log == [] then []
    else
      var last := log[|log| - 1];
      HistoryOf(log[..|log| - 1], pane) + (if last.pane == pane then [last.at] else [])
  }

  /** The time of the pane's last halt in log order, 0 when it has none. */
  function LastHaltOf(log: seq<Event>, pane: Pane): Time {
    if log == [] then 0
    else
      var last := log[|log| - 1];
      if last.pane == pane && last.action == CrashLoopHalt then last.at
      else LastHaltOf(log[..|log| - 1], pane)
  }

  function LastActionOf(log: seq<Event>, pane: Pane): Option<Action> {
    if log == [] then None
    else
      var last := log[|log| - 1];
      if last.pane == pane then Some(last.action) else LastActionOf(log[..|log| - 1], pane)
  }

  predicate Parked(log: seq<Event>, pane: Pane) {
    LastActionOf(log, pane) == Some(CrashLoopHalt)
  }

  /** The pane did this, and nothing has been logged of it since. */
  ghost predicate LastDid(log: seq<Event>, pane: Pane, action: Action) {
    exists i :: 0 <= i < |log| && DidAt(log, i, pane, action)
  }

  ghost predicate DidAt(log: seq<Event>, i: nat, pane: Pane, action: Action)
    requires i < |log|
  {
    log[i].pane == pane && log[i].action == action && forall j :: i < j < |log| ==> log[j].pane != pane
  }

  /** So a pane is parked exactly when it was halted and nothing has been logged of it since. */
  lemma {:induction false} LastActionExactly(log: seq<Event>, pane: Pane, action: Action)
    ensures LastActionOf(log, pane) == Some(action) <==> LastDid(log, pane, action)
    ensures Parked(log, pane) <==> LastActionOf(log, pane) == Some(CrashLoopHalt)
  {
    if log != [] {
      var n := |log| - 1;
      LastActionExactly(log[..n], pane, action);
      LastDidSnoc(log[..n], log[n], pane, action);
      assert log == log[..n] + [log[n]];
    }
  }

  lemma LastDidSnoc(log: seq<Event>, last: Event, pane: Pane, action: Action)
    ensures LastDid(log + [last], pane, action)
            <==> if last.pane == pane then last.action == action else LastDid(log, pane, action)
  {
    var now := log + [last];
    assert now[|log|] == last;
    if last.pane == pane {
      if i :| 0 <= i < |now| && DidAt(now, i, pane, action) {
        assert i == |log|;
      }
      assert last.action == action ==> DidAt(now, |log|, pane, action);
    } else {
      forall i | 0 <= i < |log|
        ensures DidAt(now, i, pane, action) <==> DidAt(log, i, pane, action)
      {
        assert forall j :: 0 <= j < |log| ==> now[j] == log[j];
      }
      assert !DidAt(now, |log|, pane, action);
    }
  }

  // ---- one death, as the log sees it --------------------------------------------------------

  /** How far appendRecoveryLog got: before rotating, after rotating, or all the way. */
  datatype Io = RotateFailed | WriteFailed | Written

  datatype Death = Death(
    pane: Pane, innerHasSessions: bool, retry: bool, now: Time, overCap: bool, io: Io)

  function Decision(log: seq<Event>, d: Death): Action {
    DecideRecovery(RecoverInput(d.pane, d.pane == Inner && d.innerHasSessions,
                                HistoryOf(log, d.pane), d.retry, LastHaltOf(log, d.pane), d.now))
  }

  function Rotated(log: seq<Event>, overCap: bool): seq<Event> {
    if overCap && |log| > LOG_KEEP then log[|log| - LOG_KEEP..] else log
  }

  function Appended(log: seq<Event>, ev: Event, overCap: bool, io: Io): seq<Event> {
    match io
    case RotateFailed => log
    case WriteFailed => Rotated(log, overCap)
    case Written => Rotated(log, overCap) + [ev]
  }

  function AfterDeath(log: seq<Event>, d: Death): seq<Event> {
    var action := Decision(log, d);
    if action == Noop then log
    else Appended(log, Event(d.pane, action, d.now), d.overCap, d.io)
  }

  // ---- the imperative shell -----------------------------------------------------------------

  method CountRestarts(history: seq<Time>, now: Time, window: Time) returns (n: nat)
    ensures n == RestartsWithin(history, now, window)
  {
    n := 0;
    for i := 0 to |history|
      invariant n == RestartsWithin(history[..i], now, window)
    {
      assert history[..i + 1][..i] == history[..i];
      if now - history[i] <= window {
        n := n + 1;
      }
    }
    assert history[..|history|] == history;
  }

  method LastActionByPane(events: seq<Event>) returns (last: map<Pane, Action>)
    ensures forall p :: LastActionOf(events, p) == (if p in last then Some(last[p]) else None)
  {
    last := map[];
    for i := 0 to |events|
      invariant forall p :: LastActionOf(events[..i], p) == (if p in last then Some(last[p]) else None)
    {
      assert events[..i + 1][..i] == events[..i];
      last := last[events[i].pane := events[i].action];
    }
    assert events[..|events|] == events;
  }

  method HaltedPanes(events: seq<Event>) returns (out: seq<Pane>)
    ensures forall p :: p in out <==> p != Split && Parked(events, p)
    ensures out <= [Sidebar, Inner] || out == [Inner]
  {
    var last := LastActionByPane(events);
    out := [];
    if Sidebar in last && last[Sidebar] == CrashLoopHalt {
      out := out + [Sidebar];
    }
    if Inner in last && last[Inner] == CrashLoopHalt {
      out := out + [Inner];
    }
  }

  /** e is a halt of a pane that is parked at the end of log. */
  predicate ParkedHalt(log: seq<Event>, e: Event) {
    e.action == CrashLoopHalt && Parked(log, e.pane)
  }

  /** No parked pane's halt is later than the i-th event, and none before it is as late. */
  ghost predicate NewestHalt(log: seq<Event>, i: nat)
    requires i < |log|
  {
    && ParkedHalt(log, log[i])
    && (forall e :: e in log && ParkedHalt(log, e) ==> e.at <= log[i].at)
    && (forall j :: 0 <= j < i && ParkedHalt(log, log[j]) ==> log[j].at < log[i].at)
  }

  method MostRecentlyHaltedPane(events: seq<Event>) returns (best: Option<Pane>)
    ensures best.None? <==> forall e :: e in events ==> !ParkedHalt(events, e)
    ensures best.Some? ==>
      exists i :: 0 <= i < |events| && NewestHalt(events, i) && events[i].pane == best.value
  {
    var last := LastActionByPane(events);
    best := None;
    var bestAt: Time := 0;
    ghost var b := 0;
    for i := 0 to |events|
      invariant best.None? ==> forall e :: e in events[..i] ==> !ParkedHalt(events, e)
      invariant best.Some? ==> 0 <= b < i && ParkedHalt(events, events[b])
      invariant best.Some? ==> events[b].pane == best.value && events[b].at == bestAt
      invariant best.Some? ==> forall e :: e in events[..i] && ParkedHalt(events, e) ==> e.at <= bestAt
      invariant best.Some? ==> forall j :: 0 <= j < b && ParkedHalt(events, events[j]) ==> events[j].at < bestAt
    {
      var ev := events[i];
      assert events[..i + 1] == events[..i] + [ev];
      if ev.action == CrashLoopHalt && ev.pane in last && last[ev.pane] == CrashLoopHalt {
        if best.None? || ev.at > bestAt {
          best, bestAt, b := Some(ev.pane), ev.at, i;
        }
      }
    }
    assert events[..|events|] == events;
  }

  method ResolveRetryTarget(sidebarDead: bool, innerDead: bool, events: seq<Event>) returns (target: Option<Pane>)
    ensures sidebarDead ==> target == Some(Sidebar)
    ensures !sidebarDead && innerDead ==> target == Some(Inner)
    ensures !sidebarDead && !innerDead ==>
      (target.None? <==> forall e :: e in events ==> !ParkedHalt(events, e))
      && (target.Some? ==>
            exists i :: 0 <= i < |events| && NewestHalt(events, i) && events[i].pane == target.value)
  {
    if sidebarDead {
      return Some(Sidebar);
    }
    if innerDead {
      return Some(Inner);
    }
    target := MostRecentlyHaltedPane(events);
  }

  class RecoveryLog {
    var events: seq<Event>

    constructor ()
      ensures events == []
    {
      events := [];
    }

    method RecoveryHistory(pane: Pane) returns (out: seq<Time>)
      ensures out == HistoryOf(events, pane)
    {
      out := [];
      for i := 0 to |events|
        invariant out == HistoryOf(events[..i], pane)
      {
        assert events[..i + 1][..i] == events[..i];
        if events[i].pane == pane {
          out := out + [events[i].at];
        }
      }
      assert events[..|events|] == events;
    }

    method LastHaltAt(pane: Pane) returns (t: Time)
      ensures t == LastHaltOf(events, pane)
    {
      t := 0;
      for i := 0 to |events|
        invariant t == LastHaltOf(events[..i], pane)
      {
        assert events[..i + 1][..i] == events[..i];
        if events[i].pane == pane && events[i].action == CrashLoopHalt {
          t := events[i].at;
        }
      }
      assert events[..|events|] == events;
    }

    method Rotate(overCap: bool)
      modifies this
      ensures events == Rotated(old(events), overCap)
    {
      if !overCap || |events| <= LOG_KEEP {
        return;
      }
      events := events[|events| - LOG_KEEP..];
    }

    method Append(ev: Event, overCap: bool, io: Io)
      modifies this
      ensures events == Appended(old(events), ev, overCap, io)
      ensures io == Written ==> events != [] && events[|events| - 1] == ev
      ensures var kept := if io == Written then events[..|events| - 1] else events;
              if io != RotateFailed && overCap && |old(events)| > 500
              then |kept| == 500 && exists cut :: 0 <= cut <= |old(events)| && kept == old(events)[cut..]
              else kept == old(events)
    {
      if io == RotateFailed {
        return;
      }
      Rotate(overCap);
      ghost var kept := events;
      if io == WriteFailed {
        return;
      }
      events := events + [ev];
      assert events[..|events| - 1] == kept;
    }

    /** recoverPane: read, decide, append. A no-op leaves no trace. */
    method RecoverPane(d: Death) returns (action: Action)
      modifies this
      ensures action == Decision(old(events), d)
      ensures events == AfterDeath(old(events), d)
    {
      var history := RecoveryHistory(d.pane);
      var halted := LastHaltAt(d.pane);
      action := DecideRecovery(
        RecoverInput(d.pane, d.pane == Inner && d.innerHasSessions, history, d.retry, halted, d.now));
      if action == Noop {
        return;
      }
      Append(Event(d.pane, action, d.now), d.overCap, d.io);
    }
  }

  // ---- runs ---------------------------------------------------------------------------------

  /** The log after a run of deaths, rotation included. */
  function RunLog(ds: seq<Death>): seq<Event> {
    if ds == [] then [] else AfterDeath(RunLog(ds[..|ds| - 1]), ds[|ds| - 1])
  }

  /** A logged event together with the death that caused it. */
  datatype Rec = Rec(d: Death, action: Action)

  ghost function Events(recs: seq<Rec>): seq<Event> {
    seq(|recs|, i requires 0 <= i < |recs| => Event(recs[i].d.pane, recs[i].action, recs[i].d.now))
  }

  /** What the same run would log if the file were never rotated. */
  ghost function FullRecs(ds: seq<Death>): seq<Rec> {
    if ds == [] then []
    else
      var before := FullRecs(ds[..|ds| - 1]);
      var d := ds[|ds| - 1];
      var action := Decision(Events(before), d);
      if action == Noop || d.io != Written then before else before + [Rec(d, action)]
  }

  ghost function FullLog(ds: seq<Death>): seq<Event> { Events(FullRecs(ds)) }

  /** Clocks never run backwards and never read the zero time. */
  ghost predicate Clocked(ds: seq<Death>) {
    && (forall i :: 0 <= i < |ds| ==> 0 < ds[i].now)
    && (forall i, j :: 0 <= i <= j < |ds| ==> ds[i].now <= ds[j].now)
  }

  ghost predicate InWindow(t: Time, a: Time) { a <= t <= a + CRASH_LOOP_WINDOW }

  // ---- counting against the guards ----------------------------------------------------------

  lemma EventsSnoc(recs: seq<Rec>, r: Rec)
    ensures Events(recs + [r]) == Events(recs) + [Event(r.d.pane, r.action, r.d.now)]
  {
  }

  /** The guard decideRecovery counts with, as a count over the log itself. */
  lemma {:induction false} RecentIsCount(recs: seq<Rec>, pane: Pane, now: Time)
    ensures RestartsWithin(HistoryOf(Events(recs), pane), now, CRASH_LOOP_WINDOW)
         == Count(recs, (r: Rec) => r.d.pane == pane && now - r.d.now <= CRASH_LOOP_WINDOW)
  {
    if recs != [] {
      var n := |recs| - 1;
      var r := recs[n];
      assert recs == recs[..n] + [r];
      EventsSnoc(recs[..n], r);
      assert Events(recs)[..n] == Events(recs[..n]);
      RecentIsCount(recs[..n], pane, now);
      var h := HistoryOf(Events(recs[..n]), pane);
      if r.d.pane == pane {
        assert (h + [r.d.now])[..|h|] == h;
      } else {
        assert h + [] == h;
      }
    }
  }

  /** Each record passed decideRecovery against the records before it. */
  ghost predicate Guarded(recs: seq<Rec>) {
    forall k :: 0 <= k < |recs| ==> GuardedAt(recs, k)
  }

  ghost predicate GuardedAt(recs: seq<Rec>, k: nat)
    requires k < |recs|
  {
    recs[k].action == Decision(Events(recs[..k]), recs[k].d) != Noop
  }

  lemma GuardedPrefix(recs: seq<Rec>, n: nat)
    requires Guarded(recs) && n <= |recs|
    ensures Guarded(recs[..n])
  {
    forall k | 0 <= k < n ensures GuardedAt(recs[..n], k) {
      assert GuardedAt(recs, k);
      assert recs[..n][..k] == recs[..k];
    }
  }

  ghost predicate Sorted(recs: seq<Rec>) {
    && (forall i :: 0 <= i < |recs| ==> 0 < recs[i].d.now)
    && (forall i, j :: 0 <= i < j < |recs| ==> recs[i].d.now <= recs[j].d.now)
  }

  lemma {:induction false} FullRecsGuarded(ds: seq<Death>)
    ensures Guarded(FullRecs(ds))
  {
    if ds != [] {
      var n := |ds| - 1;
      FullRecsGuarded(ds[..n]);
      var before, after := FullRecs(ds[..n]), FullRecs(ds);
      forall k | 0 <= k < |after| ensures GuardedAt(after, k) {
        if k < |before| {
          assert GuardedAt(before, k);
          assert after[..k] == before[..k];
        } else {
          assert after[..k] == before;
        }
      }
    }
  }

  lemma {:induction false} FullRecsInRun(ds: seq<Death>)
    ensures forall r :: r in FullRecs(ds) ==> r.d in ds
  {
    if ds != [] {
      FullRecsInRun(ds[..|ds| - 1]);
    }
  }

  lemma {:induction false} FullRecsSorted(ds: seq<Death>)
    requires Clocked(ds)
    ensures Sorted(FullRecs(ds))
  {
    if ds != [] {
      var n := |ds| - 1;
      FullRecsSorted(ds[..n]);
      var before := FullRecs(ds[..n]);
      FullRecsInRun(ds[..n]);
      forall i | 0 <= i < |before| ensures before[i].d.now <= ds[n].now {
        assert before[i] in before;
        var j :| 0 <= j < n && ds[..n][j] == before[i].d;
        assert ds[j].now <= ds[n].now;
      }
    }
  }

  ghost predicate AutoRestart(r: Rec, pane: Pane, a: Time) {
    r.d.pane == pane && !r.d.retry && r.action.Restart() && InWindow(r.d.now, a)
  }

  ghost predicate Halt(r: Rec, pane: Pane, a: Time) {
    r.d.pane == pane && r.action == CrashLoopHalt && InWindow(r.d.now, a)
  }

  /** At most six automatic restarts of a pane land in any closed window, whatever else is logged. */
  lemma {:induction false} RestartBound(recs: seq<Rec>, pane: Pane, a: Time)
    requires Guarded(recs)
    ensures Count(recs, (r: Rec) => AutoRestart(r, pane, a)) <= CRASH_LOOP_BOUND + 1
  {
    if recs != [] {
      var n := |recs| - 1;
      var before, r := recs[..n], recs[n];
      GuardedPrefix(recs, n);
      if AutoRestart(r, pane, a) {
        var now := r.d.now;
        RecentIsCount(before, pane, now);
        assert GuardedAt(recs, n);
        CountLe(before, (q: Rec) => AutoRestart(q, pane, a),
                (q: Rec) => q.d.pane == pane && now - q.d.now <= CRASH_LOOP_WINDOW);
      } else {
        RestartBound(before, pane, a);
      }
    }
  }

  /** The last halt on record is the pane's, and no older than any other halt of it. */
  lemma {:induction false} LastHaltIsNewest(recs: seq<Rec>, pane: Pane, a: Time)
    requires Sorted(recs)
    ensures var last := LastHaltOf(Events(recs), pane);
            forall r :: r in recs && Halt(r, pane, a) ==> a <= r.d.now <= last
  {
    if recs != [] {
      var n := |recs| - 1;
      LastHaltIsNewest(recs[..n], pane, a);
      assert Events(recs)[..n] == Events(recs[..n]);
      forall r | r in recs && Halt(r, pane, a) ensures r.d.now <= LastHaltOf(Events(recs), pane) {
        if r != recs[n] {
          assert r in recs[..n];
        }
      }
    }
  }

  /** n halts of a pane since a push its last halt more than five seconds apiece past a. */
  lemma {:induction false} HaltSpacing(recs: seq<Rec>, pane: Pane, a: Time)
    requires Guarded(recs) && Sorted(recs)
    requires forall r :: r in recs ==> r.d.now <= a + CRASH_LOOP_WINDOW
    ensures Spaced(Count(recs, (r: Rec) => Halt(r, pane, a)), a, LastHaltOf(Events(recs), pane))
  {
    if recs != [] {
      var k := |recs| - 1;
      var p := (r: Rec) => Halt(r, pane, a);
      GuardedPrefix(recs, k);
      HaltSpacing(recs[..k], pane, a);
      LastHaltSnoc(recs, pane);
      if recs[k].d.pane == pane && recs[k].action == CrashLoopHalt {
        HaltStep(recs, pane, a);
        SpacedStep(Count(recs[..k], p), a, LastHaltOf(Events(recs[..k]), pane), recs[k].d.now);
      }
    }
  }

  lemma LastHaltSnoc(recs: seq<Rec>, pane: Pane)
    requires recs != []
    ensures var r := recs[|recs| - 1];
            LastHaltOf(Events(recs), pane)
              == if r.d.pane == pane && r.action == CrashLoopHalt then r.d.now
                 else LastHaltOf(Events(recs[..|recs| - 1]), pane)
  {
    assert Events(recs)[..|recs| - 1] == Events(recs[..|recs| - 1]);
  }

  lemma SpacedStep(n: nat, a: Time, last: Time, now: Time)
    requires Spaced(n, a, last)
    requires n > 0 ==> a <= last && last + HALT_DEBOUNCE < now
    ensures n > 0 ==> Spaced(n + 1, a, now)
    ensures Spaced(1, a, now)
  {
  }

  lemma HaltStep(recs: seq<Rec>, pane: Pane, a: Time)
    requires Guarded(recs) && Sorted(recs) && recs != []
    requires recs[|recs| - 1].d.pane == pane && recs[|recs| - 1].action == CrashLoopHalt
    ensures var before, now := recs[..|recs| - 1], recs[|recs| - 1].d.now;
            var n, last := Count(before, (q: Rec) => Halt(q, pane, a)), LastHaltOf(Events(before), pane);
            n > 0 ==> a <= last && last + HALT_DEBOUNCE < now
  {
    var k := |recs| - 1;
    var before, r := recs[..k], recs[k];
    if Count(before, (q: Rec) => Halt(q, pane, a)) > 0 {
      var q := CountWitness(before, (q: Rec) => Halt(q, pane, a));
      assert GuardedAt(recs, k);
      LastHaltIsNewest(before, pane, a);
      HaltNeedsGap(Events(before), r.d);
    }
  }

  /** n halts since a, the newest of them at last, are more than five seconds apiece apart. */
  ghost predicate Spaced(n: nat, a: Time, last: Time) {
    n >= 2 ==> a + (n - 1) * 5_000_000_000 < last
  }

  lemma HaltNeedsGap(log: seq<Event>, d: Death)
    requires Decision(log, d) == CrashLoopHalt
    ensures LastHaltOf(log, d.pane) == 0 || d.now - LastHaltOf(log, d.pane) > HALT_DEBOUNCE
  {
  }

  lemma {:induction false} HaltBound(recs: seq<Rec>, pane: Pane, a: Time)
    requires Guarded(recs) && Sorted(recs)
    ensures Count(recs, (r: Rec) => Halt(r, pane, a)) <= 12
  {
    if recs != [] {
      var n := |recs| - 1;
      if recs[n].d.now > a + CRASH_LOOP_WINDOW {
        GuardedPrefix(recs, n);
        HaltBound(recs[..n], pane, a);
      } else {
        HaltSpacing(recs, pane, a);
        LastHaltBelow(recs, pane, a + CRASH_LOOP_WINDOW);
      }
    }
  }

  lemma {:induction false} LastHaltBelow(recs: seq<Rec>, pane: Pane, top: Time)
    requires 0 <= top && forall r :: r in recs ==> r.d.now <= top
    ensures LastHaltOf(Events(recs), pane) <= top
  {
    if recs != [] {
      LastHaltBelow(recs[..|recs| - 1], pane, top);
      assert Events(recs)[..|recs| - 1] == Events(recs[..|recs| - 1]);
    }
  }

  // ---- a log window and what may be forgotten -----------------------------------------------

  ghost function WindowCount(log: seq<Event>, now: Time): nat {
    Count(log, (e: Event) => now - e.at <= CRASH_LOOP_WINDOW)
  }

  /** The deaths no guard limits: M-r, and a split pane, which is always closed. */
  ghost predicate Extra(d: Death) { d.retry || d.pane == Split }

  lemma {:induction false} WindowOfRecs(recs: seq<Rec>, now: Time)
    ensures WindowCount(Events(recs), now)
         == Count(recs, (r: Rec) => Recent(r, now))
  {
    if recs != [] {
      WindowOfRecs(recs[..|recs| - 1], now);
      assert Events(recs)[..|recs| - 1] == Events(recs[..|recs| - 1]);
    }
  }

  lemma PaneBound(recs: seq<Rec>, pane: Pane, a: Time)
    requires Guarded(recs) && Sorted(recs)
    ensures Count(recs, (r: Rec) => Auto(r, pane, a)) <= 18
  {
    RestartBound(recs, pane, a);
    HaltBound(recs, pane, a);
    CountCover(recs, (r: Rec) => Auto(r, pane, a),
               (r: Rec) => AutoRestart(r, pane, a), (r: Rec) => Halt(r, pane, a));
  }

  ghost predicate Recent(r: Rec, now: Time) { now - r.d.now <= CRASH_LOOP_WINDOW }

  ghost predicate RecentExtra(r: Rec, now: Time) { Extra(r.d) && Recent(r, now) }

  ghost predicate Auto(r: Rec, pane: Pane, a: Time) { AutoRestart(r, pane, a) || Halt(r, pane, a) }

  lemma Classified(recs: seq<Rec>, k: nat, now: Time)
    requires Guarded(recs) && k < |recs| && recs[k].d.now <= now && Recent(recs[k], now)
    ensures var r, a := recs[k], now - CRASH_LOOP_WINDOW;
            RecentExtra(r, now) || Auto(r, Sidebar, a) || Auto(r, Inner, a)
  {
    assert GuardedAt(recs, k);
  }

  /** At most 36 events of any trailing window are neither M-r nor split closes. */
  lemma TrailingWindowBound(recs: seq<Rec>, now: Time)
    requires Guarded(recs) && Sorted(recs)
    requires forall r :: r in recs ==> r.d.now <= now
    ensures WindowCount(Events(recs), now) <= 36 + Count(recs, (r: Rec) => RecentExtra(r, now))
  {
    var a := now - CRASH_LOOP_WINDOW;
    var all := (r: Rec) => Recent(r, now);
    var extra := (r: Rec) => RecentExtra(r, now);
    var side := (r: Rec) => Auto(r, Sidebar, a);
    var inner := (r: Rec) => Auto(r, Inner, a);
    var auto := (r: Rec) => Auto(r, Sidebar, a) || Auto(r, Inner, a);
    forall r | r in recs && all(r) ensures extra(r) || auto(r) {
      var k :| 0 <= k < |recs| && recs[k] == r;
      Classified(recs, k, now);
    }
    WindowOfRecs(recs, now);
    PaneBound(recs, Sidebar, a);
    PaneBound(recs, Inner, a);
    CountCover(recs, all, extra, auto);
    CountCover(recs, auto, side, inner);
  }

  ghost predicate SortedLog(log: seq<Event>) {
    forall i, j :: 0 <= i < j < |log| ==> log[i].at <= log[j].at
  }

  /** Rotating keeps the whole trailing window exactly when the window holds at most 500 events. */
  lemma RotationKeepsWindow(log: seq<Event>, now: Time)
    requires SortedLog(log) && |log| > LOG_KEEP
    ensures (forall i :: 0 <= i < |log| - LOG_KEEP ==> now - log[i].at > CRASH_LOOP_WINDOW)
       <==> WindowCount(log, now) <= LOG_KEEP
  {
    var cut := |log| - LOG_KEEP;
    var p := (e: Event) => now - e.at <= CRASH_LOOP_WINDOW;
    assert log == log[..cut] + log[cut..];
    CountConcat(log[..cut], log[cut..], p);
    CountAtMost(log[cut..], p);
    if forall i :: 0 <= i < cut ==> now - log[i].at > CRASH_LOOP_WINDOW {
      CountNone(log[..cut], p);
    } else {
      var i :| 0 <= i < cut && now - log[i].at <= CRASH_LOOP_WINDOW;
      forall e | e in log[cut..] ensures p(e) {
        var j :| 0 <= j < |log[cut..]| && log[cut..][j] == e;
        assert log[i].at <= log[cut + j].at;
      }
      CountAll(log[cut..], p);
      CountHas(log[..cut], p, i);
    }
  }

  /** short is full without a prefix of events that have left every window ending at now or later. */
  ghost predicate Forgotten(full: seq<Event>, short: seq<Event>, now: Time) {
    && |short| <= |full|
    && short == full[|full| - |short|..]
    && forall i :: 0 <= i < |full| - |short| ==> now - full[i].at > CRASH_LOOP_WINDOW
  }

  ghost predicate Dated(log: seq<Event>) { forall e :: e in log ==> 0 < e.at }

  lemma {:induction false} OldLogCountsNothing(log: seq<Event>, pane: Pane, now: Time)
    requires forall i :: 0 <= i < |log| ==> now - log[i].at > CRASH_LOOP_WINDOW
    ensures RestartsWithin(HistoryOf(log, pane), now, CRASH_LOOP_WINDOW) == 0
    ensures LastHaltOf(log, pane) == 0 || now - LastHaltOf(log, pane) > CRASH_LOOP_WINDOW
  {
    if log != [] {
      var n := |log| - 1;
      OldLogCountsNothing(log[..n], pane, now);
      HistorySnoc(log, pane, now);
    }
  }

  lemma HistorySnoc(log: seq<Event>, pane: Pane, now: Time)
    requires log != []
    ensures RestartsWithin(HistoryOf(log, pane), now, CRASH_LOOP_WINDOW)
         == RestartsWithin(HistoryOf(log[..|log| - 1], pane), now, CRASH_LOOP_WINDOW)
            + (if log[|log| - 1].pane == pane && now - log[|log| - 1].at <= CRASH_LOOP_WINDOW then 1 else 0)
  {
    var h := HistoryOf(log[..|log| - 1], pane);
    var t := log[|log| - 1].at;
    assert (h + [t])[..|h|] == h;
    assert h + [] == h;
  }

  lemma {:induction false} ReadsConcat(a: seq<Event>, b: seq<Event>, pane: Pane, now: Time)
    requires Dated(b)
    ensures RestartsWithin(HistoryOf(a + b, pane), now, CRASH_LOOP_WINDOW)
         == RestartsWithin(HistoryOf(a, pane), now, CRASH_LOOP_WINDOW)
            + RestartsWithin(HistoryOf(b, pane), now, CRASH_LOOP_WINDOW)
    ensures LastHaltOf(a + b, pane)
         == if LastHaltOf(b, pane) != 0 then LastHaltOf(b, pane) else LastHaltOf(a, pane)
    decreases |b|
  {
    if b == [] {
      assert a + b == a;
    } else {
      assert (a + b)[..|a + b| - 1] == a + b[..|b| - 1];
      ReadsConcat(a, b[..|b| - 1], pane, now);
      HistorySnoc(a + b, pane, now);
      HistorySnoc(b, pane, now);
    }
  }

  /** Forgetting events older than the window changes no decision. */
  lemma ForgettingIsInvisible(full: seq<Event>, short: seq<Event>, d: Death)
    requires Forgotten(full, short, d.now) && Dated(full)
    ensures Decision(full, d) == Decision(short, d)
  {
    var cut := full[..|full| - |short|];
    assert full == cut + short;
    hide Decision, HistoryOf, LastHaltOf, RestartsWithin;
    OldLogCountsNothing(cut, d.pane, d.now);
    ReadsConcat(cut, short, d.pane, d.now);
    DroppingDecides(full, short, d);
  }

  predicate Debounced(log: seq<Event>, d: Death) {
    LastHaltOf(log, d.pane) != 0 && d.now - LastHaltOf(log, d.pane) <= HALT_DEBOUNCE
  }

  predicate Loops(log: seq<Event>, d: Death) {
    RestartsWithin(HistoryOf(log, d.pane), d.now, CRASH_LOOP_WINDOW) > CRASH_LOOP_BOUND
  }

  /** short still has the halt that debounces the pane and, without one, enough of the pane's own recent
      events to stay above the bound. M-r and split closes look at neither. */
  predicate GuardsKept(full: seq<Event>, short: seq<Event>, d: Death) {
    || d.retry || d.pane == Split
    || if Debounced(full, d) then Debounced(short, d) else Loops(full, d) ==> Loops(short, d)
  }

  predicate IsTail(short: seq<Event>, full: seq<Event>) { |short| <= |full| && short == full[|full| - |short|..] }

  /** Dropping a prefix of the log, at whatever age, decides a death alike exactly when it drops neither the
      halt that still debounces the pane nor enough of its own recent events to fall to the bound. */
  lemma DroppingDecides(full: seq<Event>, short: seq<Event>, d: Death)
    requires Dated(full) && IsTail(short, full)
    ensures Decision(full, d) == Decision(short, d) <==> GuardsKept(full, short, d)
  {
    var cut := full[..|full| - |short|];
    assert full == cut + short;
    ReadsConcat(cut, short, d.pane, d.now);
  }

  // ---- the theorems about runs --------------------------------------------------------------

  /** What a run with rotation logs over its lifetime. */
  ghost function RunRecs(ds: seq<Death>): seq<Rec> {
    if ds == [] then []
    else
      var before := RunRecs(ds[..|ds| - 1]);
      var d := ds[|ds| - 1];
      var action := Decision(RunLog(ds[..|ds| - 1]), d);
      if action == Noop || d.io != Written then before else before + [Rec(d, action)]
  }

  ghost predicate ExtraSince(d: Death, now: Time) { Extra(d) && now - d.now <= CRASH_LOOP_WINDOW }

  /** Whenever the file is over its cap, at most 464 of the last minute's deaths were M-r or split closes. */
  ghost predicate FewExtras(ds: seq<Death>) {
    forall n :: 0 <= n < |ds| ==> FewExtrasAt(ds, n)
  }

  ghost predicate FewExtrasAt(ds: seq<Death>, n: nat)
    requires n < |ds|
  {
    ds[n].overCap ==> Count(ds[..n], (d: Death) => ExtraSince(d, ds[n].now)) <= LOG_KEEP - 36
  }

  lemma FullRecsSnoc(ds: seq<Death>) returns (r: Rec)
    requires ds != []
    ensures r.d == ds[|ds| - 1]
    ensures var before := FullRecs(ds[..|ds| - 1]);
            FullRecs(ds) == before || FullRecs(ds) == before + [r]
  {
    r := Rec(ds[|ds| - 1], Decision(FullLog(ds[..|ds| - 1]), ds[|ds| - 1]));
  }

  lemma {:induction false} LoggedExtras(ds: seq<Death>, now: Time)
    ensures Count(FullRecs(ds), (r: Rec) => RecentExtra(r, now)) <= Count(ds, (d: Death) => ExtraSince(d, now))
  {
    hide FullRecs, Count, RecentExtra, ExtraSince;
    if ds == [] {
      EmptyRun(ds);
      CountAtMost(FullRecs(ds), (r: Rec) => RecentExtra(r, now));
    } else {
      var n := |ds| - 1;
      var r := FullRecsSnoc(ds);
      LoggedExtras(ds[..n], now);
      ExtraSnoc(FullRecs(ds[..n]), ds[..n], r, now);
      assert ds == ds[..n] + [r.d];
    }
  }

  lemma ExtraSnoc(recs: seq<Rec>, ds: seq<Death>, r: Rec, now: Time)
    requires Count(recs, (r: Rec) => RecentExtra(r, now)) <= Count(ds, (d: Death) => ExtraSince(d, now))
    ensures Count(recs, (r: Rec) => RecentExtra(r, now)) <= Count(ds + [r.d], (d: Death) => ExtraSince(d, now))
    ensures Count(recs + [r], (r: Rec) => RecentExtra(r, now))
         <= Count(ds + [r.d], (d: Death) => ExtraSince(d, now))
  {
    CountSnoc(recs, r, (r: Rec) => RecentExtra(r, now));
    CountSnoc(ds, r.d, (d: Death) => ExtraSince(d, now));
  }

  lemma FullLogFacts(ds: seq<Death>, now: Time)
    requires Clocked(ds) && forall d :: d in ds ==> d.now <= now
    ensures Guarded(FullRecs(ds)) && Sorted(FullRecs(ds))
    ensures SortedLog(FullLog(ds)) && Dated(FullLog(ds))
    ensures forall r :: r in FullRecs(ds) ==> r.d.now <= now
    ensures WindowCount(FullLog(ds), now) <= 36 + Count(ds, (d: Death) => ExtraSince(d, now))
  {
    FullRecsGuarded(ds);
    FullRecsSorted(ds);
    FullRecsInRun(ds);
    TrailingWindowBound(FullRecs(ds), now);
    LoggedExtras(ds, now);
  }

  lemma RotatedStaysForgotten(full: seq<Event>, short: seq<Event>, now: Time)
    requires Forgotten(full, short, now) && SortedLog(full)
    requires WindowCount(full, now) <= LOG_KEEP
    ensures Forgotten(full, Rotated(short, true), now)
  {
    if |short| > LOG_KEEP {
      RotationKeepsWindow(full, now);
    }
  }

  lemma RunPrefix(ds: seq<Death>, n: nat)
    requires Clocked(ds) && FewExtras(ds) && n < |ds|
    ensures Clocked(ds[..n]) && FewExtras(ds[..n])
    ensures forall d :: d in ds[..n] ==> d.now <= ds[n].now
    ensures ds[n].overCap ==> Count(ds[..n], (d: Death) => ExtraSince(d, ds[n].now)) <= LOG_KEEP - 36
  {
    forall m | 0 <= m < n ensures FewExtrasAt(ds[..n], m) {
      assert FewExtrasAt(ds, m);
      assert ds[..n][..m] == ds[..m];
    }
    assert FewExtrasAt(ds, n);
  }

  lemma EmptyRun(ds: seq<Death>)
    requires ds == []
    ensures RunLog(ds) == [] && FullLog(ds) == [] && RunRecs(ds) == [] && FullRecs(ds) == [] && Acts(ds) == []
  {
  }

  /** The rotated log only ever lacks events that no guard looks at any more. */
  lemma {:induction false} RotationForgetsOnlyOld(ds: seq<Death>, now: Time)
    requires Clocked(ds) && FewExtras(ds)
    requires forall d :: d in ds ==> d.now <= now
    ensures Forgotten(FullLog(ds), RunLog(ds), now)
    ensures RunRecs(ds) == FullRecs(ds)
  {
    hide FullLog, RunLog, RunRecs, FullRecs, Clocked, FewExtras;
    if ds == [] {
      EmptyRun(ds);
    } else {
      var n := |ds| - 1;
      RunPrefix(ds, n);
      RotationForgetsOnlyOld(ds[..n], ds[n].now);
      RotationStep(ds[..n], ds[n], now);
      assert ds == ds[..n] + [ds[n]];
    }
  }

  /** Log rotation is invisible: every death of a run is decided as if the log had never been cut. */
  lemma RotationInvisible(ds: seq<Death>, n: nat)
    requires Clocked(ds) && FewExtras(ds) && n < |ds|
    ensures Decision(RunLog(ds[..n]), ds[n]) == Decision(FullLog(ds[..n]), ds[n])
  {
    RunPrefix(ds, n);
    RotationForgetsOnlyOld(ds[..n], ds[n].now);
    RotationStep(ds[..n], ds[n], ds[n].now);
  }

  ghost predicate DecidedAlike(ds: seq<Death>, n: nat)
    requires n < |ds|
  {
    Decision(RunLog(ds[..n]), ds[n]) == Decision(FullLog(ds[..n]), ds[n])
  }

  ghost predicate GuardsKeptAt(ds: seq<Death>, n: nat)
    requires n < |ds|
  {
    GuardsKept(FullLog(ds[..n]), RunLog(ds[..n]), ds[n])
  }

  ghost predicate AllAlike(ds: seq<Death>) { forall n :: 0 <= n < |ds| ==> DecidedAlike(ds, n) }

  ghost predicate AllGuardsKept(ds: seq<Death>) { forall n :: 0 <= n < |ds| ==> GuardsKeptAt(ds, n) }

  lemma AllSnoc(before: seq<Death>, d: Death)
    ensures AllAlike(before + [d]) <==> AllAlike(before) && Decision(RunLog(before), d) == Decision(FullLog(before), d)
    ensures AllGuardsKept(before + [d]) <==> AllGuardsKept(before) && GuardsKept(FullLog(before), RunLog(before), d)
  {
    var ds := before + [d];
    hide Decision, GuardsKept, RunLog, FullLog;
    assert ds[..|before|] == before && ds[|before|] == d;
    assert DecidedAlike(ds, |before|) <==> Decision(RunLog(before), d) == Decision(FullLog(before), d);
    assert GuardsKeptAt(ds, |before|) <==> GuardsKept(FullLog(before), RunLog(before), d);
    forall m | 0 <= m < |before|
      ensures DecidedAlike(ds, m) == DecidedAlike(before, m) && GuardsKeptAt(ds, m) == GuardsKeptAt(before, m)
    {
      assert ds[..m] == before[..m];
    }
  }

  /** Whatever the run, rotation is invisible to all of it exactly when every death still finds in the
      rotated log the guards that the never-rotated one holds for it. */
  lemma {:induction false} RotationInvisibleExactly(ds: seq<Death>)
    requires Clocked(ds)
    ensures AllAlike(ds) <==> AllGuardsKept(ds)
    ensures AllAlike(ds) ==> IsTail(RunLog(ds), FullLog(ds))
  {
    hide AllAlike, AllGuardsKept, IsTail, RunLog, FullLog, Clocked;
    if ds == [] {
      NothingRan(ds);
    } else {
      ClockedBefore(ds);
      RotationInvisibleExactly(ds[..|ds| - 1]);
      ExactStep(ds[..|ds| - 1], ds[|ds| - 1]);
      assert ds == ds[..|ds| - 1] + [ds[|ds| - 1]];
    }
  }

  lemma NothingRan(ds: seq<Death>)
    requires ds == []
    ensures AllAlike(ds) && AllGuardsKept(ds) && IsTail(RunLog(ds), FullLog(ds))
  {
    EmptyRun(ds);
  }

  lemma ExactStep(before: seq<Death>, d: Death)
    requires Clocked(before)
    requires AllAlike(before) <==> AllGuardsKept(before)
    requires AllAlike(before) ==> IsTail(RunLog(before), FullLog(before))
    ensures AllAlike(before + [d]) <==> AllGuardsKept(before + [d])
    ensures AllAlike(before + [d]) ==> IsTail(RunLog(before + [d]), FullLog(before + [d]))
  {
    FullLogDated(before);
    hide AllAlike, AllGuardsKept, IsTail, Decision, GuardsKept, RunLog, FullLog, Clocked, Dated;
    AllSnoc(before, d);
    if AllAlike(before) {
      DroppingDecides(FullLog(before), RunLog(before), d);
      if Decision(FullLog(before), d) == Decision(RunLog(before), d) {
        TailStep(before, d);
      }
    }
  }

  lemma ClockedBefore(ds: seq<Death>)
    requires Clocked(ds) && ds != []
    ensures Clocked(ds[..|ds| - 1])
  {
  }

  lemma FullLogDated(ds: seq<Death>)
    requires Clocked(ds)
    ensures Dated(FullLog(ds))
  {
    FullRecsSorted(ds);
  }

  /** One more death in either log. */
  lemma RunGrows(before: seq<Death>, d: Death)
    ensures RunLog(before + [d]) == AfterDeath(RunLog(before), d)
    ensures var action := Decision(FullLog(before), d);
            && FullRecs(before + [d])
               == (if action == Noop || d.io != Written then FullRecs(before) else FullRecs(before) + [Rec(d, action)])
            && FullLog(before + [d])
               == (if action == Noop || d.io != Written then FullLog(before)
                   else FullLog(before) + [Event(d.pane, action, d.now)])
  {
    assert (before + [d])[..|before|] == before;
    hide Decision, AfterDeath;
    EventsSnoc(FullRecs(before), Rec(d, Decision(FullLog(before), d)));
  }

  lemma TailStep(before: seq<Death>, d: Death)
    requires IsTail(RunLog(before), FullLog(before))
    requires Decision(RunLog(before), d) == Decision(FullLog(before), d)
    ensures IsTail(RunLog(before + [d]), FullLog(before + [d]))
  {
    RunGrows(before, d);
    var full, short, ev := FullLog(before), RunLog(before), Event(d.pane, Decision(FullLog(before), d), d.now);
    hide Decision, RunLog, FullLog, FullRecs, IsTail;
    TailGrows(short, full, d.overCap, ev);
  }

  lemma TailGrows(short: seq<Event>, full: seq<Event>, overCap: bool, ev: Event)
    requires IsTail(short, full)
    ensures IsTail(Rotated(short, overCap), full) && IsTail(Rotated(short, overCap) + [ev], full + [ev])
  {
    var kept := Rotated(short, overCap);
    var cut := |full| - |kept|;
    assert kept == full[cut..];
    assert (full + [ev])[cut..] == full[cut..] + [ev];
  }

  lemma RotationStep(before: seq<Death>, d: Death, now: Time)
    requires Clocked(before) && d.now <= now && forall q :: q in before ==> q.now <= d.now
    requires Forgotten(FullLog(before), RunLog(before), d.now) && RunRecs(before) == FullRecs(before)
    requires d.overCap ==> Count(before, (q: Death) => ExtraSince(q, d.now)) <= LOG_KEEP - 36
    ensures Decision(RunLog(before), d) == Decision(FullLog(before), d)
    ensures Forgotten(FullLog(before + [d]), RunLog(before + [d]), now)
    ensures RunRecs(before + [d]) == FullRecs(before + [d])
  {
    var full, short := FullLog(before), RunLog(before);
    RunGrows(before, d);
    RunRecsGrow(before, d);
    hide FullLog, FullRecs, RunLog, RunRecs, Decision;
    FullLogFacts(before, d.now);
    ForgettingIsInvisible(full, short, d);
    if d.overCap {
      RotatedStaysForgotten(full, short, d.now);
    }
    ForgottenStep(full, short, d, now);
  }

  lemma RunRecsGrow(before: seq<Death>, d: Death)
    ensures var action := Decision(RunLog(before), d);
            RunRecs(before + [d]) == if action == Noop || d.io != Written then RunRecs(before) else RunRecs(before) + [Rec(d, action)]
  {
    assert (before + [d])[..|before|] == before;
  }

  lemma ForgottenStep(full: seq<Event>, short: seq<Event>, d: Death, now: Time)
    requires Forgotten(full, short, d.now) && d.now <= now
    requires Forgotten(full, Rotated(short, d.overCap), d.now)
    requires Decision(full, d) == Decision(short, d)
    ensures var ev := Event(d.pane, Decision(full, d), d.now);
            Forgotten(if ev.action == Noop || d.io != Written then full else full + [ev], AfterDeath(short, d), now)
  {
    var ev := Event(d.pane, Decision(full, d), d.now);
    hide Decision, Rotated;
    ForgottenGrows(full, short, ev, d.now, now);
    ForgottenGrows(full, Rotated(short, d.overCap), ev, d.now, now);
  }

  lemma ForgottenGrows(full: seq<Event>, short: seq<Event>, ev: Event, since: Time, now: Time)
    requires Forgotten(full, short, since) && since <= now
    ensures Forgotten(full, short, now) && Forgotten(full + [ev], short + [ev], now)
  {
    var cut := |full| - |short|;
    assert (full + [ev])[cut..] == full[cut..] + [ev];
  }

  /** The crash-loop promise for the rotated log: in any closed minute a pane is restarted
      automatically at most six times and parked at most twelve. */
  lemma CrashLoopBound(ds: seq<Death>, now: Time, pane: Pane, a: Time)
    requires Clocked(ds) && FewExtras(ds)
    requires forall d :: d in ds ==> d.now <= now
    ensures Count(RunRecs(ds), (r: Rec) => AutoRestart(r, pane, a)) <= 6
    ensures Count(RunRecs(ds), (r: Rec) => Halt(r, pane, a)) <= 12
  {
    RotationForgetsOnlyOld(ds, now);
    FullLogFacts(ds, now);
    RestartBound(RunRecs(ds), pane, a);
    HaltBound(RunRecs(ds), pane, a);
  }

  /** Everything a run with rotation did, whether or not its line could be written. */
  ghost function Acts(ds: seq<Death>): seq<Rec> {
    if ds == [] then []
    else
      var d := ds[|ds| - 1];
      var action := Decision(RunLog(ds[..|ds| - 1]), d);
      Acts(ds[..|ds| - 1]) + (if action == Noop then [] else [Rec(d, action)])
  }

  ghost function AutoIn(pane: Pane, a: Time): Rec -> bool { (r: Rec) => AutoRestart(r, pane, a) }

  ghost function UnwrittenIn(pane: Pane, a: Time): Rec -> bool {
    (r: Rec) => AutoRestart(r, pane, a) && r.d.io != Written
  }

  lemma {:induction false} ActsAreLoggedOrUnwritten(ds: seq<Death>, pane: Pane, a: Time)
    ensures Count(Acts(ds), AutoIn(pane, a)) == Count(RunRecs(ds), AutoIn(pane, a)) + Count(Acts(ds), UnwrittenIn(pane, a))
  {
    hide Decision, AutoRestart, Count, Acts, RunRecs, RunLog;
    if ds == [] {
      EmptyRun(ds);
      CountAtMost(Acts(ds), AutoIn(pane, a));
      CountAtMost(Acts(ds), UnwrittenIn(pane, a));
      CountAtMost(RunRecs(ds), AutoIn(pane, a));
    } else {
      var before, d := ds[..|ds| - 1], ds[|ds| - 1];
      assert ds == before + [d];
      ActsAreLoggedOrUnwritten(before, pane, a);
      ActsGrow(before, d);
      RunRecsGrow(before, d);
      var r := Rec(d, Decision(RunLog(before), d));
      CountSnoc(Acts(before), r, AutoIn(pane, a));
      CountSnoc(Acts(before), r, UnwrittenIn(pane, a));
      CountSnoc(RunRecs(before), r, AutoIn(pane, a));
    }
  }

  lemma ActsGrow(before: seq<Death>, d: Death)
    ensures var action := Decision(RunLog(before), d);
            Acts(before + [d]) == if action == Noop then Acts(before) else Acts(before) + [Rec(d, action)]
  {
    assert (before + [d])[..|before|] == before;
  }

  /** Counting every automatic restart, logged or not: at most six in any closed minute besides those whose
      line could not be written. */
  lemma RestartsBesideUnwritten(ds: seq<Death>, now: Time, pane: Pane, a: Time)
    requires Clocked(ds) && FewExtras(ds)
    requires forall d :: d in ds ==> d.now <= now
    ensures Count(Acts(ds), AutoIn(pane, a)) <= 6 + Count(Acts(ds), UnwrittenIn(pane, a))
  {
    RotationForgetsOnlyOld(ds, now);
    FullLogFacts(ds, now);
    RestartBound(RunRecs(ds), pane, a);
    CountLe(RunRecs(ds), AutoIn(pane, a), (r: Rec) => AutoRestart(r, pane, a));
    ActsAreLoggedOrUnwritten(ds, pane, a);
  }

  /** With a log that cannot be written the bound is gone: n deaths of the sidebar are n restarts. */
  lemma {:induction false} UnwritableRestartsForever(n: nat)
    ensures RunLog(Unwritable(n)) == [] && Count(Acts(Unwritable(n)), AutoIn(Sidebar, 1)) == n
  {
    if n == 0 {
      CountNone(Acts(Unwritable(0)), AutoIn(Sidebar, 1));
    } else {
      var before, d := Unwritable(n - 1), Death(Sidebar, false, false, 1, false, WriteFailed);
      assert Unwritable(n) == before + [d];
      UnwritableRestartsForever(n - 1);
      UnwrittenRespawn(d);
      hide Acts, RunLog, Count, Unwritable, Decision, AfterDeath, AutoIn;
      RunGrows(before, d);
      ActsGrow(before, d);
      CountSnoc(Acts(before), Rec(d, RespawnSidebar), AutoIn(Sidebar, 1));
    }
  }

  lemma UnwrittenRespawn(d: Death)
    requires d == Death(Sidebar, false, false, 1, false, WriteFailed)
    ensures Decision([], d) == RespawnSidebar && AfterDeath([], d) == []
    ensures AutoIn(Sidebar, 1)(Rec(d, RespawnSidebar))
  {
  }

  /** n crashes of the sidebar at one moment, none of which can be written down. */
  function Unwritable(n: nat): seq<Death> { seq(n, _ => Death(Sidebar, false, false, 1, false, WriteFailed)) }

  /** Two logged halts of a pane are always more than the debounce apart. */
  lemma HaltsApart(ds: seq<Death>, now: Time, i: nat, j: nat)
    requires Clocked(ds) && FewExtras(ds)
    requires forall d :: d in ds ==> d.now <= now
    requires i < j < |RunRecs(ds)|
    requires RunRecs(ds)[i].action == RunRecs(ds)[j].action == CrashLoopHalt
    requires RunRecs(ds)[i].d.pane == RunRecs(ds)[j].d.pane
    ensures RunRecs(ds)[j].d.now - RunRecs(ds)[i].d.now > HALT_DEBOUNCE
  {
    RotationForgetsOnlyOld(ds, now);
    FullLogFacts(ds, now);
    LoggedHaltsApart(RunRecs(ds), i, j);
  }

  lemma LoggedHaltsApart(recs: seq<Rec>, i: nat, j: nat)
    requires Guarded(recs) && Sorted(recs) && i < j < |recs|
    requires recs[i].action == recs[j].action == CrashLoopHalt && recs[i].d.pane == recs[j].d.pane
    ensures recs[j].d.now - recs[i].d.now > HALT_DEBOUNCE
  {
    var before, r := recs[..j], recs[i];
    assert before[i] == r && Halt(r, r.d.pane, r.d.now);
    assert GuardedAt(recs, j);
    LastHaltIsNewest(before, r.d.pane, r.d.now);
    HaltNeedsGap(Events(before), recs[j].d);
  }

  const BURST := 3 * CRASH_LOOP_WINDOW

  function SplitDeath(t: Time, overCap: bool): Death { Death(Split, false, false, t, overCap, Written) }

  function SidebarDeath(t: Time): Death { Death(Sidebar, false, false, t, false, Written) }

  /** Split closes that fill the file but for 506 events; minutes later six sidebar crashes and 500 split
      closes at once, one more that finds the file over its cap, and a seventh crash. */
  function Storm(cap: nat): (ds: seq<Death>)
    requires cap > 506
    ensures |ds| == cap + 2
    ensures forall i :: 0 <= i < cap + 2 ==>
              ds[i] == if i < cap - 506 then SplitDeath(1, false)
                       else if i < cap - 500 then SidebarDeath(BURST)
                       else if i < cap then SplitDeath(BURST, false)
                       else if i == cap then SplitDeath(BURST, true)
                       else SidebarDeath(BURST + 1)
  {
    seq(cap + 2, i requires 0 <= i < cap + 2 =>
      if i < cap - 506 then SplitDeath(1, false)
      else if i < cap - 500 then SidebarDeath(BURST)
      else if i < cap then SplitDeath(BURST, false)
      else if i == cap then SplitDeath(BURST, true)
      else SidebarDeath(BURST + 1))
  }

  function InStorm(d: Death): Action { if d.pane == Split then CloseSplit else RespawnSidebar }

  function StormRecs(ds: seq<Death>): (recs: seq<Rec>)
    ensures |recs| == |ds| && forall i :: 0 <= i < |ds| ==> recs[i] == Rec(ds[i], InStorm(ds[i]))
  {
    seq(|ds|, i requires 0 <= i < |ds| => Rec(ds[i], InStorm(ds[i])))
  }

  /** What the sidebar's guard counts among the first m deaths: none, then one a crash up to six. */
  lemma StormCount(cap: nat, m: nat, now: Time)
    requires cap > 506 && m <= cap + 1 && BURST <= now <= BURST + 1
    ensures var recs := StormRecs(Storm(cap)[..m]);
            && LastHaltOf(Events(recs), Sidebar) == 0
            && RestartsWithin(HistoryOf(Events(recs), Sidebar), now, CRASH_LOOP_WINDOW)
               == if m <= cap - 506 then 0 else if m <= cap - 500 then m - (cap - 506) else 6
  {
    var recs := StormRecs(Storm(cap)[..m]);
    var lo := if m <= cap - 506 then m else cap - 506;
    var hi := if m <= cap - 500 then m else cap - 500;
    assert forall i :: 0 <= i < m ==> (recs[i].d.pane == Sidebar <==> lo <= i < hi);
    assert forall i :: lo <= i < hi ==> recs[i].d.now == BURST;
    assert forall i :: 0 <= i < m ==> recs[i].action != CrashLoopHalt;
    hide Storm, StormRecs;
    CountStretch(recs, lo, hi, now);
    LastHaltIsLogged(recs, Sidebar);
  }

  lemma CountStretch(recs: seq<Rec>, lo: nat, hi: nat, now: Time)
    requires lo <= hi <= |recs|
    requires forall i :: 0 <= i < |recs| ==> (recs[i].d.pane == Sidebar <==> lo <= i < hi)
    requires forall i :: lo <= i < hi ==> now - recs[i].d.now <= CRASH_LOOP_WINDOW
    ensures RestartsWithin(HistoryOf(Events(recs), Sidebar), now, CRASH_LOOP_WINDOW) == hi - lo
  {
    hide HistoryOf, RestartsWithin, Events;
    RecentIsCount(recs, Sidebar, now);
    hide Count;
    var p := (r: Rec) => r.d.pane == Sidebar && now - r.d.now <= CRASH_LOOP_WINDOW;
    assert recs == recs[..lo] + recs[lo..hi] + recs[hi..];
    CountNone(recs[..lo], p);
    CountAll(recs[lo..hi], p);
    CountNone(recs[hi..], p);
    CountConcat(recs[..lo] + recs[lo..hi], recs[hi..], p);
    CountConcat(recs[..lo], recs[lo..hi], p);
  }

  /** Until the file is over its cap every death of the storm is acted on and logged. */
  lemma {:induction false} StormLogged(cap: nat, m: nat)
    requires cap > 506 && m <= cap
    ensures FullRecs(Storm(cap)[..m]) == StormRecs(Storm(cap)[..m])
    ensures RunLog(Storm(cap)[..m]) == Events(StormRecs(Storm(cap)[..m]))
  {
    if m > 0 {
      var before, d := Storm(cap)[..m - 1], Storm(cap)[m - 1];
      assert Storm(cap)[..m] == before + [d];
      StormLogged(cap, m - 1);
      StormDecision(cap, m - 1);
      RunGrows(before, d);
      assert AfterDeath(RunLog(before), d) == RunLog(before) + [Event(d.pane, InStorm(d), d.now)];
      hide Decision, RunLog, FullRecs, Storm;
      StormRecsSnoc(before, d);
    }
  }

  lemma StormRecsSnoc(before: seq<Death>, d: Death)
    ensures StormRecs(before + [d]) == StormRecs(before) + [Rec(d, InStorm(d))]
    ensures Events(StormRecs(before + [d])) == Events(StormRecs(before)) + [Event(d.pane, InStorm(d), d.now)]
  {
    EventsSnoc(StormRecs(before), Rec(d, InStorm(d)));
  }

  lemma StormDecision(cap: nat, m: nat)
    requires cap > 506 && m < cap
    ensures Decision(Events(StormRecs(Storm(cap)[..m])), Storm(cap)[m]) == InStorm(Storm(cap)[m])
  {
    if Storm(cap)[m].pane == Sidebar {
      StormCount(cap, m, BURST);
    }
  }

  lemma StormTail(cap: nat)
    requires cap > 506
    ensures var log := Events(StormRecs(Storm(cap)[..cap]));
            |log| == cap && forall i :: cap - LOG_KEEP <= i < cap ==> log[i].pane == Split
  {
    assert forall i :: 0 <= i < cap ==> Storm(cap)[..cap][i] == Storm(cap)[i];
  }

  lemma StormCut(cap: nat)
    requires cap > 506
    ensures var log := RunLog(Storm(cap)[..cap + 1]);
            |log| == LOG_KEEP + 1 && forall i :: 0 <= i < |log| ==> log[i].pane == Split
    ensures FullRecs(Storm(cap)[..cap + 1]) == StormRecs(Storm(cap)[..cap + 1])
  {
    var before, d := Storm(cap)[..cap], Storm(cap)[cap];
    assert Storm(cap)[..cap + 1] == before + [d];
    StormLogged(cap, cap);
    StormTail(cap);
    hide Storm, FullRecs, RunLog, StormRecs;
    StormRecsSnoc(before, d);
    RunGrows(before, d);
    CutByOneMore(Events(StormRecs(before)), d);
  }

  /** A split close that finds 500 of its like at the end of a full file leaves nothing else. */
  lemma CutByOneMore(log: seq<Event>, d: Death)
    requires d == SplitDeath(BURST, true) && |log| > LOG_KEEP
    requires forall i :: |log| - LOG_KEEP <= i < |log| ==> log[i].pane == Split
    ensures var after := AfterDeath(log, d);
            |after| == LOG_KEEP + 1 && forall i :: 0 <= i < |after| ==> after[i].pane == Split
    ensures Decision(log, d) == CloseSplit
  {
    assert AfterDeath(log, d) == log[|log| - LOG_KEEP..] + [Event(Split, CloseSplit, BURST)];
  }

  /** Past that, rotation does show, however many events it takes to fill the file: a run in which a death
      finds the file over its cap exactly when that many events are in it, and whose last sidebar crash is
      respawned although six others lie in its minute. */
  lemma RotationCanForget(cap: nat)
    requires cap > 506
    ensures exists ds: seq<Death>, n: nat ::
              && Clocked(ds) && n < |ds|
              && (forall m :: 0 <= m < |ds| ==> (ds[m].overCap <==> |RunLog(ds[..m])| >= cap))
              && Decision(FullLog(ds[..n]), ds[n]) == CrashLoopHalt
              && Decision(RunLog(ds[..n]), ds[n]) == RespawnSidebar
  {
    var ds := Storm(cap);
    StormCut(cap);
    forall m | 0 <= m < |ds|
      ensures ds[m].overCap <==> |RunLog(ds[..m])| >= cap
    {
      if m <= cap {
        StormLogged(cap, m);
      }
    }
    StormCount(cap, cap + 1, BURST + 1);
    var log := RunLog(ds[..cap + 1]);
    OtherPaneOnly([], log, Sidebar);
    assert [] + log == log;
    assert Decision(FullLog(ds[..cap + 1]), ds[cap + 1]) == CrashLoopHalt;
    assert Decision(log, ds[cap + 1]) == RespawnSidebar;
    assert Clocked(ds);
  }

  lemma {:induction false} OtherPaneOnly(head: seq<Event>, tail: seq<Event>, pane: Pane)
    requires forall i :: 0 <= i < |tail| ==> tail[i].pane != pane
    ensures HistoryOf(head + tail, pane) == HistoryOf(head, pane)
    ensures LastHaltOf(head + tail, pane) == LastHaltOf(head, pane)
    decreases |tail|
  {
    if tail == [] {
      assert head + tail == head;
    } else {
      assert (head + tail)[..|head + tail| - 1] == head + tail[..|tail| - 1];
      OtherPaneOnly(head, tail[..|tail| - 1], pane);
    }
  }

  lemma {:induction false} LastHaltIsLogged(recs: seq<Rec>, pane: Pane)
    ensures LastHaltOf(Events(recs), pane) == 0
         || exists r :: r in recs && HaltOf(r, pane) && r.d.now == LastHaltOf(Events(recs), pane)
  {
    if recs != [] {
      LastHaltSnoc(recs, pane);
      LastHaltIsLogged(recs[..|recs| - 1], pane);
    }
  }

  ghost predicate HaltOf(r: Rec, pane: Pane) { r.d.pane == pane && r.action == CrashLoopHalt }

  /** What is done for a pane that no guard holds back. */
  function InKind(d: Death): Action {
    match d.pane
    case Split => CloseSplit
    case Sidebar => RespawnSidebar
    case Inner => if d.innerHasSessions then ReattachInner else NewInnerSession
  }

  ghost predicate JustHalted(recs: seq<Rec>, d: Death) {
    exists r :: r in recs && HaltOf(r, d.pane) && d.now - r.d.now <= 5 * SECOND
  }

  ghost predicate Looping(recs: seq<Rec>, d: Death) {
    Count(recs, (r: Rec) => r.d.pane == d.pane && d.now - r.d.now <= 60 * SECOND) > 5
  }

  /** A dead pane is dealt with in its own way exactly when it is a split, or the user asked, or the log
      shows no halt of it in the last five seconds and at most five events of it in the last minute.
      Otherwise it is left alone after a halt that recent, and parked without one. */
  lemma RestartsExactlyWhen(recs: seq<Rec>, d: Death)
    requires Sorted(recs)
    ensures Decision(Events(recs), d)
         == if d.pane == Split || d.retry || (!JustHalted(recs, d) && !Looping(recs, d)) then InKind(d)
            else if JustHalted(recs, d) then Noop
            else CrashLoopHalt
    ensures InKind(d) == CloseSplit <==> d.pane == Split
    ensures InKind(d) == RespawnSidebar <==> d.pane == Sidebar
    ensures InKind(d) == ReattachInner <==> d.pane == Inner && d.innerHasSessions
    ensures InKind(d) == NewInnerSession <==> d.pane == Inner && !d.innerHasSessions
  {
    RecentIsCount(recs, d.pane, d.now);
    LastHaltIsLogged(recs, d.pane);
    forall r | r in recs && HaltOf(r, d.pane) ensures 0 < r.d.now <= LastHaltOf(Events(recs), d.pane) {
      LastHaltIsNewest(recs, d.pane, r.d.now);
      assert Halt(r, d.pane, r.d.now);
    }
  }

  /** M-r always deals with a pane in its own way, and once that is logged the pane is parked no more. */
  lemma RetryRevives(log: seq<Event>, d: Death)
    requires d.retry
    ensures Decision(log, d) == InKind(d)
    ensures d.io == Written ==> !Parked(AfterDeath(log, d), d.pane)
  {
  }
}

// The sidebar's data lanes: which timers and reads are pending, and which answers are applied
// (cmd/orchard-sidebar: main.go, selection.go).

module Lanes {
  import opened Counting

  /** A command under way: a timer, or a read tagged with the generation it was issued under. */
  datatype Cmd =
    | ClientTimer
    | ClientRead(gen: nat)
    | FastTimer
    | FastFetch(gen: nat)
    | HookRead
    | SlowTimer
    | SlowFetch

  datatype Gens = Gens(clientGen: nat, fastGen: nat)

  /** What a message makes of the generations, the commands it issues, and whether its answer is applied. */
  datatype Handled = Handled(gens: Gens, issued: seq<Cmd>, applied: bool)

  /** A command's message arriving. */
  function Landed(g: Gens, cmd: Cmd): Handled {
    match cmd
    case ClientTimer => Handled(g, [ClientRead(g.clientGen)], false)
    case ClientRead(gen) => Handled(g, [ClientTimer], gen == g.clientGen)
    case FastTimer =>
      var next := g.(fastGen := g.fastGen + 1);
      Handled(next, [FastFetch(next.fastGen), HookRead], false)
    case FastFetch(gen) =>
      if gen != g.fastGen then Handled(g, [], false) else Handled(g, [FastTimer], true)
    case HookRead => Handled(g, [], true)
    case SlowTimer => Handled(g, [SlowFetch], false)
    case SlowFetch => Handled(g, [SlowTimer], true)
  }

  /** A push event: re-read the fast lane beside whatever is in flight. */
  function Refetched(g: Gens): Handled {
    var next := g.(fastGen := g.fastGen + 1);
    Handled(next, [FastFetch(next.fastGen)], false)
  }

  /** The user switched sessions. */
  function Switched(g: Gens): Handled { Handled(g.(clientGen := g.clientGen + 1), [], false) }

  // ---- runs ---------------------------------------------------------------------------------

  /** A pending command and when it was issued. */
  datatype Pending = Pending(cmd: Cmd, at: nat)

  /** The program and its runtime: what is pending, the step, the last switch and the fast answers applied. */
  datatype World = World(gens: Gens, pending: seq<Pending>, clock: nat, lastSwitch: int, appliedFast: seq<nat>)

  datatype Event = Land(i: nat) | Push | Switch

  predicate Legal(w: World, e: Event) { e.Land? ==> e.i < |w.pending| }

  function Issue(cmds: seq<Cmd>, at: nat): (out: seq<Pending>)
    ensures |out| == |cmds| && forall k :: 0 <= k < |cmds| ==> out[k] == Pending(cmds[k], at)
  {
    seq(|cmds|, k requires 0 <= k < |cmds| => Pending(cmds[k], at))
  }

  function Handle(w: World, e: Event): Handled
    requires Legal(w, e)
  {
    match e
    case Land(i) => Landed(w.gens, w.pending[i].cmd)
    case Push => Refetched(w.gens)
    case Switch => Switched(w.gens)
  }

  function Left(w: World, e: Event): seq<Pending>
    requires Legal(w, e)
  {
    if e.Land? then w.pending[..e.i] + w.pending[e.i + 1..] else w.pending
  }

  function Step(w: World, e: Event): World
    requires Legal(w, e)
  {
    var h := Handle(w, e);
    World(h.gens,
          Left(w, e) + Issue(h.issued, w.clock),
          w.clock + 1,
          if e.Switch? then w.clock else w.lastSwitch,
          if e.Land? && w.pending[e.i].cmd.FastFetch? && h.applied then w.appliedFast + [w.pending[e.i].cmd.gen]
          else w.appliedFast)
  }

  ghost predicate LegalRun(w: World, events: seq<Event>)
    decreases |events|, 0
  {
    events == [] || (LegalRun(w, events[..|events| - 1]) && Legal(Run(w, events[..|events| - 1]), events[|events| - 1]))
  }

  ghost function Run(w: World, events: seq<Event>): World
    requires LegalRun(w, events)
    decreases |events|, 1
  {
    if events == [] then w else Step(Run(w, events[..|events| - 1]), events[|events| - 1])
  }

  /** What Init issues. */
  function Booted(): World {
    World(Gens(0, 0), [Pending(FastFetch(0), 0), Pending(SlowFetch, 0), Pending(HookRead, 0), Pending(ClientRead(0), 0)],
          1, -1, [])
  }

  // ---- what every run keeps -----------------------------------------------------------------

  function OnClient(): Pending -> bool { (p: Pending) => p.cmd.ClientTimer? || p.cmd.ClientRead? }

  function OnSlow(): Pending -> bool { (p: Pending) => p.cmd.SlowTimer? || p.cmd.SlowFetch? }

  function OnFastTimer(): Pending -> bool { (p: Pending) => p.cmd.FastTimer? }

  function FetchOf(gen: nat): Pending -> bool { (p: Pending) => p.cmd == FastFetch(gen) }

  /** Every pending read knows whether it predates the last switch, and no fetch is from the future. */
  ghost predicate TagsOk(w: World) {
    && w.lastSwitch < w.clock
    && forall i :: 0 <= i < |w.pending| ==>
         var p := w.pending[i];
         && p.at < w.clock
         && (p.cmd.ClientRead? ==> p.cmd.gen <= w.gens.clientGen && (p.cmd.gen == w.gens.clientGen <==> p.at > w.lastSwitch))
         && (p.cmd.FastFetch? ==> p.cmd.gen <= w.gens.fastGen)
  }

  ghost predicate Climbing(s: seq<nat>) { forall i, j :: 0 <= i < j < |s| ==> s[i] < s[j] }

  lemma ClimbSnoc(s: seq<nat>, x: nat)
    requires Climbing(s) && (s != [] ==> s[|s| - 1] < x)
    ensures Climbing(s + [x])
  {
  }

  ghost predicate AppliedOk(w: World) {
    && Climbing(w.appliedFast)
    && (w.appliedFast != [] ==>
          var last := w.appliedFast[|w.appliedFast| - 1];
          last <= w.gens.fastGen && (last == w.gens.fastGen ==> Count(w.pending, FetchOf(w.gens.fastGen)) == 0))
    && Count(w.pending, FetchOf(w.gens.fastGen)) <= 1
  }

  /** How many ways the fast lane can come round again. */
  ghost function Lives(w: World): nat { Count(w.pending, OnFastTimer()) + Count(w.pending, FetchOf(w.gens.fastGen)) }

  ghost predicate Inv(w: World) {
    && TagsOk(w) && AppliedOk(w)
    && Count(w.pending, OnClient()) == 1 && Count(w.pending, OnSlow()) == 1
    && 1 <= Lives(w)
  }

  ghost predicate FetchLive(w: World) { Count(w.pending, FetchOf(w.gens.fastGen)) > 0 }

  /** A push event that finds no fetch of the current generation under way: its own is one more. */
  ghost predicate PushesAlone(w: World, e: Event) { e.Push? && !FetchLive(w) }

  /** A fast timer that lands while such a fetch is under way: its own replaces that one. */
  ghost predicate TimerMeetsFetch(w: World, e: Event)
    requires Legal(w, e)
  {
    LandedCmd(w, e).FastTimer? && FetchLive(w)
  }

  ghost function AloneIn(w: World, events: seq<Event>): nat
    requires LegalRun(w, events)
  {
    if events == [] then 0
    else
      var n := |events| - 1;
      AloneIn(w, events[..n]) + (if PushesAlone(Run(w, events[..n]), events[n]) then 1 else 0)
  }

  ghost function MetIn(w: World, events: seq<Event>): nat
    requires LegalRun(w, events)
  {
    if events == [] then 0
    else
      var n := |events| - 1;
      MetIn(w, events[..n]) + (if TimerMeetsFetch(Run(w, events[..n]), events[n]) then 1 else 0)
  }

  /** What a step does to the count of any kind of command. */
  lemma CountStep(w: World, e: Event, p: Pending -> bool)
    requires Legal(w, e)
    ensures Count(Step(w, e).pending, p)
            == Count(w.pending, p) - (if e.Land? && p(w.pending[e.i]) then 1 else 0) + Count(Issue(Handle(w, e).issued, w.clock), p)
  {
    if e.Land? {
      CountRemove(w.pending, e.i, p);
    }
    CountConcat(Left(w, e), Issue(Handle(w, e).issued, w.clock), p);
  }

  lemma CountPair(a: Pending, b: Pending, p: Pending -> bool)
    ensures Count([], p) == 0
    ensures Count([a], p) == if p(a) then 1 else 0
    ensures Count([a, b], p) == (if p(a) then 1 else 0) + (if p(b) then 1 else 0)
  {
    CountSnoc([], a, p);
    CountSnoc([a], b, p);
    assert [a, b] == [a] + [b] && [a] == [] + [a];
  }

  lemma CountIssued(w: World, e: Event, p: Pending -> bool)
    requires Legal(w, e)
    ensures var cmds, n := Handle(w, e).issued, Count(Issue(Handle(w, e).issued, w.clock), p);
            && |cmds| <= 2
            && n == (if |cmds| > 0 && p(Pending(cmds[0], w.clock)) then 1 else 0)
                    + (if |cmds| > 1 && p(Pending(cmds[1], w.clock)) then 1 else 0)
  {
    var cmds := Handle(w, e).issued;
    var out := Issue(cmds, w.clock);
    if |cmds| == 0 {
      assert out == [];
      CountPair(Pending(HookRead, 0), Pending(HookRead, 0), p);
    } else if |cmds| == 1 {
      assert out == [Pending(cmds[0], w.clock)];
      CountPair(out[0], out[0], p);
    } else {
      assert out == [Pending(cmds[0], w.clock), Pending(cmds[1], w.clock)];
      CountPair(out[0], out[1], p);
    }
  }

  lemma NoneFromTheFuture(w: World)
    requires TagsOk(w)
    ensures Count(w.pending, FetchOf(w.gens.fastGen + 1)) == 0
  {
    CountNone(w.pending, FetchOf(w.gens.fastGen + 1));
  }

  lemma StepKeepsTokens(w: World, e: Event)
    requires Inv(w) && Legal(w, e)
    ensures Count(Step(w, e).pending, OnClient()) == 1 && Count(Step(w, e).pending, OnSlow()) == 1
  {
    hide Count, Step, Left;
    CountStep(w, e, OnClient());
    CountIssued(w, e, OnClient());
    CountStep(w, e, OnSlow());
    CountIssued(w, e, OnSlow());
  }

  lemma StepKeepsTags(w: World, e: Event)
    requires Inv(w) && Legal(w, e)
    ensures TagsOk(Step(w, e))
  {
    var w2, left := Step(w, e), Left(w, e);
    forall i | 0 <= i < |w2.pending|
      ensures var p := w2.pending[i];
              && p.at < w2.clock
              && (p.cmd.ClientRead? ==> p.cmd.gen <= w2.gens.clientGen && (p.cmd.gen == w2.gens.clientGen <==> p.at > w2.lastSwitch))
              && (p.cmd.FastFetch? ==> p.cmd.gen <= w2.gens.fastGen)
    {
      if i < |left| {
        var j := if e.Land? && i >= e.i then i + 1 else i;
        assert w2.pending[i] == w.pending[j];
      } else {
        assert w2.pending[i] == Issue(Handle(w, e).issued, w.clock)[i - |left|];
      }
    }
  }

  /** The command whose message a step handles, if any. */
  function LandedCmd(w: World, e: Event): Cmd
    requires Legal(w, e)
  {
    if e.Land? then w.pending[e.i].cmd else HookRead
  }

  predicate Bumps(w: World, e: Event)
    requires Legal(w, e)
  {
    e.Push? || LandedCmd(w, e).FastTimer?
  }

  lemma TimerCounts(w: World, e: Event)
    requires Legal(w, e)
    ensures Step(w, e).gens.fastGen == w.gens.fastGen + (if Bumps(w, e) then 1 else 0)
    ensures Count(Step(w, e).pending, OnFastTimer())
            == Count(w.pending, OnFastTimer())
               - (if LandedCmd(w, e).FastTimer? then 1 else 0)
               + (if LandedCmd(w, e) == FastFetch(w.gens.fastGen) then 1 else 0)
  {
    hide Count, Left, Issue;
    CountStep(w, e, OnFastTimer());
    CountIssued(w, e, OnFastTimer());
  }

  lemma FetchIssued(w: World, e: Event)
    requires Legal(w, e)
    ensures Count(Issue(Handle(w, e).issued, w.clock), FetchOf(Step(w, e).gens.fastGen)) == if Bumps(w, e) then 1 else 0
  {
    hide Count, Left, Issue;
    CountIssued(w, e, FetchOf(Step(w, e).gens.fastGen));
  }

  lemma FetchCounts(w: World, e: Event)
    requires TagsOk(w) && Legal(w, e)
    ensures Count(Step(w, e).pending, FetchOf(Step(w, e).gens.fastGen))
            == if Bumps(w, e) then 1
               else Count(w.pending, FetchOf(w.gens.fastGen)) - (if LandedCmd(w, e) == FastFetch(w.gens.fastGen) then 1 else 0)
  {
    var now := Step(w, e).gens.fastGen;
    TimerCounts(w, e);
    FetchIssued(w, e);
    hide Count, Left, Issue, Step, Handle;
    CountStep(w, e, FetchOf(now));
    if Bumps(w, e) {
      NoneFromTheFuture(w);
      if e.Land? {
        assert !FetchOf(now)(w.pending[e.i]);
      }
    }
  }

  lemma StepKeepsLives(w: World, e: Event)
    requires Inv(w) && Legal(w, e)
    ensures 1 <= Lives(Step(w, e))
    ensures Lives(Step(w, e)) == Lives(w) + (if PushesAlone(w, e) then 1 else 0) - (if TimerMeetsFetch(w, e) then 1 else 0)
  {
    TimerCounts(w, e);
    FetchCounts(w, e);
    hide Count, TagsOk, AppliedOk, Left, Issue;
    if e.Land? {
      LandedCounts(w, e.i);
    }
  }

  lemma AppliedStep(w: World, e: Event)
    requires Legal(w, e)
    ensures Step(w, e).appliedFast
            == w.appliedFast + (if LandedCmd(w, e) == FastFetch(w.gens.fastGen) then [w.gens.fastGen] else [])
  {
  }

  lemma StepKeepsApplied(w: World, e: Event)
    requires Inv(w) && Legal(w, e)
    ensures AppliedOk(Step(w, e))
  {
    TimerCounts(w, e);
    FetchCounts(w, e);
    AppliedStep(w, e);
    if e.Land? {
      LandedCounts(w, e.i);
    }
    hide Count, TagsOk, Step, Lives, Climbing;
    if LandedCmd(w, e) == FastFetch(w.gens.fastGen) {
      ClimbSnoc(w.appliedFast, w.gens.fastGen);
    } else {
      assert Step(w, e).appliedFast == w.appliedFast;
    }
  }

  /** A landing command was pending. */
  lemma LandedCounts(w: World, i: nat)
    requires i < |w.pending|
    ensures w.pending[i].cmd.FastTimer? ==> Count(w.pending, OnFastTimer()) >= 1
    ensures w.pending[i].cmd == FastFetch(w.gens.fastGen) ==> Count(w.pending, FetchOf(w.gens.fastGen)) >= 1
  {
    if w.pending[i].cmd.FastTimer? {
      CountHas(w.pending, OnFastTimer(), i);
    }
    if w.pending[i].cmd == FastFetch(w.gens.fastGen) {
      CountHas(w.pending, FetchOf(w.gens.fastGen), i);
    }
  }

  lemma BootIsOk()
    ensures Inv(Booted())
  {
    var w := Booted();
    var a, b := w.pending[..2], w.pending[2..];
    assert w.pending == a + b;
    assert a == [Pending(FastFetch(0), 0), Pending(SlowFetch, 0)] && b == [Pending(HookRead, 0), Pending(ClientRead(0), 0)];
    CountBoth(a, b, OnClient());
    CountBoth(a, b, OnSlow());
    CountBoth(a, b, OnFastTimer());
    CountBoth(a, b, FetchOf(w.gens.fastGen));
  }

  lemma CountBoth(a: seq<Pending>, b: seq<Pending>, p: Pending -> bool)
    requires |a| == 2 && |b| == 2
    ensures Count(a + b, p) == (if p(a[0]) then 1 else 0) + (if p(a[1]) then 1 else 0)
                               + (if p(b[0]) then 1 else 0) + (if p(b[1]) then 1 else 0)
  {
    assert a == [a[0], a[1]] && b == [b[0], b[1]];
    CountConcat(a, b, p);
    CountPair(a[0], a[1], p);
    CountPair(b[0], b[1], p);
  }

  lemma {:induction false} RunKeeps(events: seq<Event>)
    requires LegalRun(Booted(), events)
    ensures Inv(Run(Booted(), events))
  {
    if events == [] {
      BootIsOk();
    } else {
      var before := Run(Booted(), events[..|events| - 1]);
      RunKeeps(events[..|events| - 1]);
      StepKeepsTokens(before, events[|events| - 1]);
      StepKeepsTags(before, events[|events| - 1]);
      StepKeepsLives(before, events[|events| - 1]);
      StepKeepsApplied(before, events[|events| - 1]);
    }
  }

  /** Over every interleaving of messages, switches and push events: the client lane and the slow lane each
      have exactly one timer or read pending; the fast lane always has a timer or a fetch of the current
      generation pending, so it cannot die; and applied fast answers have strictly increasing generations. */
  lemma LanesLive(events: seq<Event>)
    requires LegalRun(Booted(), events)
    ensures var w := Run(Booted(), events);
            && Count(w.pending, OnClient()) == 1
            && Count(w.pending, OnSlow()) == 1
            && (exists i :: 0 <= i < |w.pending| && w.pending[i].cmd in {FastTimer, FastFetch(w.gens.fastGen)})
            && Climbing(w.appliedFast)
  {
    RunKeeps(events);
    var w := Run(Booted(), events);
    if Count(w.pending, OnFastTimer()) > 0 {
      var p := CountWitness(w.pending, OnFastTimer());
      var i :| 0 <= i < |w.pending| && w.pending[i] == p;
      assert w.pending[i].cmd == FastTimer;
    } else {
      var p := CountWitness(w.pending, FetchOf(w.gens.fastGen));
      var i :| 0 <= i < |w.pending| && w.pending[i] == p;
      assert w.pending[i].cmd == FastFetch(w.gens.fastGen);
    }
  }

  /** When the fast lane was last asked anew: by a push event or a fast timer, at the start at boot. */
  ghost function LastAsked(events: seq<Event>): nat
    requires LegalRun(Booted(), events)
  {
    if events == [] then 0
    else
      var before, e := events[..|events| - 1], events[|events| - 1];
      var w := Run(Booted(), before);
      if e.Push? || (e.Land? && w.pending[e.i].cmd == FastTimer) then w.clock else LastAsked(before)
  }

  ghost predicate AskedOk(w: World, lastAsked: nat) {
    && lastAsked < w.clock
    && forall i :: 0 <= i < |w.pending| && w.pending[i].cmd.FastFetch? ==>
         w.pending[i].at <= lastAsked && (w.pending[i].cmd.gen == w.gens.fastGen <==> w.pending[i].at == lastAsked)
  }

  lemma StepKeepsAsked(w: World, e: Event, lastAsked: nat)
    requires Legal(w, e) && TagsOk(w) && AskedOk(w, lastAsked)
    ensures AskedOk(Step(w, e), if e.Push? || (e.Land? && w.pending[e.i].cmd == FastTimer) then w.clock else lastAsked)
  {
    var w2, left := Step(w, e), Left(w, e);
    forall i | 0 <= i < |w2.pending|
      ensures if i < |left| then exists j :: 0 <= j < |w.pending| && w2.pending[i] == w.pending[j]
              else w2.pending[i] == Pending(Handle(w, e).issued[i - |left|], w.clock)
    {
      if i < |left| {
        var j := if e.Land? && i >= e.i then i + 1 else i;
        assert w2.pending[i] == w.pending[j];
      }
    }
  }

  lemma {:induction false} RunKeepsAsked(events: seq<Event>)
    requires LegalRun(Booted(), events)
    ensures AskedOk(Run(Booted(), events), LastAsked(events))
  {
    if events != [] {
      var before := events[..|events| - 1];
      RunKeepsAsked(before);
      RunKeeps(before);
      hide AskedOk, Step, TagsOk;
      StepKeepsAsked(Run(Booted(), before), events[|events| - 1], LastAsked(before));
    }
  }

  /** Which answers are applied: a client read issued after the latest switch, a fast answer asked for when the
      fast lane was last asked, and every hook read and slow answer; a timer carries none. */
  lemma AppliedExactly(events: seq<Event>, i: nat)
    requires LegalRun(Booted(), events) && i < |Run(Booted(), events).pending|
    ensures var w := Run(Booted(), events);
            Handle(w, Land(i)).applied
            <==> match w.pending[i].cmd
                 case ClientRead(_) => w.pending[i].at > w.lastSwitch
                 case FastFetch(_) => w.pending[i].at == LastAsked(events)
                 case HookRead => true
                 case SlowFetch => true
                 case _ => false
  {
    RunKeeps(events);
    RunKeepsAsked(events);
    hide Run, LegalRun, Count;
  }

  function OnHook(): Pending -> bool { (p: Pending) => p.cmd.HookRead? }

  ghost function LandedIn(w: World, events: seq<Event>, cmd: Cmd): nat
    requires LegalRun(w, events)
  {
    if events == [] then 0
    else
      var n := |events| - 1;
      LandedIn(w, events[..n], cmd) + (if events[n].Land? && Run(w, events[..n]).pending[events[n].i].cmd == cmd then 1 else 0)
  }

  /** The hooks are read once at boot and once for every fast timer, and for nothing else. */
  lemma {:induction false} HookReadsExactly(events: seq<Event>)
    requires LegalRun(Booted(), events)
    ensures Count(Run(Booted(), events).pending, OnHook()) + LandedIn(Booted(), events, HookRead)
            == 1 + LandedIn(Booted(), events, FastTimer)
  {
    if events == [] {
      BootHooks();
    } else {
      var n := |events| - 1;
      HookReadsExactly(events[..n]);
      hide Count, Step, Legal;
      HookCounts(Run(Booted(), events[..n]), events[n]);
    }
  }

  lemma HookCounts(w: World, e: Event)
    requires Legal(w, e)
    ensures Count(Step(w, e).pending, OnHook())
            == Count(w.pending, OnHook())
               - (if e.Land? && w.pending[e.i].cmd == HookRead then 1 else 0)
               + (if e.Land? && w.pending[e.i].cmd == FastTimer then 1 else 0)
  {
    hide Count, Left, Issue;
    CountStep(w, e, OnHook());
    CountIssued(w, e, OnHook());
  }

  lemma BootHooks()
    ensures Count(Booted().pending, OnHook()) == 1
  {
    var a, b := Booted().pending[..2], Booted().pending[2..];
    assert Booted().pending == a + b;
    CountBoth(a, b, OnHook());
  }

  /** How many fast timers are pending: one, or a fetch in its place; one more for every push that found no
      fetch under way, one less for every timer that landed beside one. */
  lemma {:induction false} TimersExactly(events: seq<Event>)
    requires LegalRun(Booted(), events)
    ensures var w := Run(Booted(), events);
            Count(w.pending, OnFastTimer()) + (if FetchLive(w) then 1 else 0)
            == 1 + AloneIn(Booted(), events) - MetIn(Booted(), events)
  {
    RunKeeps(events);
    if events == [] {
      BootCounts();
      BootLives();
    } else {
      var n := |events| - 1;
      var before := Run(Booted(), events[..n]);
      TimersExactly(events[..n]);
      RunKeeps(events[..n]);
      hide Count, Step, Legal, TagsOk, Climbing, Booted;
      StepKeepsLives(before, events[n]);
    }
  }

  lemma BootLives()
    ensures Lives(Booted()) == 1
  {
    BootCounts();
    var a, b := Booted().pending[..2], Booted().pending[2..];
    assert Booted().pending == a + b;
    CountBoth(a, b, FetchOf(0));
  }

  /** One push after the first answer is enough for two. */
  lemma PushDoublesTimer()
    ensures exists events: seq<Event> ::
              LegalRun(Booted(), events) && Count(Run(Booted(), events).pending, OnFastTimer()) == 2
  {
    var w0 := Booted();
    BootCounts();
    hide Count, Step, TagsOk, Booted, Landed;
    var w1 := Step(w0, Land(0));
    TimerCounts(w0, Land(0));
    BootSteps(w1);
    TimerCounts(w1, Push);
    FetchCounts(w1, Push);
    var w2 := Step(w1, Push);
    var p := CountWitness(w2.pending, FetchOf(w2.gens.fastGen));
    var i :| 0 <= i < |w2.pending| && w2.pending[i] == p;
    TimerCounts(w2, Land(i));
    RunOfThree(w0, Land(0), Push, Land(i));
  }

  lemma BootCounts()
    ensures Legal(Booted(), Land(0)) && Booted().pending[0].cmd == FastFetch(Booted().gens.fastGen)
    ensures Count(Booted().pending, OnFastTimer()) == 0 && Inv(Booted())
  {
    BootIsOk();
    CountNone(Booted().pending, OnFastTimer());
  }

  lemma BootSteps(w1: World)
    requires w1 == Step(Booted(), Land(0))
    ensures TagsOk(w1)
  {
    BootIsOk();
    StepKeepsTags(Booted(), Land(0));
  }

  lemma RunOfThree(w: World, a: Event, b: Event, c: Event)
    requires Legal(w, a) && Legal(Step(w, a), b) && Legal(Step(Step(w, a), b), c)
    ensures LegalRun(w, [a, b, c]) && Run(w, [a, b, c]) == Step(Step(Step(w, a), b), c)
  {
    hide Step, Legal;
    assert [a][..0] == [] && [a, b][..1] == [a] && [a, b, c][..2] == [a, b];
    assert LegalRun(w, []) && Run(w, []) == w;
    assert LegalRun(w, [a]) && Run(w, [a]) == Step(w, a);
    assert LegalRun(w, [a, b]) && Run(w, [a, b]) == Step(Step(w, a), b);
  }

  // ---- the program --------------------------------------------------------------------------

  class Model {
    var clientGen: nat
    var fastGen: nat

    ghost function State(): Gens
      reads this
    {
      Gens(clientGen, fastGen)
    }

    constructor ()
      ensures State() == Booted().gens
    {
      clientGen, fastGen := 0, 0;
    }

    method Update(msg: Cmd) returns (issued: seq<Cmd>, applied: bool)
      modifies this
      ensures Handled(State(), issued, applied) == Landed(old(State()), msg)
    {
      match msg {
        case ClientTimer =>
          issued, applied := [ClientRead(clientGen)], false;
        case ClientRead(gen) =>
          issued, applied := [ClientTimer], gen == clientGen;
        case FastTimer =>
          fastGen := fastGen + 1;
          issued, applied := [FastFetch(fastGen), HookRead], false;
        case FastFetch(gen) =>
          if gen != fastGen {
            return [], false;
          }
          issued, applied := [FastTimer], true;
        case HookRead =>
          issued, applied := [], true;
        case SlowTimer =>
          issued, applied := [SlowFetch], false;
        case SlowFetch =>
          issued, applied := [SlowTimer], true;
      }
    }

    method FastRefetch() returns (issued: seq<Cmd>)
      modifies this`fastGen
      ensures Handled(State(), issued, false) == Refetched(old(State()))
    {
      fastGen := fastGen + 1;
      issued := [FastFetch(fastGen)];
    }

    method SelectRow()
      modifies this`clientGen
      ensures Handled(State(), [], false) == Switched(old(State()))
    {
      clientGen := clientGen + 1;
    }
  }
}

// One call at a time: the per-request worktree loader and the repository discoverer, as interleaved
// sections of their locks (daemon/git: loaders.go, discovery.go).

module WorktreeFlights {
  import opened Counting

  datatype Reply<V> = Ok(value: V) | Fail(err: string)

  /** One call of the underlying service, shared by the goroutine that made it and those that joined. */
  datatype Flight<V> = Running(key: string) | Done(key: string, reply: Reply<V>)

  /** What the mutex guards; flights holds every flight ever made, so an index stands for its address. */
  datatype Shared<V> = Shared(cache: map<string, V>, inflight: map<string, nat>, flights: seq<Flight<V>>)

  datatype Thread<V> =
    | Idle
    | Leading(flight: nat)
    | Joined(flight: nat)
    | Returned(key: string, reply: Reply<V>)
    | Cancelled

  datatype State<V> = State(shared: Shared<V>, threads: seq<Thread<V>>)

  // ---- the locked sections ------------------------------------------------------------------

  /** The first section of Load: answer from the cache, join the call under way, or lead a new one. */
  function Enter<V>(s: Shared<V>, key: string): (Shared<V>, Thread<V>) {
    if key in s.cache then (s, Returned(key, Ok(s.cache[key])))
    else if key in s.inflight then (s, Joined(s.inflight[key]))
    else
      (s.(inflight := s.inflight[key := |s.flights|], flights := s.flights + [Running(key)]), Leading(|s.flights|))
  }

  /** The leader's second section: publish the reply, and remember it only when it succeeded. */
  function Complete<V>(s: Shared<V>, f: nat, reply: Reply<V>): Shared<V>
    requires f < |s.flights|
  {
    var key := s.flights[f].key;
    Shared(if reply.Ok? then s.cache[key := reply.value] else s.cache,
           s.inflight - {key},
           s.flights[f := Done(key, reply)])
  }

  datatype Event<V> = Load(t: nat, key: string) | Finish(t: nat, reply: Reply<V>) | Wake(t: nat) | Cancel(t: nat)

  predicate Legal<V>(s: State<V>, e: Event<V>) {
    && e.t < |s.threads|
    && match e
       case Load(t, _) => s.threads[t].Idle?
       case Finish(t, _) => s.threads[t].Leading? && s.threads[t].flight < |s.shared.flights|
       case Wake(t) =>
         && s.threads[t].Joined? && s.threads[t].flight < |s.shared.flights|
         && s.shared.flights[s.threads[t].flight].Done?
       case Cancel(t) => s.threads[t].Joined?
  }

  function Step<V>(s: State<V>, e: Event<V>): State<V>
    requires Legal(s, e)
  {
    match e
    case Load(t, key) =>
      var (shared, thread) := Enter(s.shared, key);
      State(shared, s.threads[t := thread])
    case Finish(t, reply) =>
      var f := s.threads[t].flight;
      State(Complete(s.shared, f, reply), s.threads[t := Returned(s.shared.flights[f].key, reply)])
    case Wake(t) =>
      var flight := s.shared.flights[s.threads[t].flight];
      s.(threads := s.threads[t := Returned(flight.key, flight.reply)])
    case Cancel(t) => s.(threads := s.threads[t := Cancelled])
  }

  ghost predicate LegalRun<V>(s: State<V>, events: seq<Event<V>>)
    decreases |events|, 0
  {
    events == [] || (LegalRun(s, events[..|events| - 1]) && Legal(Run(s, events[..|events| - 1]), events[|events| - 1]))
  }

  ghost function Run<V>(s: State<V>, events: seq<Event<V>>): State<V>
    requires LegalRun(s, events)
    decreases |events|, 1
  {
    if events == [] then s else Step(Run(s, events[..|events| - 1]), events[|events| - 1])
  }

  function Fresh<V>(n: nat): State<V> { State(Shared(map[], map[], []), seq(n, _ => Idle)) }

  // ---- what every interleaving keeps --------------------------------------------------------

  predicate Succeeded<V>(s: Shared<V>, f: nat) {
    f < |s.flights| && s.flights[f].Done? && s.flights[f].reply.Ok?
  }

  ghost predicate FlightsOk<V>(s: Shared<V>) {
    && (forall k <- s.inflight :: s.inflight[k] < |s.flights| && s.flights[s.inflight[k]] == Running(k))
    && (forall f :: 0 <= f < |s.flights| && s.flights[f].Running? ==>
          s.flights[f].key in s.inflight && s.inflight[s.flights[f].key] == f)
  }

  ghost predicate CacheOk<V>(s: Shared<V>) {
    && (forall f: nat :: Succeeded(s, f) ==> s.flights[f].key in s.cache && s.cache[s.flights[f].key] == s.flights[f].reply.value)
    && (forall k <- s.cache :: k !in s.inflight && exists f: nat :: Succeeded(s, f) && s.flights[f].key == k)
    && (forall f: nat, g: nat :: Succeeded(s, f) && Succeeded(s, g) && s.flights[f].key == s.flights[g].key ==> f == g)
  }

  ghost predicate ThreadOk<V>(s: Shared<V>, thread: Thread<V>) {
    match thread
    case Leading(f) => f < |s.flights| && s.flights[f].Running?
    case Joined(f) => f < |s.flights|
    case Returned(key, Ok(v)) => key in s.cache && s.cache[key] == v
    case Returned(key, Fail(err)) => exists f :: 0 <= f < |s.flights| && s.flights[f] == Done(key, Fail(err))
    case _ => true
  }

  ghost predicate LeadersOk<V>(s: State<V>) {
    && (forall t, u :: 0 <= t < u < |s.threads| && s.threads[t].Leading? ==> s.threads[u] != s.threads[t])
    && (forall f :: 0 <= f < |s.shared.flights| && s.shared.flights[f].Running? ==> Leading(f) in s.threads)
  }

  ghost predicate Inv<V>(s: State<V>) {
    && FlightsOk(s.shared) && CacheOk(s.shared) && LeadersOk(s)
    && forall t :: 0 <= t < |s.threads| ==> ThreadOk(s.shared, s.threads[t])
  }

  lemma FailuresKept<V>(s: Shared<V>, s2: Shared<V>)
    requires s2.cache == s.cache && |s.flights| <= |s2.flights|
    requires forall f :: 0 <= f < |s.flights| ==> s2.flights[f] == s.flights[f]
    ensures forall th: Thread<V> :: ThreadOk(s, th) ==> ThreadOk(s2, th)
  {
    forall th: Thread<V> | ThreadOk(s, th)
      ensures ThreadOk(s2, th)
    {
      if th.Returned? && th.reply.Fail? {
        var f :| 0 <= f < |s.flights| && s.flights[f] == Done(th.key, Fail(th.reply.err));
        assert s2.flights[f] == Done(th.key, Fail(th.reply.err));
      }
    }
  }

  lemma LeadKeepsFlights<V>(s: Shared<V>, key: string)
    requires FlightsOk(s) && key !in s.cache && key !in s.inflight
    ensures FlightsOk(Enter(s, key).0)
  {
    var s2 := Enter(s, key).0;
    assert s2.flights[|s.flights|] == Running(key);
    assert forall f :: 0 <= f < |s.flights| ==> s2.flights[f] == s.flights[f];
  }

  lemma LeadKeepsCache<V>(s: Shared<V>, key: string)
    requires CacheOk(s) && key !in s.cache && key !in s.inflight
    ensures CacheOk(Enter(s, key).0)
  {
    var s2 := Enter(s, key).0;
    assert forall f: nat :: Succeeded(s2, f) ==> Succeeded(s, f) && s2.flights[f] == s.flights[f];
    forall k <- s2.cache
      ensures k !in s2.inflight && exists f: nat :: Succeeded(s2, f) && s2.flights[f].key == k
    {
      var f: nat :| Succeeded(s, f) && s.flights[f].key == k;
      assert Succeeded(s2, f) && s2.flights[f].key == k;
    }
  }

  lemma EnterKeeps<V>(s: Shared<V>, key: string)
    requires FlightsOk(s) && CacheOk(s)
    ensures var (s2, thread) := Enter(s, key);
            && FlightsOk(s2) && CacheOk(s2) && ThreadOk(s2, thread)
            && forall th: Thread<V> :: ThreadOk(s, th) ==> ThreadOk(s2, th)
  {
    var s2 := Enter(s, key).0;
    FailuresKept(s, s2);
    if key in s.inflight && key !in s.cache {
      assert FlightsOk(s) && s.inflight[key] < |s.flights|;
    } else if key !in s.cache {
      hide CacheOk, FlightsOk;
      LeadKeepsFlights(s, key);
      LeadKeepsCache(s, key);
    }
  }

  lemma CompleteKeepsCache<V>(s: Shared<V>, f: nat, reply: Reply<V>)
    requires FlightsOk(s) && CacheOk(s) && f < |s.flights| && s.flights[f].Running?
    ensures CacheOk(Complete(s, f, reply))
  {
    var s2, key := Complete(s, f, reply), s.flights[f].key;
    assert key !in s.cache;
    hide FlightsOk;
    assert s2.flights[f] == Done(key, reply);
    forall g: nat | g != f
      ensures Succeeded(s2, g) <==> Succeeded(s, g)
      ensures Succeeded(s, g) ==> s2.flights[g] == s.flights[g] && s.flights[g].key != key
    {
    }
    forall k <- s2.cache
      ensures k !in s2.inflight && exists g: nat :: Succeeded(s2, g) && s2.flights[g].key == k
    {
      if k in s.cache {
        var g: nat :| Succeeded(s, g) && s.flights[g].key == k;
        assert Succeeded(s2, g);
      } else {
        assert Succeeded(s2, f);
      }
    }
  }

  lemma CompleteKeepsFlights<V>(s: Shared<V>, f: nat, reply: Reply<V>)
    requires FlightsOk(s) && f < |s.flights| && s.flights[f].Running?
    ensures FlightsOk(Complete(s, f, reply))
  {
    var s2 := Complete(s, f, reply);
    assert forall g :: 0 <= g < |s.flights| && g != f ==> s2.flights[g] == s.flights[g];
  }

  lemma CompleteKeepsThread<V>(s: Shared<V>, f: nat, reply: Reply<V>, th: Thread<V>)
    requires f < |s.flights| && s.flights[f].Running? && s.flights[f].key !in s.cache
    requires ThreadOk(s, th) && th != Leading(f)
    ensures ThreadOk(Complete(s, f, reply), th)
  {
    var s2 := Complete(s, f, reply);
    assert forall g :: 0 <= g < |s.flights| && g != f ==> s2.flights[g] == s.flights[g];
    if th.Returned? && th.reply.Fail? {
      var g :| 0 <= g < |s.flights| && s.flights[g] == Done(th.key, Fail(th.reply.err));
      assert s2.flights[g] == s.flights[g];
    }
  }

  lemma CompleteKeeps<V>(s: Shared<V>, f: nat, reply: Reply<V>)
    requires FlightsOk(s) && CacheOk(s) && f < |s.flights| && s.flights[f].Running?
    ensures var s2 := Complete(s, f, reply);
            && FlightsOk(s2) && CacheOk(s2) && ThreadOk(s2, Returned(s.flights[f].key, reply))
            && forall th: Thread<V> :: ThreadOk(s, th) && th != Leading(f) ==> ThreadOk(s2, th)
  {
    var s2, key := Complete(s, f, reply), s.flights[f].key;
    assert key !in s.cache;
    CompleteKeepsFlights(s, f, reply);
    CompleteKeepsCache(s, f, reply);
    hide CacheOk, FlightsOk;
    assert s2.flights[f] == Done(key, reply);
    assert ThreadOk(s2, Returned(key, reply));
    hide ThreadOk;
    forall th: Thread<V> | ThreadOk(s, th) && th != Leading(f)
      ensures ThreadOk(s2, th)
    {
      CompleteKeepsThread(s, f, reply, th);
    }
  }

  lemma LeadersKept<V>(s: State<V>, e: Event<V>)
    requires Inv(s) && Legal(s, e)
    ensures LeadersOk(Step(s, e))
  {
    var s2 := Step(s, e);
    forall f | 0 <= f < |s2.shared.flights| && s2.shared.flights[f].Running?
      ensures Leading(f) in s2.threads
    {
      if f == |s.shared.flights| {
        assert s2.threads[e.t] == Leading(f);
      } else {
        assert s.shared.flights[f].Running?;
        var u :| 0 <= u < |s.threads| && s.threads[u] == Leading(f);
        assert s2.threads[u] == Leading(f);
      }
    }
  }

  lemma StepKeeps<V>(s: State<V>, e: Event<V>)
    requires Inv(s) && Legal(s, e)
    ensures Inv(Step(s, e))
  {
    LeadersKept(s, e);
    match e
    case Load(t, key) => EnterKeeps(s.shared, key);
    case Finish(t, reply) =>
      CompleteKeeps(s.shared, s.threads[t].flight, reply);
      assert forall u :: 0 <= u < |s.threads| && u != t ==> s.threads[u] != s.threads[t];
    case Wake(t) =>
    case Cancel(t) =>
  }

  lemma {:induction false} RunKeeps<V>(n: nat, events: seq<Event<V>>)
    requires LegalRun(Fresh<V>(n), events)
    ensures Inv(Run(Fresh<V>(n), events))
  {
    if events != [] {
      RunKeeps<V>(n, events[..|events| - 1]);
      StepKeeps(Run(Fresh<V>(n), events[..|events| - 1]), events[|events| - 1]);
    }
  }

  /** Single flight, over every interleaving: for one project at most one call runs, at most one call ever
      succeeds, every Load that returns worktrees returns that call's, and a waiter is never stranded:
      its flight has landed or its leader is still at work. */
  lemma SingleFlight<V>(n: nat, events: seq<Event<V>>)
    requires LegalRun(Fresh<V>(n), events)
    ensures var s := Run(Fresh<V>(n), events);
            && (forall f, g :: 0 <= f < g < |s.shared.flights| && s.shared.flights[f].Running? ==>
                  s.shared.flights[g] != s.shared.flights[f])
            && (forall f: nat, g: nat | Succeeded(s.shared, f) && Succeeded(s.shared, g) && f != g ::
                  s.shared.flights[f].key != s.shared.flights[g].key)
            && (forall t :: 0 <= t < |s.threads| && s.threads[t].Returned? ==>
                  Done(s.threads[t].key, s.threads[t].reply) in s.shared.flights)
            && (forall t :: 0 <= t < |s.threads| && s.threads[t].Joined? ==>
                  var f := s.threads[t].flight;
                  f < |s.shared.flights| && (s.shared.flights[f].Done? || Leading(f) in s.threads))
  {
    hide Run, LegalRun;
    RunKeeps(n, events);
    var s := Run(Fresh<V>(n), events);
    forall t | 0 <= t < |s.threads|
      ensures s.threads[t].Returned? ==> Done(s.threads[t].key, s.threads[t].reply) in s.shared.flights
      ensures s.threads[t].Joined? ==>
                var f := s.threads[t].flight;
                f < |s.shared.flights| && (s.shared.flights[f].Done? || Leading(f) in s.threads)
    {
      assert ThreadOk(s.shared, s.threads[t]);
      if s.threads[t].Returned? && s.threads[t].reply.Ok? {
        CachedWasDone(s.shared, s.threads[t].key);
      }
    }
  }

  lemma CachedWasDone<V>(s: Shared<V>, key: string)
    requires CacheOk(s) && key in s.cache
    ensures Done(key, Ok(s.cache[key])) in s.flights
  {
    var f: nat :| Succeeded(s, f) && s.flights[f].key == key;
    assert s.flights[f] == Done(key, Ok(s.cache[key]));
  }

  /** A landed flight never changes, so every goroutine that joined it wakes to the same reply. */
  lemma {:induction false} LandedForGood<V>(s: State<V>, events: seq<Event<V>>, f: nat)
    requires Inv(s) && LegalRun(s, events)
    requires f < |s.shared.flights| && s.shared.flights[f].Done?
    ensures Inv(Run(s, events))
    ensures f < |Run(s, events).shared.flights| && Run(s, events).shared.flights[f] == s.shared.flights[f]
  {
    if events != [] {
      var before := events[..|events| - 1];
      LandedForGood(s, before, f);
      StepKeeps(Run(s, before), events[|events| - 1]);
      assert forall t :: 0 <= t < |Run(s, before).threads| ==> ThreadOk(Run(s, before).shared, Run(s, before).threads[t]);
    }
  }

  /** What a Load does on entry, after any run: it answers at once exactly when some call for its project has
      succeeded, and then with that call's worktrees; it joins the call under way for its own project; and it
      makes a call exactly when there is neither. */
  lemma EntersExactly<V>(n: nat, events: seq<Event<V>>, key: string)
    requires LegalRun(Fresh<V>(n), events)
    ensures var s := Run(Fresh<V>(n), events).shared;
            var (s2, thread) := Enter(s, key);
            && (thread.Returned? <==> exists f: nat :: Succeeded(s, f) && s.flights[f].key == key)
            && (thread.Returned? ==> s2 == s && exists f: nat :: Succeeded(s, f) && s.flights[f] == Done(key, thread.reply) && thread.key == key)
            && (thread.Joined? ==> s2 == s && thread.flight < |s.flights| && s.flights[thread.flight] == Running(key))
            && (thread.Leading? ==> s2.flights == s.flights + [Running(key)] && thread.flight == |s.flights|)
            && (thread.Leading? <==> Running(key) !in s.flights && !exists f: nat :: Succeeded(s, f) && s.flights[f].key == key)
  {
    hide Run, LegalRun;
    RunKeeps(n, events);
    var s := Run(Fresh<V>(n), events).shared;
    if key in s.cache {
      var f: nat :| Succeeded(s, f) && s.flights[f].key == key;
      assert s.flights[f] == Done(key, Ok(s.cache[key]));
    }
  }

  /** A goroutine that leads or joined a flight stays at it, gives up if it joined, or returns the reply that
      very flight landed with. */
  ghost predicate AtItsFlight<V>(s: State<V>, t: nat, was: Thread<V>, f: nat, key: string) {
    && t < |s.threads| && f < |s.shared.flights| && s.shared.flights[f].key == key
    && (|| s.threads[t] == was
        || (s.threads[t] == Cancelled && was.Joined?)
        || (s.shared.flights[f].Done? && s.threads[t] == Returned(key, s.shared.flights[f].reply)))
  }

  lemma StaysAtItsFlight<V>(s: State<V>, e: Event<V>, t: nat, was: Thread<V>, f: nat, key: string)
    requires Inv(s) && Legal(s, e) && (was == Leading(f) || was == Joined(f))
    requires AtItsFlight(s, t, was, f, key)
    ensures AtItsFlight(Step(s, e), t, was, f, key)
  {
    hide CacheOk, FlightsOk;
    if e.Finish? {
      assert ThreadOk(s.shared, s.threads[e.t]);
    }
  }

  lemma {:induction false} WokenByItsFlight<V>(s: State<V>, events: seq<Event<V>>, t: nat, f: nat)
    requires Inv(s) && LegalRun(s, events) && t < |s.threads| && f < |s.shared.flights|
    requires s.threads[t] == Leading(f) || s.threads[t] == Joined(f)
    ensures Inv(Run(s, events)) && AtItsFlight(Run(s, events), t, s.threads[t], f, s.shared.flights[f].key)
  {
    if events != [] {
      var before, e := events[..|events| - 1], events[|events| - 1];
      WokenByItsFlight(s, before, t, f);
      var was := Run(s, before);
      assert Run(s, events) == Step(was, e);
      hide Step, Run, LegalRun, AtItsFlight, Inv, Legal;
      StepKeeps(was, e);
      StaysAtItsFlight(was, e, t, s.threads[t], f, s.shared.flights[f].key);
    }
  }

  /** Whatever happens after a Load, if it returns anything it is for the project it asked for. */
  lemma LoadAnswersItsProject<V>(s: State<V>, t: nat, key: string, events: seq<Event<V>>)
    requires Inv(s) && Legal(s, Load(t, key)) && LegalRun(Step(s, Load(t, key)), events)
    ensures var s2 := Run(Step(s, Load(t, key)), events);
            t < |s2.threads| && (s2.threads[t].Returned? ==> s2.threads[t].key == key)
  {
    var s1 := Step(s, Load(t, key));
    StepKeeps(s, Load(t, key));
    EnteredFor(s, t, key);
    hide Run, LegalRun, Inv, Step, Legal;
    if s1.threads[t].Returned? {
      ReturnedForGood(s1, events, t);
    } else {
      WokenByItsFlight(s1, events, t, s1.threads[t].flight);
    }
  }

  lemma EnteredFor<V>(s: State<V>, t: nat, key: string)
    requires Inv(s) && Legal(s, Load(t, key))
    ensures var s1 := Step(s, Load(t, key));
            && t < |s1.threads|
            && match s1.threads[t]
               case Returned(k, _) => k == key
               case Leading(f) => f < |s1.shared.flights| && s1.shared.flights[f].key == key
               case Joined(f) => f < |s1.shared.flights| && s1.shared.flights[f].key == key
               case _ => false
  {
    hide CacheOk;
  }

  lemma {:induction false} ReturnedForGood<V>(s: State<V>, events: seq<Event<V>>, t: nat)
    requires LegalRun(s, events) && t < |s.threads| && s.threads[t].Returned?
    ensures t < |Run(s, events).threads| && Run(s, events).threads[t] == s.threads[t]
  {
    if events != [] {
      ReturnedForGood(s, events[..|events| - 1], t);
    }
  }

  // ---- how many calls -----------------------------------------------------------------------

  function For<V>(key: string): Flight<V> -> bool { (f: Flight<V>) => f.key == key }

  function FailedFor<V>(key: string): Flight<V> -> bool { (f: Flight<V>) => f.key == key && f.Done? && f.reply.Fail? }

  ghost predicate CallsAddUp<V>(s: Shared<V>, key: string) {
    Count(s.flights, For(key))
    == Count(s.flights, FailedFor(key)) + (if key in s.cache || key in s.inflight then 1 else 0)
  }

  lemma StepAddsUp<V>(s: State<V>, e: Event<V>, key: string)
    requires Inv(s) && Legal(s, e) && CallsAddUp(s.shared, key)
    ensures CallsAddUp(Step(s, e).shared, key)
  {
    var flights := s.shared.flights;
    match e
    case Load(t, k) =>
      CountSnoc(flights, Running(k), For(key));
      CountSnoc(flights, Running(k), FailedFor(key));
    case Finish(t, reply) =>
      var f := s.threads[t].flight;
      assert ThreadOk(s.shared, s.threads[t]);
      CountUpdate(flights, f, Done(flights[f].key, reply), For(key));
      CountUpdate(flights, f, Done(flights[f].key, reply), FailedFor(key));
    case Wake(t) =>
    case Cancel(t) =>
  }

  /** The service is called once more than it failed, and no more: after a failure the next Load calls
      again, so a second call for a project happens exactly when an earlier one failed. */
  lemma {:induction false} OneCallPerFailure<V>(n: nat, events: seq<Event<V>>, key: string)
    requires LegalRun(Fresh<V>(n), events)
    ensures CallsAddUp(Run(Fresh<V>(n), events).shared, key)
  {
    if events != [] {
      var before := events[..|events| - 1];
      OneCallPerFailure<V>(n, before, key);
      RunKeeps<V>(n, before);
      StepAddsUp(Run(Fresh<V>(n), before), events[|events| - 1], key);
    }
  }

  /** So "at most one call per project" is not kept: a failed call is followed by another. */
  lemma FailureCallsAgain<V>(key: string, err: string)
    ensures var events := [Load(0, key), Finish(0, Fail(err)), Load(1, key)];
            LegalRun(Fresh<V>(2), events) && Count(Run(Fresh<V>(2), events).shared.flights, For(key)) == 2
  {
    var s0 := Fresh<V>(2);
    var s1 := Step(s0, Load(0, key));
    assert s1.shared == Shared(map[], map[key := 0], [Running(key)]) && s1.threads == [Leading(0), Idle];
    var s2 := Step(s1, Finish(0, Fail(err)));
    assert s2.shared == Shared(map[], map[], [Done(key, Fail(err))]);
    assert s2.threads == [Returned(key, Fail(err)), Idle];
    var s3 := Step(s2, Load(1, key));
    assert s3.shared.flights == [Done(key, Fail(err)), Running(key)];
    CountAll(s3.shared.flights, For(key));
    RunOfThree(s0, Load(0, key), Finish(0, Fail(err)), Load(1, key));
  }

  lemma RunOfThree<V>(s: State<V>, a: Event<V>, b: Event<V>, c: Event<V>)
    requires Legal(s, a) && Legal(Step(s, a), b) && Legal(Step(Step(s, a), b), c)
    ensures LegalRun(s, [a, b, c]) && Run(s, [a, b, c]) == Step(Step(Step(s, a), b), c)
  {
    hide Step, Legal;
    assert [a][..0] == [] && [a, b][..1] == [a] && [a, b, c][..2] == [a, b];
    assert LegalRun(s, []) && Run(s, []) == s;
    assert LegalRun(s, [a]) && Run(s, [a]) == Step(s, a);
    assert LegalRun(s, [a, b]) && Run(s, [a, b]) == Step(Step(s, a), b);
  }

  // ---- the loader as the program keeps it ----------------------------------------------------

  class WorktreesByProjectLoader<V> {
    var cache: map<string, V>
    var inflight: map<string, nat>
    var flights: seq<Flight<V>>

    ghost function Contents(): Shared<V>
      reads this
    {
      Shared(cache, inflight, flights)
    }

    constructor ()
      ensures Contents() == Fresh<V>(0).shared
    {
      cache, inflight, flights := map[], map[], [];
    }

    method EnterLoad(key: string) returns (thread: Thread<V>)
      modifies this
      ensures (Contents(), thread) == Enter(old(Contents()), key)
    {
      if key in cache {
        return Returned(key, Ok(cache[key]));
      }
      if key in inflight {
        return Joined(inflight[key]);
      }
      thread := Leading(|flights|);
      inflight, flights := inflight[key := |flights|], flights + [Running(key)];
    }

    method FinishLoad(f: nat, reply: Reply<V>)
      requires f < |flights|
      modifies this
      ensures Contents() == Complete(old(Contents()), f, reply)
    {
      var key := flights[f].key;
      if reply.Ok? {
        cache := cache[key := reply.value];
      }
      flights := flights[f := Done(key, reply)];
      inflight := inflight - {key};
    }
  }
}

module DiscoveryFlights {
  import opened Options

  datatype Reply<V> = Ok(value: V) | Fail(err: string)

  /** One refresh: what it came back with and when, and what it published to those who joined. */
  datatype Flight<R> = Refreshing | Landed(out: Reply<seq<R>>, at: int, published: Reply<seq<R>>)

  datatype Shared<R> = Shared(cached: Option<seq<R>>, cachedAt: int, inflight: Option<nat>, flights: seq<Flight<R>>)

  datatype Thread<R> = Idle | Leading(flight: nat) | Joined(flight: nat) | Returned(reply: Reply<seq<R>>) | Cancelled

  datatype State<R> = State(shared: Shared<R>, threads: seq<Thread<R>>)

  function Enter<R>(s: Shared<R>, now: int, ttl: int): (Shared<R>, Thread<R>) {
    if s.cached.Some? && now - s.cachedAt < ttl then (s, Returned(Ok(s.cached.value)))
    else if s.inflight.Some? then (s, Joined(s.inflight.value))
    else (s.(inflight := Some(|s.flights|), flights := s.flights + [Refreshing]), Leading(|s.flights|))
  }

  /** What a refresh publishes: its own list, the stale one when it failed and there is one to show, the
      error otherwise. */
  function Answer<R>(cached: Option<seq<R>>, out: Reply<seq<R>>): Reply<seq<R>> {
    if out.Ok? then out
    else if cached.Some? && |cached.value| > 0 then Ok(cached.value)
    else out
  }

  function Publish<R>(s: Shared<R>, f: nat, out: Reply<seq<R>>, now: int): Shared<R>
    requires f < |s.flights|
  {
    Shared(if out.Ok? then Some(out.value) else s.cached,
           if out.Ok? then now else s.cachedAt,
           None,
           s.flights[f := Landed(out, now, Answer(s.cached, out))])
  }

  datatype Event<R> =
    | List(t: nat, now: int)
    | Finish(t: nat, out: Reply<seq<R>>, now: int)
    | Wake(t: nat)
    | Cancel(t: nat)

  predicate Legal<R>(s: State<R>, e: Event<R>) {
    && e.t < |s.threads|
    && match e
       case List(t, _) => s.threads[t].Idle?
       case Finish(t, _, _) => s.threads[t].Leading? && s.threads[t].flight < |s.shared.flights|
       case Wake(t) =>
         && s.threads[t].Joined? && s.threads[t].flight < |s.shared.flights|
         && s.shared.flights[s.threads[t].flight].Landed?
       case Cancel(t) => s.threads[t].Joined?
  }

  function Step<R>(s: State<R>, e: Event<R>, ttl: int): State<R>
    requires Legal(s, e)
  {
    match e
    case List(t, now) =>
      var (shared, thread) := Enter(s.shared, now, ttl);
      State(shared, s.threads[t := thread])
    case Finish(t, out, now) =>
      State(Publish(s.shared, s.threads[t].flight, out, now), s.threads[t := Returned(Answer(s.shared.cached, out))])
    case Wake(t) =>
      s.(threads := s.threads[t := Returned(s.shared.flights[s.threads[t].flight].published)])
    case Cancel(t) => s.(threads := s.threads[t := Cancelled])
  }

  ghost predicate LegalRun<R>(s: State<R>, events: seq<Event<R>>, ttl: int)
    decreases |events|, 0
  {
    events == []
    || (LegalRun(s, events[..|events| - 1], ttl) && Legal(Run(s, events[..|events| - 1], ttl), events[|events| - 1]))
  }

  ghost function Run<R>(s: State<R>, events: seq<Event<R>>, ttl: int): State<R>
    requires LegalRun(s, events, ttl)
    decreases |events|, 1
  {
    if events == [] then s else Step(Run(s, events[..|events| - 1], ttl), events[|events| - 1], ttl)
  }

  function Fresh<R>(n: nat): State<R> { State(Shared(None, 0, None, []), seq(n, _ => Idle)) }

  // ---- what every interleaving keeps --------------------------------------------------------

  /** The last refresh that succeeded: its list and when it landed. */
  function LastGood<R>(flights: seq<Flight<R>>): Option<(seq<R>, int)> {
    if flights == [] then None
    else
      var f := flights[|flights| - 1];
      if f.Landed? && f.out.Ok? then Some((f.out.value, f.at)) else LastGood(flights[..|flights| - 1])
  }

  function ListOf<R>(good: Option<(seq<R>, int)>): Option<seq<R>> {
    if good.Some? then Some(good.value.0) else None
  }

  ghost predicate FlightOk<R>(flights: seq<Flight<R>>, f: nat)
    requires f < |flights|
  {
    if flights[f].Refreshing? then f == |flights| - 1
    else flights[f].published == Answer(ListOf(LastGood(flights[..f])), flights[f].out)
  }

  ghost predicate SharedOk<R>(s: Shared<R>) {
    && s.cached == ListOf(LastGood(s.flights))
    && (LastGood(s.flights).Some? ==> s.cachedAt == LastGood(s.flights).value.1)
    && (forall f: nat :: f < |s.flights| ==> FlightOk(s.flights, f))
    && s.inflight == if s.flights != [] && s.flights[|s.flights| - 1].Refreshing? then Some(|s.flights| - 1) else None
  }

  /** A list some refresh came back with, or an error some refresh failed with. */
  predicate Honest<R(==)>(flights: seq<Flight<R>>, reply: Reply<seq<R>>) {
    exists f :: 0 <= f < |flights| && flights[f].Landed? && flights[f].out == reply
  }

  ghost predicate ThreadOk<R>(s: Shared<R>, thread: Thread<R>) {
    match thread
    case Leading(f) => s.inflight == Some(f)
    case Joined(f) => f < |s.flights|
    case Returned(reply) => Honest(s.flights, reply)
    case _ => true
  }

  ghost predicate Inv<R>(s: State<R>) {
    && SharedOk(s.shared)
    && (forall t :: 0 <= t < |s.threads| ==> ThreadOk(s.shared, s.threads[t]))
    && (forall t, u :: 0 <= t < u < |s.threads| && s.threads[t].Leading? ==> !s.threads[u].Leading?)
    && (s.shared.inflight.Some? ==> Leading(s.shared.inflight.value) in s.threads)
  }

  lemma {:induction false} LastGoodIsHonest<R>(flights: seq<Flight<R>>)
    ensures LastGood(flights).Some? ==> Honest(flights, Ok(LastGood(flights).value.0))
  {
    if flights != [] {
      var n := |flights| - 1;
      LastGoodIsHonest(flights[..n]);
      if LastGood(flights).Some? && !(flights[n].Landed? && flights[n].out.Ok?) {
        var f :| 0 <= f < n && flights[..n][f].Landed? && flights[..n][f].out == Ok(LastGood(flights).value.0);
        assert flights[f].out == Ok(LastGood(flights).value.0);
      }
    }
  }

  lemma EnterKeeps<R>(s: Shared<R>, now: int, ttl: int)
    requires SharedOk(s)
    ensures var (s2, thread) := Enter(s, now, ttl);
            && SharedOk(s2) && ThreadOk(s2, thread)
            && forall th: Thread<R> :: ThreadOk(s, th) && (th.Leading? ==> s.inflight.Some?) ==> ThreadOk(s2, th)
  {
    LastGoodIsHonest(s.flights);
    var (s2, thread) := Enter(s, now, ttl);
    if thread.Leading? {
      assert s2.flights[..|s.flights|] == s.flights;
      forall f: nat | f < |s2.flights|
        ensures FlightOk(s2.flights, f)
      {
        if f < |s.flights| {
          assert s2.flights[..f] == s.flights[..f] && FlightOk(s.flights, f);
        }
      }
      assert forall f :: 0 <= f < |s.flights| ==> s2.flights[f] == s.flights[f];
    }
  }

  lemma PublishKeeps<R>(s: Shared<R>, f: nat, out: Reply<seq<R>>, now: int)
    requires SharedOk(s) && s.inflight == Some(f)
    ensures f < |s.flights|
    ensures var s2 := Publish(s, f, out, now);
            && SharedOk(s2) && Honest(s2.flights, Answer(s.cached, out))
            && forall th: Thread<R> :: ThreadOk(s, th) && !th.Leading? ==> ThreadOk(s2, th)
  {
    var s2, n := Publish(s, f, out, now), |s.flights| - 1;
    assert s2.flights[..n] == s.flights[..n];
    assert LastGood(s.flights) == LastGood(s.flights[..n]);
    forall g: nat | g < |s2.flights|
      ensures FlightOk(s2.flights, g)
    {
      assert s2.flights[..g] == s.flights[..g] && FlightOk(s.flights, g);
    }
    forall reply | Honest(s.flights, reply)
      ensures Honest(s2.flights, reply)
    {
      var g :| 0 <= g < |s.flights| && s.flights[g].Landed? && s.flights[g].out == reply;
      assert s2.flights[g] == s.flights[g];
    }
    LastGoodIsHonest(s.flights);
    assert s2.flights[n].out == out;
  }

  lemma LeaderStays<R>(threads: seq<Thread<R>>, t: nat, thread: Thread<R>, f: nat)
    requires t < |threads| && Leading(f) in threads && threads[t] != Leading(f)
    ensures Leading(f) in threads[t := thread]
  {
    var u :| 0 <= u < |threads| && threads[u] == Leading(f);
    assert threads[t := thread][u] == Leading(f);
  }

  lemma StepKeeps<R>(s: State<R>, e: Event<R>, ttl: int)
    requires Inv(s) && Legal(s, e)
    ensures Inv(Step(s, e, ttl))
  {
    assert ThreadOk(s.shared, s.threads[e.t]);
    match e
    case List(t, now) =>
      EnterKeeps(s.shared, now, ttl);
      hide SharedOk, Honest;
      if s.shared.inflight.Some? {
        LeaderStays(s.threads, t, Enter(s.shared, now, ttl).1, s.shared.inflight.value);
      } else {
        assert Step(s, e, ttl).threads[t] == Enter(s.shared, now, ttl).1;
      }
    case Finish(t, out, now) =>
      PublishKeeps(s.shared, s.threads[t].flight, out, now);
      hide SharedOk, Honest, Answer;
    case Wake(t) =>
      var f := s.threads[t].flight;
      assert FlightOk(s.shared.flights, f);
      PublishedIsHonest(s.shared.flights, f);
      hide SharedOk, Honest;
      if s.shared.inflight.Some? {
        LeaderStays(s.threads, t, Returned(s.shared.flights[f].published), s.shared.inflight.value);
      }
    case Cancel(t) =>
      hide SharedOk, Honest;
      if s.shared.inflight.Some? {
        LeaderStays(s.threads, t, Cancelled, s.shared.inflight.value);
      }
  }

  lemma PublishedIsHonest<R>(flights: seq<Flight<R>>, f: nat)
    requires f < |flights| && flights[f].Landed? && FlightOk(flights, f)
    ensures Honest(flights, flights[f].published)
  {
    LastGoodIsHonest(flights[..f]);
    if flights[f].published != flights[f].out {
      var g :| 0 <= g < f && flights[..f][g].Landed? && flights[..f][g].out == flights[f].published;
      assert flights[g].out == flights[f].published;
    }
  }

  lemma {:induction false} RunKeeps<R>(n: nat, events: seq<Event<R>>, ttl: int)
    requires LegalRun(Fresh<R>(n), events, ttl)
    ensures Inv(Run(Fresh<R>(n), events, ttl))
  {
    if events != [] {
      RunKeeps<R>(n, events[..|events| - 1], ttl);
      StepKeeps(Run(Fresh<R>(n), events[..|events| - 1], ttl), events[|events| - 1], ttl);
    }
  }

  /** Discovery, over every interleaving: two refreshes never run at once, every refresh publishes its own
      list, or the last good one when it failed and that is not empty, or its error, and whatever List
      returns is what some refresh came back with. */
  lemma OneRefreshAtATime<R>(n: nat, events: seq<Event<R>>, ttl: int)
    requires LegalRun(Fresh<R>(n), events, ttl)
    ensures var s := Run(Fresh<R>(n), events, ttl);
            && (forall f :: 0 <= f < |s.shared.flights| - 1 ==> s.shared.flights[f].Landed?)
            && (forall f: nat :: f < |s.shared.flights| && s.shared.flights[f].Landed? ==>
                  var good := LastGood(s.shared.flights[..f]);
                  s.shared.flights[f].published
                  == if s.shared.flights[f].out.Fail? && good.Some? && |good.value.0| > 0 then Ok(good.value.0) else s.shared.flights[f].out)
            && (forall t :: 0 <= t < |s.threads| && s.threads[t].Returned? ==> Honest(s.shared.flights, s.threads[t].reply))
            && (forall t, u :: 0 <= t < u < |s.threads| && s.threads[t].Leading? ==> !s.threads[u].Leading?)
  {
    hide LastGood, Run, LegalRun, Honest;
    RunKeeps<R>(n, events, ttl);
    var s := Run(Fresh<R>(n), events, ttl);
    forall f: nat | f < |s.shared.flights|
      ensures f < |s.shared.flights| - 1 ==> s.shared.flights[f].Landed?
      ensures s.shared.flights[f].Landed? ==>
                var good := LastGood(s.shared.flights[..f]);
                s.shared.flights[f].published
                == if s.shared.flights[f].out.Fail? && good.Some? && |good.value.0| > 0 then Ok(good.value.0) else s.shared.flights[f].out
    {
      assert FlightOk(s.shared.flights, f);
    }
    forall t | 0 <= t < |s.threads| && s.threads[t].Returned?
      ensures Honest(s.shared.flights, s.threads[t].reply)
    {
      assert ThreadOk(s.shared, s.threads[t]);
    }
  }

  /** Answered without waiting exactly while the last good refresh is younger than the time to live, and
      then with its list. Otherwise it joins the refresh under way, and starts one exactly when there is none. */
  lemma HitIsFresh<R>(n: nat, events: seq<Event<R>>, ttl: int, now: int)
    requires LegalRun(Fresh<R>(n), events, ttl)
    ensures var s := Run(Fresh<R>(n), events, ttl).shared;
            var good := LastGood(s.flights);
            && (Enter(s, now, ttl).1.Returned? <==> good.Some? && now - good.value.1 < ttl)
            && (Enter(s, now, ttl).1.Returned? ==> Enter(s, now, ttl) == (s, Returned(Ok(good.value.0))))
            && (match Enter(s, now, ttl).1
                case Returned(_) => true
                case Joined(f) => Enter(s, now, ttl).0 == s && f < |s.flights| && s.flights[f].Refreshing?
                case Leading(f) => f == |s.flights| && Enter(s, now, ttl).0.flights == s.flights + [Refreshing] && Refreshing !in s.flights
                case _ => false)
  {
    RunKeeps<R>(n, events, ttl);
    var s := Run(Fresh<R>(n), events, ttl).shared;
    forall f | 0 <= f < |s.flights| && s.flights[f].Refreshing?
      ensures f == |s.flights| - 1
    {
      assert FlightOk(s.flights, f);
    }
  }

  /** A goroutine that leads or joined a refresh stays at it, gives up if it joined, or returns what that very
      refresh published. */
  ghost predicate AtItsFlight<R>(s: State<R>, t: nat, was: Thread<R>, f: nat) {
    && t < |s.threads| && f < |s.shared.flights|
    && (|| s.threads[t] == was
        || (s.threads[t] == Cancelled && was.Joined?)
        || (s.shared.flights[f].Landed? && s.threads[t] == Returned(s.shared.flights[f].published)))
  }

  lemma StaysAtItsFlight<R>(s: State<R>, e: Event<R>, ttl: int, t: nat, was: Thread<R>, f: nat)
    requires Inv(s) && Legal(s, e) && (was == Leading(f) || was == Joined(f))
    requires AtItsFlight(s, t, was, f)
    ensures AtItsFlight(Step(s, e, ttl), t, was, f)
  {
    if e.Finish? {
      assert ThreadOk(s.shared, s.threads[e.t]);
    }
  }

  lemma {:induction false} WokenByItsFlight<R>(s: State<R>, events: seq<Event<R>>, ttl: int, t: nat, f: nat)
    requires Inv(s) && LegalRun(s, events, ttl) && t < |s.threads| && f < |s.shared.flights|
    requires s.threads[t] == Leading(f) || s.threads[t] == Joined(f)
    ensures Inv(Run(s, events, ttl)) && AtItsFlight(Run(s, events, ttl), t, s.threads[t], f)
  {
    if events != [] {
      var before, e := events[..|events| - 1], events[|events| - 1];
      WokenByItsFlight(s, before, ttl, t, f);
      var was := Run(s, before, ttl);
      assert Run(s, events, ttl) == Step(was, e, ttl);
      hide Step, Run, LegalRun, AtItsFlight, Inv, Legal;
      StepKeeps(was, e, ttl);
      StaysAtItsFlight(was, e, ttl, t, s.threads[t], f);
    }
  }

  /** The leader returns what it publishes, so all who joined get the leader's own answer. */
  lemma WaiterGetsLeadersAnswer<R>(s: State<R>, leader: nat, waiter: nat, out: Reply<seq<R>>, now: int, ttl: int)
    requires Inv(s) && Legal(s, Finish(leader, out, now))
    requires waiter < |s.threads| && s.threads[waiter] == Joined(s.threads[leader].flight)
    ensures var landed := Step(s, Finish(leader, out, now), ttl);
            Legal(landed, Wake(waiter)) && Step(landed, Wake(waiter), ttl).threads[waiter] == landed.threads[leader]
  {
  }

  // ---- the discoverer as the program keeps it -------------------------------------------------

  class Discoverer<R> {
    const ttl: int
    var cached: Option<seq<R>>
    var cachedAt: int
    var inflight: Option<nat>
    var flights: seq<Flight<R>>

    ghost function Contents(): Shared<R>
      reads this
    {
      Shared(cached, cachedAt, inflight, flights)
    }

    constructor (ttl: int)
      ensures this.ttl == ttl && Contents() == Fresh<R>(0).shared
    {
      this.ttl := ttl;
      cached, cachedAt, inflight, flights := None, 0, None, [];
    }

    method EnterList(now: int) returns (thread: Thread<R>)
      modifies this
      ensures (Contents(), thread) == Enter(old(Contents()), now, ttl)
    {
      if cached.Some? && now - cachedAt < ttl {
        return Returned(Ok(cached.value));
      }
      if inflight.Some? {
        return Joined(inflight.value);
      }
      thread := Leading(|flights|);
      inflight, flights := Some(|flights|), flights + [Refreshing];
    }

    method FinishList(f: nat, out: Reply<seq<R>>, now: int) returns (reply: Reply<seq<R>>)
      requires f < |flights|
      modifies this
      ensures Contents() == Publish(old(Contents()), f, out, now)
      ensures reply == flights[f].published
    {
      if out.Ok? {
        cached, cachedAt := Some(out.value), now;
      }
      var served := if cached.Some? then cached.value else [];
      reply := if out.Fail? && |served| == 0 then out else Ok(served);
      flights := flights[f := Landed(out, now, reply)];
      inflight := None;
    }
  }
}

// The pull-request cache of the gh domain (daemon/gh/provider.go, logging.go).
//
// Enrichment is served stale while revalidating, never hardens an UNKNOWN mergeable state, backs off
// after a rate limit, and has a batch form that groups keys by repository into one aliased query and
// scatters the answers back. The cache's locked sections are the steps of a state machine; the
// Provider's methods are sequences of them.

module Enrichment {
  import opened Options
  import opened Sequences

  /** Nanoseconds; 0 is the zero time. */
  type Time = int

  const SECOND: Time := 1_000_000_000
  const ENRICHMENT_TTL: Time := 300 * SECOND
  const STALE_ENRICHMENT_TTL: Time := 3600 * SECOND
  const RATE_LIMIT_COOLDOWN: Time := 300 * SECOND
  const CACHE_TTL: Time := 120 * SECOND

  datatype Key = Key(owner: string, name: string, number: int)

  datatype Mergeable = Unset | Clean | Conflicting | Unknown
  datatype CiStatus = NoStatus | Success | Failure | Pending | UnknownStatus
  datatype Label = Label(name: string, color: string, description: string)

  /** A pull request: the REST part, and the enrichment part a list or get leaves zero. */
  datatype PullRequest = PullRequest(
    owner: string, name: string, number: int, details: string,
    mergeable: Mergeable, mergeStateStatus: string, reviewDecision: Option<string>,
    ci: CiStatus, labels: seq<Label>)

  const ZERO_PR := PullRequest("", "", 0, "", Unset, "", None, NoStatus, [])

  function KeyOf(pr: PullRequest): Key { Key(pr.owner, pr.name, pr.number) }

  /** One pull request of a GraphQL reply. rollup is None when there is no commit or no check on it. */
  datatype Wire = Wire(
    mergeable: string, mergeStateStatus: string, reviewDecision: Option<string>,
    labels: seq<Label>, rollup: Option<string>)

  function MapMergeable(s: string): Mergeable {
    if s == "MERGEABLE" then Clean else if s == "CONFLICTING" then Conflicting else Unknown
  }

  function MapRollup(s: string): CiStatus {
    if s == "SUCCESS" then Success
    else if s == "FAILURE" || s == "ERROR" then Failure
    else if s == "PENDING" || s == "EXPECTED" then Pending
    else UnknownStatus
  }

  const PHASE_LABELS := {"investigating", "needs-plan", "needs-repro", "planned", "in-progress", "in-ai-review",
                         "pr-ready", "blocked"}

  function FilterPhaseLabels(labels: seq<Label>): (out: seq<Label>)
    ensures forall l :: l in out <==> l in labels && l.name !in PHASE_LABELS
  {
    if labels == [] then []
    else
      var last := labels[|labels| - 1];
      assert labels == labels[..|labels| - 1] + [last];
      FilterPhaseLabels(labels[..|labels| - 1]) + (if last.name in PHASE_LABELS then [] else [last])
  }

  function NoPhase(): Label -> bool { (l: Label) => l.name !in PHASE_LABELS }

  lemma {:induction false} FilterKeepsOrder(labels: seq<Label>)
    ensures KeptInOrder(labels, NoPhase(), FilterPhaseLabels(labels))
  {
    hide KeptInOrder, NoPhase;
    if labels == [] {
      NothingKept(labels, NoPhase());
    } else {
      var n := |labels| - 1;
      FilterKeepsOrder(labels[..n]);
      FilterLast(labels);
      hide FilterPhaseLabels;
      KeepOneMore(labels[..n], NoPhase(), FilterPhaseLabels(labels[..n]), labels[n]);
      assert labels == labels[..n] + [labels[n]];
    }
  }

  lemma FilterLast(labels: seq<Label>)
    requires labels != []
    ensures var last := labels[|labels| - 1];
            FilterPhaseLabels(labels) == FilterPhaseLabels(labels[..|labels| - 1]) + (if NoPhase()(last) then [last] else [])
  {
  }

  predicate Definite(m: Mergeable) { m == Clean || m == Conflicting }

  function Enriched(pr: PullRequest, wire: Wire): PullRequest {
    pr.(mergeable := MapMergeable(wire.mergeable), mergeStateStatus := wire.mergeStateStatus,
        reviewDecision := wire.reviewDecision,
        ci := if wire.rollup.Some? then MapRollup(wire.rollup.value) else UnknownStatus,
        labels := FilterPhaseLabels(wire.labels))
  }

  /** pr is base with what the reply says of it: a state for each thing GitHub may answer, and the labels
      that are not phase labels, in order. */
  ghost predicate Shows(pr: PullRequest, base: PullRequest, wire: Wire) {
    && pr.owner == base.owner && pr.name == base.name && pr.number == base.number && pr.details == base.details
    && (pr.mergeable == Clean <==> wire.mergeable == "MERGEABLE")
    && (pr.mergeable == Conflicting <==> wire.mergeable == "CONFLICTING")
    && pr.mergeable in {Clean, Conflicting, Unknown}
    && pr.mergeStateStatus == wire.mergeStateStatus && pr.reviewDecision == wire.reviewDecision
    && (pr.ci == Success <==> wire.rollup == Some("SUCCESS"))
    && (pr.ci == Failure <==> wire.rollup == Some("FAILURE") || wire.rollup == Some("ERROR"))
    && (pr.ci == Pending <==> wire.rollup == Some("PENDING") || wire.rollup == Some("EXPECTED"))
    && pr.ci in {Success, Failure, Pending, UnknownStatus}
    && KeptInOrder(wire.labels, NoPhase(), pr.labels)
  }

  /** The reply knows whether the pull request can be merged. */
  predicate Decided(wire: Wire) { wire.mergeable == "MERGEABLE" || wire.mergeable == "CONFLICTING" }

  lemma EnrichedShows(base: PullRequest, wire: Wire)
    ensures Shows(Enriched(base, wire), base, wire)
    ensures Definite(MapMergeable(wire.mergeable)) <==> Decided(wire)
  {
    FilterKeepsOrder(wire.labels);
    hide KeptInOrder, FilterPhaseLabels;
  }

  datatype Entry = Entry(value: PullRequest, at: Time)

  datatype Cache = Cache(prs: map<Key, Entry>, enrichAt: map<Key, Time>, limitedUntil: Time) {
    function BaseOf(k: Key): Entry { if k in prs then prs[k] else Entry(ZERO_PR, 0) }

    predicate EnrichedSince(k: Key, now: Time, ttl: Time) {
      k in prs && k in enrichAt && now - enrichAt[k] < ttl
    }

    predicate Fresh(k: Key, now: Time) { EnrichedSince(k, now, ENRICHMENT_TTL) }

    predicate CoolingDown(now: Time) { limitedUntil != 0 && now < limitedUntil }

    /** The cached value while it is under an hour old. */
    function Stale(k: Key, now: Time): Option<PullRequest> {
      if EnrichedSince(k, now, STALE_ENRICHMENT_TTL) then Some(prs[k].value) else None
    }
  }

  // ---- the locked sections ------------------------------------------------------------------

  datatype Section =
    | Store(pr: PullRequest, k: Key, now: Time)
    | Apply(wire: Wire, k: Key, now: Time)
    | Drop(k: Key)
    | EnterCooldown(now: Time)
    | ClearCooldown

  function Step(c: Cache, e: Section): Cache {
    match e
    case Store(pr, k, now) => c.(prs := c.prs[k := Entry(pr, now)], enrichAt := c.enrichAt - {k})
    case Apply(wire, k, now) =>
      if Definite(MapMergeable(wire.mergeable)) then
        c.(prs := c.prs[k := Entry(Enriched(c.BaseOf(k).value, wire), c.BaseOf(k).at)],
           enrichAt := c.enrichAt[k := now])
      else c
    case Drop(k) => c.(prs := c.prs - {k}, enrichAt := c.enrichAt - {k})
    case EnterCooldown(now) => c.(limitedUntil := now + RATE_LIMIT_COOLDOWN)
    case ClearCooldown => c.(limitedUntil := 0)
  }

  function Run(es: seq<Section>): Cache {
    if es == [] then Cache(map[], map[], 0) else Step(Run(es[..|es| - 1]), es[|es| - 1])
  }

  /** The definite reply that has spoken last about k since k was last stored or dropped. */
  ghost function LastReply(es: seq<Section>, k: Key): Option<Section> {
    if es == [] then None
    else
      var e, before := es[|es| - 1], es[..|es| - 1];
      if (e.Store? || e.Drop?) && e.k == k then None
      else if e.Apply? && e.k == k && Decided(e.wire) then Some(e)
      else LastReply(before, k)
  }

  ghost predicate Means(c: Cache, k: Key, reply: Option<Section>) {
    && (k in c.enrichAt <==> reply.Some?)
    && (reply.Some? ==>
          reply.value.Apply? && c.enrichAt[k] == reply.value.now
          && k in c.prs && c.prs[k].value == Enriched(c.prs[k].value, reply.value.wire)
          && Definite(c.prs[k].value.mergeable))
  }

  /** Over every interleaving of locked sections: a key counts as enriched exactly when a definite
      reply has arrived since its entry was last replaced, and what is stored is that reply. */
  lemma {:induction false} CacheHoldsLastReply(es: seq<Section>, k: Key)
    ensures Means(Run(es), k, LastReply(es, k))
  {
    if es != [] {
      var e, before := es[|es| - 1], es[..|es| - 1];
      CacheHoldsLastReply(before, k);
      if e.Apply? && e.k == k {
        EnrichTwice(Run(before).BaseOf(k).value, e.wire);
        EnrichedShows(Run(before).BaseOf(k).value, e.wire);
      }
    }
  }

  lemma EnrichTwice(pr: PullRequest, wire: Wire)
    ensures Enriched(Enriched(pr, wire), wire) == Enriched(pr, wire)
  {
  }

  /** The REST part of a pull request. */
  function RestOf(pr: PullRequest): PullRequest {
    pr.(mergeable := Unset, mergeStateStatus := "", reviewDecision := None, ci := NoStatus, labels := [])
  }

  /** What a list or a get brought last for k since it was dropped, the zero pull request when nothing did. */
  ghost function LastStored(es: seq<Section>, k: Key): Entry {
    if es == [] then Entry(ZERO_PR, 0)
    else
      var e := es[|es| - 1];
      if e.Store? && e.k == k then Entry(e.pr, e.now)
      else if e.Drop? && e.k == k then Entry(ZERO_PR, 0)
      else LastStored(es[..|es| - 1], k)
  }

  /** And its REST part and its age are always those of the one last stored: no reply changes them. */
  lemma {:induction false} CacheHoldsLastStored(es: seq<Section>, k: Key)
    ensures RestOf(Run(es).BaseOf(k).value) == RestOf(LastStored(es, k).value)
    ensures Run(es).BaseOf(k).at == LastStored(es, k).at
  {
    if es != [] {
      CacheHoldsLastStored(es[..|es| - 1], k);
    }
  }

  lemma ShowsSameRest(pr: PullRequest, a: PullRequest, b: PullRequest, wire: Wire)
    requires RestOf(a) == RestOf(b) && Shows(pr, a, wire)
    ensures Shows(pr, b, wire)
  {
    hide KeptInOrder;
  }

  /** So what is stored of an enriched key is the one last stored, showing what that reply says. */
  lemma CacheShowsLastReply(es: seq<Section>, k: Key)
    ensures k in Run(es).enrichAt ==>
              && k in Run(es).prs && LastReply(es, k).Some? && LastReply(es, k).value.Apply?
              && Run(es).enrichAt[k] == LastReply(es, k).value.now
              && Shows(Run(es).prs[k].value, LastStored(es, k).value, LastReply(es, k).value.wire)
    ensures k in Run(es).enrichAt <==> LastReply(es, k).Some?
  {
    CacheHoldsLastReply(es, k);
    CacheHoldsLastStored(es, k);
    hide Run, LastReply, LastStored, Enriched, Shows, RestOf;
    if k in Run(es).enrichAt {
      var v, wire := Run(es).prs[k].value, LastReply(es, k).value.wire;
      EnrichedShows(v, wire);
      ShowsSameRest(v, v, LastStored(es, k).value, wire);
    }
  }

  /** When the cooldown was last entered and not cleared since. */
  ghost function LastLimit(es: seq<Section>): Option<Time> {
    if es == [] then None
    else
      var e := es[|es| - 1];
      if e.EnterCooldown? then Some(e.now) else if e.ClearCooldown? then None else LastLimit(es[..|es| - 1])
  }

  /** Calls keep off the network for five minutes from then. */
  ghost predicate Cooling(es: seq<Section>, now: Time) {
    LastLimit(es).Some? && now < LastLimit(es).value + 300 * SECOND && LastLimit(es).value + 300 * SECOND != 0
  }

  lemma CooldownIsHistory(es: seq<Section>, now: Time)
    ensures Run(es).CoolingDown(now) <==> Cooling(es, now)
  {
    LimitIsHistory(es);
  }

  lemma {:induction false} LimitIsHistory(es: seq<Section>)
    ensures Run(es).limitedUntil == if LastLimit(es).Some? then LastLimit(es).value + 300 * SECOND else 0
  {
    if es != [] {
      LimitIsHistory(es[..|es| - 1]);
    }
  }

  /** Whether a section says anything of k's enrichment. */
  predicate Speaks(e: Section, k: Key) {
    ((e.Store? || e.Drop?) && e.k == k) || (e.Apply? && e.k == k && Decided(e.wire))
  }

  ghost predicate SpokenOf(mid: seq<Section>, k: Key) { exists e :: e in mid && Speaks(e, k) }

  lemma {:induction false} LastReplyConcat(es: seq<Section>, mid: seq<Section>, k: Key)
    ensures LastReply(es + mid, k) == if SpokenOf(mid, k) then LastReply(mid, k) else LastReply(es, k)
    decreases |mid|
  {
    if mid == [] {
      assert es + mid == es;
    } else {
      var before, e := mid[..|mid| - 1], mid[|mid| - 1];
      assert (es + mid)[..|es + mid| - 1] == es + before;
      assert mid == before + [e];
      assert SpokenOf(mid, k) <==> SpokenOf(before, k) || Speaks(e, k) by {
        if SpokenOf(before, k) {
          var x :| x in before && Speaks(x, k);
          assert x in mid;
        }
        assert e in mid;
      }
      LastReplyConcat(es, before, k);
    }
  }

  // ---- one key ------------------------------------------------------------------------------

  /** How one round trip went. */
  datatype Reply =
    | NoClient
    | TransportError(rateLimited: bool)
    | Undecodable
    | GraphErrors(rateLimited: bool)
    | Data

  /** The clock readings of a call: at its snapshot, at its cooldown check, and when its round trip is over. */
  datatype Moments = Moments(read: Time, ask: Time, serve: Time) {
    predicate InOrder() { read <= ask <= serve }
  }

  function At(now: Time): Moments { Moments(now, now, now) }

  /** EnrichPullRequest from its snapshot on, over a cache that other sections may have changed meanwhile:
      the new cache, and the value or, for an error, None. */
  function FinishOne(snap: Cache, c: Cache, k: Key, t: Moments, reply: Reply, wire: Wire): (Cache, Option<PullRequest>) {
    if snap.Fresh(k, t.read) then (c, Some(snap.prs[k].value))
    else if snap.CoolingDown(t.ask) then (c, snap.Stale(k, t.serve))
    else
      match reply
      case Data =>
        var cleared := Step(c, ClearCooldown);
        (Step(cleared, Apply(wire, k, t.serve)), Some(Enriched(c.BaseOf(k).value, wire)))
      case GraphErrors(true) => (Step(c, EnterCooldown(t.serve)), snap.Stale(k, t.serve))
      case _ => (c, snap.Stale(k, t.serve))
  }

  /** The call with nothing in between, at one instant. */
  function EnrichOne(c: Cache, k: Key, now: Time, reply: Reply, wire: Wire): (Cache, Option<PullRequest>) {
    FinishOne(c, c, k, At(now), reply, wire)
  }

  /** The call asks nothing of the network. */
  predicate AsksNothing(snap: Cache, k: Key, t: Moments) { snap.Fresh(k, t.read) || snap.CoolingDown(t.ask) }

  /** The key has a definite reply younger than this. */
  ghost predicate RepliedWithin(es: seq<Section>, k: Key, now: Time, age: Time) {
    LastReply(es, k).Some? && LastReply(es, k).value.Apply? && now - LastReply(es, k).value.now < age
  }

  /** v is the pull request last stored for the key, showing what the last definite reply says of it. */
  ghost predicate IsLastReply(es: seq<Section>, k: Key, v: PullRequest) {
    && LastReply(es, k).Some? && LastReply(es, k).value.Apply?
    && Shows(v, LastStored(es, k).value, LastReply(es, k).value.wire)
  }

  lemma ReadsAreHistory(es: seq<Section>, k: Key, now: Time)
    ensures Run(es).Fresh(k, now) <==> RepliedWithin(es, k, now, 300 * SECOND)
    ensures Run(es).Fresh(k, now) ==> IsLastReply(es, k, Run(es).prs[k].value)
    ensures Run(es).Stale(k, now).Some? <==> RepliedWithin(es, k, now, 3600 * SECOND)
    ensures Run(es).Stale(k, now).Some? ==> IsLastReply(es, k, Run(es).Stale(k, now).value)
  {
    CacheShowsLastReply(es, k);
    hide Run, LastReply, LastStored, Shows;
  }

  lemma FetchedShows(es: seq<Section>, k: Key, wire: Wire)
    ensures Shows(Enriched(Run(es).BaseOf(k).value, wire), LastStored(es, k).value, wire)
  {
    CacheHoldsLastStored(es, k);
    hide Run, LastStored, Shows, Enriched, RestOf, Cache.BaseOf;
    var base := Run(es).BaseOf(k).value;
    EnrichedShows(base, wire);
    ShowsSameRest(Enriched(base, wire), base, LastStored(es, k).value, wire);
  }

  /** A single call, whatever sections ran since its snapshot. It asks GitHub unless it knew a definite reply
      under five minutes old or a rate limit was hit in the last five. Answered, it returns the pull request
      stored by then showing the answer. Otherwise it returns the one stored at its snapshot showing the last
      definite reply before that, exactly while that reply is under an hour old when it is handed out. */
  lemma ServedIsRecentReply(es: seq<Section>, mid: seq<Section>, k: Key, t: Moments, reply: Reply, wire: Wire)
    requires t.InOrder()
    ensures var v := FinishOne(Run(es), Run(es + mid), k, t, reply, wire).1;
            var known, cooling := RepliedWithin(es, k, t.read, 300 * SECOND), Cooling(es, t.ask);
            if !known && !cooling && reply == Data then v.Some? && Shows(v.value, LastStored(es + mid, k).value, wire)
            else
              && (v.Some? <==> known || RepliedWithin(es, k, t.serve, 3600 * SECOND))
              && (v.Some? ==> IsLastReply(es, k, v.value))
  {
    ReadsAreHistory(es, k, t.read);
    ReadsAreHistory(es, k, t.serve);
    CooldownIsHistory(es, t.ask);
    FetchedShows(es + mid, k, wire);
    hide Run, LastReply, LastStored, Shows, Enriched, Cooling, RepliedWithin, IsLastReply;
  }

  /** What such a call leaves in the cache is what these sections make of it. */
  ghost function OneCall(es: seq<Section>, k: Key, t: Moments, reply: Reply, wire: Wire): seq<Section> {
    if RepliedWithin(es, k, t.read, 300 * SECOND) || Cooling(es, t.ask) then []
    else if reply == Data then [ClearCooldown, Apply(wire, k, t.serve)]
    else if reply == GraphErrors(true) then [EnterCooldown(t.serve)]
    else []
  }

  lemma CallIsSections(es: seq<Section>, mid: seq<Section>, k: Key, t: Moments, reply: Reply, wire: Wire)
    ensures FinishOne(Run(es), Run(es + mid), k, t, reply, wire).0 == Run(es + mid + OneCall(es, k, t, reply, wire))
  {
    ReadsAreHistory(es, k, t.read);
    CooldownIsHistory(es, t.ask);
    hide LastReply, LastStored, Enriched, Cooling, RepliedWithin, IsLastReply, Run, Step, Cache.Fresh, Cache.CoolingDown, Cache.Stale;
    var all := es + mid;
    assert all + [] == all;
    if reply == Data {
      RunTwoMore(all, ClearCooldown, Apply(wire, k, t.serve));
    } else {
      RunMore(all, EnterCooldown(t.serve));
    }
  }

  lemma RunTwoMore(es: seq<Section>, a: Section, b: Section)
    ensures Run(es + [a, b]) == Step(Step(Run(es), a), b)
  {
    hide Run, Step;
    RunMore(es, a);
    RunMore(es + [a], b);
    assert es + [a] + [b] == es + [a, b];
  }

  lemma RunMore(es: seq<Section>, e: Section)
    ensures Run(es + [e]) == Step(Run(es), e)
  {
    assert (es + [e])[..|es|] == es;
  }

  /** The reply served is still the last word on its key when it is served exactly when no section spoke of
      the key meanwhile, or the last that did said the same. */
  lemma ServedIsStillLast(es: seq<Section>, mid: seq<Section>, k: Key)
    ensures LastReply(es + mid, k) == LastReply(es, k)
            <==> (SpokenOf(mid, k) ==> LastReply(mid, k) == LastReply(es, k))
  {
    LastReplyConcat(es, mid, k);
  }

  /** So a pull request dropped during the round trip is served all the same. */
  lemma DroppedIsServed(pr: PullRequest, wire: Wire, now: Time)
    requires wire.mergeable == "MERGEABLE"
    ensures var k := KeyOf(pr);
            var es, mid := [Store(pr, k, now), Apply(wire, k, now)], [Drop(k)];
            && LastReply(es + mid, k).None?
            && FinishOne(Run(es), Run(es + mid), k, Moments(now + ENRICHMENT_TTL, now + ENRICHMENT_TTL, now + ENRICHMENT_TTL),
                         TransportError(false), wire).1 == Some(Enriched(pr, wire))
  {
    var k := KeyOf(pr);
    var es, mid := [Store(pr, k, now), Apply(wire, k, now)], [Drop(k)];
    assert es[..1] == [Store(pr, k, now)] && es[..1][..0] == [];
    assert (es + mid)[..2] == es;
    assert Run(es[..1]) == Step(Run([]), Store(pr, k, now));
    assert Run(es) == Step(Run(es[..1]), Apply(wire, k, now));
    hide Enriched, Run, LastReply;
    assert LastReply(es + mid, k).None? by {
      DropEndsReplies(es, k);
    }
  }

  lemma DropEndsReplies(es: seq<Section>, k: Key)
    ensures LastReply(es + [Drop(k)], k).None?
  {
  }

  /** Only a GraphQL-level rate limit arms the cooldown from here; a transport-level one does not. */
  lemma SingleArmsOnGraphErrorsOnly(c: Cache, k: Key, now: Time, reply: Reply, wire: Wire)
    requires !c.Fresh(k, now) && !c.CoolingDown(now) && 0 <= now
    ensures EnrichOne(c, k, now, reply, wire).0.CoolingDown(now) <==> reply == GraphErrors(true)
  {
  }

  // ---- many keys ----------------------------------------------------------------------------

  /** The keys of ks whose reply is definite. */
  ghost function Definites(ks: set<Key>, wires: map<Key, Wire>): set<Key> {
    set k | k in ks && k in wires && Definite(MapMergeable(wires[k].mergeable))
  }

  ghost function MergedPrs(c: Cache, d: set<Key>, wires: map<Key, Wire>): (m: map<Key, Entry>)
    requires d <= wires.Keys
    ensures m.Keys == c.prs.Keys + d
    ensures forall k :: k in m ==>
              (m[k] == if k in d then Entry(Enriched(c.BaseOf(k).value, wires[k]), c.BaseOf(k).at) else c.prs[k])
  {
    map k | k in c.prs.Keys + d ::
      if k in d then Entry(Enriched(c.BaseOf(k).value, wires[k]), c.BaseOf(k).at) else c.prs[k]
  }

  ghost function MergedTimes(c: Cache, d: set<Key>, now: Time): (m: map<Key, Time>)
    ensures m.Keys == c.enrichAt.Keys + d
    ensures forall k :: k in m ==> (m[k] == if k in d then now else c.enrichAt[k])
  {
    map k | k in c.enrichAt.Keys + d :: if k in d then now else c.enrichAt[k]
  }

  /** c after every definite reply for ks has been applied, in whatever order. */
  ghost function ApplyAll(c: Cache, ks: set<Key>, wires: map<Key, Wire>, now: Time): Cache {
    c.(prs := MergedPrs(c, Definites(ks, wires), wires), enrichAt := MergedTimes(c, Definites(ks, wires), now))
  }

  lemma MergeOneMore(c: Cache, d: set<Key>, wires: map<Key, Wire>, now: Time, k: Key)
    requires d <= wires.Keys && k in wires
    ensures MergedPrs(c, d, wires)[k := Entry(Enriched(c.BaseOf(k).value, wires[k]), c.BaseOf(k).at)]
         == MergedPrs(c, d + {k}, wires)
    ensures MergedTimes(c, d, now)[k := now] == MergedTimes(c, d + {k}, now)
  {
    hide MergedPrs, MergedTimes, Enriched, Cache.BaseOf;
    var e := Entry(Enriched(c.BaseOf(k).value, wires[k]), c.BaseOf(k).at);
    var m, n := MergedPrs(c, d, wires)[k := e], MergedPrs(c, d + {k}, wires);
    assert m.Keys == n.Keys;
    forall x | x in m ensures m[x] == n[x] {
    }
    var s, t := MergedTimes(c, d, now)[k := now], MergedTimes(c, d + {k}, now);
    assert s.Keys == t.Keys;
    forall x | x in s ensures s[x] == t[x] {
    }
  }

  lemma MergedBase(c: Cache, ks: set<Key>, wires: map<Key, Wire>, now: Time, k: Key)
    requires k in wires
    ensures var b := ApplyAll(c, ks, wires, now).BaseOf(k);
            Enriched(b.value, wires[k]) == Enriched(c.BaseOf(k).value, wires[k]) && b.at == c.BaseOf(k).at
  {
    EnrichTwice(c.BaseOf(k).value, wires[k]);
  }

  lemma ApplyOneMore(c: Cache, ks: set<Key>, wires: map<Key, Wire>, now: Time, k: Key)
    requires k in wires
    ensures Step(ApplyAll(c, ks, wires, now), Apply(wires[k], k, now)) == ApplyAll(c, ks + {k}, wires, now)
    ensures Enriched(ApplyAll(c, ks, wires, now).BaseOf(k).value, wires[k]) == Enriched(c.BaseOf(k).value, wires[k])
  {
    MergedBase(c, ks, wires, now, k);
    var d := Definites(ks, wires);
    if Definite(MapMergeable(wires[k].mergeable)) {
      assert Definites(ks + {k}, wires) == d + {k};
      MergeOneMore(c, d, wires, now, k);
    } else {
      assert Definites(ks + {k}, wires) == d;
    }
  }

  lemma ApplyNothing(c: Cache, wires: map<Key, Wire>, now: Time, ks: set<Key>)
    requires forall k :: k in ks ==> k !in wires
    ensures ApplyAll(c, ks, wires, now) == c
  {
    assert ApplyAll(c, ks, wires, now).prs == c.prs;
    assert ApplyAll(c, ks, wires, now).enrichAt == c.enrichAt;
  }

  /** The requested keys that must be fetched. */
  ghost function ToFetch(c: Cache, keys: seq<Key>, now: Time): set<Key> {
    set k | k in keys && !c.Fresh(k, now)
  }

  function ValueOrZero(v: Option<PullRequest>): PullRequest { if v.Some? then v.value else ZERO_PR }

  /** BatchEnrichPullRequests from its snapshot on, on the cache: answered keys are applied, stamped with the
      batch's one early clock reading, and unanswered ones left. */
  ghost function FinishBatch(snap: Cache, c: Cache, ks: set<Key>, t: Moments, reply: Reply, wires: map<Key, Wire>): Cache {
    if ks == {} || snap.CoolingDown(t.ask) then c
    else
      match reply
      case Data => ApplyAll(Step(c, ClearCooldown), ks, wires, t.read)
      case TransportError(true) => Step(c, EnterCooldown(t.serve))
      case GraphErrors(true) => Step(c, EnterCooldown(t.serve))
      case _ => c
  }

  /** What the batch returns for one of its keys; staleness is judged by that early reading too. */
  function FinishValue(snap: Cache, c: Cache, k: Key, t: Moments, reply: Reply, wires: map<Key, Wire>): PullRequest {
    if snap.Fresh(k, t.read) then snap.prs[k].value
    else if !snap.CoolingDown(t.ask) && reply == Data && k in wires then Enriched(c.BaseOf(k).value, wires[k])
    else ValueOrZero(snap.Stale(k, t.read))
  }

  /** The batch with nothing in between, at one instant. */
  ghost function BatchCache(c: Cache, keys: seq<Key>, now: Time, reply: Reply, wires: map<Key, Wire>): Cache {
    AskedCache(c, ToFetch(c, keys, now), now, reply, wires)
  }

  ghost function AskedCache(c: Cache, ks: set<Key>, now: Time, reply: Reply, wires: map<Key, Wire>): Cache {
    FinishBatch(c, c, ks, At(now), reply, wires)
  }

  function BatchValue(c: Cache, k: Key, now: Time, reply: Reply, wires: map<Key, Wire>): PullRequest {
    FinishValue(c, c, k, At(now), reply, wires)
  }

  /** The batch, whatever sections ran since its snapshot: likewise, but it judges an hour by its early clock
      reading, and gives the zero value when it has nothing. What it hands out is still under an hour old
      exactly when the round trip ended before the entry's hour did, and then the single call serves it too. */
  lemma BatchServesRecentReply(es: seq<Section>, mid: seq<Section>, k: Key, t: Moments, reply: Reply, wires: map<Key, Wire>)
    requires t.InOrder()
    ensures var snap := Run(es);
            var v := FinishValue(snap, Run(es + mid), k, t, reply, wires);
            var known, cooling := RepliedWithin(es, k, t.read, 300 * SECOND), Cooling(es, t.ask);
            if !known && !cooling && reply == Data && k in wires then Shows(v, LastStored(es + mid, k).value, wires[k])
            else if RepliedWithin(es, k, t.read, 3600 * SECOND) then
              && IsLastReply(es, k, v)
              && (RepliedWithin(es, k, t.serve, 3600 * SECOND) <==> snap.Stale(k, t.serve) == Some(v))
            else v == ZERO_PR
  {
    ReadsAreHistory(es, k, t.read);
    ReadsAreHistory(es, k, t.serve);
    CooldownIsHistory(es, t.ask);
    if k in wires {
      FetchedShows(es + mid, k, wires[k]);
    }
    hide Run, LastReply, LastStored, Shows, Enriched, Cooling, IsLastReply;
  }

  /** And the cache it leaves holds, of every key it was answered for definitely, the stored pull request
      showing that answer, stamped with the early reading; of every other key what it held. */
  lemma BatchLeaves(snap: Cache, c: Cache, ks: set<Key>, t: Moments, wires: map<Key, Wire>, k: Key)
    requires ks != {} && !snap.CoolingDown(t.ask)
    ensures var c2 := FinishBatch(snap, c, ks, t, Data, wires);
            && c2.limitedUntil == 0
            && (if k in ks && k in wires && Decided(wires[k])
                then k in c2.prs && Shows(c2.prs[k].value, c.BaseOf(k).value, wires[k]) && c2.prs[k].at == c.BaseOf(k).at
                     && k in c2.enrichAt && c2.enrichAt[k] == t.read
                else (k in c2.prs <==> k in c.prs) && (k in c.prs ==> c2.prs[k] == c.prs[k])
                     && (k in c2.enrichAt <==> k in c.enrichAt) && (k in c.enrichAt ==> c2.enrichAt[k] == c.enrichAt[k]))
  {
    if k in wires {
      EnrichedShows(c.BaseOf(k).value, wires[k]);
    }
    assert Step(c, ClearCooldown).BaseOf(k) == c.BaseOf(k);
    hide Shows, Enriched, MapMergeable;
  }

  /** So it can be over an hour old: stamped at 1, read an hour later, the failing round trip half a minute
      long. The single call serves nothing then. */
  lemma BatchServesOverAnHour(pr: PullRequest, wire: Wire)
    requires wire.mergeable == "MERGEABLE"
    ensures var k := KeyOf(pr);
            var snap := Run([Store(pr, k, 1), Apply(wire, k, 1)]);
            var t := Moments(3600 * SECOND, 3600 * SECOND, 3630 * SECOND);
            && FinishValue(snap, snap, k, t, TransportError(false), map[]) == Enriched(pr, wire) != ZERO_PR
            && t.serve - snap.enrichAt[k] > STALE_ENRICHMENT_TTL
            && FinishOne(snap, snap, k, t, TransportError(false), wire).1 == None
  {
    var k := KeyOf(pr);
    var es := [Store(pr, k, 1), Apply(wire, k, 1)];
    assert es[..1] == [Store(pr, k, 1)] && es[..1][..0] == [];
    assert Run(es[..1]) == Step(Run([]), Store(pr, k, 1));
    assert Run(es) == Step(Run(es[..1]), Apply(wire, k, 1));
    assert Enriched(pr, wire).mergeable == Clean;
    hide Run, Enriched;
  }

  /** The batch arms the cooldown on a rate limit of either level. */
  lemma BatchArmsOnAnyRateLimit(c: Cache, keys: seq<Key>, now: Time, reply: Reply, wires: map<Key, Wire>)
    requires ToFetch(c, keys, now) != {} && !c.CoolingDown(now) && 0 <= now
    ensures BatchCache(c, keys, now, reply, wires).CoolingDown(now)
            <==> reply == GraphErrors(true) || reply == TransportError(true)
  {
  }

  /** The same keys enriched one after the other at the same instant from the same answers. */
  ghost function OneByOne(c: Cache, keys: seq<Key>, now: Time, wires: map<Key, Wire>): Cache
    requires forall k :: k in keys ==> k in wires
  {
    if keys == [] then c
    else
      var k := keys[|keys| - 1];
      EnrichOne(OneByOne(c, keys[..|keys| - 1], now, wires), k, now, Data, wires[k]).0
  }

  /** The state the one-by-one run has reached: the fetched part of keys applied. */
  ghost predicate Reached(c: Cache, s: Cache, keys: seq<Key>, now: Time, wires: map<Key, Wire>) {
    s == BatchCache(c, keys, now, Data, wires)
  }

  lemma ReachedReads(c: Cache, s: Cache, keys: seq<Key>, now: Time, wires: map<Key, Wire>, k: Key)
    requires Reached(c, s, keys, now, wires) && !c.CoolingDown(now) && k in wires
    ensures !s.CoolingDown(now)
    ensures s.Fresh(k, now) <==> c.Fresh(k, now) || k in Definites(ToFetch(c, keys, now), wires)
    ensures EnrichOne(s, k, now, Data, wires[k]).1 == Some(BatchValue(c, k, now, Data, wires))
  {
    EnrichTwice(c.BaseOf(k).value, wires[k]);
    assert !c.CoolingDown(now) ==> !Step(c, ClearCooldown).CoolingDown(now);
  }

  lemma ReachedStep(c: Cache, s: Cache, keys: seq<Key>, now: Time, wires: map<Key, Wire>, k: Key)
    requires Reached(c, s, keys, now, wires) && !c.CoolingDown(now) && k in wires
    ensures Reached(c, EnrichOne(s, k, now, Data, wires[k]).0, keys + [k], now, wires)
  {
    ReachedReads(c, s, keys, now, wires, k);
    var fetched := ToFetch(c, keys, now);
    hide Enriched, ApplyAll, MapMergeable, Step;
    if s.Fresh(k, now) {
      assert ToFetch(c, keys + [k], now) == fetched;
    } else {
      assert ToFetch(c, keys + [k], now) == fetched + {k};
      FetchedStep(c, s, fetched, now, wires, k);
    }
  }

  lemma FetchedStep(c: Cache, s: Cache, ks: set<Key>, now: Time, wires: map<Key, Wire>, k: Key)
    requires s == AskedCache(c, ks, now, Data, wires) && !c.CoolingDown(now) && k in wires
    requires !s.Fresh(k, now) && !s.CoolingDown(now)
    ensures EnrichOne(s, k, now, Data, wires[k]).0 == AskedCache(c, ks + {k}, now, Data, wires)
  {
    var cleared := Step(c, ClearCooldown);
    ApplyNothing(cleared, wires, now, {});
    ApplyOneMore(cleared, ks, wires, now, k);
    assert ApplyAll(cleared, ks, wires, now) == Step(s, ClearCooldown);
  }

  lemma {:induction false} OneByOneCache(c: Cache, keys: seq<Key>, now: Time, wires: map<Key, Wire>)
    requires forall k :: k in keys ==> k in wires
    ensures OneByOne(c, keys, now, wires) == BatchCache(c, keys, now, Data, wires)
  {
    if keys != [] {
      var n := |keys| - 1;
      OneByOneCache(c, keys[..n], now, wires);
      hide EnrichOne, BatchCache;
      assert keys == keys[..n] + [keys[n]];
      if c.CoolingDown(now) {
        CoolingDownKeeps(c, keys, now, wires, keys[n]);
        CoolingDownKeeps(c, keys[..n], now, wires, keys[n]);
      } else {
        ReachedStep(c, OneByOne(c, keys[..n], now, wires), keys[..n], now, wires, keys[n]);
      }
    }
  }

  lemma CoolingDownKeeps(c: Cache, keys: seq<Key>, now: Time, wires: map<Key, Wire>, k: Key)
    requires c.CoolingDown(now) && k in wires
    ensures BatchCache(c, keys, now, Data, wires) == c
    ensures EnrichOne(c, k, now, Data, wires[k]).0 == c
    ensures BatchValue(c, k, now, Data, wires) == ValueOrZero(EnrichOne(c, k, now, Data, wires[k]).1)
  {
  }

  /** Answered batches equal the per-key form: the same cache, and for every key of the list the value
      its own call returns at its turn, whatever duplicates the list holds. A per-key call that would
      fail for want of a cached value reads as the zero pull request. */
  lemma BatchIsOneByOne(c: Cache, keys: seq<Key>, now: Time, wires: map<Key, Wire>, i: nat)
    requires i < |keys| && forall k :: k in keys ==> k in wires
    ensures OneByOne(c, keys, now, wires) == BatchCache(c, keys, now, Data, wires)
    ensures ValueOrZero(EnrichOne(OneByOne(c, keys[..i], now, wires), keys[i], now, Data, wires[keys[i]]).1)
         == BatchValue(c, keys[i], now, Data, wires)
  {
    OneByOneCache(c, keys, now, wires);
    OneByOneCache(c, keys[..i], now, wires);
    var s := OneByOne(c, keys[..i], now, wires);
    hide EnrichOne, BatchCache;
    if c.CoolingDown(now) {
      CoolingDownKeeps(c, keys[..i], now, wires, keys[i]);
    } else {
      ReachedReads(c, s, keys[..i], now, wires, keys[i]);
    }
  }

  // ---- one aliased query for many keys ------------------------------------------------------

  datatype Repo = Repo(owner: string, name: string)

  function RepoOf(k: Key): Repo { Repo(k.owner, k.name) }

  /** One aliased repository block of the batch query and the numbers aliased inside it. */
  datatype Group = Group(repo: Repo, numbers: seq<int>)

  /** Where in the query a key was asked for. */
  datatype Position = Position(key: Key, repoIdx: nat, prIdx: nat)

  predicate Aliased(query: seq<Group>, i: nat, j: nat) { i < |query| && j < |query[i].numbers| }

  function AliasKey(query: seq<Group>, i: nat, j: nat): Key
    requires Aliased(query, i, j)
  {
    Key(query[i].repo.owner, query[i].repo.name, query[i].numbers[j])
  }

  predicate Aimed(query: seq<Group>, p: Position) {
    Aliased(query, p.repoIdx, p.prIdx) && AliasKey(query, p.repoIdx, p.prIdx) == p.key
  }

  /** GitHub's side of the seam: under each alias of the query, the pull request asked for there.
      Pull requests and whole repositories it does not know are missing from the reply. */
  function Answer(query: seq<Group>, wires: map<Key, Wire>): map<nat, map<nat, Wire>> {
    map i: nat | i < |query| && (exists j: nat | j < |query[i].numbers| :: AliasKey(query, i, j) in wires) ::
      map j: nat | j < |query[i].numbers| && AliasKey(query, i, j) in wires :: wires[AliasKey(query, i, j)]
  }

  function Lookup(data: map<nat, map<nat, Wire>>, p: Position): Option<Wire> {
    if p.repoIdx in data && p.prIdx in data[p.repoIdx] then Some(data[p.repoIdx][p.prIdx]) else None
  }

  lemma AnswerFindsKey(query: seq<Group>, wires: map<Key, Wire>, p: Position)
    requires Aimed(query, p)
    ensures Lookup(Answer(query, wires), p) == if p.key in wires then Some(wires[p.key]) else None
  {
  }

  method Unique(keys: seq<Key>) returns (unique: seq<Key>)
    ensures NoDup(unique) && forall k :: k in unique <==> k in keys
  {
    var seen: set<Key> := {};
    unique := [];
    for i := 0 to |keys|
      invariant NoDup(unique) && forall k :: k in unique <==> k in keys[..i]
      invariant forall k :: k in seen <==> k in keys[..i]
    {
      if keys[i] !in seen {
        seen := seen + {keys[i]};
        unique := unique + [keys[i]];
      }
      assert keys[..i + 1] == keys[..i] + [keys[i]];
    }
    assert keys[..|keys|] == keys;
  }

  ghost predicate Grouped(groups: map<Repo, seq<Key>>, keys: seq<Key>) {
    && (forall r, k :: r in groups && k in groups[r] ==> RepoOf(k) == r && k in keys)
    && (forall k :: k in keys ==> RepoOf(k) in groups && k in groups[RepoOf(k)])
  }

  method GroupByRepo(keys: seq<Key>) returns (groups: map<Repo, seq<Key>>)
    ensures Grouped(groups, keys)
  {
    groups := map[];
    for i := 0 to |keys|
      invariant Grouped(groups, keys[..i])
    {
      var k := keys[i];
      var r := RepoOf(k);
      groups := groups[r := (if r in groups then groups[r] else []) + [k]];
      assert keys[..i + 1] == keys[..i] + [k];
    }
    assert keys[..|keys|] == keys;
  }

  /** Walks the groups in any order, as a Go map iteration does. */
  method BuildQuery(groups: map<Repo, seq<Key>>, ghost keys: seq<Key>)
    returns (query: seq<Group>, positions: seq<Position>)
    requires Grouped(groups, keys)
    ensures forall p :: p in positions ==> Aimed(query, p) && p.key in keys
    ensures forall k :: k in keys ==> exists p :: p in positions && p.key == k
  {
    query, positions := [], [];
    var rest := groups.Keys;
    while rest != {}
      invariant rest <= groups.Keys
      invariant forall p :: p in positions ==> Aimed(query, p) && p.key in keys
      invariant forall k :: k in keys && RepoOf(k) !in rest ==> exists p :: p in positions && p.key == k
      decreases rest
    {
      var r :| r in rest;
      var asked := groups[r];
      var numbers, aimed := AliasGroup(asked, |query|);
      query, positions := query + [Group(r, numbers)], positions + aimed;
      rest := rest - {r};
      forall k | k in keys && RepoOf(k) !in rest ensures exists p :: p in positions && p.key == k {
        if RepoOf(k) == r {
          var j :| 0 <= j < |asked| && asked[j] == k;
          assert aimed[j] in positions && aimed[j].key == k;
        }
      }
    }
  }

  method AliasGroup(asked: seq<Key>, repoIdx: nat) returns (numbers: seq<int>, aimed: seq<Position>)
    ensures |numbers| == |aimed| == |asked|
    ensures forall j :: 0 <= j < |asked| ==> numbers[j] == asked[j].number && aimed[j] == Position(asked[j], repoIdx, j)
  {
    numbers, aimed := [], [];
    for j := 0 to |asked|
      invariant |numbers| == |aimed| == j
      invariant forall i :: 0 <= i < j ==> numbers[i] == asked[i].number && aimed[i] == Position(asked[i], repoIdx, i)
    {
      numbers := numbers + [asked[j].number];
      aimed := aimed + [Position(asked[j], repoIdx, j)];
    }
  }

  // ---- the provider -------------------------------------------------------------------------

  datatype ListKey = ListKey(owner: string, name: string, state: string)
  datatype ListEntry = ListEntry(values: seq<PullRequest>, at: Time)

  /** The REST writers: every listed pull request replaces its entry and forgets its enrichment. */
  function StoreAll(c: Cache, pulls: seq<PullRequest>, now: Time): Cache {
    if pulls == [] then c
    else
      var pr := pulls[|pulls| - 1];
      Step(StoreAll(c, pulls[..|pulls| - 1], now), Store(pr, KeyOf(pr), now))
  }

  /** The last listed under a key is what its entry now holds, with no enrichment stamp; the others keep theirs. */
  lemma {:induction false} ListedReplaces(c: Cache, pulls: seq<PullRequest>, now: Time, k: Key)
    ensures var c2 := StoreAll(c, pulls, now);
            && c2.limitedUntil == c.limitedUntil
            && (if exists i :: 0 <= i < |pulls| && Lists(pulls[i], k)
                then k in c2.prs && c2.prs[k].at == now && k !in c2.enrichAt
                     && exists i :: 0 <= i < |pulls| && pulls[i] == c2.prs[k].value && Lists(pulls[i], k)
                                    && forall j :: i < j < |pulls| ==> !Lists(pulls[j], k)
                else (k in c2.prs <==> k in c.prs) && (k in c.prs ==> c2.prs[k] == c.prs[k])
                     && (k in c2.enrichAt <==> k in c.enrichAt) && (k in c.enrichAt ==> c2.enrichAt[k] == c.enrichAt[k]))
  {
    if pulls != [] {
      var n := |pulls| - 1;
      ListedReplaces(c, pulls[..n], now, k);
      assert forall i :: 0 <= i < n ==> pulls[..n][i] == pulls[i];
      if Lists(pulls[n], k) {
        assert pulls[n] == StoreAll(c, pulls, now).prs[k].value;
      }
    }
  }

  predicate Lists(pr: PullRequest, k: Key) { pr.owner == k.owner && pr.name == k.name && pr.number == k.number }

  ghost function KeysOf(positions: seq<Position>): set<Key> { set p | p in positions :: p.key }

  ghost function Elements(keys: seq<Key>): set<Key> { set k | k in keys }

  class Provider {
    var prs: map<Key, Entry>
    var enrichAt: map<Key, Time>
    var rateLimitedUntil: Time
    var lists: map<ListKey, ListEntry>

    ghost function Abs(): Cache
      reads this
    {
      Cache(prs, enrichAt, rateLimitedUntil)
    }

    constructor ()
      ensures Abs() == Run([]) && lists == map[]
    {
      prs, enrichAt, rateLimitedUntil, lists := map[], map[], 0, map[];
    }

    method ApplyEnrichment(k: Key, wire: Wire, now: Time) returns (pr: PullRequest)
      modifies this`prs, this`enrichAt
      ensures Abs() == Step(old(Abs()), Apply(wire, k, now))
      ensures pr == Enriched(old(Abs()).BaseOf(k).value, wire)
      ensures Shows(pr, if k in old(prs) then old(prs)[k].value else ZERO_PR, wire)
      ensures if Decided(wire) then prs == old(prs)[k := Entry(pr, old(Abs()).BaseOf(k).at)] && enrichAt == old(enrichAt)[k := now]
              else prs == old(prs) && enrichAt == old(enrichAt)
    {
      EnrichedShows(Abs().BaseOf(k).value, wire);
      hide Shows, Enriched, MapMergeable;
      var base := if k in prs then prs[k] else Entry(ZERO_PR, 0);
      base := base.(value := Enriched(base.value, wire));
      if Definite(MapMergeable(wire.mergeable)) {
        prs := prs[k := base];
        enrichAt := enrichAt[k := now];
      }
      pr := base.value;
    }

    method EnterRateLimitCooldown(now: Time)
      modifies this`rateLimitedUntil
      ensures Abs() == Step(old(Abs()), EnterCooldown(now))
    {
      rateLimitedUntil := now + RATE_LIMIT_COOLDOWN;
    }

    method ClearRateLimitCooldown()
      modifies this`rateLimitedUntil
      ensures Abs() == Step(old(Abs()), Section.ClearCooldown)
    {
      rateLimitedUntil := 0;
    }

    /** What a call copies under the read lock. */
    method Snapshot() returns (snap: Cache)
      ensures snap == Abs()
    {
      snap := Cache(prs, enrichAt, rateLimitedUntil);
    }

    /** A single call from its snapshot on. */
    method FinishEnrich(snap: Cache, k: Key, t: Moments, reply: Reply, wire: Wire) returns (r: Option<PullRequest>)
      modifies this`prs, this`enrichAt, this`rateLimitedUntil
      ensures (Abs(), r) == FinishOne(snap, old(Abs()), k, t, reply, wire)
    {
      var enriched := k in snap.prs && k in snap.enrichAt;
      if enriched && t.read - snap.enrichAt[k] < ENRICHMENT_TTL {
        return Some(snap.prs[k].value);
      }
      var stale :=
        if enriched && t.serve - snap.enrichAt[k] < STALE_ENRICHMENT_TTL then Some(snap.prs[k].value) else None;
      if snap.limitedUntil != 0 && t.ask < snap.limitedUntil {
        return stale;
      }
      match reply
      case Data =>
        ClearRateLimitCooldown();
        var pr := ApplyEnrichment(k, wire, t.serve);
        r := Some(pr);
      case GraphErrors(limited) =>
        if limited {
          EnterRateLimitCooldown(t.serve);
        }
        r := stale;
      case _ =>
        r := stale;
    }

    /** A single call that nothing interrupts. */
    method EnrichPullRequest(k: Key, now: Time, reply: Reply, wire: Wire) returns (r: Option<PullRequest>)
      modifies this`prs, this`enrichAt, this`rateLimitedUntil
      ensures (Abs(), r) == EnrichOne(old(Abs()), k, now, reply, wire)
      ensures !old(Abs()).Fresh(k, now) && !old(Abs()).CoolingDown(now) && reply == Data ==>
                r.Some? && Shows(r.value, old(Abs()).BaseOf(k).value, wire)
    {
      EnrichedShows(Abs().BaseOf(k).value, wire);
      hide Shows, Enriched;
      var snap := Snapshot();
      r := FinishEnrich(snap, k, At(now), reply, wire);
    }

    /** ListPullRequests once its reply is in. */
    method StorePulls(key: ListKey, pulls: seq<PullRequest>, now: Time)
      modifies this`prs, this`enrichAt, this`lists
      ensures lists == old(lists)[key := ListEntry(pulls, now)]
      ensures Abs() == StoreAll(old(Abs()), pulls, now)
    {
      lists := lists[key := ListEntry(pulls, now)];
      for i := 0 to |pulls|
        invariant lists == old(lists)[key := ListEntry(pulls, now)]
        invariant Abs() == StoreAll(old(Abs()), pulls[..i], now)
      {
        assert pulls[..i + 1][..i] == pulls[..i];
        var k := KeyOf(pulls[i]);
        prs := prs[k := Entry(pulls[i], now)];
        enrichAt := enrichAt - {k};
      }
      assert pulls[..|pulls|] == pulls;
    }

    /** Forgets a pull request and every cached list of its repository, and nothing else. */
    method DropPRCache(k: Key)
      modifies this`prs, this`enrichAt, this`lists
      ensures Abs() == Step(old(Abs()), Drop(k))
      ensures forall lk :: lk in lists <==> lk in old(lists) && Repo(lk.owner, lk.name) != RepoOf(k)
      ensures forall lk :: lk in lists ==> lists[lk] == old(lists)[lk]
    {
      prs := prs - {k};
      enrichAt := enrichAt - {k};
      var rest := lists.Keys;
      while rest != {}
        invariant rest <= old(lists).Keys
        invariant prs == old(prs) - {k} && enrichAt == old(enrichAt) - {k}
        invariant forall lk :: lk in lists <==>
                    lk in old(lists) && (lk in rest || Repo(lk.owner, lk.name) != RepoOf(k))
        invariant forall lk :: lk in lists ==> lists[lk] == old(lists)[lk]
        decreases rest
      {
        var lk :| lk in rest;
        if lk.owner == k.owner && lk.name == k.name {
          lists := lists - {lk};
        }
        rest := rest - {lk};
      }
    }

    /** A batch from its snapshot on. failed is the error returned beside the values. */
    method FinishEnrichBatch(snap: Cache, keys: seq<Key>, t: Moments, reply: Reply, wires: map<Key, Wire>)
      returns (result: map<Key, PullRequest>, failed: bool)
      modifies this`prs, this`enrichAt, this`rateLimitedUntil
      ensures Abs() == FinishBatch(snap, old(Abs()), ToFetch(snap, keys, t.read), t, reply, wires)
      ensures forall k :: k in result <==> k in keys
      ensures forall k :: k in keys ==> result[k] == FinishValue(snap, old(Abs()), k, t, reply, wires)
      ensures failed <==> ToFetch(snap, keys, t.read) != {} && !snap.CoolingDown(t.ask) && reply != Data
    {
      hide ApplyAll, Enriched, Cache.Stale, Cache.BaseOf;
      var unique := Unique(keys);
      var toFetch;
      result, toFetch := ServeFresh(snap, unique, t.read);
      FetchSet(snap, keys, unique, toFetch, t.read);
      if toFetch == [] {
        return result, false;
      }
      assert Elements(toFetch) == ToFetch(snap, keys, t.read);
      failed := !snap.CoolingDown(t.ask) && reply != Data;
      result := Ask(snap, toFetch, t, reply, wires, result);
    }

    /** A batch that nothing interrupts. */
    method BatchEnrichPullRequests(keys: seq<Key>, now: Time, reply: Reply, wires: map<Key, Wire>)
      returns (result: map<Key, PullRequest>, failed: bool)
      modifies this`prs, this`enrichAt, this`rateLimitedUntil
      ensures Abs() == BatchCache(old(Abs()), keys, now, reply, wires)
      ensures forall k :: k in result <==> k in keys
      ensures forall k :: k in keys ==> result[k] == BatchValue(old(Abs()), k, now, reply, wires)
      ensures failed <==> ToFetch(old(Abs()), keys, now) != {} && !old(Abs()).CoolingDown(now) && reply != Data
      ensures reply == Data && !old(Abs()).CoolingDown(now) ==>
                forall k :: k in keys && k in wires && !old(Abs()).Fresh(k, now) ==>
                  k in result && Shows(result[k], old(Abs()).BaseOf(k).value, wires[k])
    {
      ghost var c := Abs();
      forall k | k in keys && k in wires && !c.Fresh(k, now) && !c.CoolingDown(now)
        ensures Shows(BatchValue(c, k, now, Data, wires), c.BaseOf(k).value, wires[k])
      {
        EnrichedShows(c.BaseOf(k).value, wires[k]);
      }
      hide Shows;
      hide FinishBatch, FinishValue, ToFetch, Cache.CoolingDown;
      var snap := Snapshot();
      result, failed := FinishEnrichBatch(snap, keys, At(now), reply, wires);
    }

    /** One round trip for everything that was not fresh, or the stale values instead of it. */
    method Ask(snap: Cache, toFetch: seq<Key>, t: Moments, reply: Reply, wires: map<Key, Wire>,
               result0: map<Key, PullRequest>) returns (result: map<Key, PullRequest>)
      requires toFetch != []
      modifies this`prs, this`enrichAt, this`rateLimitedUntil
      ensures Abs() == FinishBatch(snap, old(Abs()), Elements(toFetch), t, reply, wires)
      ensures forall k :: k in result <==> k in result0 || k in toFetch
      ensures forall k :: k in result && k !in toFetch ==> result[k] == result0[k]
      ensures forall k :: k in toFetch ==>
                (result[k] == if !snap.CoolingDown(t.ask) && reply == Data && k in wires
                              then Enriched(old(Abs()).BaseOf(k).value, wires[k])
                              else ValueOrZero(snap.Stale(k, t.read)))
    {
      assert toFetch[0] in Elements(toFetch);
      hide ApplyAll, Enriched, Cache.Stale, Cache.BaseOf;
      if snap.CoolingDown(t.ask) {
        result := ServeStaleAll(snap, toFetch, t.read, result0);
        return;
      }
      if reply == Data {
        result := FetchAll(snap, toFetch, wires, t.read, result0);
        return;
      }
      if reply == TransportError(true) || reply == GraphErrors(true) {
        EnterRateLimitCooldown(t.serve);
      }
      result := ServeStaleAll(snap, toFetch, t.read, result0);
    }

    /** The successful round trip: group, query, and scatter what came back. */
    method FetchAll(snap: Cache, toFetch: seq<Key>, wires: map<Key, Wire>, now: Time, result0: map<Key, PullRequest>)
      returns (result: map<Key, PullRequest>)
      modifies this`prs, this`enrichAt, this`rateLimitedUntil
      ensures Abs() == ApplyAll(Step(old(Abs()), Section.ClearCooldown), Elements(toFetch), wires, now)
      ensures forall k :: k in result <==> k in result0 || k in toFetch
      ensures forall k :: k in result ==>
                result[k] == Scattered(snap, old(Abs()), Elements(toFetch), wires, now, result0, k)
    {
      hide Scattered, ApplyAll;
      ghost var start := Abs();
      var groups := GroupByRepo(toFetch);
      var query, positions := BuildQuery(groups, toFetch);
      assert KeysOf(positions) == Elements(toFetch);
      ClearRateLimitCooldown();
      result := Scatter(snap, start, positions, query, wires, now, result0);
    }

    /** Answers what is fresh and lists the rest. */
    static method ServeFresh(snap: Cache, unique: seq<Key>, now: Time)
      returns (result: map<Key, PullRequest>, toFetch: seq<Key>)
      ensures forall k :: k in result <==> k in unique && snap.Fresh(k, now)
      ensures forall k :: k in result ==> k in snap.prs && result[k] == snap.prs[k].value
      ensures forall k :: k in toFetch <==> k in unique && !snap.Fresh(k, now)
    {
      result, toFetch := map[], [];
      for i := 0 to |unique|
        invariant forall k :: k in result <==> k in unique[..i] && snap.Fresh(k, now)
        invariant forall k :: k in result ==> k in snap.prs && result[k] == snap.prs[k].value
        invariant forall k :: k in toFetch <==> k in unique[..i] && !snap.Fresh(k, now)
      {
        var k := unique[i];
        assert unique[..i + 1] == unique[..i] + [k];
        if snap.Fresh(k, now) {
          result := result[k := snap.prs[k].value];
        } else {
          toFetch := toFetch + [k];
        }
      }
      assert unique[..|unique|] == unique;
    }

    static method ServeStaleAll(snap: Cache, toFetch: seq<Key>, now: Time, result0: map<Key, PullRequest>)
      returns (result: map<Key, PullRequest>)
      ensures forall k :: k in result <==> k in result0 || k in toFetch
      ensures forall k :: k in result ==>
                (result[k] == if k in toFetch then ValueOrZero(snap.Stale(k, now)) else result0[k])
    {
      result := result0;
      for i := 0 to |toFetch|
        invariant forall k :: k in result <==> k in result0 || k in toFetch[..i]
        invariant forall k :: k in result ==>
                    (result[k] == if k in toFetch[..i] then ValueOrZero(snap.Stale(k, now)) else result0[k])
      {
        assert toFetch[..i + 1] == toFetch[..i] + [toFetch[i]];
        result := result[toFetch[i] := ValueOrZero(snap.Stale(toFetch[i], now))];
      }
      assert toFetch[..|toFetch|] == toFetch;
    }

    /** Brings every aliased answer back to the key it was asked for. */
    method Scatter(snap: Cache, ghost start: Cache, positions: seq<Position>, query: seq<Group>, wires: map<Key, Wire>,
                   now: Time, result0: map<Key, PullRequest>) returns (result: map<Key, PullRequest>)
      requires forall p :: p in positions ==> Aimed(query, p)
      requires Abs() == Step(start, Section.ClearCooldown)
      modifies this`prs, this`enrichAt
      ensures Abs() == ApplyAll(Step(start, Section.ClearCooldown), KeysOf(positions), wires, now)
      ensures ScatteredTo(result, snap, start, KeysOf(positions), wires, now, result0)
    {
      var data := Answer(query, wires);
      ghost var c := Step(start, Section.ClearCooldown);
      result := result0;
      ApplyNothing(c, wires, now, {});
      assert KeysOf(positions[..0]) == {};
      assert ScatteredTo(result, snap, start, {}, wires, now, result0);
      hide Step, ApplyAll, Enriched, Cache.BaseOf, Answer, Aimed, Cache.Stale, ScatteredTo, KeysOf;
      for i := 0 to |positions|
        invariant Abs() == ApplyAll(c, KeysOf(positions[..i]), wires, now)
        invariant ScatteredTo(result, snap, start, KeysOf(positions[..i]), wires, now, result0)
      {
        ghost var done := KeysOf(positions[..i]);
        KeysSnoc(positions, i);
        var pr := ScatterOne(snap, start, positions[i], query, data, wires, now, done);
        ScatterMore(result, snap, start, done, wires, now, result0, positions[i].key, pr);
        result := result[positions[i].key := pr];
      }
      assert positions[..|positions|] == positions;
    }

    method ScatterOne(snap: Cache, ghost start: Cache, p: Position, ghost query: seq<Group>,
                      data: map<nat, map<nat, Wire>>, ghost wires: map<Key, Wire>, now: Time, ghost done: set<Key>)
      returns (pr: PullRequest)
      requires Aimed(query, p) && data == Answer(query, wires)
      requires Abs() == ApplyAll(Step(start, Section.ClearCooldown), done, wires, now)
      modifies this`prs, this`enrichAt
      ensures Abs() == ApplyAll(Step(start, Section.ClearCooldown), done + {p.key}, wires, now)
      ensures pr == if p.key in wires then Enriched(start.BaseOf(p.key).value, wires[p.key])
                    else ValueOrZero(snap.Stale(p.key, now))
    {
      ghost var c := Step(start, Section.ClearCooldown);
      assert c.BaseOf(p.key) == start.BaseOf(p.key);
      AnswerFindsKey(query, wires, p);
      hide Step, ApplyAll, Enriched, Answer, Cache.Stale;
      match Lookup(data, p)
      case None =>
        UnansweredKey(c, done, wires, now, p.key);
        pr := ValueOrZero(snap.Stale(p.key, now));
      case Some(wire) =>
        ApplyOneMore(c, done, wires, now, p.key);
        pr := ApplyEnrichment(p.key, wire, now);
    }
  }

  lemma KeysSnoc(positions: seq<Position>, i: nat)
    requires i < |positions|
    ensures KeysOf(positions[..i + 1]) == KeysOf(positions[..i]) + {positions[i].key}
  {
    assert positions[..i + 1] == positions[..i] + [positions[i]];
  }

  function Scattered(snap: Cache, start: Cache, done: set<Key>, wires: map<Key, Wire>, now: Time,
                     result0: map<Key, PullRequest>, k: Key): PullRequest
  {
    if k in done then
      if k in wires then Enriched(start.BaseOf(k).value, wires[k]) else ValueOrZero(snap.Stale(k, now))
    else if k in result0 then result0[k]
    else ZERO_PR
  }

  /** The result once the keys of done have been scattered. */
  ghost predicate ScatteredTo(result: map<Key, PullRequest>, snap: Cache, start: Cache, done: set<Key>,
                              wires: map<Key, Wire>, now: Time, result0: map<Key, PullRequest>)
  {
    && (forall k :: k in result <==> k in result0 || k in done)
    && (forall k :: k in result ==> result[k] == Scattered(snap, start, done, wires, now, result0, k))
  }

  lemma ScatterMore(result: map<Key, PullRequest>, snap: Cache, start: Cache, done: set<Key>,
                    wires: map<Key, Wire>, now: Time, result0: map<Key, PullRequest>, k: Key, pr: PullRequest)
    requires ScatteredTo(result, snap, start, done, wires, now, result0)
    requires pr == if k in wires then Enriched(start.BaseOf(k).value, wires[k]) else ValueOrZero(snap.Stale(k, now))
    ensures ScatteredTo(result[k := pr], snap, start, done + {k}, wires, now, result0)
  {
    hide Enriched, Cache.BaseOf, Cache.Stale;
  }

  lemma UnansweredKey(c: Cache, ks: set<Key>, wires: map<Key, Wire>, now: Time, k: Key)
    requires k !in wires
    ensures ApplyAll(c, ks + {k}, wires, now) == ApplyAll(c, ks, wires, now)
  {
    assert Definites(ks + {k}, wires) == Definites(ks, wires);
  }

  lemma FetchSet(c: Cache, keys: seq<Key>, unique: seq<Key>, toFetch: seq<Key>, now: Time)
    requires forall k :: k in unique <==> k in keys
    requires forall k :: k in toFetch <==> k in unique && !c.Fresh(k, now)
    ensures forall k :: k in toFetch <==> k in ToFetch(c, keys, now)
    ensures toFetch == [] <==> ToFetch(c, keys, now) == {}
  {
    if toFetch != [] {
      assert toFetch[0] in ToFetch(c, keys, now);
    }
  }
}

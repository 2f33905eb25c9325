// The launch modal's directory picker (cmd/orchard-sidebar: dirpick.go, hidden.go, dirwalk.go).
//
// Walks run off the update loop and land late, out of order, or after the roots have moved. The
// picker tags each with a generation and caches one candidate set per hidden mode.

module Picker {
  import opened Options
  import opened Sequences
  import Splitting
  import Text

  datatype Mode = Auto | On | Off {
    /** The order of the hidden-directory key: auto, on, off, auto. */
    function Next(): Mode {
      match this case Auto => On case On => Off case Off => Auto
    }
  }

  predicate DotName(seg: string) { "." <= seg && seg != "." && seg != ".." }

  function Segments(query: string): seq<string> {
    var q := Text.TrimSpace(query);
    Splitting.Split(if "~" <= q then q[1..] else q, '/')
  }

  predicate QueryWantsHidden(query: string) {
    exists seg | seg in Segments(query) :: DotName(seg)
  }

  /** What is searched for segments: the query without its blanks and a leading "~". */
  function Body(query: string): string {
    var q := Text.TrimSpace(query);
    if q != "" && q[0] == '~' then q[1..] else q
  }

  /** Some stretch between slashes starts with a dot and is neither "." nor "..". */
  ghost predicate NamesDotDir(body: string) {
    exists seg, lo, hi :: Splitting.PieceAt(body, '/', seg, lo, hi) && seg != "" && seg[0] == '.' && seg != "." && seg != ".."
  }

  lemma WantsHiddenExactly(query: string)
    ensures QueryWantsHidden(query) <==> NamesDotDir(Body(query))
  {
    assert Segments(query) == Splitting.Split(Body(query), '/');
    hide Body, Segments, Splitting.Split, Splitting.PieceAt;
    forall seg
      ensures seg in Segments(query) <==> exists lo, hi :: Splitting.PieceAt(Body(query), '/', seg, lo, hi)
    {
      Splitting.SplitIsExact(Body(query), '/', seg);
    }
    forall seg: string
      ensures DotName(seg) <==> seg != "" && seg[0] == '.' && seg != "." && seg != ".."
    {
    }
  }

  method ScanQuery(query: string) returns (wants: bool)
    ensures wants == QueryWantsHidden(query)
    ensures wants <==> NamesDotDir(Body(query))
  {
    WantsHiddenExactly(query);
    hide Segments, NamesDotDir, Body;
    var segs := Segments(query);
    for i := 0 to |segs|
      invariant forall k :: 0 <= k < i ==> !DotName(segs[k])
    {
      if DotName(segs[i]) {
        assert segs[i] in segs;
        return true;
      }
    }
    return false;
  }

  predicate EffectiveHidden(mode: Mode, query: string) {
    match mode case On => true case Off => false case Auto => QueryWantsHidden(query)
  }

  /** One filesystem walk: the generation and the configuration it was started with. */
  datatype Walk = Walk(gen: nat, roots: seq<string>, hidden: bool)

  /** What the picker asks of the outside: fuzzy ranking and the parent directory of a path. */
  datatype Env = Env(rank: (seq<string>, string) -> seq<string>, parent: string -> string)

  datatype WalkConfig = WalkConfig(roots: seq<string>, showHidden: bool)

  /** A cached candidate set and the walk that brought it. It is empty until that walk has landed,
      as a nil slice is. */
  datatype Cands = Cands(paths: seq<string>, source: Option<Walk>)

  const NO_CANDS := Cands([], None)

  /** The picker and the walks still running. */
  datatype State = State(
    roots: seq<string>, recents: seq<string>, query: string, mode: Mode,
    walking: bool, walkGen: nat, cfg: WalkConfig, plain: Cands, hidden: Cands,
    matches: seq<string>, cursor: int, inflight: set<Walk>)
  {
    function Want(): bool { EffectiveHidden(mode, query) }

    function Active(): seq<string> { if Want() then hidden.paths else plain.paths }

    function View(env: Env): seq<string> { ViewOf(env, roots, recents, query, Active()) }

    function Rebuilt(env: Env): State {
      this.(matches := View(env), cursor := ClampCursor(cursor, |View(env)|))
    }

    /** A new walk is waited for, and (Launched) started with the configuration as it is. */
    function Armed(): State { this.(walking := true, walkGen := walkGen + 1) }

    function Launched(): State {
      this.(inflight := inflight + {Walk(walkGen, cfg.roots, cfg.showHidden)})
    }
  }

  /** The visible list: the ranked pool of recents and candidates, or without a query recents and roots. */
  function ViewOf(env: Env, roots: seq<string>, recents: seq<string>, query: string, active: seq<string>): seq<string> {
    if query != "" then env.rank(Dedup(recents + if active == [] then roots else active), query)
    else Dedup(recents + roots)
  }

  function ClampCursor(cursor: int, n: nat): int {
    var c := if cursor >= n then n - 1 else cursor;
    if c < 0 then 0 else c
  }

  function Dedup(paths: seq<string>): (d: seq<string>)
    ensures forall p :: p in d <==> p in paths
    ensures forall i, j :: 0 <= i < j < |d| ==> d[i] != d[j]
  {
    if paths == [] then []
    else
      var init, last := paths[..|paths| - 1], paths[|paths| - 1];
      assert paths == init + [last];
      if last in init then Dedup(init) else Dedup(init) + [last]
  }

  lemma NothingSighted(s: seq<string>)
    requires s == []
    ensures FirstSightings(s, Dedup(s))
  {
  }

  /** Deduplication goes on as sighting does. */
  lemma DedupMore(s: seq<string>, w: seq<string>, x: string)
    requires FirstSightings(s, Dedup(w))
    ensures FirstSightings(s + [x], Dedup(w + [x]))
  {
    assert (w + [x])[..|w|] == w;
    assert x in s <==> x in Dedup(w);
    hide FirstSightings;
    SightOneMore(s, Dedup(w), x);
  }

  lemma {:induction false} DedupSights(paths: seq<string>)
    ensures FirstSightings(paths, Dedup(paths))
  {
    hide FirstSightings, Dedup;
    if paths == [] {
      NothingSighted(paths);
    } else {
      var n := |paths| - 1;
      DedupSights(paths[..n]);
      DedupMore(paths[..n], paths[..n], paths[n]);
      assert paths == paths[..n] + [paths[n]];
    }
  }

  /** The list is the recents and then the others, each once, ranked by the query if there is one. */
  ghost predicate Searches(env: Env, recents: seq<string>, others: seq<string>, query: string, matches: seq<string>) {
    exists pool: seq<string> ::
      && NoDup(pool) && FirstSightings(recents + others, pool)
      && (forall p :: p in pool <==> p in recents || p in others)
      && (forall i, j :: 0 <= i < j < |pool| && pool[j] in recents ==> pool[i] in recents)
      && matches == if query != "" then env.rank(pool, query) else pool
  }

  lemma RecentsFirst(recents: seq<string>, others: seq<string>, pool: seq<string>)
    requires FirstSightings(recents + others, pool)
    ensures forall i, j :: 0 <= i < j < |pool| && pool[j] in recents ==> pool[i] in recents
  {
    var all := recents + others;
    forall i, j | 0 <= i < j < |pool| && pool[j] in recents
      ensures pool[i] in recents
    {
      assert SeenBefore(all, pool[i], pool[j]);
      var m :| 0 <= m < |all| && all[m] == pool[i] && pool[j] !in all[..m];
      assert forall k :: 0 <= k < |recents| && k < m ==> all[..m][k] == recents[k];
      assert m < |recents|;
    }
  }

  lemma ViewSearches(env: Env, roots: seq<string>, recents: seq<string>, query: string, active: seq<string>)
    ensures Searches(env, recents, if query == "" || active == [] then roots else active, query,
                     ViewOf(env, roots, recents, query, active))
  {
    var others := if query == "" || active == [] then roots else active;
    var pool := Dedup(recents + others);
    DedupSights(recents + others);
    RecentsFirst(recents, others, pool);
    assert NoDup(pool);
  }

  method DedupPaths(paths: seq<string>) returns (out: seq<string>)
    ensures out == Dedup(paths)
  {
    var seen: set<string> := {};
    out := [];
    for i := 0 to |paths|
      invariant forall p :: p in seen <==> p in paths[..i]
      invariant out == Dedup(paths[..i])
    {
      assert paths[..i + 1][..i] == paths[..i];
      if paths[i] !in seen {
        out := out + [paths[i]];
        seen := seen + {paths[i]};
      }
    }
    assert paths[..|paths|] == paths;
  }

  /** The roots with each one's parent behind it. */
  function WithParents(env: Env, roots: seq<string>): seq<string> {
    if roots == [] then []
    else
      var r := roots[|roots| - 1];
      WithParents(env, roots[..|roots| - 1]) + (if env.parent(r) != r then [r, env.parent(r)] else [r])
  }

  /** Each root followed by its parent. */
  function Interleaved(env: Env, roots: seq<string>): seq<string> {
    seq(2 * |roots|, i requires 0 <= i < 2 * |roots| => if i % 2 == 0 then roots[i / 2] else env.parent(roots[i / 2]))
  }

  lemma {:induction false} WidenedSights(env: Env, roots: seq<string>)
    ensures FirstSightings(Interleaved(env, roots), Dedup(WithParents(env, roots)))
  {
    hide FirstSightings, Dedup;
    if roots == [] {
      NothingSighted([]);
      assert Interleaved(env, roots) == [];
    } else {
      var n := |roots| - 1;
      var r, p, before, w := roots[n], env.parent(roots[n]), Interleaved(env, roots[..n]), WithParents(env, roots[..n]);
      assert WithParents(env, roots) == if p != r then w + [r] + [p] else w + [r] by {
        assert w + [r, p] == w + [r] + [p];
      }
      WidenedSights(env, roots[..n]);
      hide WithParents, Interleaved;
      InterleavedSnoc(env, roots[..n], r);
      assert roots == roots[..n] + [r];
      WidenedStep(before, w, r, p);
    }
  }

  lemma WidenedStep(before: seq<string>, w: seq<string>, r: string, p: string)
    requires FirstSightings(before, Dedup(w))
    ensures FirstSightings(before + [r] + [p], Dedup(if p != r then w + [r] + [p] else w + [r]))
  {
    hide FirstSightings, Dedup;
    DedupMore(before, w, r);
    if p == r {
      assert r in before + [r];
      SeenTwice(before + [r], Dedup(w + [r]), r);
    } else {
      DedupMore(before + [r], w + [r], p);
    }
  }

  lemma InterleavedSnoc(env: Env, roots: seq<string>, r: string)
    ensures Interleaved(env, roots + [r]) == Interleaved(env, roots) + [r] + [env.parent(r)]
  {
    var all, now := Interleaved(env, roots), Interleaved(env, roots + [r]);
    var n := |all|;
    assert |now| == n + 2 && now[n] == r && now[n + 1] == env.parent(r);
    assert now[..n] == all;
    assert now == now[..n] + [now[n]] + [now[n + 1]];
  }

  lemma SeenTwice(s: seq<string>, d: seq<string>, x: string)
    requires FirstSightings(s, d) && x in s
    ensures FirstSightings(s + [x], d)
  {
    SightOneMore(s, d, x);
  }

  /** How many places there are at or just above the roots. */
  lemma SightingsAgree(s: seq<string>, a: seq<string>, b: seq<string>)
    requires FirstSightings(s, a) && FirstSightings(s, b)
    ensures |a| == |b|
  {
    NoDupSize(a);
    NoDupSize(b);
    assert (set x | x in a) == (set x | x in b);
  }

  lemma {:induction false} NoDupSize(a: seq<string>)
    requires NoDup(a)
    ensures |set x | x in a| == |a|
  {
    if a != [] {
      var n := |a| - 1;
      NoDupSize(a[..n]);
      assert a == a[..n] + [a[n]];
      assert (set x | x in a) == (set x | x in a[..n]) + {a[n]};
    }
  }

  // ---- the transitions ----------------------------------------------------------------------

  function Opened(env: Env, roots: seq<string>, recents: seq<string>): State {
    State(roots, recents, "", Auto, true, 0, WalkConfig(roots, false), NO_CANDS, NO_CANDS, Dedup(recents + roots), 0,
          {Walk(0, roots, false)})
  }

  function Synced(env: Env, s: State): State {
    var r := s.Rebuilt(env);
    if r.Active() != [] then r
    else if r.walking && r.cfg.showHidden == r.Want() then r
    else r.(cfg := r.cfg.(showHidden := r.Want())).Armed().Launched()
  }

  function Typed(env: Env, s: State, query: string): State {
    if query == s.query then s else Synced(env, s.(query := query, cursor := 0))
  }

  function Toggled(env: Env, s: State): State { Synced(env, s.(mode := s.mode.Next())) }

  function Widened(env: Env, s: State): State {
    var next := Dedup(WithParents(env, s.roots));
    if |next| == |s.roots| then s
    else
      s.(roots := next, cfg := WalkConfig(next, s.Want()), plain := NO_CANDS, hidden := NO_CANDS)
       .Armed().Rebuilt(env).Launched()
  }

  function Landed(env: Env, s: State, w: Walk, cands: seq<string>): State {
    var t := s.(inflight := s.inflight - {w});
    if w.gen != s.walkGen then t
    else if w.hidden then t.(hidden := Cands(cands, Some(w)), walking := false).Rebuilt(env)
    else t.(plain := Cands(cands, Some(w)), walking := false).Rebuilt(env)
  }

  function Moved(s: State, d: int): State { s.(cursor := ClampCursor(s.cursor + d, |s.matches|)) }

  // ---- the picker itself --------------------------------------------------------------------

  class DirPicker {
    const env: Env
    var roots: seq<string>
    var recents: seq<string>
    var query: string
    var mode: Mode
    var walking: bool
    var walkGen: nat
    var cfg: WalkConfig
    var plainCands: Cands
    var hiddenCands: Cands
    var matches: seq<string>
    var cursor: int
    ghost var inflight: set<Walk>

    ghost function Abs(): State
      reads this
    {
      State(roots, recents, query, mode, walking, walkGen, cfg, plainCands, hiddenCands,
            matches, cursor, inflight)
    }

    constructor (env: Env, roots: seq<string>, recents: seq<string>)
      ensures this.env == env && Abs() == Opened(env, roots, recents)
      ensures query == "" && mode == Auto && cursor == 0 && !cfg.showHidden && inflight == {Walk(0, roots, false)}
      ensures Searches(env, recents, roots, "", matches)
    {
      ViewSearches(env, roots, recents, "", []);
      hide Searches;
      hide Dedup, EffectiveHidden;
      this.env := env;
      this.roots, this.recents, this.cfg := roots, recents, WalkConfig(roots, false);
      query, mode, walking, walkGen := "", Auto, true, 0;
      plainCands, hiddenCands, matches, cursor := NO_CANDS, NO_CANDS, [], 0;
      inflight := {Walk(0, roots, false)};
      new;
      Rebuild();
    }

    method Rebuild()
      modifies this`matches, this`cursor
      ensures matches == ViewOf(env, roots, recents, query,
                                if EffectiveHidden(mode, query) then hiddenCands.paths else plainCands.paths)
      ensures cursor == ClampCursor(old(cursor), |matches|)
      ensures Abs() == old(Abs()).Rebuilt(env)
      ensures var want := mode == On || (mode == Auto && NamesDotDir(Body(query)));
              var active := if want then hiddenCands.paths else plainCands.paths;
              Searches(env, recents, if query == "" || active == [] then roots else active, query, matches)
      ensures 0 <= old(cursor) < |matches| ==> cursor == old(cursor)
    {
      ViewSearches(env, roots, recents, query, if EffectiveHidden(mode, query) then hiddenCands.paths else plainCands.paths);
      WantsHiddenExactly(query);
      hide Searches, Dedup, QueryWantsHidden, NamesDotDir, Body;
      var hits;
      if query != "" {
        var base := if EffectiveHidden(mode, query) then hiddenCands.paths else plainCands.paths;
        if base == [] {
          base := roots;
        }
        var pool := DedupPaths(recents + base);
        hits := env.rank(pool, query);
      } else {
        hits := DedupPaths(recents + roots);
      }
      matches := hits;
      cursor := ClampCursor(cursor, |matches|);
    }

    /** walkCmd: the walk captures generation and configuration as they are now. */
    method WalkCmd() returns (cmd: Walk)
      modifies this`inflight
      ensures cmd == Walk(walkGen, cfg.roots, cfg.showHidden)
      ensures inflight == old(inflight) + {cmd} && Abs() == old(Abs()).Launched()
    {
      cmd := Walk(walkGen, cfg.roots, cfg.showHidden);
      inflight := inflight + {cmd};
    }

    method SetCands(w: Walk, cands: seq<string>)
      modifies this
      ensures Abs() == Landed(env, old(Abs()), w, cands)
    {
      hide ViewOf, Dedup, WithParents, EffectiveHidden, ClampCursor;
      inflight := inflight - {w};
      if w.gen != walkGen {
        return;
      }
      if w.hidden {
        hiddenCands := Cands(cands, Some(w));
      } else {
        plainCands := Cands(cands, Some(w));
      }
      walking := false;
      Rebuild();
    }

    /** A walk with the wanted hidden flag, superseding the one under way. */
    method Launch(want: bool) returns (cmd: Walk)
      modifies this`cfg, this`walking, this`walkGen, this`inflight
      ensures Abs() == old(Abs()).(cfg := old(Abs()).cfg.(showHidden := want)).Armed().Launched()
      ensures inflight == old(inflight) + {cmd} && cmd == Walk(walkGen, cfg.roots, want)
    {
      cfg := cfg.(showHidden := want);
      Arm();
      cmd := WalkCmd();
    }

    method SyncHidden() returns (cmd: Option<Walk>)
      modifies this
      ensures Abs() == Synced(env, old(Abs()))
      ensures inflight == old(inflight) + (if cmd.Some? then {cmd.value} else {})
      ensures var want := mode == On || (mode == Auto && NamesDotDir(Body(query)));
              && (cmd.Some? <==> (if want then hiddenCands else plainCands).paths == [] && !(old(walking) && old(cfg).showHidden == want))
              && (cmd.Some? ==> cmd.value == Walk(walkGen, cfg.roots, want) && walkGen == old(walkGen) + 1)
    {
      WantsHiddenExactly(query);
      hide ViewOf, ClampCursor, QueryWantsHidden, NamesDotDir, Body;
      var want := EffectiveHidden(mode, query);
      Rebuild();
      if (if want then hiddenCands else plainCands).paths != [] {
        return None;
      }
      if walking && cfg.showHidden == want {
        return None;
      }
      var w := Launch(want);
      cmd := Some(w);
    }

    method ToggleHidden() returns (cmd: Option<Walk>)
      modifies this
      ensures Abs() == Toggled(env, old(Abs()))
      ensures old(mode) == Auto ==> mode == On
      ensures old(mode) == On ==> mode == Off
      ensures old(mode) == Off ==> mode == Auto
    {
      hide ViewOf, Dedup, EffectiveHidden, QueryWantsHidden, NamesDotDir, Body;
      mode := mode.Next();
      cmd := SyncHidden();
    }

    method SearchKey(value: string) returns (cmd: Option<Walk>)
      modifies this
      ensures Abs() == Typed(env, old(Abs()), value)
      ensures query == value && (if value != old(query) then cursor == 0 else Abs() == old(Abs()))
    {
      hide ViewOf, Dedup, EffectiveHidden, QueryWantsHidden, NamesDotDir, Body;
      if value == query {
        return None;
      }
      query, cursor := value, 0;
      cmd := SyncHidden();
    }

    /** The roots and each one's parent behind it, none twice. */
    method Parents() returns (next: seq<string>)
      ensures next == Dedup(WithParents(env, roots))
    {
      next := [];
      for i := 0 to |roots|
        invariant next == WithParents(env, roots[..i])
      {
        assert roots[..i + 1][..i] == roots[..i];
        next := next + [roots[i]];
        if env.parent(roots[i]) != roots[i] {
          next := next + [env.parent(roots[i])];
        }
      }
      assert roots[..|roots|] == roots;
      next := DedupPaths(next);
    }

    method Widen() returns (cmd: Option<Walk>)
      modifies this
      ensures Abs() == Widened(env, old(Abs()))
      ensures cmd.None? ==> Abs() == old(Abs())
      ensures cmd.None? <==> exists d :: FirstSightings(Interleaved(env, old(roots)), d) && |d| == |old(roots)|
      ensures cmd.Some? ==> FirstSightings(Interleaved(env, old(roots)), roots) && plainCands.paths == hiddenCands.paths == []
    {
      WidenedSights(env, roots);
      forall d | FirstSightings(Interleaved(env, roots), d)
        ensures |d| == |Dedup(WithParents(env, roots))|
      {
        SightingsAgree(Interleaved(env, roots), d, Dedup(WithParents(env, roots)));
      }
      hide FirstSightings, Interleaved;
      hide ViewOf, Dedup, WithParents, EffectiveHidden, ClampCursor;
      var next := Parents();
      if |next| == |roots| {
        return None;
      }
      MoveRoots(next);
      Arm();
      Rebuild();
      var w := WalkCmd();
      cmd := Some(w);
    }

    /** Both caches are stale once the roots have moved. */
    method MoveRoots(next: seq<string>)
      modifies this`roots, this`cfg, this`plainCands, this`hiddenCands
      ensures Abs() == old(Abs()).(roots := next, cfg := WalkConfig(next, old(Abs()).Want()), plain := NO_CANDS, hidden := NO_CANDS)
    {
      roots, cfg := next, WalkConfig(next, EffectiveHidden(mode, query));
      plainCands, hiddenCands := NO_CANDS, NO_CANDS;
    }

    method Arm()
      modifies this`walking, this`walkGen
      ensures Abs() == old(Abs()).Armed()
    {
      walking, walkGen := true, walkGen + 1;
    }

    method Move(d: int)
      modifies this
      ensures Abs() == Moved(old(Abs()), d)
      ensures 0 <= old(cursor) + d < |matches| ==> cursor == old(cursor) + d
      ensures old(cursor) + d < 0 || matches == [] ==> cursor == 0
      ensures 0 < |matches| <= old(cursor) + d ==> cursor == |matches| - 1
    {
      cursor := ClampCursor(cursor + d, |matches|);
    }

    /** The launch directory: the highlighted match, else the first root. */
    method Dir() returns (dir: string)
      ensures 0 <= cursor < |matches| ==> dir == matches[cursor]
      ensures !(0 <= cursor < |matches|) ==> dir == if roots != [] then roots[0] else ""
    {
      if 0 <= cursor < |matches| {
        return matches[cursor];
      }
      return if |roots| > 0 then roots[0] else "";
    }
  }

  // ---- every interleaving -------------------------------------------------------------------

  datatype Event = Type(query: string) | Toggle | Widen | Land(w: Walk, cands: seq<string>) | Move(d: int)

  function Step(env: Env, s: State, e: Event): State {
    match e
    case Type(q) => Typed(env, s, q)
    case Toggle => Toggled(env, s)
    case Widen => Widened(env, s)
    case Land(w, cands) => Landed(env, s, w, cands)
    case Move(d) => Moved(s, d)
  }

  /** Only a running walk lands, once; a walk emits each of its roots, so it is empty only without roots. */
  predicate Legal(s: State, e: Event) {
    e.Land? ==> e.w in s.inflight && (e.cands == [] <==> e.w.roots == [])
  }

  function Run(env: Env, s: State, es: seq<Event>): State {
    if es == [] then s else Step(env, Run(env, s, es[..|es| - 1]), es[|es| - 1])
  }

  predicate LegalRun(env: Env, s: State, es: seq<Event>) {
    es == [] || (LegalRun(env, s, es[..|es| - 1]) && Legal(Run(env, s, es[..|es| - 1]), es[|es| - 1]))
  }

  /** The set the current query needs is cached, or the walk that is being waited for will bring it. */
  ghost predicate Served(s: State) {
    s.Active() != [] || (s.walking && Walk(s.walkGen, s.roots, s.Want()) in s.inflight)
  }

  ghost predicate CameFrom(c: Cands, roots: seq<string>, hidden: bool) {
    c.source.Some? && c.source.value.roots == roots && c.source.value.hidden == hidden
  }

  /** A cache holds nothing but what a walk of the current roots with its own hidden flag brought. */
  ghost predicate Provenance(s: State) {
    && (s.plain == NO_CANDS || CameFrom(s.plain, s.roots, false))
    && (s.hidden == NO_CANDS || CameFrom(s.hidden, s.roots, true))
  }

  /** At most one running walk can still be taken in: the one whose generation is walkGen. */
  ghost predicate OneLiveWalk(s: State) {
    && s.cfg.roots == s.roots
    && (s.walking ==> Walk(s.walkGen, s.roots, s.cfg.showHidden) in s.inflight)
    && forall w :: w in s.inflight ==>
         w.gen <= s.walkGen
         && (w.gen == s.walkGen ==> s.walking && w == Walk(s.walkGen, s.roots, s.cfg.showHidden))
  }

  /** What is on screen is always derived from the current roots, query and caches. */
  ghost predicate Shown(env: Env, s: State) {
    s.matches == s.View(env) && 0 <= s.cursor && (s.cursor < |s.matches| || s.cursor == 0)
  }

  ghost predicate Inv(env: Env, s: State) {
    && Provenance(s)
    && OneLiveWalk(s)
    && Shown(env, s)
    && (s.roots != [] ==> Served(s))
  }

  lemma SyncKeeps(env: Env, s: State)
    requires Provenance(s) && OneLiveWalk(s)
    ensures Inv(env, Synced(env, s))
  {
  }

  lemma StepKeeps(env: Env, s: State, e: Event)
    requires Inv(env, s) && Legal(s, e)
    ensures Inv(env, Step(env, s, e))
    ensures s.roots != [] ==> Step(env, s, e).roots != []
  {
    match e
    case Type(q) => SyncKeeps(env, s.(query := q, cursor := 0));
    case Toggle => SyncKeeps(env, s.(mode := s.mode.Next()));
    case Widen => WidenKeeps(env, s);
    case Land(w, cands) => LandKeeps(env, s, w, cands);
    case Move(_) =>
  }

  lemma WidenKeeps(env: Env, s: State)
    requires Inv(env, s)
    ensures Inv(env, Widened(env, s))
    ensures s.roots != [] ==> Widened(env, s).roots != []
  {
    RootsStay(env, s.roots);
    hide ViewOf, Dedup, WithParents, EffectiveHidden;
  }

  lemma LandKeeps(env: Env, s: State, w: Walk, cands: seq<string>)
    requires Inv(env, s) && Legal(s, Land(w, cands))
    ensures Inv(env, Landed(env, s, w, cands))
    ensures Landed(env, s, w, cands).roots == s.roots
  {
    var t := Landed(env, s, w, cands);
    assert OneLiveWalk(t);
    assert Provenance(t);
    assert Shown(env, t);
  }

  lemma RootsStay(env: Env, roots: seq<string>)
    ensures roots != [] ==> Dedup(WithParents(env, roots)) != []
  {
    if roots != [] {
      assert roots[|roots| - 1] in WithParents(env, roots);
    }
  }

  lemma {:induction false} RunKeeps(env: Env, s: State, es: seq<Event>)
    requires Inv(env, s) && LegalRun(env, s, es)
    ensures Inv(env, Run(env, s, es))
    ensures s.roots != [] ==> Run(env, s, es).roots != []
  {
    if es != [] {
      var n := |es| - 1;
      RunKeeps(env, s, es[..n]);
      hide Step, Inv;
      StepKeeps(env, Run(env, s, es[..n]), es[n]);
    }
  }

  /** The picker protocol, over every interleaving of typing, toggling, widening and landings. */
  lemma PickerProtocol(env: Env, roots: seq<string>, recents: seq<string>, es: seq<Event>)
    requires LegalRun(env, Opened(env, roots, recents), es)
    ensures Inv(env, Run(env, Opened(env, roots, recents), es))
    ensures roots != [] ==> Served(Run(env, Opened(env, roots, recents), es))
  {
    OpenedInv(env, roots, recents);
    hide *;
    RunKeeps(env, Opened(env, roots, recents), es);
    InvServes(env, Run(env, Opened(env, roots, recents), es));
  }

  /** A cache holds exactly what the walk it came from landed with, and without one nothing. */
  ghost predicate LandedIn(c: Cands, es: seq<Event>) {
    if c.source.Some? then Land(c.source.value, c.paths) in es else c.paths == []
  }

  predicate FromStep(c: Cands, c2: Cands, e: Event) {
    c2 == c || c2 == NO_CANDS || (e.Land? && c2 == Cands(e.cands, Some(e.w)))
  }

  lemma CachesStep(env: Env, s: State, e: Event)
    ensures var s2 := Step(env, s, e);
            s2.recents == s.recents && FromStep(s.plain, s2.plain, e) && FromStep(s.hidden, s2.hidden, e)
  {
    hide ViewOf, Dedup, WithParents, EffectiveHidden, ClampCursor;
  }

  lemma LandedMore(c: Cands, c2: Cands, es: seq<Event>, e: Event)
    requires LandedIn(c, es) && FromStep(c, c2, e)
    ensures LandedIn(c2, es + [e])
  {
    assert (es + [e])[|es|] == e;
  }

  lemma {:induction false} CachesAreLanded(env: Env, roots: seq<string>, recents: seq<string>, es: seq<Event>)
    ensures var s := Run(env, Opened(env, roots, recents), es);
            s.recents == recents && LandedIn(s.plain, es) && LandedIn(s.hidden, es)
  {
    hide *;
    var s := Run(env, Opened(env, roots, recents), es);
    if es == [] {
      NothingLanded(env, roots, recents, es);
    } else {
      var n := |es| - 1;
      var before, e := Run(env, Opened(env, roots, recents), es[..n]), es[n];
      CachesAreLanded(env, roots, recents, es[..n]);
      RunLast(env, Opened(env, roots, recents), es);
      CachesStep(env, before, e);
      LandedMore(before.plain, s.plain, es[..n], e);
      LandedMore(before.hidden, s.hidden, es[..n], e);
      assert es == es[..n] + [e];
    }
  }

  lemma NothingLanded(env: Env, roots: seq<string>, recents: seq<string>, es: seq<Event>)
    requires es == []
    ensures var s := Run(env, Opened(env, roots, recents), es);
            s.recents == recents && LandedIn(s.plain, es) && LandedIn(s.hidden, es)
  {
    hide Dedup;
  }

  lemma RunLast(env: Env, s: State, es: seq<Event>)
    requires es != []
    ensures Run(env, s, es) == Step(env, Run(env, s, es[..|es| - 1]), es[|es| - 1])
  {
    hide Step;
  }

  /** So after every run the list is the recents and, for a typed query, the very set that the latest walk of
      the current roots under the wanted hidden flag landed with; while that walk is under way, and without a
      query, it is the recents and the roots. */
  lemma ShowsWhatWasWalked(env: Env, roots: seq<string>, recents: seq<string>, es: seq<Event>)
    requires LegalRun(env, Opened(env, roots, recents), es)
    ensures var s := Run(env, Opened(env, roots, recents), es);
            var want := s.mode == On || (s.mode == Auto && NamesDotDir(Body(s.query)));
            var c := if want then s.hidden else s.plain;
            && Searches(env, recents, if s.query == "" || c.paths == [] then s.roots else c.paths, s.query, s.matches)
            && (if c.source.Some?
                then Land(c.source.value, c.paths) in es && c.source.value.roots == s.roots && c.source.value.hidden == want
                else c.paths == [])
            && (roots != [] ==> c.paths != [] || (s.walking && Walk(s.walkGen, s.roots, want) in s.inflight))
  {
    hide *;
    PickerProtocol(env, roots, recents, es);
    CachesAreLanded(env, roots, recents, es);
    var s := Run(env, Opened(env, roots, recents), es);
    InvMeans(env, s, es);
    RunKeepsRoots(env, roots, recents, es);
  }

  lemma RunKeepsRoots(env: Env, roots: seq<string>, recents: seq<string>, es: seq<Event>)
    requires LegalRun(env, Opened(env, roots, recents), es)
    ensures roots != [] ==> Run(env, Opened(env, roots, recents), es).roots != []
  {
    hide *;
    OpenedInv(env, roots, recents);
    RunKeeps(env, Opened(env, roots, recents), es);
  }

  lemma InvMeans(env: Env, s: State, es: seq<Event>)
    requires Inv(env, s) && LandedIn(s.plain, es) && LandedIn(s.hidden, es)
    ensures var want := s.mode == On || (s.mode == Auto && NamesDotDir(Body(s.query)));
            var c := if want then s.hidden else s.plain;
            && Searches(env, s.recents, if s.query == "" || c.paths == [] then s.roots else c.paths, s.query, s.matches)
            && (if c.source.Some?
                then Land(c.source.value, c.paths) in es && c.source.value.roots == s.roots && c.source.value.hidden == want
                else c.paths == [])
            && (s.roots != [] ==> c.paths != [] || (s.walking && Walk(s.walkGen, s.roots, want) in s.inflight))
  {
    ViewSearches(env, s.roots, s.recents, s.query, s.Active());
    WantsHiddenExactly(s.query);
    hide Searches, ViewOf, NamesDotDir, Body, QueryWantsHidden, OneLiveWalk;
  }

  lemma OpenedInv(env: Env, roots: seq<string>, recents: seq<string>)
    ensures Inv(env, Opened(env, roots, recents))
    ensures Opened(env, roots, recents).roots == roots
  {
    hide EffectiveHidden, Dedup;
    EmptyQueryIsPlain("");
  }

  lemma EmptyQueryIsPlain(query: string)
    requires |query| == 0
    ensures !EffectiveHidden(Auto, query)
  {
    assert Segments(query) == [[]];
  }

  lemma InvServes(env: Env, s: State)
    requires Inv(env, s)
    ensures s.roots != [] ==> Served(s)
  {
  }

  ghost predicate AlwaysServed(env: Env, s: State) {
    forall es :: LegalRun(env, s, es) ==> Served(Run(env, s, es))
  }

  /** Starting roots are exactly what the protocol needs: without any, the first landing leaves the
      picker with neither a cached set nor a walk to wait for, until the next key. */
  lemma ServedIffRoots(env: Env, roots: seq<string>, recents: seq<string>)
    ensures roots != [] <==> AlwaysServed(env, Opened(env, roots, recents))
  {
    hide EffectiveHidden, ViewOf;
    var s := Opened(env, roots, recents);
    if roots != [] {
      forall es | LegalRun(env, s, es) ensures Served(Run(env, s, es)) {
        PickerProtocol(env, roots, recents, es);
      }
    } else {
      var es := Starved(env, recents);
    }
  }

  /** Starved or not, the next key that syncs has the query served again. */
  lemma NextKeyServes(env: Env, s: State)
    requires Provenance(s) && OneLiveWalk(s)
    ensures Served(Synced(env, s))
  {
    SyncKeeps(env, s);
  }

  lemma Starved(env: Env, recents: seq<string>) returns (es: seq<Event>)
    ensures LegalRun(env, Opened(env, [], recents), es) && !Served(Run(env, Opened(env, [], recents), es))
  {
    hide EffectiveHidden, ViewOf, ClampCursor;
    var s, land := Opened(env, [], recents), Land(Walk(0, [], false), []);
    es := [land];
    assert es[..|es| - 1] == [] && Run(env, s, []) == s;
    assert LegalRun(env, s, []) && Legal(s, land);
    var t := Step(env, s, land);
    assert t.plain.paths == [] && t.hidden.paths == [] && !t.walking;
    assert t.Active() == [];
  }
}

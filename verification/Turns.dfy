// Reading a session's state off its transcript (daemon/claude-instance/provider.go).

module Turns {
  import opened Options

  datatype Kind = Assistant | User | System | OtherKind

  datatype StopReason = EndTurn | MaxTokens | ToolUse | OtherStop

  datatype Subtype = TurnDuration | StopHookSummary | OtherSubtype | NoSubtype

  datatype Content = Use(id: string, name: string) | Result(toolUseId: string) | OtherContent

  datatype Message = Message(stop: StopReason, content: seq<Content>)

  datatype Record = Record(kind: Kind, message: Option<Message>, system: Option<Subtype>)

  datatype InstanceState = Idle | Working | Input

  datatype Snapshot = Snapshot(state: InstanceState, inflight: nat)

  const ORPHAN_LOOKBACK := 100
  const ASK := "AskUserQuestion"

  predicate TurnBoundary(r: Record) {
    || (r.kind.Assistant? && r.message.Some? && r.message.value.stop in {EndTurn, MaxTokens})
    || (r.kind.System? && r.system.Some? && r.system.value in {TurnDuration, StopHookSummary})
  }

  // ---- where the turn starts ----------------------------------------------------------------

  /** The record after the last boundary of the whole history, 0 when there is none. */
  function TurnStart(records: seq<Record>): (start: nat)
    ensures start <= |records| && (start > 0 ==> TurnBoundary(records[start - 1]))
    ensures forall i :: start <= i < |records| ==> !TurnBoundary(records[i])
  {
    if records == [] then 0
    else if TurnBoundary(records[|records| - 1]) then |records|
    else TurnStart(records[..|records| - 1])
  }

  function WindowStart(n: nat, lookback: nat): nat { if n > lookback then n - lookback else 0 }

  /** The walk back gives up at the lookback: the later of the true start and where it gave up. */
  method CurrentTurnStart(records: seq<Record>, lookback: nat) returns (boundary: nat)
    ensures boundary == if TurnStart(records) > WindowStart(|records|, lookback) then TurnStart(records)
                        else WindowStart(|records|, lookback)
  {
    var start := if |records| > lookback then |records| - lookback else 0;
    var i := |records|;
    while i > start
      invariant start <= i <= |records| && forall j :: i <= j < |records| ==> !TurnBoundary(records[j])
    {
      i := i - 1;
      if TurnBoundary(records[i]) {
        return i + 1;
      }
    }
    boundary := start;
  }

  ghost predicate BoundaryInLast(records: seq<Record>, n: nat) {
    exists i :: 0 <= i < |records| && |records| - n <= i && TurnBoundary(records[i])
  }

  /** The lookback finds the true start exactly when the history fits in it or a boundary lies in the last
      lookback + 1 records: one more than it looks at, since giving up there lands on the right record. */
  lemma LookbackFindsStart(records: seq<Record>, lookback: nat)
    ensures (if TurnStart(records) > WindowStart(|records|, lookback) then TurnStart(records) else WindowStart(|records|, lookback))
            == TurnStart(records)
            <==> |records| <= lookback || BoundaryInLast(records, lookback + 1)
  {
    var start := TurnStart(records);
    if start > 0 && start >= WindowStart(|records|, lookback) {
      assert TurnBoundary(records[start - 1]);
    }
  }

  // ---- open tools ---------------------------------------------------------------------------

  datatype ToolEvent = Used(id: string, name: string) | Answered(id: string)

  function EventsOf(kind: Kind, c: Content): seq<ToolEvent> {
    if kind.Assistant? && c.Use? && c.id != "" then [Used(c.id, c.name)]
    else if kind.User? && c.Result? && c.toolUseId != "" then [Answered(c.toolUseId)]
    else []
  }

  function ContentEvents(kind: Kind, content: seq<Content>): seq<ToolEvent> {
    if content == [] then []
    else ContentEvents(kind, content[..|content| - 1]) + EventsOf(kind, content[|content| - 1])
  }

  /** What a stretch of records says about tools, in order. */
  function Events(records: seq<Record>): seq<ToolEvent> {
    if records == [] then []
    else
      var r := records[|records| - 1];
      Events(records[..|records| - 1]) + (if r.message.Some? then ContentEvents(r.kind, r.message.value.content) else [])
  }

  function LastEvent(events: seq<ToolEvent>, id: string): Option<ToolEvent> {
    if events == [] then None
    else if events[|events| - 1].id == id then Some(events[|events| - 1])
    else LastEvent(events[..|events| - 1], id)
  }

  /** The tools whose last event is a use, with the name it gave. */
  ghost predicate OpenAfter(events: seq<ToolEvent>, open: map<string, string>) {
    forall id ::
      && (id in open <==> LastEvent(events, id).Some? && LastEvent(events, id).value.Used?)
      && (id in open ==> LastEvent(events, id) == Some(Used(id, open[id])))
  }

  lemma OpenStep(events: seq<ToolEvent>, open: map<string, string>, e: ToolEvent)
    requires OpenAfter(events, open)
    ensures OpenAfter(events + [e], if e.Used? then open[e.id := e.name] else open - {e.id})
  {
    var now := events + [e];
    assert now[..|events|] == events;
    forall id
      ensures LastEvent(now, id) == if id == e.id then Some(e) else LastEvent(events, id)
    {
    }
  }

  lemma OpenIsUnique(events: seq<ToolEvent>, a: map<string, string>, b: map<string, string>)
    requires OpenAfter(events, a) && OpenAfter(events, b)
    ensures a == b
  {
    assert forall id :: id in a <==> id in b;
    assert forall id :: id in a ==> a[id] == b[id];
  }

  method FoldContent(kind: Kind, content: seq<Content>, open: map<string, string>, ghost before: seq<ToolEvent>)
    returns (out: map<string, string>)
    requires OpenAfter(before, open)
    ensures OpenAfter(before + ContentEvents(kind, content), out)
  {
    hide OpenAfter;
    out := open;
    assert before + ContentEvents(kind, content[..0]) == before;
    for i := 0 to |content|
      invariant OpenAfter(before + ContentEvents(kind, content[..i]), out)
    {
      ghost var now := before + ContentEvents(kind, content[..i]);
      assert content[..i + 1][..i] == content[..i];
      var c := content[i];
      if kind.Assistant? && c.Use? && c.id != "" {
        OpenStep(now, out, Used(c.id, c.name));
        assert before + ContentEvents(kind, content[..i + 1]) == now + [Used(c.id, c.name)];
        out := out[c.id := c.name];
      } else if kind.User? && c.Result? && c.toolUseId != "" {
        OpenStep(now, out, Answered(c.toolUseId));
        assert before + ContentEvents(kind, content[..i + 1]) == now + [Answered(c.toolUseId)];
        out := out - {c.toolUseId};
      } else {
        assert before + ContentEvents(kind, content[..i + 1]) == now;
      }
    }
    assert content[..|content|] == content;
  }

  method FoldTurn(turn: seq<Record>) returns (open: map<string, string>)
    ensures OpenAfter(Events(turn), open)
  {
    open := map[];
    assert OpenAfter(Events(turn[..0]), open);
    hide OpenAfter;
    for i := 0 to |turn|
      invariant OpenAfter(Events(turn[..i]), open)
    {
      assert turn[..i + 1][..i] == turn[..i];
      if turn[i].message.Some? {
        open := FoldContent(turn[i].kind, turn[i].message.value.content, open, Events(turn[..i]));
      } else {
        assert Events(turn[..i + 1]) == Events(turn[..i]);
      }
    }
    assert turn[..|turn|] == turn;
  }

  // ---- the state ----------------------------------------------------------------------------

  predicate Significant(r: Record) {
    r.kind.Assistant? || r.kind.User? || (r.kind.System? && r.system.Some? && r.system.value != NoSubtype)
  }

  function LastSignificant(records: seq<Record>): Option<Record> {
    if records == [] then None
    else if Significant(records[|records| - 1]) then Some(records[|records| - 1])
    else LastSignificant(records[..|records| - 1])
  }

  method LastSignificantRecord(records: seq<Record>) returns (tail: Option<Record>)
    ensures tail == LastSignificant(records)
  {
    var i := |records|;
    assert records[..i] == records;
    while i > 0
      invariant 0 <= i <= |records| && LastSignificant(records[..i]) == LastSignificant(records)
    {
      i := i - 1;
      assert records[..i + 1][..i] == records[..i];
      if Significant(records[i]) {
        return Some(records[i]);
      }
    }
    tail := None;
  }

  function StateFromTail(tail: Option<Record>, inflight: nat): InstanceState {
    if tail.None? then Idle
    else
      var r := tail.value;
      var byCount := if inflight > 0 then Working else Idle;
      match r.kind
      case Assistant =>
        if r.message.Some? && r.message.value.stop in {EndTurn, MaxTokens} then Idle
        else if r.message.Some? && r.message.value.stop == ToolUse then Working
        else byCount
      case User => Working
      case System => if r.system.Some? && r.system.value in {StopHookSummary, TurnDuration} then Idle else byCount
      case OtherKind => byCount
  }

  ghost predicate Asking(open: map<string, string>) { exists id :: id in open && open[id] == ASK }

  /** The verdict on a history whose current turn starts at start. */
  ghost predicate IsVerdict(records: seq<Record>, start: nat, snap: Snapshot)
    requires start <= |records|
  {
    exists open :: OpenAfter(Events(records[start..]), open) && VerdictFrom(records, open, snap)
  }

  ghost predicate VerdictFrom(records: seq<Record>, open: map<string, string>, snap: Snapshot) {
    && snap.inflight == |open|
    && snap.state == if Asking(open) then Input else StateFromTail(LastSignificant(records), |open|)
  }

  method AnyAsking(open: map<string, string>) returns (asking: bool)
    ensures asking <==> Asking(open)
  {
    var todo := open.Keys;
    while todo != {}
      invariant todo <= open.Keys && forall id :: id in open && id !in todo ==> open[id] != ASK
      decreases todo
    {
      var id :| id in todo;
      if open[id] == ASK {
        return true;
      }
      todo := todo - {id};
    }
    asking := false;
  }

  /** Where the walk back starts the turn. */
  function SeenStart(records: seq<Record>): (start: nat)
    ensures TurnStart(records) <= start <= |records|
  {
    var w := WindowStart(|records|, ORPHAN_LOOKBACK);
    if TurnStart(records) > w then TurnStart(records) else w
  }

  /** A tool last used before seen and not heard of since: the turn from start has it open, the one from
      seen does not know it. */
  ghost predicate Overlooked(records: seq<Record>, start: nat, seen: nat, id: string)
    requires start <= seen <= |records|
  {
    && LastEvent(Events(records[start..seen]), id).Some? && LastEvent(Events(records[start..seen]), id).value.Used?
    && LastEvent(Events(records[seen..]), id).None?
  }

  /** The verdict on the turn as far as the lookback sees it. It is the verdict on the whole history exactly
      when no tool of the true turn was last used beyond the lookback and not heard of since. */
  method ClassifyState(records: seq<Record>) returns (snap: Snapshot)
    ensures IsVerdict(records, SeenStart(records), snap)
    ensures IsVerdict(records, TurnStart(records), snap)
            <==> forall id :: !Overlooked(records, TurnStart(records), SeenStart(records), id)
    ensures |records| <= 100 || BoundaryInLast(records, 101) <==> SeenStart(records) == TurnStart(records)
  {
    snap := Classify(records);
    LookbackFindsStart(records, ORPHAN_LOOKBACK);
    hide IsVerdict, Overlooked;
    LookbackIsEnough(records, TurnStart(records), SeenStart(records), snap);
  }

  method Classify(records: seq<Record>) returns (snap: Snapshot)
    ensures IsVerdict(records, SeenStart(records), snap)
  {
    hide Asking;
    if |records| == 0 {
      assert OpenAfter(Events(records[0..]), map[]) by {
        assert records[0..] == [];
      }
      assert !Asking(map[]) by {
        NothingAsked();
      }
      assert VerdictFrom(records, map[], Snapshot(Idle, 0));
      return Snapshot(Idle, 0);
    }
    var turnStart := CurrentTurnStart(records, ORPHAN_LOOKBACK);
    var open := FoldTurn(records[turnStart..]);
    var asking := AnyAsking(open);
    if asking {
      snap := Snapshot(Input, |open|);
    } else {
      var tail := LastSignificantRecord(records);
      snap := Snapshot(StateFromTail(tail, |open|), |open|);
    }
    assert VerdictFrom(records, open, snap);
  }

  lemma NothingAsked()
    ensures !Asking(map[])
  {
  }

  lemma {:induction false} EventsConcat(a: seq<Record>, b: seq<Record>)
    ensures Events(a + b) == Events(a) + Events(b)
    decreases |b|
  {
    if b == [] {
      assert a + b == a;
    } else {
      assert (a + b)[..|a + b| - 1] == a + b[..|b| - 1];
      EventsConcat(a, b[..|b| - 1]);
    }
  }

  lemma {:induction false} LastEventConcat(a: seq<ToolEvent>, b: seq<ToolEvent>, id: string)
    ensures LastEvent(a + b, id) == if LastEvent(b, id).Some? then LastEvent(b, id) else LastEvent(a, id)
    decreases |b|
  {
    if b == [] {
      assert a + b == a;
    } else {
      assert (a + b)[..|a + b| - 1] == a + b[..|b| - 1];
      LastEventConcat(a, b[..|b| - 1], id);
    }
  }

  /** What the turn from start says last of a tool. */
  lemma LastEventFrom(records: seq<Record>, start: nat, seen: nat, id: string)
    requires start <= seen <= |records|
    ensures LastEvent(Events(records[start..]), id)
            == if LastEvent(Events(records[seen..]), id).Some? then LastEvent(Events(records[seen..]), id)
               else LastEvent(Events(records[start..seen]), id)
  {
    assert records[start..] == records[start..seen] + records[seen..];
    EventsConcat(records[start..seen], records[seen..]);
    LastEventConcat(Events(records[start..seen]), Events(records[seen..]), id);
  }

  /** Classifying from a later start gives the same verdict exactly when that start overlooks no open tool:
      one overlooked is one too few in the count. */
  lemma LookbackIsEnough(records: seq<Record>, start: nat, seen: nat, snap: Snapshot)
    requires start <= seen <= |records| && IsVerdict(records, seen, snap)
    ensures IsVerdict(records, start, snap) <==> forall id :: !Overlooked(records, start, seen, id)
  {
    var open :| OpenAfter(Events(records[seen..]), open) && VerdictFrom(records, open, snap);
    var all := FoldedOpen(records[start..]);
    forall id
      ensures id in open ==> id in all && all[id] == open[id]
      ensures id in all && id !in open <==> Overlooked(records, start, seen, id)
    {
      LastEventFrom(records, start, seen, id);
    }
    if forall id :: !Overlooked(records, start, seen, id) {
      assert all.Keys == open.Keys && all == open;
    } else {
      var id :| Overlooked(records, start, seen, id);
      assert id in all.Keys - open.Keys && open.Keys <= all.Keys;
      SmallerSet(open.Keys, all.Keys, id);
      assert |open| == |open.Keys| && |all| == |all.Keys|;
      if IsVerdict(records, start, snap) {
        var other :| OpenAfter(Events(records[start..]), other) && VerdictFrom(records, other, snap);
        OpenIsUnique(Events(records[start..]), all, other);
        assert false;
      }
    }
  }

  lemma SmallerSet<T>(a: set<T>, b: set<T>, x: T)
    requires a <= b && x in b && x !in a
    ensures |a| < |b|
  {
    assert b == a + (b - a);
    assert x in b - a;
  }

  /** There is a map of open tools for every turn. */
  lemma FoldedOpen(turn: seq<Record>) returns (open: map<string, string>)
    ensures OpenAfter(Events(turn), open)
  {
    open := FoldedEvents(Events(turn));
  }

  lemma {:induction false} FoldedEvents(events: seq<ToolEvent>) returns (open: map<string, string>)
    ensures OpenAfter(events, open)
  {
    if events == [] {
      open := map[];
    } else {
      var n := |events| - 1;
      var before := FoldedEvents(events[..n]);
      OpenStep(events[..n], before, events[n]);
      assert events == events[..n] + [events[n]];
      open := if events[n].Used? then before[events[n].id := events[n].name] else before - {events[n].id};
    }
  }

  /** There is one verdict, so the two below are about the state ClassifyState gives. */
  lemma VerdictIsUnique(records: seq<Record>, start: nat, a: Snapshot, b: Snapshot)
    requires start <= |records| && IsVerdict(records, start, a) && IsVerdict(records, start, b)
    ensures a == b
  {
    hide OpenAfter, Asking;
    var open1 :| OpenAfter(Events(records[start..]), open1) && VerdictFrom(records, open1, a);
    var open2 :| OpenAfter(Events(records[start..]), open2) && VerdictFrom(records, open2, b);
    OpenIsUnique(Events(records[start..]), open1, open2);
  }

  // ---- what the verdict means ---------------------------------------------------------------

  /** An assistant's tool use, under an id. */
  predicate Uses(kind: Kind, c: Content, id: string, name: string) { kind == Assistant && c == Use(id, name) && id != "" }

  /** A user's tool result says something of a tool, as a use does. */
  predicate Mentions(kind: Kind, c: Content, id: string) {
    (kind == User && c == Result(id) && id != "") || (kind == Assistant && c.Use? && c.id == id && id != "")
  }

  ghost predicate RecordMentions(r: Record, id: string) {
    r.message.Some? && exists j :: 0 <= j < |r.message.value.content| && Mentions(r.kind, r.message.value.content[j], id)
  }

  /** The last thing the record says of the tool is that it is used. */
  ghost predicate RecordUses(r: Record, id: string, name: string) {
    r.message.Some? && ContentUses(r.kind, r.message.value.content, id, name)
  }

  ghost predicate ContentUses(kind: Kind, content: seq<Content>, id: string, name: string) {
    exists j :: 0 <= j < |content| && Uses(kind, content[j], id, name)
                && forall k :: j < k < |content| ==> !Mentions(kind, content[k], id)
  }

  /** The tool is open: the last record of the turn that mentions it uses it, under this name. */
  ghost predicate IsOpen(turn: seq<Record>, id: string, name: string) {
    exists i :: 0 <= i < |turn| && RecordUses(turn[i], id, name) && forall k :: i < k < |turn| ==> !RecordMentions(turn[k], id)
  }

  lemma {:induction false} ContentLast(kind: Kind, content: seq<Content>, id: string, name: string)
    ensures var e := LastEvent(ContentEvents(kind, content), id);
            && (e.None? <==> forall j :: 0 <= j < |content| ==> !Mentions(kind, content[j], id))
            && (e == Some(Used(id, name)) <==> ContentUses(kind, content, id, name))
  {
    if content != [] {
      var n := |content| - 1;
      var before, c := content[..n], content[n];
      ContentLast(kind, before, id, name);
      assert ContentEvents(kind, content) == ContentEvents(kind, before) + EventsOf(kind, c);
      LastEventConcat(ContentEvents(kind, before), EventsOf(kind, c), id);
      OneLast(kind, c, id, name);
      hide LastEvent, EventsOf, Uses, Mentions, ContentUses, ContentEvents;
      assert content == before + [c];
      ContentUsesSnoc(kind, before, c, id, name);
    }
  }

  lemma OneLast(kind: Kind, c: Content, id: string, name: string)
    ensures LastEvent(EventsOf(kind, c), id).None? <==> !Mentions(kind, c, id)
    ensures LastEvent(EventsOf(kind, c), id) == Some(Used(id, name)) <==> Uses(kind, c, id, name)
  {
    if EventsOf(kind, c) != [] {
      assert EventsOf(kind, c)[..0] == [];
    }
  }

  lemma ContentUsesSnoc(kind: Kind, before: seq<Content>, c: Content, id: string, name: string)
    ensures ContentUses(kind, before + [c], id, name)
            <==> Uses(kind, c, id, name) || (!Mentions(kind, c, id) && ContentUses(kind, before, id, name))
  {
    var content := before + [c];
    assert content[|before|] == c && forall j :: 0 <= j < |before| ==> content[j] == before[j];
    if ContentUses(kind, before, id, name) && !Mentions(kind, c, id) {
      var j :| 0 <= j < |before| && Uses(kind, before[j], id, name) && forall k :: j < k < |before| ==> !Mentions(kind, before[k], id);
      assert Uses(kind, content[j], id, name);
    }
  }

  lemma IsOpenSnoc(before: seq<Record>, r: Record, id: string, name: string)
    ensures IsOpen(before + [r], id, name) <==> RecordUses(r, id, name) || (!RecordMentions(r, id) && IsOpen(before, id, name))
  {
    hide RecordUses, RecordMentions;
    var turn := before + [r];
    assert turn[|before|] == r && forall j :: 0 <= j < |before| ==> turn[j] == before[j];
    UsesMentions(r, id, name);
    if IsOpen(before, id, name) && !RecordMentions(r, id) {
      var i :| 0 <= i < |before| && RecordUses(before[i], id, name) && forall k :: i < k < |before| ==> !RecordMentions(before[k], id);
      assert RecordUses(turn[i], id, name);
    }
  }

  lemma UsesMentions(r: Record, id: string, name: string)
    ensures RecordUses(r, id, name) ==> RecordMentions(r, id)
  {
  }

  /** The last event of a tool in a turn is a use exactly when it is open. */
  lemma {:induction false} OpenIsLastUse(turn: seq<Record>, id: string, name: string)
    ensures LastEvent(Events(turn), id) == Some(Used(id, name)) <==> IsOpen(turn, id, name)
  {
    if turn != [] {
      var n := |turn| - 1;
      var r := turn[n];
      OpenIsLastUse(turn[..n], id, name);
      assert turn == turn[..n] + [r];
      IsOpenSnoc(turn[..n], r, id, name);
      if r.message.Some? {
        var content := r.message.value.content;
        ContentLast(r.kind, content, id, name);
        LastEventConcat(Events(turn[..n]), ContentEvents(r.kind, content), id);
      } else {
        assert Events(turn) == Events(turn[..n]);
      }
    }
  }

  lemma OpenHas(turn: seq<Record>, open: map<string, string>, id: string, name: string)
    requires OpenAfter(Events(turn), open)
    ensures IsOpen(turn, id, name) <==> id in open && open[id] == name
  {
    OpenIsLastUse(turn, id, name);
    hide IsOpen, Events, LastEvent;
  }

  /** The count is the number of tools open in the turn, and the state is Input exactly when one of them is
      the question to the user. */
  lemma VerdictMeaning(records: seq<Record>, start: nat, snap: Snapshot, ids: set<string>)
    requires start <= |records| && IsVerdict(records, start, snap)
    requires forall id :: id in ids <==> exists name :: IsOpen(records[start..], id, name)
    ensures snap.inflight == |ids|
    ensures snap.state == Input <==> exists id :: IsOpen(records[start..], id, "AskUserQuestion")
  {
    hide *;
    var open := VerdictTools(records, start, snap);
    OpenKeys(records[start..], open, ids);
  }

  lemma VerdictTools(records: seq<Record>, start: nat, snap: Snapshot) returns (open: map<string, string>)
    requires start <= |records| && IsVerdict(records, start, snap)
    ensures OpenAfter(Events(records[start..]), open)
    ensures snap.inflight == |open| && (snap.state == Input <==> Asking(open))
  {
    hide OpenAfter, Events, Asking, LastSignificant;
    open :| OpenAfter(Events(records[start..]), open) && VerdictFrom(records, open, snap);
  }

  lemma OpenKeys(turn: seq<Record>, open: map<string, string>, ids: set<string>)
    requires OpenAfter(Events(turn), open)
    requires forall id :: id in ids <==> exists name :: IsOpen(turn, id, name)
    ensures |open| == |ids|
    ensures Asking(open) <==> exists id :: IsOpen(turn, id, "AskUserQuestion")
  {
    hide IsOpen, Events, LastEvent, OpenAfter;
    forall id, name
      ensures IsOpen(turn, id, name) <==> id in open && open[id] == name
    {
      OpenHas(turn, open, id, name);
    }
    forall id
      ensures id in open <==> id in ids
    {
      if id in open {
        assert IsOpen(turn, id, open[id]);
      }
    }
    assert open.Keys == ids;
    assert |open| == |open.Keys|;
    if id :| id in open && open[id] == ASK {
      assert IsOpen(turn, id, ASK);
    }
  }

  /** With no open question, and record i the last that an assistant or the user wrote or that is a system
      note of some kind (-1 for none), the session works exactly when that record is the user's, or an
      assistant's that stopped to use a tool, or tools are open and it does not end the turn. */
  lemma WorkingExactlyWhen(records: seq<Record>, start: nat, snap: Snapshot, i: int)
    requires start <= |records| && IsVerdict(records, start, snap) && snap.state != Input
    requires -1 <= i < |records|
    requires forall j :: (if i < 0 then 0 else i) <= j < |records| ==>
               (j == i <==> records[j].kind in {Assistant, User}
                            || (records[j].kind == System && records[j].system.Some? && records[j].system != Some(NoSubtype)))
    ensures snap.state == Working
            <==> i >= 0
                 && (var r := records[i];
                     var stop := if r.message.Some? then r.message.value.stop else OtherStop;
                     || r.kind == User
                     || (r.kind == Assistant && (stop == ToolUse || (snap.inflight > 0 && stop != EndTurn && stop != MaxTokens)))
                     || (r.kind == System && snap.inflight > 0 && r.system != Some(TurnDuration) && r.system != Some(StopHookSummary)))
  {
    LastSignificantIs(records, i);
  }

  lemma {:induction false} LastSignificantIs(records: seq<Record>, i: int)
    requires -1 <= i < |records|
    requires forall j :: (if i < 0 then 0 else i) <= j < |records| ==> (j == i <==> Significant(records[j]))
    ensures LastSignificant(records) == if i < 0 then None else Some(records[i])
  {
    if records != [] && i < |records| - 1 {
      LastSignificantIs(records[..|records| - 1], i);
    }
  }

  /** Any record that ends a turn leaves the session idle with nothing in flight, whatever came before. */
  lemma BoundaryGoesIdle(records: seq<Record>, r: Record, snap: Snapshot)
    requires || (r.kind == Assistant && r.message.Some? && r.message.value.stop in {EndTurn, MaxTokens})
             || (r.kind == System && r.system in {Some(TurnDuration), Some(StopHookSummary)})
    ensures TurnStart(records + [r]) == |records| + 1
    ensures IsVerdict(records + [r], |records| + 1, snap) <==> snap == Snapshot(Idle, 0)
  {
    var all := records + [r];
    assert all[|all|..] == [] && all[|records|] == r;
    assert OpenAfter(Events(all[|all|..]), map[]);
    NothingAsked();
    assert VerdictFrom(all, map[], Snapshot(Idle, 0));
    if IsVerdict(all, |all|, snap) {
      VerdictIsUnique(all, |all|, snap, Snapshot(Idle, 0));
    }
  }

  /** So beyond the lookback a question can be forgotten: asked 101 records ago and not answered since, it
      is overlooked, and the verdict is Working where the whole history says Input. */
  lemma LookbackForgets(noise: Record, snap: Snapshot)
    requires noise == Record(OtherKind, None, None)
    ensures var records := [Record(Assistant, Some(Message(ToolUse, [Use("q", ASK)])), None)] + seq(ORPHAN_LOOKBACK, _ => noise);
            && TurnStart(records) == 0 && SeenStart(records) == 1 && Overlooked(records, 0, 1, "q")
            && (IsVerdict(records, 0, snap) ==> snap.state == Input)
            && (IsVerdict(records, 1, snap) ==> snap == Snapshot(Working, 0))
  {
    var ask := Record(Assistant, Some(Message(ToolUse, [Use("q", ASK)])), None);
    var tail := seq(ORPHAN_LOOKBACK, _ => noise);
    var records := [ask] + tail;
    assert records[1..] == tail && records[0..] == records && records[0..1] == [ask];
    QuietTail([], tail);
    QuietTail([ask], tail);
    assert [] + tail == tail;
    AskedIsOpen(ask);
    hide Events, LastEvent, TurnStart, IsVerdict;
    assert LastEvent(Events(records), "q") == Some(Used("q", ASK));
    if IsVerdict(records, 0, snap) {
      AskedIsInput(records, 0, snap);
    }
    if IsVerdict(records, 1, snap) {
      NothingIsTail(records, 1, snap, ask);
    }
  }

  lemma AskedIsOpen(ask: Record)
    requires ask == Record(Assistant, Some(Message(ToolUse, [Use("q", ASK)])), None)
    ensures Events([ask]) == [Used("q", ASK)] && LastEvent([Used("q", ASK)], "q") == Some(Used("q", ASK))
    ensures Events([]) == [] && LastEvent([], "q") == None && !TurnBoundary(ask)
    ensures LastSignificant([ask]) == Some(ask)
  {
    var content := [Use("q", ASK)];
    assert [ask][..0] == [] && content[..0] == [];
    assert ContentEvents(Assistant, content[..0]) == [];
    assert ContentEvents(Assistant, content) == [] + [Used("q", ASK)];
  }

  lemma AskedIsInput(records: seq<Record>, start: nat, snap: Snapshot)
    requires start <= |records| && IsVerdict(records, start, snap)
    requires LastEvent(Events(records[start..]), "q") == Some(Used("q", ASK))
    ensures snap.state == Input
  {
    hide Events, LastEvent, LastSignificant;
    var open :| OpenAfter(Events(records[start..]), open) && VerdictFrom(records, open, snap);
    assert open["q"] == ASK;
  }

  /** With no event in the turn the last record alone decides. */
  lemma NothingIsTail(records: seq<Record>, start: nat, snap: Snapshot, last: Record)
    requires start <= |records| && IsVerdict(records, start, snap) && Events(records[start..]) == []
    requires LastSignificant(records) == Some(last)
    ensures snap == Snapshot(StateFromTail(Some(last), 0), 0)
  {
    hide LastSignificant;
    var open :| OpenAfter(Events(records[start..]), open) && VerdictFrom(records, open, snap);
    assert open == map[];
    NothingAsked();
  }

  lemma {:induction false} QuietTail(head: seq<Record>, tail: seq<Record>)
    requires forall i :: 0 <= i < |tail| ==> tail[i] == Record(OtherKind, None, None)
    ensures Events(head + tail) == Events(head)
    ensures LastSignificant(head + tail) == LastSignificant(head)
    ensures (forall r <- head :: !TurnBoundary(r)) ==> TurnStart(head + tail) == 0
  {
    if tail == [] {
      assert head + tail == head;
    } else {
      var n := |tail| - 1;
      assert (head + tail)[..|head| + n] == head + tail[..n];
      QuietTail(head, tail[..n]);
    }
  }
}

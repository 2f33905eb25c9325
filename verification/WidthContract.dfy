// The sidebar's width contract: which sizes are a drag, and what gets published
// (cmd/orchard-sidebar: width.go, layout.go, main.go).

module WidthContract {
  import opened Options

  const MIN_WIDTH := 34
  const COLLAPSED_MAX := 6
  const COLLAPSED_WIDTH := 3
  const DEFAULT_WIDTH := 40

  /** The width fields of the model. windowWidth is the outer window's, 0 while unknown. */
  datatype Width = Width(width: int, desired: int, sized: bool, collapsed: bool,
                         pending: bool, mechanical: bool, windowWidth: int, seqNo: nat)

  /** What handling a message did besides: read the window, arm a timer, publish a width. */
  datatype Effect = Effect(read: bool, armed: Option<nat>, published: Option<int>)

  const NOTHING := Effect(false, None, None)

  predicate IsCollapsed(w: int) { 0 < w <= COLLAPSED_MAX }

  function Based(s: Width, cw: int): Width { if cw == 0 then s else s.(windowWidth := cw) }

  function Rearmed(s: Width): Width { s.(pending := true, seqNo := s.seqNo + 1) }

  /** A size from tmux; cw is what reading the outer window gives, should it be read. */
  function Applied(s: Width, w: int, cw: int): (Width, Effect) {
    if IsCollapsed(w) then (s.(width := w, collapsed := true, sized := true), NOTHING)
    else if !s.sized then
      (Based(s.(collapsed := false, sized := true, desired := if s.desired == 0 then w else s.desired, width := w), cw),
       Effect(true, None, None))
    else
      var t := s.(collapsed := false, width := w);
      if w == t.desired then (t.(pending := false), NOTHING)
      else if t.pending then (Rearmed(t), Effect(false, Some(t.seqNo + 1), None))
      else if cw == 0 && t.windowWidth == 0 then (t, Effect(true, None, None))
      else
        (Rearmed(Based(t.(mechanical := cw != 0 && cw != t.windowWidth), cw)), Effect(true, Some(t.seqNo + 1), None))
  }

  function Clamped(w: int): int { if w < MIN_WIDTH then MIN_WIDTH else w }

  predicate Publishes(s: Width, seqNo: nat) {
    seqNo == s.seqNo && !s.collapsed && s.sized && s.width != s.desired && !s.mechanical
  }

  /** A settle timer landing. */
  function Settled(s: Width, seqNo: nat): (Width, Effect) {
    if seqNo != s.seqNo then (s, NOTHING)
    else if Publishes(s, seqNo) then
      (s.(pending := false, desired := Clamped(s.width)), Effect(false, None, Some(Clamped(s.width))))
    else (s.(pending := false), NOTHING)
  }

  function ExpandWidth(s: Width): int { if s.desired >= MIN_WIDTH then s.desired else DEFAULT_WIDTH }

  function Toggled(s: Width): Width {
    if s.collapsed then s.(collapsed := false, width := ExpandWidth(s))
    else s.(collapsed := true, width := COLLAPSED_WIDTH)
  }

  /** The client lane's own reading of the window, ignored while a gesture is pending. */
  function Observed(s: Width, cw: int): Width { if s.pending then s else Based(s, cw) }

  // ---- runs ---------------------------------------------------------------------------------

  datatype Event = Size(w: int, cw: int) | Settle(seqNo: nat) | Toggle | Observe(cw: int)

  /** The model with its timers in flight and what it has published and read so far. */
  datatype World = World(s: Width, timers: set<nat>, published: seq<int>, asked: nat)

  predicate Legal(x: World, e: Event) { e.Settle? ==> e.seqNo in x.timers }

  function Did(s: Width, e: Event): (Width, Effect) {
    match e
    case Size(w, cw) => Applied(s, w, cw)
    case Settle(seqNo) => Settled(s, seqNo)
    case Toggle => (Toggled(s), NOTHING)
    case Observe(cw) => (Observed(s, cw), NOTHING)
  }

  function Step(x: World, e: Event): World {
    var (s, effect) := Did(x.s, e);
    World(s,
          (if e.Settle? then x.timers - {e.seqNo} else x.timers) + (if effect.armed.Some? then {effect.armed.value} else {}),
          x.published + (if effect.published.Some? then [effect.published.value] else []),
          x.asked + (if effect.read then 1 else 0))
  }

  function Run(x: World, events: seq<Event>): World {
    if events == [] then x else Step(Run(x, events[..|events| - 1]), events[|events| - 1])
  }

  ghost predicate LegalRun(x: World, events: seq<Event>) {
    events == [] || (LegalRun(x, events[..|events| - 1]) && Legal(Run(x, events[..|events| - 1]), events[|events| - 1]))
  }

  function Booted(desired: int, collapsed: bool): World {
    World(Width(0, desired, false, collapsed, false, false, 0, 0), {}, [], 0)
  }

  // ---- what every run keeps -----------------------------------------------------------------

  ghost predicate Inv(x: World) {
    && (forall n <- x.timers :: n <= x.s.seqNo)
    && (x.s.pending ==> x.s.seqNo in x.timers)
    && (x.timers != {} || x.s.pending ==> x.s.sized && x.s.windowWidth != 0)
    && (forall w <- x.published :: w >= MIN_WIDTH)
    && (x.published != [] ==> x.s.sized && x.s.desired == x.published[|x.published| - 1])
  }

  /** With a readable published width, a gesture that was called off leaves nothing to publish. */
  ghost predicate Quiet(x: World) {
    x.s.sized && x.s.desired >= MIN_WIDTH && !x.s.pending && x.s.seqNo in x.timers && !x.s.collapsed
    ==> x.s.width == x.s.desired
  }

  lemma StepKeeps(x: World, e: Event)
    requires Inv(x) && Legal(x, e)
    ensures Inv(Step(x, e))
  {
    var effect := Did(x.s, e).1;
    if effect.published.Some? {
      assert Step(x, e).published[|x.published|] == effect.published.value;
    }
  }

  lemma StepStaysQuiet(x: World, e: Event)
    requires Inv(x) && Legal(x, e) && Quiet(x)
    ensures Quiet(Step(x, e))
  {
  }

  lemma {:induction false} RunKeeps(desired: int, collapsed: bool, events: seq<Event>)
    requires LegalRun(Booted(desired, collapsed), events)
    ensures Inv(Run(Booted(desired, collapsed), events)) && Quiet(Run(Booted(desired, collapsed), events))
  {
    if events != [] {
      var before := events[..|events| - 1];
      RunKeeps(desired, collapsed, before);
      StepKeeps(Run(Booted(desired, collapsed), before), events[|events| - 1]);
      StepStaysQuiet(Run(Booted(desired, collapsed), before), events[|events| - 1]);
    }
  }

  /** What the first size of a run has to offer as a width: nothing when it is a collapsed one. */
  function Seed(events: seq<Event>): Option<int> {
    if events == [] then None
    else
      var before, e := Seed(events[..|events| - 1]), events[|events| - 1];
      if before.Some? then before else if e.Size? then Some(if IsCollapsed(e.w) then 0 else e.w) else None
  }

  lemma {:induction false} DesiredIsRemembered(desired: int, collapsed: bool, events: seq<Event>)
    requires LegalRun(Booted(desired, collapsed), events)
    ensures var x := Run(Booted(desired, collapsed), events);
            && (x.s.sized <==> Seed(events).Some?)
            && (x.published == [] ==>
                  x.s.desired == if desired != 0 then desired else if Seed(events).Some? then Seed(events).value else 0)
  {
    if events != [] {
      DesiredIsRemembered(desired, collapsed, events[..|events| - 1]);
      RunKeeps(desired, collapsed, events[..|events| - 1]);
    }
  }

  /** Over every run of sizes, timers, collapses and readings: a pending gesture always has its live timer
      in flight, so it settles; everything published is readable; and the width remembered is the last one
      published, before any the one restored, and without that the first size, unless it was a strip's. */
  lemma WidthIsSafe(desired: int, collapsed: bool, events: seq<Event>)
    requires LegalRun(Booted(desired, collapsed), events)
    ensures var x := Run(Booted(desired, collapsed), events);
            && (x.s.pending ==> x.s.seqNo in x.timers)
            && (forall w <- x.published :: w >= 34)
            && x.s.desired == (if x.published != [] then x.published[|x.published| - 1]
                               else if desired != 0 then desired
                               else if Seed(events).Some? then Seed(events).value else 0)
  {
    RunKeeps(desired, collapsed, events);
    DesiredIsRemembered(desired, collapsed, events);
  }

  /** What the window was last seen to be: read at the first size that is not a strip's, at each divergent one
      outside a gesture, and by the client lane outside one; 0 for a reading that failed. */
  function LastReading(x: World, events: seq<Event>): int {
    if events == [] then 0
    else
      var before, e := events[..|events| - 1], events[|events| - 1];
      var s := Run(x, before).s;
      var asked := match e
                   case Size(w, _) => !(0 < w <= 6) && (!s.sized || (w != s.desired && !s.pending))
                   case Observe(_) => !s.pending
                   case _ => false;
      if asked && e.cw != 0 then e.cw else LastReading(x, before)
  }

  /** The baseline is the last reading that succeeded. */
  lemma {:induction false} BaselineIsLastReading(desired: int, collapsed: bool, events: seq<Event>)
    ensures Run(Booted(desired, collapsed), events).s.windowWidth == LastReading(Booted(desired, collapsed), events)
  {
    if events != [] {
      BaselineIsLastReading(desired, collapsed, events[..|events| - 1]);
    }
  }

  /** Whether the pane was last made a strip: by a size from 1 to 6, or by a toggle away from a full pane. */
  function LastToldStrip(collapsed: bool, events: seq<Event>): bool {
    if events == [] then collapsed
    else
      var before := LastToldStrip(collapsed, events[..|events| - 1]);
      match events[|events| - 1]
      case Size(w, _) => 0 < w <= 6
      case Toggle => !before
      case _ => before
  }

  lemma {:induction false} CollapsedIsLastTold(desired: int, collapsed: bool, events: seq<Event>)
    ensures Run(Booted(desired, collapsed), events).s.collapsed == LastToldStrip(collapsed, events)
  {
    if events != [] {
      CollapsedIsLastTold(desired, collapsed, events[..|events| - 1]);
    }
  }

  /** A strip never publishes, whatever timers are left. */
  lemma StripPublishesNothing(desired: int, collapsed: bool, events: seq<Event>, e: Event)
    ensures Publishing(Run(Booted(desired, collapsed), events), e) ==> !LastToldStrip(collapsed, events)
  {
    CollapsedIsLastTold(desired, collapsed, events);
    hide Run, LastToldStrip;
  }

  // ---- only drags publish, and when not -----------------------------------------------------

  /** e settles a drag that is still pending. */
  predicate SettlesDrag(s: Width, e: Event) { e == Settle(s.seqNo) && s.pending && !s.mechanical && !s.collapsed }

  /** From this restored width on, in every run, whatever is published settles a pending drag. */
  ghost predicate OnlyDragsPublish(desired: int, collapsed: bool) {
    forall events: seq<Event>, e: Event ::
      LegalRun(Booted(desired, collapsed), events) && Publishing(Run(Booted(desired, collapsed), events), e) ==>
        SettlesDrag(Run(Booted(desired, collapsed), events).s, e)
  }

  predicate Publishing(x: World, e: Event) { Legal(x, e) && Did(x.s, e).1.published.Some? }

  /** A remembered width no pane can be sized to without reading as the strip: no size calls a drag off. */
  ghost predicate Calm(x: World) {
    && Quiet(x)
    && (1 <= x.s.desired <= COLLAPSED_MAX || x.s.desired >= MIN_WIDTH)
    && (x.s.desired <= COLLAPSED_MAX && x.s.seqNo in x.timers ==> x.s.pending)
  }

  lemma StepStaysCalm(x: World, e: Event)
    requires Inv(x) && Calm(x) && Legal(x, e)
    ensures Calm(Step(x, e))
    ensures Publishing(x, e) ==> SettlesDrag(x.s, e)
  {
    StepStaysQuiet(x, e);
  }

  lemma {:induction false} RunStaysCalm(desired: int, collapsed: bool, events: seq<Event>)
    requires 1 <= desired <= COLLAPSED_MAX || desired >= MIN_WIDTH
    requires LegalRun(Booted(desired, collapsed), events)
    ensures Inv(Run(Booted(desired, collapsed), events)) && Calm(Run(Booted(desired, collapsed), events))
  {
    RunKeeps(desired, collapsed, events);
    if events != [] {
      var before := events[..|events| - 1];
      RunStaysCalm(desired, collapsed, before);
      StepStaysCalm(Run(Booted(desired, collapsed), before), events[|events| - 1]);
    }
  }

  /** Only drags publish exactly when the restored width is a readable one, or one the pane cannot be sized
      to at all without collapsing. */
  lemma OnlyDragsPublishExactly(desired: nat, collapsed: bool)
    ensures OnlyDragsPublish(desired, collapsed) <==> desired >= 34 || 1 <= desired <= 6
  {
    if desired >= MIN_WIDTH || 1 <= desired <= COLLAPSED_MAX {
      forall events: seq<Event>, e: Event
        | LegalRun(Booted(desired, collapsed), events) && Publishing(Run(Booted(desired, collapsed), events), e)
        ensures SettlesDrag(Run(Booted(desired, collapsed), events).s, e)
      {
        RunStaysCalm(desired, collapsed, events);
        StepStaysCalm(Run(Booted(desired, collapsed), events), e);
      }
    } else {
      var events := ReopeningCanPublish(desired, collapsed);
    }
  }

  /** Otherwise a drag called off by a size equal to the remembered width leaves its timer live, and
      reopening the strip gives that timer a width to publish. */
  lemma ReopeningCanPublish(desired: nat, collapsed: bool) returns (events: seq<Event>)
    requires desired == 0 || COLLAPSED_MAX < desired < MIN_WIDTH
    ensures LegalRun(Booted(desired, collapsed), events)
    ensures var x := Run(Booted(desired, collapsed), events);
            Publishing(x, Settle(1)) && !SettlesDrag(x.s, Settle(1)) && Did(x.s, Settle(1)).1.published == Some(DEFAULT_WIDTH)
  {
    var w := if desired == 0 then 20 else desired;
    var x0, call := Booted(desired, collapsed), Size(w, 100);
    var x1 := Step(x0, call);
    var x2 := Step(x1, Size(50, 100));
    var x3 := Step(x2, call);
    var x4 := Step(x3, Toggle);
    var x5 := Step(x4, Toggle);
    assert x5.s == Width(40, w, true, false, false, false, 100, 1) && x5.timers == {1};
    hide Step;
    events := [call, Size(50, 100), call, Toggle, Toggle];
    assert events[..4][..3] == events[..3] && events[..3][..2] == events[..2] && events[..2][..1] == events[..1] && events[..1][..0] == [];
    assert Run(x0, events[..0]) == x0 && LegalRun(x0, events[..0]);
    assert Run(x0, events[..1]) == x1 && LegalRun(x0, events[..1]);
    assert Run(x0, events[..2]) == x2 && LegalRun(x0, events[..2]);
    assert Run(x0, events[..3]) == x3 && LegalRun(x0, events[..3]);
    assert Run(x0, events[..4]) == x4 && LegalRun(x0, events[..4]);
    assert Run(x0, events) == x5 && LegalRun(x0, events);
  }

  /** The width a state file restores: an unreadable one counts as none. */
  function Restored(saved: int): nat { if saved < MIN_WIDTH then 0 else saved }

  /** So it holds for a sidebar exactly when its state file had a readable width. */
  lemma SavedWidthDecides(saved: int, collapsed: bool)
    ensures OnlyDragsPublish(Restored(saved), collapsed) <==> saved >= 34
  {
    OnlyDragsPublishExactly(Restored(saved), collapsed);
  }

  /** Collapsing and reopening gives back the published width and changes nothing a gesture looks at. */
  lemma ReopenRestores(s: Width)
    requires !s.collapsed
    ensures var t := Toggled(Toggled(s));
            && t == s.(width := t.width)
            && t.width == (if s.desired >= 34 then s.desired else 40)
            && Toggled(s).collapsed && Toggled(s).width == 3
  {
  }

  // ---- one gesture --------------------------------------------------------------------------

  /** Whether handling e reads the window to take a verdict. */
  predicate TakesVerdict(s: Width, e: Event) { e.Size? && s.sized && Applied(s, e.w, e.cw).1.read }

  ghost predicate NoVerdict(x: World, events: seq<Event>) {
    events == []
    || (NoVerdict(x, events[..|events| - 1]) && !TakesVerdict(Run(x, events[..|events| - 1]).s, events[|events| - 1]))
  }

  /** A divergent size in a changed window is a mechanical resize: however many sizes re-arm it and
      whatever else happens, nothing is published until another verdict is taken. */
  lemma {:induction false} MechanicalPublishesNothing(x: World, events: seq<Event>)
    requires x.s.sized && x.s.mechanical && LegalRun(x, events) && NoVerdict(x, events)
    ensures Run(x, events).s.sized && Run(x, events).s.mechanical && Run(x, events).published == x.published
  {
    if events != [] {
      MechanicalPublishesNothing(x, events[..|events| - 1]);
    }
  }

  /** A verdict is taken exactly by a divergent size outside a gesture. It opens the gesture unless the
      window is unknown and always was, and it is mechanical exactly when the window is seen to change. While
      the window stays unknown every divergent size asks again. */
  lemma Verdict(s: Width, w: int, cw: int, next: int, again: int)
    requires s.sized
    ensures TakesVerdict(s, Size(w, cw)) <==> !IsCollapsed(w) && w != s.desired && !s.pending
    ensures TakesVerdict(s, Size(w, cw)) ==>
              var (t, effect) := Applied(s, w, cw);
              && (t.pending <==> cw != 0 || s.windowWidth != 0)
              && (t.pending ==> (t.mechanical <==> cw != 0 && cw != s.windowWidth))
              && (t.pending ==> effect.armed == Some(t.seqNo) && t.seqNo == s.seqNo + 1)
              && (!t.pending ==> (TakesVerdict(t, Size(next, again)) <==> !IsCollapsed(next) && next != s.desired))
  {
  }

  /** The gesture is open throughout a run. */
  ghost predicate StaysPending(x: World, events: seq<Event>) {
    x.s.pending && (events == [] || (StaysPending(x, events[..|events| - 1]) && Run(x, events).s.pending))
  }

  /** The window is read once per gesture: while it is open nothing reads the window, moves the baseline or
      changes the verdict. */
  lemma {:induction false} OneReadPerGesture(x: World, events: seq<Event>)
    requires x.s.sized && StaysPending(x, events)
    ensures var y := Run(x, events);
            && y.s.sized && y.asked == x.asked && y.s.windowWidth == x.s.windowWidth
            && y.s.mechanical == x.s.mechanical && y.s.seqNo >= x.s.seqNo
  {
    if events != [] {
      OneReadPerGesture(x, events[..|events| - 1]);
    }
  }

  /** Sizes that keep a drag going. */
  predicate AllDivergent(s: Width, sizes: seq<int>) {
    forall i :: 0 <= i < |sizes| ==> !IsCollapsed(sizes[i]) && sizes[i] != s.desired
  }

  function Sizes(sizes: seq<int>, cw: int): seq<Event> { seq(|sizes|, i requires 0 <= i < |sizes| => Size(sizes[i], cw)) }

  /** A drag in an unchanged window, any number of sizes in. */
  ghost predicate Dragging(x: World, y: World, sizes: seq<int>)
    requires sizes != []
  {
    && y.s.pending && !y.s.mechanical && !y.s.collapsed && y.s.sized && y.s.desired == x.s.desired
    && y.s.width == sizes[|sizes| - 1] && y.s.seqNo == x.s.seqNo + |sizes| && y.s.seqNo in y.timers
    && y.published == x.published && y.asked == x.asked + 1
  }

  lemma {:induction false} DragRuns(x: World, sizes: seq<int>, cw: int)
    requires sizes != [] && AllDivergent(x.s, sizes)
    requires x.s.sized && !x.s.pending && x.s.windowWidth != 0 && (cw == 0 || cw == x.s.windowWidth)
    ensures Dragging(x, Run(x, Sizes(sizes, cw)), sizes)
  {
    var n := |sizes| - 1;
    assert Sizes(sizes, cw)[..n] == Sizes(sizes[..n], cw);
    if n > 0 {
      DragRuns(x, sizes[..n], cw);
    } else {
      assert Sizes(sizes[..n], cw) == [];
    }
  }

  /** A drag publishes where it was let go: from its first size, through any number more, its one live
      timer publishes the last width, raised to the readable floor, and every earlier timer is dropped. */
  lemma DragPublishesLast(x: World, sizes: seq<int>, cw: int)
    requires sizes != [] && AllDivergent(x.s, sizes)
    requires x.s.sized && !x.s.pending && x.s.windowWidth != 0 && (cw == 0 || cw == x.s.windowWidth)
    ensures var y := Run(x, Sizes(sizes, cw));
            && Dragging(x, y, sizes)
            && var last := if sizes[|sizes| - 1] < 34 then 34 else sizes[|sizes| - 1];
            && Step(y, Settle(y.s.seqNo)).published == x.published + [last]
            && Step(y, Settle(y.s.seqNo)).s.desired == last
            && forall n: nat :: n != y.s.seqNo ==> Step(y, Settle(n)).s == y.s && Step(y, Settle(n)).published == y.published
  {
    DragRuns(x, sizes, cw);
    hide Run;
  }

  // ---- the pane as the program keeps it ------------------------------------------------------

  class Pane {
    var s: Width

    constructor (desired: int, collapsed: bool)
      ensures s == Booted(desired, collapsed).s
    {
      s := Width(0, desired, false, collapsed, false, false, 0, 0);
    }

    method SetWindowBaseline(w: int)
      modifies this
      ensures s == Based(old(s), w)
    {
      if w == 0 || w == s.windowWidth {
        return;
      }
      s := s.(windowWidth := w);
    }

    /** reading stands for the bounded read of the outer window, made at most once and only when asked. */
    method ApplyWidth(w: int, reading: int) returns (effect: Effect)
      modifies this
      ensures (s, effect) == Applied(old(s), w, reading)
    {
      effect := NOTHING;
      if IsCollapsed(w) {
        s := s.(width := w, collapsed := true, sized := true);
        return;
      }
      s := s.(collapsed := false);
      if !s.sized {
        s := s.(sized := true);
        if s.desired == 0 {
          s := s.(desired := w);
        }
        s := s.(width := w);
        SetWindowBaseline(reading);
        return Effect(true, None, None);
      }
      s := s.(width := w);
      if w == s.desired {
        s := s.(pending := false);
        return;
      }
      if s.pending {
        s := s.(seqNo := s.seqNo + 1);
        return Effect(false, Some(s.seqNo), None);
      }
      if reading == 0 {
        if s.windowWidth == 0 {
          return Effect(true, None, None);
        }
        s := s.(mechanical := false);
      } else {
        s := s.(mechanical := reading != s.windowWidth);
        SetWindowBaseline(reading);
      }
      s := s.(pending := true, seqNo := s.seqNo + 1);
      effect := Effect(true, Some(s.seqNo), None);
    }

    method SettleWidth(seqNo: nat) returns (effect: Effect)
      modifies this
      ensures (s, effect) == Settled(old(s), seqNo)
    {
      effect := NOTHING;
      if seqNo != s.seqNo {
        return;
      }
      s := s.(pending := false);
      if s.collapsed || !s.sized || s.width == s.desired {
        return;
      }
      if s.mechanical {
        return;
      }
      var clamped := if s.width < MIN_WIDTH then MIN_WIDTH else s.width;
      s := s.(desired := clamped);
      effect := Effect(false, None, Some(clamped));
    }

    method ToggleCollapse()
      modifies this
      ensures s == Toggled(old(s))
    {
      s := s.(collapsed := !s.collapsed);
      var w := ExpandWidth(s);
      if s.collapsed {
        w := COLLAPSED_WIDTH;
      }
      s := s.(width := w);
    }
  }
}

/**
 The standalone process (`cmd/standalone_sides.go`): one runner starts the miner, then the
 relayer once the miner is serving, and brings both down. Each side runs on its own, may
 stop at any moment, and leaves one result in a channel that can be received once.
 */
module StandaloneSides {
  import opened Common

  datatype Which = First | Second

  // How a side's serve returned; Cancelled is its context's own error.
  datatype Result = Clean | Cancelled | Failure

  datatype Phase = NotStarted | Starting | Serving | Finished(result: Result)

  // `received` says that the one result has been taken out of the channel.
  datatype Side = Side(phase: Phase, reported: bool, stopAsked: bool, aborted: bool, received: bool)

  // Where the runner is; each wait is a select or a single receive.
  datatype Pc =
    | AwaitFirst                // first is starting
    | AwaitSecond               // second is starting
    | AwaitEnd                  // both are serving
    | ReceiveFirst              // only first's result is left to receive
    | ReceiveSecond(thenFirst: bool)
    | Returned

  // What ended the run.
  datatype Ending =
    | Undecided
    | SignalWhileFirstStarts | FirstStoppedStarting
    | SignalWhileSecondStarts | FirstStoppedMeanwhile | SecondStoppedStarting
    | SignalWhileServing | FirstStopped | SecondStopped

  // `blamed` is who the returned error names; no one means a clean exit.
  datatype State = State(a: Side, b: Side, pc: Pc, ending: Ending, blamed: set<Which>, signal: bool)

  datatype Event =
    | Signal
    | Reports(w: Which)                  // the side says it is serving
    | Finishes(w: Which, result: Result)
    | TakeStarted                        // the runner's select sees the started channel closed
    | TakeSignal
    | TakeDone(w: Which)                 // the runner receives a side's result

  const FRESH := Side(NotStarted, false, false, false, false)

  /** The runner has started first. */
  const INIT := State(FRESH.(phase := Starting), FRESH, AwaitFirst, Undecided, {}, false)

  function SideOf(s: State, w: Which): Side {
    if w.First? then s.a else s.b
  }

  function WithSide(s: State, w: Which, x: Side): State {
    if w.First? then s.(a := x) else s.(b := x)
  }

  function Asked(x: Side): Side {
    x.(stopAsked := true)
  }

  function AbortedAndAsked(x: Side): Side {
    x.(aborted := true, stopAsked := true)
  }

  predicate HasResult(x: Side) {
    x.phase.Finished? && !x.received
  }

  /** Who a received result blames. */
  function Blame(w: Which, result: Result, onItsOwn: bool): set<Which> {
    if result.Clean? && !onItsOwn then {} else {w}
  }

  function TakeStartedStep(s: State): State {
    if s.pc.AwaitFirst? && s.a.reported then s.(pc := AwaitSecond, b := s.b.(phase := Starting))
    else if s.pc.AwaitSecond? && s.b.reported then s.(pc := AwaitEnd)
    else s
  }

  function TakeSignalStep(s: State): State {
    if !s.signal then s
    else match s.pc
      case AwaitFirst => s.(signal := false, pc := ReceiveFirst, a := AbortedAndAsked(s.a),
        ending := SignalWhileFirstStarts)
      case AwaitSecond => s.(signal := false, pc := ReceiveSecond(true), b := AbortedAndAsked(s.b),
        ending := SignalWhileSecondStarts)
      case AwaitEnd => s.(signal := false, pc := ReceiveSecond(true), b := Asked(s.b), ending := SignalWhileServing)
      case _ => s
  }

  /** First's result: on its own in a select, or the last one to wait for. */
  function TakeFirstStep(s: State): State {
    if !HasResult(s.a) then s
    else
      var result := s.a.phase.result;
      var a := s.a.(received := true);
      match s.pc
      case AwaitFirst => s.(a := a, pc := Returned, ending := FirstStoppedStarting,
        blamed := Blame(First, result, true))
      case AwaitSecond =>
        s.(a := a, b := AbortedAndAsked(s.b), pc := ReceiveSecond(false), ending := FirstStoppedMeanwhile,
            blamed := Blame(First, result, true))
      case AwaitEnd => s.(a := a, b := Asked(s.b), pc := ReceiveSecond(false), ending := FirstStopped,
        blamed := Blame(First, result, true))
      case ReceiveFirst =>
        // A startup cancelled by a signal is not an error.
        s.(a := a, pc := Returned, blamed := s.blamed + if s.ending.SignalWhileFirstStarts? then {}
            else Blame(First, result, false))
      case _ => s
  }

  function TakeSecondStep(s: State): State {
    if !HasResult(s.b) then s
    else
      var result := s.b.phase.result;
      var b := s.b.(received := true);
      match s.pc
      case AwaitSecond => s.(b := b, a := Asked(s.a), pc := ReceiveFirst, ending := SecondStoppedStarting,
        blamed := Blame(Second, result, true))
      case AwaitEnd => s.(b := b, a := Asked(s.a), pc := ReceiveFirst, ending := SecondStopped,
        blamed := Blame(Second, result, true))
      case ReceiveSecond(thenFirst) =>
        // Nor is one cancelled because first stopped, when all it reports is that.
        var forgiven := s.ending.SignalWhileSecondStarts? || (s.ending.FirstStoppedMeanwhile? && result.Cancelled?);
        var blamed := s.blamed + if forgiven then {} else Blame(Second, result, false);
        if thenFirst then s.(b := b, a := Asked(s.a), pc := ReceiveFirst, blamed := blamed)
            else s.(b := b, pc := Returned, blamed := blamed)
      case _ => s
  }

  function Step(s: State, e: Event): State {
    match e
    case Signal => s.(signal := true)
    case Reports(w) =>
      if SideOf(s, w).phase.Starting? then WithSide(s, w, SideOf(s, w).(phase := Serving, reported := true)) else s
    case Finishes(w, result) =>
      if SideOf(s, w).phase.Starting? || SideOf(s, w).phase.Serving?
          then WithSide(s, w, SideOf(s, w).(phase := Finished(result))) else s
    case TakeStarted => TakeStartedStep(s)
    case TakeSignal => TakeSignalStep(s)
    case TakeDone(w) => if w.First? then TakeFirstStep(s) else TakeSecondStep(s)
  }

  function Run(s: State, events: seq<Event>): State {
    if events == [] then s else Step(Run(s, events[..|events| - 1]), events[|events| - 1])
  }

  // -- What every step keeps --

  predicate IsSignal(e: Ending) {
    e.SignalWhileFirstStarts? || e.SignalWhileSecondStarts? || e.SignalWhileServing?
  }

  predicate StoppedAlone(e: Ending, w: Which) {
    match w
    case First => e.FirstStoppedStarting? || e.FirstStoppedMeanwhile? || e.FirstStopped?
    case Second => e.SecondStoppedStarting? || e.SecondStopped?
  }

  /** A side told to stop in a way it can see: it has the stop channel, or its context has ended. */
  predicate CanHear(x: Side) {
    x.stopAsked && (x.reported || x.aborted)
  }

  predicate SidesAgree(s: State) {
    && (s.a.received ==> s.a.phase.Finished?)
    && (s.b.received ==> s.b.phase.Finished?)
    && !s.a.phase.NotStarted?
    && (s.b.phase.NotStarted? ==> s.b == FRESH)
    && (!s.b.phase.NotStarted? ==> s.a.reported)
  }

  /** What each place in the runner says of the two sides. */
  predicate PcAgrees(s: State) {
    match s.pc
    case AwaitFirst =>
      && s.ending.Undecided? && s.blamed == {} && s.b.phase.NotStarted?
      && !s.a.received && !s.a.stopAsked && !s.a.aborted
    case AwaitSecond =>
      && s.ending.Undecided? && s.blamed == {} && !s.a.stopAsked && !s.a.aborted && !s.a.received
      && !s.b.phase.NotStarted? && !s.b.received && !s.b.stopAsked && !s.b.aborted
    case AwaitEnd =>
      && s.ending.Undecided? && s.blamed == {} && !s.a.stopAsked && !s.a.aborted && !s.a.received
      && s.b.reported && !s.b.phase.NotStarted? && !s.b.received && !s.b.stopAsked && !s.b.aborted
    case ReceiveFirst =>
      && !s.ending.Undecided? && !StoppedAlone(s.ending, First) && CanHear(s.a) && !s.a.received
      && (s.b.phase.NotStarted? <==> s.ending.SignalWhileFirstStarts?)
      && (s.b.phase.NotStarted? || s.b.received)
    case ReceiveSecond(thenFirst) =>
      && !s.ending.Undecided? && !StoppedAlone(s.ending, Second)
      && CanHear(s.b) && !s.b.received && !s.b.phase.NotStarted?
      && !s.ending.SignalWhileFirstStarts? && !s.ending.FirstStoppedStarting?
      && !s.a.stopAsked && !s.a.aborted && (thenFirst <==> !s.a.received) && (thenFirst <==> IsSignal(s.ending))
    case Returned =>
      && !s.ending.Undecided? && s.a.received && (s.b.phase.NotStarted? || s.b.received)
      && (s.b.phase.NotStarted? <==> s.ending.SignalWhileFirstStarts? || s.ending.FirstStoppedStarting?)
  }

  /** A side the returned error should name, once its result is in. */
  predicate ToBlame(s: State, w: Which) {
    var x := SideOf(s, w);
    && x.received && x.phase.Finished?
    && (|| StoppedAlone(s.ending, w)
        || (w.First? && !x.phase.result.Clean? && !s.ending.SignalWhileFirstStarts?)
        || (w.Second? && !x.phase.result.Clean? && !s.ending.SignalWhileSecondStarts? &&
            !(s.ending.FirstStoppedMeanwhile? && x.phase.result.Cancelled?)))
  }

  predicate BlameAgrees(s: State) {
    && (First in s.blamed <==> ToBlame(s, First))
    && (Second in s.blamed <==> ToBlame(s, Second))
  }

  predicate Inv(s: State) {
    SidesAgree(s) && PcAgrees(s) && BlameAgrees(s)
  }

  lemma TakeFirstKeeps(s: State)
    requires Inv(s)
    ensures Inv(TakeFirstStep(s))
  {
  }

  lemma TakeSecondKeeps(s: State)
    requires Inv(s)
    ensures Inv(TakeSecondStep(s))
  {
  }

  lemma TakeSignalKeeps(s: State)
    requires Inv(s)
    ensures Inv(TakeSignalStep(s))
  {
  }

  lemma InvStep(s: State, e: Event)
    requires Inv(s)
    ensures Inv(Step(s, e))
  {
    match e
    case TakeDone(w) => TakeFirstKeeps(s); TakeSecondKeeps(s);
    case TakeSignal => TakeSignalKeeps(s);
    case Reports(w) => SidesStep(s, w, SideOf(s, w).(phase := Serving, reported := true));
    case Finishes(w, result) => SidesStep(s, w, SideOf(s, w).(phase := Finished(result)));
    case _ =>
  }

  /** A side's own step: it only goes on, and only it changes. */
  lemma SidesStep(s: State, w: Which, x: Side)
    requires Inv(s)
    requires var y := SideOf(s, w);
             && x.stopAsked == y.stopAsked && x.aborted == y.aborted && x.received == y.received
             && (y.reported ==> x.reported) && !x.phase.NotStarted? && !x.phase.Starting?
    ensures SideOf(s, w).phase.Starting? || SideOf(s, w).phase.Serving? ==> Inv(WithSide(s, w, x))
  {
  }

  lemma {:induction false} InvHolds(events: seq<Event>)
    ensures Inv(Run(INIT, events))
  {
    if events != [] {
      InvHolds(events[..|events| - 1]);
      InvStep(Run(INIT, events[..|events| - 1]), events[|events| - 1]);
    }
  }

  // -- The theorems --

  /** In every run, second is started only once first has reported that it serves. */
  lemma {:induction false} SecondStartsAfterFirstServes(events: seq<Event>)
    requires !Run(INIT, events).b.phase.NotStarted?
    ensures Run(INIT, events).a.reported
  {
    InvHolds(events);
  }

  /** In every run, first is told to stop, or aborted, only when second was never started or has finished. */
  lemma FirstIsStoppedLast(events: seq<Event>)
    requires Run(INIT, events).a.stopAsked || Run(INIT, events).a.aborted
    ensures Run(INIT, events).b.phase.NotStarted? || Run(INIT, events).b.phase.Finished?
  {
    InvHolds(events);
  }

  /** In every run, the runner returns only when every side it started has finished. */
  lemma ReturnsOnlyWhenAllFinished(events: seq<Event>)
    requires Run(INIT, events).pc.Returned?
    ensures var s := Run(INIT, events);
            s.a.phase.Finished? && (s.b.phase.NotStarted? || s.b.phase.Finished?)
  {
    InvHolds(events);
  }

  /** The side whose result the runner waits for and nothing else. */
  function WaitsOn(pc: Pc): Option<Which> {
    match pc
    case ReceiveFirst => Some(First)
    case ReceiveSecond(_) => Some(Second)
    case _ => None
  }

  /**
   In every run, a side the runner waits on alone has been told to stop in a way it can see, and
   its result has not been taken before; so once it finishes, receiving moves the runner on.
   */
  lemma WaitsOnlyOnASideToldToStop(events: seq<Event>)
    requires WaitsOn(Run(INIT, events).pc).Some?
    ensures var s := Run(INIT, events);
            var w := WaitsOn(s.pc).value;
            && CanHear(SideOf(s, w)) && !SideOf(s, w).received
            && (SideOf(s, w).phase.Finished? ==> Step(s, TakeDone(w)).pc != s.pc)
  {
    InvHolds(events);
  }

  /** In every run, a select can always go on once a side it watches stops: neither result was taken before. */
  lemma SelectIsNeverStuck(events: seq<Event>, w: Which)
    requires Run(INIT, events).pc.AwaitFirst? || Run(INIT, events).pc.AwaitSecond? || Run(INIT, events).pc.AwaitEnd?
    requires SideOf(Run(INIT, events), w).phase.Finished?
    ensures Step(Run(INIT, events), TakeDone(w)).pc != Run(INIT, events).pc
  {
    InvHolds(events);
  }

  /**
   In every run, the error names a side exactly when it stopped without being asked, or
   failed and was not a startup the shutdown itself cancelled.
   */
  lemma ErrorNamesExactlyTheFailed(events: seq<Event>, w: Which)
    requires Run(INIT, events).pc.Returned?
    ensures w in Run(INIT, events).blamed <==> ToBlame(Run(INIT, events), w)
  {
    InvHolds(events);
  }

  predicate EndedClean(x: Side) {
    x.phase == Finished(Clean)
  }

  /**
   In every run, the exit is without error if and only if a signal ended it, and every side
   whose startup that signal did not cancel ended cleanly.
   */
  lemma CleanExitExactlyWhen(events: seq<Event>)
    requires Run(INIT, events).pc.Returned?
    ensures var s := Run(INIT, events);
            s.blamed == {} <==>
              || s.ending.SignalWhileFirstStarts?
              || (s.ending.SignalWhileSecondStarts? && EndedClean(s.a))
              || (s.ending.SignalWhileServing? && EndedClean(s.a) && EndedClean(s.b))
  {
    InvHolds(events);
    var s := Run(INIT, events);
    assert forall w :: w in s.blamed ==> w == First || w == Second;
  }

  ghost predicate WasSignalled(events: seq<Event>) {
    exists i :: 0 <= i < |events| && events[i].Signal?
  }

  /** In every run, a shutdown for a signal follows one, and the runner takes it once. */
  lemma {:induction false} SignalEndingWasSignalled(events: seq<Event>)
    ensures IsSignal(Run(INIT, events).ending) || Run(INIT, events).signal ==> WasSignalled(events)
    ensures !Run(INIT, events).signal ==> Step(Run(INIT, events), TakeSignal) == Run(INIT, events)
    ensures Step(Run(INIT, events), TakeSignal) != Run(INIT, events) ==>
            !Step(Run(INIT, events), TakeSignal).signal && IsSignal(Step(Run(INIT, events), TakeSignal).ending)
  {
    if events != [] {
      var n := |events| - 1;
      SignalEndingWasSignalled(events[..n]);
      if WasSignalled(events[..n]) {
        var i :| 0 <= i < n && events[..n][i].Signal?;
        assert events[i].Signal?;
      } else if events[n].Signal? {
        assert WasSignalled(events);
      }
    }
  }

  // -- Such runs exist --

  /** Up to both sides serving and the shutdown signal taken. */
  const SERVED_AND_SIGNALLED: seq<Event> := [Reports(First), TakeStarted, Reports(Second), TakeStarted, Signal,
      TakeSignal]

  function Stopping(first: Result, second: Result): seq<Event> {
    [Finishes(Second, second), TakeDone(Second), Finishes(First, first), TakeDone(First)]
  }

  lemma ServesUntilTheSignal()
    ensures var serving := Side(Serving, true, false, false, false);
            Run(INIT, SERVED_AND_SIGNALLED) ==
                State(serving, Asked(serving), ReceiveSecond(true), SignalWhileServing, {}, false)
  {
    var e := SERVED_AND_SIGNALLED;
    var serving := Side(Serving, true, false, false, false);
    assert e[..5][..4] == e[..4] && e[..4][..3] == e[..3] && e[..3][..2] == e[..2] && e[..2][..1] == e[..1] &&
        e[..1][..0] == [];
    assert Run(INIT, e[..1]) == INIT.(a := serving);
    assert Run(INIT, e[..2]) == State(serving, FRESH.(phase := Starting), AwaitSecond, Undecided, {}, false);
    assert Run(INIT, e[..3]) == State(serving, serving, AwaitSecond, Undecided, {}, false);
    assert Run(INIT, e[..4]) == State(serving, serving, AwaitEnd, Undecided, {}, false);
    assert Run(INIT, e[..5]) == State(serving, serving, AwaitEnd, Undecided, {}, true);
  }

  /**
   Two sides that served until the signal and then stopped, however they ended: the error names
   those that did not end cleanly.
   */
  lemma SignalledRunEnds(first: Result, second: Result)
    ensures var s := Run(Run(INIT, SERVED_AND_SIGNALLED), Stopping(first, second));
            && s.pc.Returned?
            && (First in s.blamed <==> !first.Clean?) && (Second in s.blamed <==> !second.Clean?)
  {
    ServesUntilTheSignal();
    var s := Run(INIT, SERVED_AND_SIGNALLED);
    var e := Stopping(first, second);
    assert e[..3][..2] == e[..2] && e[..2][..1] == e[..1] && e[..1][..0] == [];
    var b := Asked(Side(Finished(second), true, false, false, false));
    var blamed := Blame(Second, second, false);
    assert Run(s, e[..1][..0]) == s;
    assert Run(s, e[..1]) == s.(b := b);
    assert s.blamed + blamed == blamed;
    assert Run(s, e[..2]) == s.(a := Asked(s.a), b := b.(received := true), pc := ReceiveFirst, blamed := blamed);
    assert Run(s, e[..3]) == Run(s, e[..2]).(a := Asked(s.a).(phase := Finished(first)));
  }
}

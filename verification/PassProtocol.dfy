/**
 The two concurrent protocols of one reconcile pass: the single-flight gate of
 `OnBlock`, and the chain oracle every group and both phases of a pass share.

 Each is a state machine over its atomic steps. A run is any sequence of events;
 an event that is not enabled changes nothing, so every interleaving is a run.
 */
module PassGate {
  import opened Common

  /** Where one call of OnBlock stands. */
  datatype Pc =
    | Idle
    | Opened(h: int)               // saw the reconciler open
    | Checked(h: int, prev: int)   // loaded `prev` as the last height, and h is above it
    | Won(h: int)                  // swapped passInFlight to true
    | Passing(h: int)              // stored the last height; the pass runs
  {
    predicate InFlight() { Won? || Passing? }
  }

  type Caller = nat

  datatype State = State(closed: bool, lastHeight: int, passInFlight: bool, pcs: map<Caller, Pc>, passes: seq<int>)

  datatype Event = Call(c: Caller,
      h: int) | CheckHeight(c: Caller) | Swap(c: Caller) | StoreHeight(c: Caller) | Finish(c: Caller) | Close

  function PcOf(s: State, c: Caller): Pc {
    if c in s.pcs then s.pcs[c] else Idle
  }

  function Step(s: State, e: Event): State {
    match e
    case Call(c, h) =>
      if PcOf(s, c).Idle? && !s.closed then s.(pcs := s.pcs[c := Opened(h)]) else s
    case CheckHeight(c) =>
      (match PcOf(s, c)
       case Opened(h) => s.(pcs := s.pcs[c := if h <= s.lastHeight then Idle else Checked(h, s.lastHeight)])
       case _ => s)
    case Swap(c) =>
      (match PcOf(s, c)
       case Checked(h, _) =>
         if s.passInFlight then s.(pcs := s.pcs[c := Idle])
         else s.(passInFlight := true, pcs := s.pcs[c := Won(h)])
       case _ => s)
    case StoreHeight(c) =>
      (match PcOf(s, c)
       case Won(h) => s.(lastHeight := h, pcs := s.pcs[c := Passing(h)], passes := s.passes + [h])
       case _ => s)
    case Finish(c) =>
      (match PcOf(s, c)
       case Passing(_) => s.(passInFlight := false, pcs := s.pcs[c := Idle])
       case _ => s)
    case Close => s.(closed := true)
  }

  function Run(s: State, events: seq<Event>): State {
    if events == [] then s else Step(Run(s, events[..|events| - 1]), events[|events| - 1])
  }

  const INIT := State(false, 0, false, map[], [])

  ghost predicate Inv(s: State) {
    && (forall c, d :: PcOf(s, c).InFlight() && PcOf(s, d).InFlight() ==> c == d)
    && (s.passInFlight <==> exists c :: PcOf(s, c).InFlight())
    && (forall c :: PcOf(s, c).Checked? ==> PcOf(s, c).prev < PcOf(s, c).h)
    && s.lastHeight == (if s.passes == [] then 0 else s.passes[|s.passes| - 1])
  }

  lemma InvStep(s: State, e: Event)
    requires Inv(s)
    ensures Inv(Step(s, e))
  {
    var t := Step(s, e);
    assert forall c :: (e.Close? || c != e.c) ==> PcOf(t, c) == PcOf(s, c);
    if e.Swap? && PcOf(s, e.c).Checked? && !s.passInFlight {
      assert PcOf(t, e.c).InFlight();
    } else if e.StoreHeight? && PcOf(s, e.c).Won? {
      assert PcOf(t, e.c).InFlight();
    } else if s.passInFlight && t.passInFlight {
      var c :| PcOf(s, c).InFlight();
      assert PcOf(t, c).InFlight();
    }
  }

  lemma {:induction false} InvHolds(events: seq<Event>)
    ensures Inv(Run(INIT, events))
  {
    if events != [] {
      InvHolds(events[..|events| - 1]);
      InvStep(Run(INIT, events[..|events| - 1]), events[|events| - 1]);
    }
  }

  /** Whatever the interleaving of calls, at most one pass is in flight. */
  lemma AtMostOnePassInFlight(events: seq<Event>, c: Caller, d: Caller)
    requires PcOf(Run(INIT, events), c).InFlight() && PcOf(Run(INIT, events), d).InFlight()
    ensures c == d
  {
    InvHolds(events);
  }

  /** A call that finds a pass in flight returns and starts none: its height is dropped. */
  lemma LosingCallReturns(s: State, c: Caller)
    requires PcOf(s, c).Checked? && s.passInFlight
    ensures Step(s, Swap(c)) == s.(pcs := s.pcs[c := Idle])
  {
  }

  /** Once closed, no call gets past its first step, so nothing but what was under way still passes. */
  lemma {:induction false} ClosedStartsNothing(s: State, events: seq<Event>, c: Caller)
    requires s.closed && PcOf(s, c).Idle?
    ensures Run(s, events).closed && PcOf(Run(s, events), c).Idle?
    ensures Step(s, Close) == s
  {
    if events != [] {
      ClosedStartsNothing(s, events[..|events| - 1], c);
    }
  }

  lemma CloseCloses(s: State)
    ensures Step(s, Close) == s.(closed := true)
  {
  }

  // -- When passes go up --

  ghost predicate Ascending(passes: seq<int>) {
    forall i, j :: 0 <= i < j < |passes| ==> passes[i] < passes[j]
  }

  /**
   The pass a checked call is about to start lies above all others exactly when none at its height
   or higher began meanwhile.
   */
  lemma NextPassGoesUpExactlyWhen(events: seq<Event>, c: Caller)
    requires var s := Run(INIT, events);
             PcOf(s, c).Checked? && !s.passInFlight && Ascending(s.passes)
    ensures var s := Run(INIT, events);
            var t := Step(Step(s, Swap(c)), StoreHeight(c));
            && t.passes == s.passes + [PcOf(s, c).h]
            && (Ascending(t.passes) <==> s.passes == [] || s.passes[|s.passes| - 1] < PcOf(s, c).h)
  {
    InvHolds(events);
    var s := Run(INIT, events);
    var t := Step(Step(s, Swap(c)), StoreHeight(c));
    AscendingOneMore(s.passes, PcOf(s, c).h);
  }

  lemma AscendingOneMore(passes: seq<int>, h: int)
    requires Ascending(passes)
    ensures Ascending(passes + [h]) <==> passes == [] || passes[|passes| - 1] < h
  {
    var more := passes + [h];
    if passes != [] && more[|passes| - 1] < more[|passes|] {
      forall i, j | 0 <= i < j < |more| ensures more[i] < more[j] {
        assert i < |passes| - 1 ==> passes[i] < passes[|passes| - 1];
      }
    }
  }

  /** The calls under way. */
  function Inside(s: State): set<Caller> {
    set c | c in s.pcs && !s.pcs[c].Idle?
  }

  /** At no moment of the run are more than `n` calls under way. */
  ghost predicate OverlapAtMost(events: seq<Event>, n: int) {
    forall k :: 0 <= k <= |events| ==> |Inside(Run(INIT, events[..k]))| <= n
  }

  /** With one call at a time, a call past its check knows the last height. */
  ghost predicate SerialInv(s: State) {
    && Ascending(s.passes)
    && (forall c :: PcOf(s, c).Checked? ==> s.lastHeight < PcOf(s, c).h)
    && (forall c :: PcOf(s, c).Won? ==> s.lastHeight < PcOf(s, c).h)
  }

  lemma AloneInside(s: State, c: Caller, d: Caller)
    requires |Inside(s)| <= 1 && !PcOf(s, c).Idle? && !PcOf(s, d).Idle?
    ensures c == d
  {
    if c != d {
      assert |{c, d}| == 2;
      SmallerSet({c, d}, Inside(s));
    }
  }

  lemma SerialStep(s: State, e: Event)
    requires Inv(s) && SerialInv(s) && |Inside(s)| <= 1
    ensures SerialInv(Step(s, e))
  {
    var t := Step(s, e);
    if e.StoreHeight? && PcOf(s, e.c).Won? {
      AscendingOneMore(s.passes, PcOf(s, e.c).h);
      forall c | !PcOf(s, c).Idle? ensures c == e.c {
        AloneInside(s, c, e.c);
      }
    }
    assert forall c :: (e.Close? || c != e.c) ==> PcOf(t, c) == PcOf(s, c);
  }

  lemma {:induction false} SerialCallsGoUp(events: seq<Event>)
    requires OverlapAtMost(events, 1)
    ensures SerialInv(Run(INIT, events))
  {
    if events != [] {
      var n := |events| - 1;
      var before := events[..n];
      forall k | 0 <= k <= n ensures |Inside(Run(INIT, before[..k]))| <= 1 {
        assert before[..k] == events[..k];
      }
      SerialCallsGoUp(before);
      assert before[..n] == before;
      InvHolds(before);
      SerialStep(Run(INIT, before), events[n]);
    }
  }

  /** Two overlapping calls: both check their heights, then the higher passes first. */
  function Overtaking(high: int, low: int): seq<Event> {
    Checking(high, low) + Passes()
  }

  function Checking(high: int, low: int): seq<Event> {
    [Call(0, high), CheckHeight(0), Call(1, low), CheckHeight(1)]
  }

  function Passes(): seq<Event> {
    [Swap(0), StoreHeight(0), Finish(0), Swap(1), StoreHeight(1)]
  }

  lemma {:induction false} RunAppend(s: State, a: seq<Event>, b: seq<Event>)
    ensures Run(s, a + b) == Run(Run(s, a), b)
  {
    if b == [] {
      assert a + b == a;
    } else {
      assert (a + b)[..|a + b| - 1] == a + b[..|b| - 1];
      RunAppend(s, a, b[..|b| - 1]);
    }
  }

  lemma BothAreChecked(high: int, low: int)
    requires 0 < low < high
    ensures Run(INIT, Checking(high, low)) ==
            State(false, 0, false, map[0 := Checked(high, 0), 1 := Checked(low, 0)], [])
  {
    var e := Checking(high, low);
    assert e[..3][..2] == e[..2] && e[..2][..1] == e[..1] && e[..1][..0] == [];
    assert Run(INIT, e[..1][..0]) == INIT;
    assert Run(INIT, e[..1]) == INIT.(pcs := map[0 := Opened(high)]);
    assert Run(INIT, e[..2]) == Step(Run(INIT, e[..1]), CheckHeight(0)) == INIT.(pcs := map[0 := Checked(high, 0)]);
    assert Run(INIT, e[..3]) == Step(Run(INIT, e[..2]), Call(1, low));
    assert Run(INIT, e[..3]) == INIT.(pcs := map[0 := Checked(high, 0), 1 := Opened(low)]);
  }

  lemma LowerPassesSecond(s: State)
    requires PcOf(s, 0).Checked? && PcOf(s, 1).Checked? && !s.passInFlight
    ensures Run(s, Passes()).passes == s.passes + [PcOf(s, 0).h] + [PcOf(s, 1).h]
  {
    var e := Passes();
    assert e[..4][..3] == e[..3] && e[..3][..2] == e[..2] && e[..2][..1] == e[..1] && e[..1][..0] == [];
    assert Run(s, e[..1][..0]) == s;
    assert PcOf(Run(s, e[..1]), 0).Won? && PcOf(Run(s, e[..1]), 1) == PcOf(s, 1);
    assert PcOf(Run(s, e[..2]), 0).Passing? && PcOf(Run(s, e[..2]), 1) == PcOf(s, 1);
    assert PcOf(Run(s, e[..3]), 1) == PcOf(s, 1) && !Run(s, e[..3]).passInFlight;
    assert PcOf(Run(s, e[..4]), 1) == Won(PcOf(s, 1).h);
  }

  /** From the start, for any two heights: the lower one's pass runs after the higher one's. */
  lemma OverlappingCallsGoBack(high: int, low: int)
    requires 0 < low < high
    ensures Run(INIT, Overtaking(high, low)).passes == [high, low]
    ensures OverlapAtMost(Overtaking(high, low), 2)
  {
    BothAreChecked(high, low);
    RunAppend(INIT, Checking(high, low), Passes());
    LowerPassesSecond(Run(INIT, Checking(high, low)));
    var e := Overtaking(high, low);
    forall k | 0 <= k <= |e| ensures |Inside(Run(INIT, e[..k]))| <= 2 {
      OnlyCallersAreInside(e[..k], {0, 1});
      SmallerSet(Inside(Run(INIT, e[..k])), {0, 1});
    }
  }

  lemma {:induction false} OnlyCallersAreInside(events: seq<Event>, callers: set<Caller>)
    requires forall i :: 0 <= i < |events| ==> events[i].Close? || events[i].c in callers
    ensures Inside(Run(INIT, events)) <= callers
  {
    if events != [] {
      OnlyCallersAreInside(events[..|events| - 1], callers);
    }
  }

  ghost predicate PassesGoUp(n: int) {
    forall events :: OverlapAtMost(events, n) ==> Ascending(Run(INIT, events).passes)
  }

  /** Passes run at strictly increasing heights in every run if and only if calls never overlap. */
  lemma PassesGoUpExactlyWhenCallsDoNotOverlap(n: int)
    ensures PassesGoUp(n) <==> n <= 1
  {
    if n <= 1 {
      forall events | OverlapAtMost(events, n) ensures Ascending(Run(INIT, events).passes) {
        SerialCallsGoUp(events);
      }
    } else {
      OverlappingCallsGoBack(2, 1);
      var passes := Run(INIT, Overtaking(2, 1)).passes;
      assert passes[0] > passes[1] && !Ascending(passes);
      assert OverlapAtMost(Overtaking(2, 1), n);
    }
  }

  // -- One caller at a time --

  /** A whole call. */
  function WholeCall(height: int): seq<Event> {
    [Call(0, height), CheckHeight(0), Swap(0), StoreHeight(0), Finish(0)]
  }

  lemma WholeCallRuns(s: State, height: int)
    requires PcOf(s, 0).Idle? && !s.passInFlight
    ensures var t := Run(s, WholeCall(height));
            var ran := !s.closed && height > s.lastHeight;
            && t.closed == s.closed && !t.passInFlight && PcOf(t, 0).Idle?
            && t.lastHeight == (if ran then height else s.lastHeight)
            && t.passes == (if ran then s.passes + [height] else s.passes)
  {
    var e := WholeCall(height);
    assert e[..4][..3] == e[..3] && e[..3][..2] == e[..2] && e[..2][..1] == e[..1] && e[..1][..0] == [];
    assert Run(s, e[..1][..0]) == s;
    var s1, s2 := Run(s, e[..1]), Run(s, e[..2]);
    if s.closed || height <= s.lastHeight {
      assert PcOf(s2, 0).Idle? && s2.passes == s.passes && s2.lastHeight == s.lastHeight;
      assert Run(s, e[..3]) == s2 && Run(s, e[..4]) == s2;
    } else {
      assert PcOf(s1, 0) == Opened(height) && PcOf(s2, 0).Checked?;
      assert PcOf(Run(s, e[..3]), 0) == Won(height);
      assert PcOf(Run(s, e[..4]), 0) == Passing(height);
    }
  }

  /** OnBlock as the block loop calls it: each call returns before the next begins. */
  class SerialGate {
    var closed: bool
    var lastHeight: int
    var passInFlight: bool
    var passes: seq<int>
    // The protocol's state after the calls so far.
    ghost var gate: State

    ghost predicate Valid()
      reads this
    {
      && !passInFlight && PcOf(gate, 0).Idle?
      && closed == gate.closed && lastHeight == gate.lastHeight && passInFlight == gate.passInFlight &&
          passes == gate.passes
      && lastHeight == (if passes == [] then 0 else passes[|passes| - 1])
      && (forall i :: 0 <= i < |passes| ==> 0 < passes[i])
      && Ascending(passes)
    }

    constructor ()
      ensures Valid() && passes == [] && !closed && gate == INIT
    {
      closed, lastHeight, passInFlight, passes, gate := false, 0, false, [], INIT;
    }

    /** Passes run at strictly increasing heights; a call is a whole call of the protocol. */
    method OnBlock(height: int) returns (ran: bool)
      requires Valid()
      modifies this
      ensures Valid() && gate == Run(old(gate), WholeCall(height)) && closed == old(closed)
      ensures ran <==> !closed && forall h :: h in old(passes) + [0] ==> h < height
      ensures passes == if ran then old(passes) + [height] else old(passes)
    {
      WholeCallRuns(gate, height);
      gate := Run(gate, WholeCall(height));
      if closed {
        return false;
      }
      assert old(passes) != [] ==> old(passes)[|old(passes)| - 1] in old(passes);
      if height <= lastHeight {
        assert lastHeight in passes + [0];
        return false;
      }
      if passInFlight {
        return false;
      }
      passInFlight := true;
      lastHeight := height;
      passes := passes + [height];
      passInFlight := false;
      return true;
    }

    method Close()
      requires Valid()
      modifies this`closed, this`gate
      ensures Valid() && closed && gate == Step(old(gate), Event.Close)
    {
      closed, gate := true, Step(gate, Event.Close);
    }
  }
}

module ChainOracle {
  import opened Common
  import InclusionReconciler

  type ChainView = InclusionReconciler.ChainView
  type Caller = nat
  type Supplier = string

  /** Where one call of `states` stands. */
  datatype Pc = Start | Waiting | Holding | Fetching | Returned(view: ChainView) | TimedOut | Panicked {
    predicate Inside() { Holding? || Fetching? }
  }

  datatype Call = Call(supplier: Supplier, pc: Pc)

  /**
   One supplier's entry: who holds the one-slot gate, and the remembered answer (an error
   included); and, as history, how many fetches began and how many of them panicked.
   */
  datatype Entry = Entry(gate: Option<Caller>, answer: Option<ChainView>, fetches: nat, panics: nat)

  datatype State = State(entries: map<Supplier, Entry>, calls: map<Caller, Call>)

  datatype Event =
    | Lookup(c: Caller)
    | Enter(c: Caller)
    | GiveUp(c: Caller)
    | ReadAnswer(c: Caller)
    | BeginFetch(c: Caller)
    | EndFetch(c: Caller, view: ChainView)
    | Panic(c: Caller)   // the fetch panics: the gate is released, and nothing is remembered

  function Moved(s: State, c: Caller, pc: Pc): State
    requires c in s.calls
  {
    s.(calls := s.calls[c := s.calls[c].(pc := pc)])
  }

  /** The caller returns `view` and its deferred release empties the gate. */
  function Leave(s: State, c: Caller, entry: Entry, view: ChainView): State
    requires c in s.calls
  {
    Moved(s.(entries := s.entries[s.calls[c].supplier := entry.(gate := None)]), c, Returned(view))
  }

  function Step(s: State, e: Event): State {
    if e.c !in s.calls then s
    else
      var k := s.calls[e.c];
      var known := k.supplier in s.entries;
      match e
      case Lookup(c) =>
        if !k.pc.Start? then s
        else if known then Moved(s, c, Waiting)
        else Moved(s.(entries := s.entries[k.supplier := Entry(None, None, 0, 0)]), c, Waiting)
      case Enter(c) =>
        if k.pc.Waiting? && known && s.entries[k.supplier].gate.None?
        then Moved(s.(entries := s.entries[k.supplier := s.entries[k.supplier].(gate := Some(c))]), c, Holding)
        else s
      case GiveUp(c) =>
        if k.pc.Waiting? then Moved(s, c, TimedOut) else s
      case ReadAnswer(c) =>
        if k.pc.Holding? && known && s.entries[k.supplier].answer.Some?
        then Leave(s, c, s.entries[k.supplier], s.entries[k.supplier].answer.value)
        else s
      case BeginFetch(c) =>
        if k.pc.Holding? && known && s.entries[k.supplier].answer.None?
        then Moved(s.(entries :=
            s.entries[k.supplier := s.entries[k.supplier].(fetches := s.entries[k.supplier].fetches + 1)]), c, Fetching)
        else s
      case EndFetch(c, view) =>
        if k.pc.Fetching? && known
        then Leave(s, c, s.entries[k.supplier].(answer := Some(view)), view)
        else s
      case Panic(c) =>
        if k.pc.Fetching? && known
        then
          var entry := s.entries[k.supplier];
          Moved(s.(entries := s.entries[k.supplier := entry.(gate := None, panics := entry.panics + 1)]), c, Panicked)
        else s
  }

  function Run(s: State, events: seq<Event>): State {
    if events == [] then s else Step(Run(s, events[..|events| - 1]), events[|events| - 1])
  }

  /** A pass begins with no entries and every group's call still to make. */
  function Init(asked: map<Caller, Supplier>): State {
    State(map[], map c | c in asked :: Call(asked[c], Start))
  }

  /** Whether the holder of the gate is fetching. */
  predicate IsFetching(s: State, e: Entry) {
    e.gate.Some? && e.gate.value in s.calls && s.calls[e.gate.value].pc.Fetching?
  }

  ghost predicate EntryInv(s: State, sup: Supplier)
    requires sup in s.entries
  {
    var e := s.entries[sup];
    && e.fetches == e.panics + (if e.answer.Some? || IsFetching(s, e) then 1 else 0)
    && (e.answer.Some? ==> !IsFetching(s, e))
    && (e.gate.Some? ==>
          e.gate.value in s.calls && s.calls[e.gate.value].supplier == sup && s.calls[e.gate.value].pc.Inside())
  }

  ghost predicate CallInv(s: State, c: Caller)
    requires c in s.calls
  {
    var k := s.calls[c];
    && (k.pc.Waiting? || k.pc.Inside() || k.pc.Returned? ==> k.supplier in s.entries)
    && (k.pc.Inside() ==> s.entries[k.supplier].gate == Some(c))
    && (k.pc.Fetching? ==> s.entries[k.supplier].answer.None?)
    && (k.pc.Returned? ==> s.entries[k.supplier].answer == Some(k.pc.view))
  }

  ghost predicate Inv(s: State) {
    && (forall sup :: sup in s.entries ==> EntryInv(s, sup))
    && (forall c :: c in s.calls ==> CallInv(s, c))
  }

  lemma EntryStep(s: State, e: Event, sup: Supplier)
    requires Inv(s) && sup in Step(s, e).entries
    ensures EntryInv(Step(s, e), sup)
  {
    if e.c in s.calls {
      assert CallInv(s, e.c);
    }
    if sup in s.entries {
      assert EntryInv(s, sup);
      assert s.entries[sup].gate.Some? ==> CallInv(s, s.entries[sup].gate.value);
    }
  }

  lemma CallStep(s: State, e: Event, c: Caller)
    requires Inv(s) && c in Step(s, e).calls
    ensures CallInv(Step(s, e), c)
  {
    assert CallInv(s, c);
    if e.c in s.calls {
      assert CallInv(s, e.c);
    }
    if s.calls[c].supplier in s.entries {
      assert EntryInv(s, s.calls[c].supplier);
    }
  }

  lemma InvStep(s: State, e: Event)
    requires Inv(s)
    ensures Inv(Step(s, e))
  {
    var t := Step(s, e);
    forall sup | sup in t.entries ensures EntryInv(t, sup) {
      EntryStep(s, e, sup);
    }
    forall c | c in t.calls ensures CallInv(t, c) {
      CallStep(s, e, c);
    }
  }

  lemma {:induction false} InvHolds(asked: map<Caller, Supplier>, events: seq<Event>)
    ensures Inv(Run(Init(asked), events))
    ensures Run(Init(asked), events).calls.Keys == asked.Keys
    ensures forall c :: c in asked ==> Run(Init(asked), events).calls[c].supplier == asked[c]
  {
    if events != [] {
      InvHolds(asked, events[..|events| - 1]);
      InvStep(Run(Init(asked), events[..|events| - 1]), events[|events| - 1]);
    }
  }

  /** Two calls about one supplier that both got an answer rather than their own timeout. */
  predicate SameQuestion(a: Call, b: Call) {
    a.supplier == b.supplier && a.pc.Returned? && b.pc.Returned?
  }

  ghost predicate NoPanic(events: seq<Event>) {
    forall i :: 0 <= i < |events| ==> !events[i].Panic?
  }

  ghost predicate NonePanicked(s: State) {
    forall sup :: sup in s.entries ==> s.entries[sup].panics == 0
  }

  lemma PanicsStep(s: State, e: Event)
    requires !e.Panic? && NonePanicked(s)
    ensures NonePanicked(Step(s, e))
  {
  }

  lemma {:induction false} NoPanicIsCounted(asked: map<Caller, Supplier>, events: seq<Event>)
    requires NoPanic(events)
    ensures NonePanicked(Run(Init(asked), events))
  {
    if events != [] {
      var n := |events| - 1;
      assert forall i :: 0 <= i < n ==> events[..n][i] == events[i];
      NoPanicIsCounted(asked, events[..n]);
      PanicsStep(Run(Init(asked), events[..n]), events[n]);
    }
  }

  /**
   Whatever the interleaving and the timeouts: one fetch per supplier, and one more for each that
   panicked; and one answer for everyone who gets one.
   */
  lemma OneFetchOneAnswer(asked: map<Caller, Supplier>, events: seq<Event>)
    ensures var s := Run(Init(asked), events);
            && (forall sup :: sup in s.entries ==> s.entries[sup].fetches <= 1 + s.entries[sup].panics)
            && (NoPanic(events) ==> forall sup :: sup in s.entries ==> s.entries[sup].fetches <= 1)
            && (forall c, d :: c in s.calls && d in s.calls && SameQuestion(s.calls[c], s.calls[d]) ==>
                  s.calls[c].pc.view == s.calls[d].pc.view)
  {
    InvHolds(asked, events);
    var s := Run(Init(asked), events);
    forall sup | sup in s.entries
      ensures s.entries[sup].fetches <= 1 + s.entries[sup].panics
    {
      assert EntryInv(s, sup);
    }
    if NoPanic(events) {
      NoPanicIsCounted(asked, events);
    }
    forall c, d | c in s.calls && d in s.calls && SameQuestion(s.calls[c], s.calls[d])
      ensures s.calls[c].pc.view == s.calls[d].pc.view
    {
      assert CallInv(s, c) && CallInv(s, d);
    }
  }

  /** Two callers of one supplier, of whom the first panics while it fetches. */
  const TWO_CALLERS: map<Caller, Supplier> := map[0 := "s", 1 := "s"]
  const FIRST_PANICS: seq<Event> := [Lookup(0), Enter(0), BeginFetch(0), Panic(0)]
  const SECOND_FETCHES: seq<Event> := [Lookup(1), Enter(1), BeginFetch(1)]

  /** The first caller at `pc`, the second not yet started. */
  function Alone(entry: Entry, pc: Pc): State {
    State(map["s" := entry], map[0 := Call("s", pc), 1 := Call("s", Start)])
  }

  lemma FirstEnters()
    ensures Step(Init(TWO_CALLERS), Lookup(0)) == Alone(Entry(None, None, 0, 0), Waiting)
    ensures Step(Alone(Entry(None, None, 0, 0), Waiting), Enter(0)) == Alone(Entry(Some(0), None, 0, 0), Holding)
  {
    assert Init(TWO_CALLERS) == State(map[], map[0 := Call("s", Start), 1 := Call("s", Start)]);
  }

  lemma FirstFetches()
    ensures Step(Alone(Entry(Some(0), None, 0, 0), Holding), BeginFetch(0)) ==
            Alone(Entry(Some(0), None, 1, 0), Fetching)
    ensures Step(Alone(Entry(Some(0), None, 1, 0), Fetching), Panic(0)) == Alone(Entry(None, None, 1, 1), Panicked)
  {
  }

  lemma {:induction false} RunOneMore(s: State, events: seq<Event>, e: Event)
    ensures Run(s, events + [e]) == Step(Run(s, events), e)
  {
    assert (events + [e])[..|events|] == events;
  }

  lemma {:induction false} FirstPanics()
    ensures Run(Init(TWO_CALLERS), FIRST_PANICS) == Alone(Entry(None, None, 1, 1), Panicked)
  {
    var s := Init(TWO_CALLERS);
    FirstEnters();
    FirstFetches();
    RunOneMore(s, [], Lookup(0));
    RunOneMore(s, [] + [Lookup(0)], Enter(0));
    RunOneMore(s, [] + [Lookup(0)] + [Enter(0)], BeginFetch(0));
    RunOneMore(s, [] + [Lookup(0)] + [Enter(0)] + [BeginFetch(0)], Panic(0));
    assert FIRST_PANICS == [] + [Lookup(0)] + [Enter(0)] + [BeginFetch(0)] + [Panic(0)];
  }

  lemma SecondFetches(s: State)
    requires s.entries == map["s" := Entry(None, None, 1, 1)] && 1 in s.calls && s.calls[1] == Call("s", Start)
    ensures "s" in Run(s, SECOND_FETCHES).entries && Run(s, SECOND_FETCHES).entries["s"].fetches == 2
  {
    var e := SECOND_FETCHES;
    assert e[..2][..1] == e[..1] && e[..1][..0] == [];
    assert Run(s, e[..1][..0]) == s;
    var s1, s2 := Run(s, e[..1]), Run(s, e[..2]);
    assert s1.entries == s.entries && s1.calls == s.calls[1 := Call("s", Waiting)];
    assert s2.entries == map["s" := Entry(Some(1), None, 1, 1)] && s2.calls == s.calls[1 := Call("s", Holding)];
  }

  lemma {:induction false} RunAppend(s: State, a: seq<Event>, b: seq<Event>)
    ensures Run(s, a + b) == Run(Run(s, a), b)
  {
    if b == [] {
      assert a + b == a;
    } else {
      assert (a + b)[..|a + b| - 1] == a + b[..|b| - 1];
      RunAppend(s, a, b[..|b| - 1]);
    }
  }

  ghost predicate FetchesOnce(asked: map<Caller, Supplier>, events: seq<Event>) {
    var s := Run(Init(asked), events);
    forall sup :: sup in s.entries ==> s.entries[sup].fetches <= 1
  }

  ghost predicate AlwaysFetchesOnce(panics: bool) {
    forall asked, events :: panics || NoPanic(events) ==> FetchesOnce(asked, events)
  }

  /** One fetch per supplier over all runs if and only if no fetch panics. */
  lemma OneFetchExactlyWithoutPanics(panics: bool)
    ensures AlwaysFetchesOnce(panics) <==> !panics
  {
    if panics {
      FirstPanics();
      SecondFetches(Run(Init(TWO_CALLERS), FIRST_PANICS));
      RunAppend(Init(TWO_CALLERS), FIRST_PANICS, SECOND_FETCHES);
      assert !FetchesOnce(TWO_CALLERS, FIRST_PANICS + SECOND_FETCHES);
    } else {
      forall asked, events | NoPanic(events) ensures FetchesOnce(asked, events) {
        OneFetchOneAnswer(asked, events);
      }
    }
  }

  /** A waiter whose own time is up gives up, and leaves the gate and the answer to the others. */
  lemma WaiterMayGiveUp(s: State, c: Caller)
    requires c in s.calls && s.calls[c].pc.Waiting?
    ensures Step(s, GiveUp(c)) == s.(calls := s.calls[c := Call(s.calls[c].supplier, TimedOut)])
  {
  }

  /** No caller is stranded: with the gate empty a waiter gets the remembered answer, or fetches it. */
  lemma WaiterGetsAnAnswer(asked: map<Caller, Supplier>, events: seq<Event>, c: Caller, view: ChainView)
    requires var s := Run(Init(asked), events);
             c in s.calls && s.calls[c].pc.Waiting? && s.calls[c].supplier in s.entries &&
             s.entries[s.calls[c].supplier].gate.None?
    ensures var s := Run(Init(asked), events);
            var known := s.entries[s.calls[c].supplier].answer;
            if known.Some? then Step(Step(s, Enter(c)), ReadAnswer(c)).calls[c].pc == Returned(known.value)
            else Step(Step(Step(s, Enter(c)), BeginFetch(c)), EndFetch(c, view)).calls[c].pc == Returned(view)
  {
  }
}

/**
 The consumer side of the block pipeline (`cache/redis_block_client_adapter.go`,
 `cache/block_subscriber.go`): the adapter's compare-and-swap on the held block in
 every interleaving of event loop, poll and startup seed.
 */
module AdapterRaces {
  import opened Common

  type Thread = nat
  // A block reference: 0 is nil, p > 0 is heap[p - 1]. Blocks are never changed once allocated.
  type Ptr = nat

  datatype Kind = Delivery | Seed

  datatype Pc =
    | Idle
    | Queued(h: int)                                // a delivery waiting for the delivery mutex
    | Ready(kind: Kind, next: Ptr)                  // about to load the held block
    | Loaded(kind: Kind, next: Ptr, current: Ptr)   // about to compare and swap
    | Taken(next: Ptr)                              // a delivery whose height was taken, about to forward it
  {
    /** Inside the delivery mutex. */
    predicate Locked() {
      Taken? || ((Ready? || Loaded?) && kind.Delivery?)
    }
    predicate Refers() {
      Ready? || Loaded? || Taken?
    }
  }

  datatype State = State(
    held: Ptr, heap: seq<int>, mutex: Option<Thread>, pcs: map<Thread, Pc>,
    taken: seq<int>,       // heights that moved the adapter, in order
    forwarded: seq<int>,   // heights sent to the consumers, in order
    answered: seq<int>)    // heights of every call that has finished, taken or ignored

  datatype Event =
    | Deliver(t: Thread, h: int)
    | SeedHeight(t: Thread, h: int)
    | Lock(t: Thread)
    | Load(t: Thread)
    | Swap(t: Thread)
    | Forward(t: Thread)

  function PcOf(s: State, t: Thread): Pc {
    if t in s.pcs then s.pcs[t] else Idle
  }

  function HeightAt(s: State, p: Ptr): int {
    if 0 < p <= |s.heap| then s.heap[p - 1] else 0
  }

  function Begin(s: State, t: Thread, kind: Kind, h: int): State {
    s.(heap := s.heap + [h], pcs := s.pcs[t := Ready(kind, |s.heap| + 1)])
  }

  /** The call returns; a delivery releases the mutex. */
  function Return(s: State, t: Thread, kind: Kind, h: int): State {
    s.(pcs := s.pcs[t := Idle], mutex := if kind.Delivery? then None else s.mutex, answered := s.answered + [h])
  }

  function Step(s: State, e: Event): State {
    match e
    case Deliver(t, h) => if PcOf(s, t).Idle? then s.(pcs := s.pcs[t := Queued(h)]) else s
    case SeedHeight(t, h) => if PcOf(s, t).Idle? then Begin(s, t, Seed, h) else s
    case Lock(t) =>
      if PcOf(s, t).Queued? && s.mutex.None? then Begin(s.(mutex := Some(t)), t, Delivery, PcOf(s, t).h) else s
    case Load(t) =>
      (match PcOf(s, t)
       case Ready(kind, next) => s.(pcs := s.pcs[t := Loaded(kind, next, s.held)])
       case _ => s)
    case Swap(t) =>
      (match PcOf(s, t)
       case Loaded(kind, next, current) =>
         var h := HeightAt(s, next);
         if h <= HeightAt(s, current) then Return(s, t, kind, h)
         else if s.held != current then s.(pcs := s.pcs[t := Ready(kind, next)])
         else
           var moved := s.(held := next, taken := s.taken + [h]);
           if kind.Seed? then Return(moved, t, kind, h) else moved.(pcs := s.pcs[t := Taken(next)])
       case _ => s)
    case Forward(t) =>
      (match PcOf(s, t)
       case Taken(next) => Return(s.(forwarded := s.forwarded + [HeightAt(s, next)]), t, Delivery, HeightAt(s, next))
       case _ => s)
  }

  function Run(s: State, events: seq<Event>): State {
    if events == [] then s else Step(Run(s, events[..|events| - 1]), events[|events| - 1])
  }

  const INIT := State(0, [], None, map[], [], [], [])

  ghost predicate Ascending(s: seq<int>) {
    forall i, j :: 0 <= i < j < |s| ==> s[i] < s[j]
  }

  ghost predicate AtMost(s: seq<int>, bound: int) {
    forall i :: 0 <= i < |s| ==> s[i] <= bound
  }

  ghost predicate Pointers(s: State) {
    && s.held <= |s.heap|
    && (forall t :: t in s.pcs && s.pcs[t].Refers() ==> 0 < s.pcs[t].next <= |s.heap|)
    && (forall t :: t in s.pcs && s.pcs[t].Loaded? ==> s.pcs[t].current <= |s.heap|)
  }

  ghost predicate LoadedBelow(s: State) {
    forall t :: t in s.pcs && s.pcs[t].Loaded? ==> HeightAt(s, s.pcs[t].current) <= HeightAt(s, s.held)
  }

  ghost predicate Exclusive(s: State) {
    forall t :: t in s.pcs && s.pcs[t].Locked() ==> s.mutex == Some(t)
  }

  ghost predicate Heights(s: State) {
    var top := HeightAt(s, s.held);
    && top >= 0
    && Ascending(s.taken) && AtMost(s.taken, top) && (s.taken != [] ==> s.taken[|s.taken| - 1] == top > 0)
    && (s.taken == [] ==> top == 0)
    && Ascending(s.forwarded) && AtMost(s.forwarded, top)
    && AtMost(s.answered, top)
  }

  ghost predicate TakenNext(s: State) {
    forall t :: t in s.pcs && s.pcs[t].Taken? ==>
      HeightAt(s, s.pcs[t].next) <= HeightAt(s, s.held) &&
      forall i :: 0 <= i < |s.forwarded| ==> s.forwarded[i] < HeightAt(s, s.pcs[t].next)
  }

  ghost predicate Inv(s: State) {
    Pointers(s) && LoadedBelow(s) && Exclusive(s) && Heights(s) && TakenNext(s)
  }

  /** A step leaves every other thread and every allocated block alone. */
  lemma StepFrame(s: State, e: Event)
    ensures var t := Step(s, e);
            && s.heap <= t.heap
            && (forall p: Ptr :: p <= |s.heap| ==> HeightAt(t, p) == HeightAt(s, p))
            && (forall x :: x in t.pcs && x != e.t ==> x in s.pcs && s.pcs[x] == t.pcs[x])
  {
  }

  lemma PointersStep(s: State, e: Event)
    requires Inv(s)
    ensures Pointers(Step(s, e))
  {
    StepFrame(s, e);
    var t := Step(s, e);
    forall x | x in t.pcs && t.pcs[x].Refers()
      ensures 0 < t.pcs[x].next <= |t.heap|
    {
      assert x != e.t ==> s.pcs[x].Refers();
    }
    forall x | x in t.pcs && t.pcs[x].Loaded?
      ensures t.pcs[x].current <= |t.heap|
    {
      assert x != e.t ==> s.pcs[x].Loaded?;
    }
  }

  lemma ExclusiveStep(s: State, e: Event)
    requires Inv(s)
    ensures Exclusive(Step(s, e))
  {
    StepFrame(s, e);
    var t := Step(s, e);
    forall x | x in t.pcs && t.pcs[x].Locked()
      ensures t.mutex == Some(x)
    {
      if x != e.t {
        assert s.pcs[x].Locked() && s.mutex == Some(x);
        assert !PcOf(s, e.t).Locked();
      }
    }
  }

  /** The held height never goes down, so what was loaded is never above it. */
  lemma LoadedStep(s: State, e: Event)
    requires Inv(s)
    ensures LoadedBelow(Step(s, e))
  {
    StepFrame(s, e);
    var t := Step(s, e);
    assert HeightAt(s, s.held) <= HeightAt(t, t.held);
    forall x | x in t.pcs && t.pcs[x].Loaded?
      ensures HeightAt(t, t.pcs[x].current) <= HeightAt(t, t.held)
    {
      if x != e.t {
        assert s.pcs[x].Loaded?;
      }
    }
  }

  lemma HeightsStep(s: State, e: Event)
    requires Inv(s)
    ensures Heights(Step(s, e))
  {
    StepFrame(s, e);
    if e.Swap? && PcOf(s, e.t).Loaded? {
      SwapHeights(s, e.t);
    }
  }

  lemma SwapHeights(s: State, t: Thread)
    requires Inv(s) && PcOf(s, t).Loaded?
    ensures Heights(Step(s, Swap(t)))
  {
    var pc, r := PcOf(s, t), Step(s, Swap(t));
    var h, top := HeightAt(s, pc.next), HeightAt(s, s.held);
    if h <= HeightAt(s, pc.current) {
      Appended(s.answered, top, h);
    } else if s.held == pc.current {
      assert HeightAt(r, r.held) == h;
      Appended(s.taken, top, h);
      Appended(s.answered, top, h);
    }
  }

  lemma Appended(s: seq<int>, bound: int, x: int)
    requires AtMost(s, bound)
    ensures AtMost(s + [x], Max(bound, x)) && AtMost(s, Max(bound, x))
    ensures Ascending(s) && bound < x ==> Ascending(s + [x])
  {
  }

  /** While another thread is between taking and forwarding, nobody else forwards, and the held height stands. */
  lemma TakenNextOfOther(s: State, e: Event, x: Thread)
    requires Inv(s) && x in Step(s, e).pcs && Step(s, e).pcs[x].Taken? && x != e.t
    ensures var t := Step(s, e);
            && HeightAt(t, t.pcs[x].next) <= HeightAt(t, t.held)
            && forall i :: 0 <= i < |t.forwarded| ==> t.forwarded[i] < HeightAt(t, t.pcs[x].next)
  {
    StepFrame(s, e);
    assert s.pcs[x].Taken? && s.mutex == Some(x);
    assert !(e.Forward? && PcOf(s, e.t).Taken?);
  }

  lemma TakenNextOfOwn(s: State, e: Event)
    requires Inv(s) && e.t in Step(s, e).pcs && Step(s, e).pcs[e.t].Taken?
    ensures var t := Step(s, e);
            && HeightAt(t, t.pcs[e.t].next) <= HeightAt(t, t.held)
            && forall i :: 0 <= i < |t.forwarded| ==> t.forwarded[i] < HeightAt(t, t.pcs[e.t].next)
  {
    StepFrame(s, e);
  }

  lemma TakenNextStep(s: State, e: Event)
    requires Inv(s)
    ensures TakenNext(Step(s, e))
  {
    var t := Step(s, e);
    forall x | x in t.pcs && t.pcs[x].Taken?
      ensures HeightAt(t, t.pcs[x].next) <= HeightAt(t, t.held)
      ensures forall i :: 0 <= i < |t.forwarded| ==> t.forwarded[i] < HeightAt(t, t.pcs[x].next)
    {
      if x != e.t {
        TakenNextOfOther(s, e, x);
      } else {
        TakenNextOfOwn(s, e);
      }
    }
  }

  lemma InvStep(s: State, e: Event)
    requires Inv(s)
    ensures Inv(Step(s, e))
  {
    PointersStep(s, e);
    LoadedStep(s, e);
    ExclusiveStep(s, e);
    HeightsStep(s, e);
    TakenNextStep(s, e);
  }

  lemma {:induction false} InvHolds(events: seq<Event>)
    ensures Inv(Run(INIT, events))
  {
    if events != [] {
      InvHolds(events[..|events| - 1]);
      InvStep(Run(INIT, events[..|events| - 1]), events[|events| - 1]);
    }
  }

  /**
   For any interleaving of deliveries, polls and seeds, with repeated, lost or reordered
   heights: the adapter holds the highest height it ever took, at least every height it
   was offered and answered, and what it forwards goes strictly up.
   */
  lemma AdapterNeverGoesBack(events: seq<Event>)
    ensures var s := Run(INIT, events);
            var top := HeightAt(s, s.held);
            && Ascending(s.taken) && top == (if s.taken == [] then 0 else s.taken[|s.taken| - 1])
            && AtMost(s.answered, top)
            && Ascending(s.forwarded) && AtMost(s.forwarded, top)
  {
    InvHolds(events);
  }

  /** A call overtaken between its load and its swap starts over from the load, and nothing else changes. */
  lemma OvertakenCallStartsOver(s: State, t: Thread)
    requires PcOf(s, t).Loaded? && s.held != PcOf(s, t).current
    requires HeightAt(s, PcOf(s, t).next) > HeightAt(s, PcOf(s, t).current)
    ensures Step(s, Swap(t)) == s.(pcs := s.pcs[t := Ready(PcOf(s, t).kind, PcOf(s, t).next)])
  {
  }

  /** A thread takes one call at a time, and a delivery waits for the one before it. */
  lemma OneCallAtATime(s: State, t: Thread, h: int)
    ensures !PcOf(s, t).Idle? ==> Step(s, Deliver(t, h)) == s && Step(s, SeedHeight(t, h)) == s
    ensures s.mutex.Some? ==> Step(s, Lock(t)) == s
  {
  }

  // -- Calls that nothing overtakes --

  function WholeDelivery(t: Thread, h: int): seq<Event> {
    [Deliver(t, h), Lock(t), Load(t), Swap(t), Forward(t)]
  }

  function WholeSeed(t: Thread, h: int): seq<Event> {
    [SeedHeight(t, h), Load(t), Swap(t)]
  }

  lemma {:induction false} InvRuns(s: State, events: seq<Event>)
    requires Inv(s)
    ensures Inv(Run(s, events))
  {
    if events != [] {
      InvRuns(s, events[..|events| - 1]);
      InvStep(Run(s, events[..|events| - 1]), events[|events| - 1]);
    }
  }

  /** A delivery with its height allocated and the held block loaded. */
  function LoadedDelivery(s: State, t: Thread, h: int): State {
    s.(heap := s.heap + [h], mutex := Some(t), pcs := s.pcs[t := Loaded(Delivery, |s.heap| + 1, s.held)])
  }

  lemma DeliveryLoads(s: State, t: Thread, h: int)
    requires PcOf(s, t).Idle? && s.mutex.None?
    ensures Run(s, WholeDelivery(t, h)[..3]) == LoadedDelivery(s, t, h)
  {
    var e := WholeDelivery(t, h);
    assert e[..3][..2] == e[..2] && e[..2][..1] == e[..1] && e[..1][..0] == [];
    assert Run(s, e[..1][..0]) == s;
    assert Run(s, e[..1]) == s.(pcs := s.pcs[t := Queued(h)]);
    assert Run(s, e[..2]) ==
        s.(heap := s.heap + [h], mutex := Some(t), pcs := s.pcs[t := Ready(Delivery, |s.heap| + 1)]);
  }

  lemma LoadedDeliveryEnds(s: State, t: Thread, h: int)
    requires s.held <= |s.heap|
    ensures var d := Step(Step(LoadedDelivery(s, t, h), Swap(t)), Forward(t));
            var higher := h > HeightAt(s, s.held);
            && PcOf(d, t).Idle? && d.mutex.None?
            && HeightAt(d, d.held) == Max(HeightAt(s, s.held), h)
            && d.forwarded == (if higher then s.forwarded + [h] else s.forwarded)
            && d.taken == (if higher then s.taken + [h] else s.taken)
            && d.answered == s.answered + [h]
  {
    var b := LoadedDelivery(s, t, h);
    assert HeightAt(b, s.held) == HeightAt(s, s.held) && HeightAt(b, |s.heap| + 1) == h;
  }

  /**
   A delivery is taken and forwarded exactly when it is higher, and otherwise leaves the height and
   the consumers alone.
   */
  lemma DeliveryIsForwardedExactlyWhenHigher(s: State, t: Thread, h: int)
    requires Inv(s) && PcOf(s, t).Idle? && s.mutex.None?
    ensures var d := Run(s, WholeDelivery(t, h));
            var higher := h > HeightAt(s, s.held);
            && Inv(d) && PcOf(d, t).Idle? && d.mutex.None?
            && HeightAt(d, d.held) == Max(HeightAt(s, s.held), h)
            && d.forwarded == (if higher then s.forwarded + [h] else s.forwarded)
            && d.taken == (if higher then s.taken + [h] else s.taken)
            && d.answered == s.answered + [h]
  {
    var e := WholeDelivery(t, h);
    InvRuns(s, e);
    assert e[..4][..3] == e[..3];
    DeliveryLoads(s, t, h);
    LoadedDeliveryEnds(s, t, h);
    assert Run(s, e[..4]) == Step(LoadedDelivery(s, t, h), Swap(t));
    assert Run(s, e) == Step(Run(s, e[..4]), Forward(t));
  }

  /** A seed with its height allocated and the held block loaded. */
  function LoadedSeed(s: State, t: Thread, h: int): State {
    s.(heap := s.heap + [h], pcs := s.pcs[t := Loaded(Seed, |s.heap| + 1, s.held)])
  }

  lemma SeedLoads(s: State, t: Thread, h: int)
    requires PcOf(s, t).Idle?
    ensures Run(s, WholeSeed(t, h)[..2]) == LoadedSeed(s, t, h)
  {
    var e := WholeSeed(t, h);
    assert e[..2][..1] == e[..1] && e[..1][..0] == [];
    assert Run(s, e[..1][..0]) == s;
    assert Run(s, e[..1]) == s.(heap := s.heap + [h], pcs := s.pcs[t := Ready(Seed, |s.heap| + 1)]);
  }

  lemma LoadedSeedEnds(s: State, t: Thread, h: int)
    requires s.held <= |s.heap|
    ensures var d := Step(LoadedSeed(s, t, h), Swap(t));
            && PcOf(d, t).Idle? && d.mutex == s.mutex && d.forwarded == s.forwarded
            && HeightAt(d, d.held) == Max(HeightAt(s, s.held), h)
            && d.taken == (if h > HeightAt(s, s.held) then s.taken + [h] else s.taken)
            && d.answered == s.answered + [h]
  {
    var b := LoadedSeed(s, t, h);
    assert HeightAt(b, s.held) == HeightAt(s, s.held) && HeightAt(b, |s.heap| + 1) == h;
  }

  /** A seed is held exactly when it is higher, and is forwarded to nobody. */
  lemma SeedIsHeldExactlyWhenHigher(s: State, t: Thread, h: int)
    requires Inv(s) && PcOf(s, t).Idle?
    ensures var d := Run(s, WholeSeed(t, h));
            && Inv(d) && PcOf(d, t).Idle? && d.mutex == s.mutex
            && HeightAt(d, d.held) == Max(HeightAt(s, s.held), h)
            && d.forwarded == s.forwarded
            && d.taken == (if h > HeightAt(s, s.held) then s.taken + [h] else s.taken)
            && d.answered == s.answered + [h]
  {
    InvRuns(s, WholeSeed(t, h));
    SeedLoads(s, t, h);
    LoadedSeedEnds(s, t, h);
    assert Run(s, WholeSeed(t, h)) == Step(LoadedSeed(s, t, h), Swap(t));
  }

  lemma {:induction false} RunAppend(s: State, a: seq<Event>, b: seq<Event>)
    ensures Run(s, a + b) == Run(Run(s, a), b)
  {
    if b == [] {
      assert a + b == a;
    } else {
      assert (a + b)[..|a + b| - 1] == a + b[..|b| - 1];
      RunAppend(s, a, b[..|b| - 1]);
    }
  }

  /** Nothing of the thread is under way, and the delivery mutex is free. */
  predicate Rests(s: State, t: Thread) {
    PcOf(s, t).Idle? && s.mutex.None?
  }

  function HeldHeight(s: State): int {
    HeightAt(s, s.held)
  }

  /** One more delivery after a run that left nothing under way. */
  lemma OneMoreDelivery(calls: seq<Event>, t: Thread, h: int)
    requires Rests(Run(INIT, calls), t)
    ensures var s, d := Run(INIT, calls), Run(INIT, calls + WholeDelivery(t, h));
            && Rests(d, t) && HeldHeight(d) == Max(HeldHeight(s), h)
            && d.forwarded == if h > HeldHeight(s) then s.forwarded + [h] else s.forwarded
  {
    InvHolds(calls);
    RunAppend(INIT, calls, WholeDelivery(t, h));
    DeliveryIsForwardedExactlyWhenHigher(Run(INIT, calls), t, h);
  }

  /** One more seed after such a run. */
  lemma OneMoreSeed(calls: seq<Event>, t: Thread, h: int)
    requires Rests(Run(INIT, calls), t)
    ensures var s, d := Run(INIT, calls), Run(INIT, calls + WholeSeed(t, h));
            Rests(d, t) && HeldHeight(d) == Max(HeldHeight(s), h) && d.forwarded == s.forwarded
  {
    InvHolds(calls);
    RunAppend(INIT, calls, WholeSeed(t, h));
    SeedIsHeldExactlyWhenHigher(Run(INIT, calls), t, h);
  }
}

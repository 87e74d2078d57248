/**
 The leader's single reader of blocks (`client/block_subscriber.go`): heights
 reported by two racing sources, read in order, published once each, with a bounded
 catch-up and a bounded number of failures per height.
 */
module BlockFeed {
  import opened Common

  newtype byte = b: int | 0 <= b < 256
  type Bytes = seq<byte>

  // Passes that may fail to read a height, for a reason other than "not yet", before it is skipped.
  const MAX_READ_FAILURES := 10
  // Missing heights one pass reads at most; past it the oldest are skipped.
  const MAX_CATCH_UP_BLOCKS := 64

  datatype Block = Block(height: int, hash: Bytes, time: int)

  /** What the node answers to a read of one height. */
  datatype NodeReply = Failure(notYet: bool) | NoBlock | Reply(height: int, hash: Bytes, time: int)

  datatype Read = Got(block: Block) | NotYet | Failed

  /** A reply counts as the block only when it is the height asked for, with a hash. */
  function ReadBlock(reply: NodeReply, height: int): (r: Read)
    ensures r.Got? <==> reply.Reply? && reply.height == height && reply.hash != []
    ensures r.Got? ==> r.block == Block(height, reply.hash, reply.time)
    ensures r.NotYet? <==> reply == Failure(true)
  {
    match reply
    case Failure(notYet) => if notYet then NotYet else Failed
    case NoBlock => Failed
    case Reply(h, hash, time) => if h != height || hash == [] then Failed else Got(Block(h, hash, time))
  }

  /** Why a pass ended. */
  datatype PassEnd = CaughtUp | WaitsFor(height: int) | HeldBy(height: int)

  /** A pass that jumped over the heights `from..to` because `target` was reported. */
  datatype Jump = Jump(from: int, to: int, target: int)

  /******* Reading the log of failed reads *******/

  /** How many entries at the end of the log are equal. */
  function TrailingRun(log: seq<int>): nat {
    if log == [] then 0
    else if |log| >= 2 && log[|log| - 2] == log[|log| - 1] then 1 + TrailingRun(log[..|log| - 1])
    else 1
  }

  /** Exactly that many: they are all equal to the last, and the entry before them is not. */
  lemma {:induction false} TrailingRunIsExact(log: seq<int>)
    ensures TrailingRun(log) <= |log| && (log != [] ==> TrailingRun(log) > 0)
    ensures forall i :: |log| - TrailingRun(log) <= i < |log| ==> log[i] == log[|log| - 1]
    ensures TrailingRun(log) < |log| ==> log[|log| - TrailingRun(log) - 1] != log[|log| - 1]
  {
    if |log| >= 2 {
      TrailingRunIsExact(log[..|log| - 1]);
    }
  }

  lemma {:induction false} TrailingRunGrows(log: seq<int>, h: int)
    ensures TrailingRun(log + [h]) == if log != [] && log[|log| - 1] == h then TrailingRun(log) + 1 else 1
  {
    var longer := log + [h];
    assert longer[..|longer| - 1] == log && longer[|longer| - 1] == h;
    assert log != [] ==> longer[|longer| - 2] == log[|log| - 1];
  }

  /** The failure count of a height after one more failed read of it. */
  function HeldFor(failingHeight: int, failures: int, height: int): int {
    if failingHeight == height then failures + 1 else 1
  }

  /** Starting at `p`, exactly ten failed reads in a row were of height `h`. */
  predicate TenInARow(log: seq<int>, p: int, h: int) {
    && 0 <= p && p + MAX_READ_FAILURES <= |log|
    && (forall i :: p <= i < p + MAX_READ_FAILURES ==> log[i] == h)
    && (p > 0 ==> log[p - 1] != h)
    && (p + MAX_READ_FAILURES < |log| ==> log[p + MAX_READ_FAILURES] != h)
  }

  /** Since `mark`, the height's failed reads are all in the run of ten that starts at `p`. */
  predicate OnlyInRun(log: seq<int>, mark: int, p: int, h: int) {
    forall i :: Max(0, mark) <= i < |log| && log[i] == h ==> p <= i < p + MAX_READ_FAILURES
  }

  /**
   Ten failed reads in a row, the last of them since `mark` unless it is of the first height of
   all, and no other since.
   */
  ghost predicate GaveUpOn(log: seq<int>, mark: int, first: int, h: int) {
    exists p :: TenInARow(log, p, h) && OnlyInRun(log, mark, p, h) && (mark < p + MAX_READ_FAILURES || h == first)
  }

  ghost predicate NeverDown(log: seq<int>, mark: int) {
    forall i, j :: Max(0, mark) <= i < j < |log| ==> log[i] <= log[j]
  }

  lemma NeverDownOneMore(log: seq<int>, mark: nat, h: int)
    requires NeverDown(log, mark) && forall i :: mark <= i < |log| ==> log[i] <= h
    ensures NeverDown(log + [h], mark) && forall i :: mark <= i < |log + [h]| ==> (log + [h])[i] <= h
  {
  }

  /** A last run of ten is ten in a row, and all there is when failed heights never go down. */
  lemma TenthFailure(log: seq<int>, mark: int, first: int, h: int)
    requires log != [] && log[|log| - 1] == h && TrailingRun(log) == MAX_READ_FAILURES && NeverDown(log, mark)
    requires mark < |log| || h == first
    ensures GaveUpOn(log, mark, first, h)
  {
    TrailingRunIsExact(log);
    var p := |log| - MAX_READ_FAILURES;
    assert TenInARow(log, p, h);
    forall i | Max(0, mark) <= i < p ensures log[i] != h {
      assert i < p - 1 ==> log[i] <= log[p - 1];
      assert log[p - 1] <= log[p];
    }
    assert OnlyInRun(log, mark, p, h);
  }

  /** One more failed read, at a height not below the earlier ones since `mark`. */
  lemma CountedFailure(log: seq<int>, mark: nat, first: int, h: int)
    requires NeverDown(log, mark) && forall i :: mark <= i < |log| ==> log[i] <= h
    requires mark <= |log| || h == first
    ensures var more := log + [h];
            && TrailingRun(more) == (if log != [] && log[|log| - 1] == h then TrailingRun(log) + 1 else 1)
            && NeverDown(more, mark) && (forall i :: mark <= i < |more| ==> more[i] <= h)
            && (TrailingRun(more) == MAX_READ_FAILURES ==> GaveUpOn(more, mark, first, h))
  {
    TrailingRunGrows(log, h);
    NeverDownOneMore(log, mark, h);
    if TrailingRun(log + [h]) == MAX_READ_FAILURES {
      TenthFailure(log + [h], mark, first, h);
    }
  }

  lemma GaveUpStays(log: seq<int>, mark: int, first: int, h: int, x: int)
    requires GaveUpOn(log, mark, first, h) && x != h
    ensures GaveUpOn(log + [x], mark, first, h)
  {
    var p :| TenInARow(log, p, h) && OnlyInRun(log, mark, p, h) && (mark < p + MAX_READ_FAILURES || h == first);
    assert TenInARow(log + [x], p, h) && OnlyInRun(log + [x], mark, p, h);
  }

  ghost predicate Published(published: seq<Block>, h: int) {
    exists i :: 0 <= i < |published| && published[i].height == h
  }

  /** The height was at least 64 below a reported one when a pass jumped over it. */
  ghost predicate JumpedOver(jumps: seq<Jump>, h: int) {
    exists i :: 0 <= i < |jumps| && jumps[i].from <= h && h + 64 <= jumps[i].target
  }

  /** Every height is accounted for: published, given up on, or jumped over. */
  ghost predicate Accounted(published: seq<Block>, log: seq<int>, mark: int, first: int, jumps: seq<Jump>, h: int) {
    Published(published, h) || GaveUpOn(log, mark, first, h) || JumpedOver(jumps, h)
  }

  /** All heights of `lo..hi` are. */
  ghost predicate AllAccounted(published: seq<Block>, log: seq<int>, mark: int, jumps: seq<Jump>, lo: int, hi: int) {
    forall h :: lo <= h < hi ==> Accounted(published, log, mark, lo, jumps, h)
  }

  lemma PublishedStays(published: seq<Block>, more: seq<Block>, h: int)
    requires published <= more && Published(published, h)
    ensures Published(more, h)
  {
    var i :| 0 <= i < |published| && published[i].height == h;
    assert more[i].height == h;
  }

  lemma JumpedOverStays(jumps: seq<Jump>, more: seq<Jump>, h: int)
    requires jumps <= more && JumpedOver(jumps, h)
    ensures JumpedOver(more, h)
  {
    var i :| 0 <= i < |jumps| && jumps[i].from <= h && h + 64 <= jumps[i].target;
    assert more[i] == jumps[i];
  }

  /** The books only grow: one more block or jump, or one failure at a height not below `hi`. */
  lemma AllAccountedStays(p: seq<Block>, p': seq<Block>, log: seq<int>, log': seq<int>, mark: int, j: seq<Jump>,
      j': seq<Jump>,
                          lo: int, hi: int)
    requires AllAccounted(p, log, mark, j, lo, hi)
    requires p <= p' && j <= j' && (log' == log || exists x :: x >= hi && log' == log + [x])
    ensures AllAccounted(p', log', mark, j', lo, hi)
  {
    forall h | lo <= h < hi
      ensures Accounted(p', log', mark, lo, j', h)
    {
      assert Accounted(p, log, mark, lo, j, h);
      if Published(p, h) {
        PublishedStays(p, p', h);
      } else if GaveUpOn(log, mark, lo, h) {
        if log' != log {
          var x :| x >= hi && log' == log + [x];
          GaveUpStays(log, mark, lo, h, x);
        }
      } else {
        JumpedOverStays(j, j', h);
      }
    }
  }

  ghost predicate Ascending(published: seq<Block>) {
    forall i, j :: 0 <= i < j < |published| ==> published[i].height < published[j].height
  }

  /******* The reader, step by step *******/

  /**
   What the reader holds; and, as history, the heights whose read failed, the jumps, the first
   height it passed with the failed reads by then, and the last height that held a pass with how
   many passes it has held.
   */
  datatype Feed = Feed(
    nextHeight: int, failingHeight: int, failures: int, lastBlock: Option<Block>, seenHeight: int,
        published: seq<Block>,
    failLog: seq<int>, jumps: seq<Jump>, anchor: int, mark: nat, heldHeight: int, heldPasses: nat)

  const INIT := Feed(0, 0, 0, None, 0, [], [], [], 0, 0, 0, 0)

  /** One more failed read of a height. */
  function Counted(f: Feed, height: int): Feed {
    f.(failingHeight := height, failures := HeldFor(f.failingHeight, f.failures, height),
        failLog := f.failLog + [height])
  }

  /** Past a height that was read, or given up on. */
  function Passed(f: Feed, height: int, block: Option<Block>): Feed {
    var g := if f.nextHeight == 0 then f.(anchor := height, mark := |f.failLog|) else f;
    if block.Some? then g.(nextHeight := height + 1, lastBlock := block, published := f.published + [block.value])
    else g.(nextHeight := height + 1)
  }

  /**
   Whether a read ends the pass: the node does not have the height yet, or the read failed and is
   worth another pass.
   */
  predicate Stops(f: Feed, height: int, reply: NodeReply) {
    match ReadBlock(reply, height)
    case NotYet => true
    case Failed => HeldFor(f.failingHeight, f.failures, height) < MAX_READ_FAILURES
    case Got(_) => false
  }

  function EndOf(height: int, reply: NodeReply): PassEnd {
    if ReadBlock(reply, height).NotYet? then WaitsFor(height) else HeldBy(height)
  }

  function ReadOne(f: Feed, height: int, reply: NodeReply): Feed {
    match ReadBlock(reply, height)
    case NotYet => f
    case Got(block) => Passed(f, height, Some(block))
    case Failed => if Stops(f, height, reply) then Counted(f, height) else Passed(Counted(f, height), height, None)
  }

  datatype Ended = Ended(feed: Feed, end: PassEnd)

  /** Reads from `height` to `target` until a read ends the pass. */
  function ReadAll(f: Feed, height: int, target: int, node: int -> NodeReply): Ended
    decreases target - height
  {
    if height > target then Ended(f, CaughtUp)
    else if Stops(f, height, node(height)) then Ended(ReadOne(f, height, node(height)), EndOf(height, node(height)))
    else ReadAll(ReadOne(f, height, node(height)), height + 1, target, node)
  }

  /** The height after the last one passed. */
  function FirstHeight(f: Feed): int {
    if f.nextHeight != 0 then f.nextHeight
    else if f.lastBlock.Some? then f.lastBlock.value.height + 1
    else f.seenHeight
  }

  predicate Jumps(f: Feed) {
    f.seenHeight - FirstHeight(f) >= MAX_CATCH_UP_BLOCKS
  }

  /** Where a pass starts reading. */
  function StartOf(f: Feed): int {
    if Jumps(f) then f.seenHeight - MAX_CATCH_UP_BLOCKS + 1 else FirstHeight(f)
  }

  function Begun(f: Feed): Feed {
    if Jumps(f) then f.(jumps := f.jumps + [Jump(FirstHeight(f), StartOf(f), f.seenHeight)]) else f
  }

  /**
   How many passes the last holding height has held after one more: it starts anew with another
   height, and once the height is behind; a pass that ends otherwise leaves it.
   */
  function Noted(f: Feed, end: PassEnd): Feed {
    if end.HeldBy? then
      f.(heldHeight := end.height, heldPasses := if f.heldPasses > 0 && end.height == f.heldHeight then f.heldPasses + 1
          else 1)
    else if f.heldHeight < f.nextHeight then f.(heldPasses := 0)
    else f
  }

  function PassOf(f: Feed, node: int -> NodeReply): Ended {
    ReadAll(Begun(f), StartOf(f), f.seenHeight, node)
  }

  /** One catch-up pass. */
  function CaughtUpTo(f: Feed, node: int -> NodeReply): Feed {
    Noted(PassOf(f, node).feed, PassOf(f, node).end)
  }

  function Observed(f: Feed, height: int): Feed {
    f.(seenHeight := Max(f.seenHeight, height))
  }

  function Fetched(f: Feed, height: int, reply: NodeReply): Feed {
    if ReadBlock(reply, height).Got? then f.(lastBlock := Some(ReadBlock(reply, height).block)) else f
  }

  datatype Event =
    | Observe(height: int)                       // a source reports a height
    | FetchLatest(height: int, reply: NodeReply) // the initial or fallback fetch, which publishes nothing
    | CatchUp(node: int -> NodeReply)            // a pass, with what the node answers to its one read of each height

  function Step(f: Feed, e: Event): Feed {
    match e
    case Observe(height) => Observed(f, height)
    case FetchLatest(height, reply) => if height > 0 then Fetched(f, height, reply) else f
    case CatchUp(node) => if f.seenHeight > 0 then CaughtUpTo(f, node) else f
  }

  function Run(f: Feed, events: seq<Event>): Feed {
    if events == [] then f else Step(Run(f, events[..|events| - 1]), events[|events| - 1])
  }

  /******* The reader, in place *******/

  class BlockSubscriber {
    var nextHeight: int
    var failingHeight: int
    var failures: int
    var lastBlock: Option<Block>
    var seenHeight: int
    var published: seq<Block>
    ghost var feed: Feed

    ghost predicate Valid()
      reads this
    {
      && nextHeight == feed.nextHeight && failingHeight == feed.failingHeight && failures == feed.failures
      && lastBlock == feed.lastBlock && seenHeight == feed.seenHeight && published == feed.published
    }

    constructor ()
      ensures Valid() && feed == INIT
    {
      nextHeight, failingHeight, failures, lastBlock, seenHeight, published := 0, 0, 0, None, 0, [];
      feed := INIT;
    }

    method Observe(height: int)
      requires Valid()
      modifies this`seenHeight, this`feed
      ensures Valid() && feed == Observed(old(feed), height)
    {
      if height > seenHeight {
        seenHeight := height;
      }
      feed := Observed(feed, height);
    }

    method FetchLatest(height: int, reply: NodeReply)
      requires Valid()
      modifies this`lastBlock, this`feed
      ensures Valid() && feed == Fetched(old(feed), height, reply)
    {
      var r := ReadBlock(reply, height);
      if r.Got? {
        lastBlock := Some(r.block);
      }
      feed := Fetched(feed, height, reply);
    }

    /** Reads one height: publish it, give up on it, or stop the pass. */
    method ReadHeight(height: int, reply: NodeReply) returns (stop: bool)
      requires Valid()
      modifies this
      ensures Valid() && feed == ReadOne(old(feed), height, reply)
      ensures stop == Stops(old(feed), height, reply)
    {
      feed := ReadOne(feed, height, reply);
      var read := ReadBlock(reply, height);
      if read.Got? {
        nextHeight := height + 1;
        lastBlock := Some(read.block);
        published := published + [read.block];
        return false;
      }
      if read.NotYet? {
        return true;
      }
      if height != failingHeight {
        failingHeight, failures := height, 0;
      }
      failures := failures + 1;
      if failures < MAX_READ_FAILURES {
        return true;
      }
      nextHeight := height + 1;
      return false;
    }

    /** Reads the heights of `next..target` in order until one stops the pass. */
    method ReadFrom(next: int, target: int, node: int -> NodeReply) returns (tried: nat, end: PassEnd)
      requires Valid()
      modifies this
      ensures Valid() && Ended(feed, end) == ReadAll(old(feed), next, target, node)
      ensures next + tried <= Max(next, target + 1)
    {
      ghost var all := ReadAll(feed, next, target, node);
      var height := next;
      while height <= target
        invariant Valid() && next <= height <= Max(next, target + 1)
        invariant ReadAll(feed, height, target, node) == all
      {
        var stop := ReadHeight(height, node(height));
        if stop {
          return height - next + 1, EndOf(height, node(height));
        }
        height := height + 1;
      }
      return height - next, CaughtUp;
    }

    /** Loads the target once and picks where to start, jumping over the oldest heights if they are too many. */
    method Begin() returns (target: int, next: int)
      requires Valid()
      modifies this`feed
      ensures Valid() && feed == Begun(old(feed)) && target == old(feed).seenHeight && next == StartOf(old(feed))
      ensures target - next < MAX_CATCH_UP_BLOCKS
    {
      target := seenHeight;
      next := nextHeight;
      if next == 0 {
        if lastBlock.Some? {
          next := lastBlock.value.height + 1;
        } else {
          next := target;
        }
      }
      if target - next >= MAX_CATCH_UP_BLOCKS {
        next := target - MAX_CATCH_UP_BLOCKS + 1;
      }
      feed := Begun(feed);
    }

    /** One catch-up pass: at most 64 reads. */
    method CatchUp(node: int -> NodeReply) returns (tried: nat)
      requires Valid()
      modifies this
      ensures Valid() && feed == CaughtUpTo(old(feed), node)
      ensures tried <= 64
    {
      var target, next := Begin();
      var end;
      tried, end := ReadFrom(next, target, node);
      feed := Noted(feed, end);
    }
  }
}

/**
 How a reported height wakes the reader: the compare-and-swap loop of `observe`, the
 one-slot wake channel, and the advance loop, in every interleaving.
 */
module WakeProtocol {
  type Observer = nat

  datatype ObserverPc =
    | Raising(h: int)                 // about to load seenHeight
    | Swapping(h: int, loaded: int)   // about to compare-and-swap
    | Signalling(h: int)              // about to offer the wake
    | Idle                            // observe returned

  datatype LoopPc = Parked | Woken | Passing(target: int)

  // `targets` and `reported` are history: the target of every pass, and every height whose report returned.
  datatype State = State(
    seen: int, wake: bool, loop: LoopPc, observers: map<Observer, ObserverPc>, targets: seq<int>, reported: seq<int>)

  datatype Event =
    | Report(o: Observer, h: int)
    | Load(o: Observer)
    | Swap(o: Observer)
    | Signal(o: Observer)
    | TakeWake
    | LoadTarget
    | FinishPass

  function At(s: State, o: Observer, pc: ObserverPc): State {
    s.(observers := s.observers[o := pc])
  }

  function Step(s: State, e: Event): State {
    match e
    case Report(o, h) => if o in s.observers && !s.observers[o].Idle? then s else At(s, o, Raising(h))
    case Load(o) =>
      if o in s.observers && s.observers[o].Raising? then
        var h := s.observers[o].h;
        At(s, o, if h <= s.seen then Signalling(h) else Swapping(h, s.seen))
      else s
    case Swap(o) =>
      if o in s.observers && s.observers[o].Swapping? then
        var h := s.observers[o].h;
        if s.seen == s.observers[o].loaded then At(s.(seen := h), o, Signalling(h)) else At(s, o, Raising(h))
      else s
    case Signal(o) =>
      if o in s.observers && s.observers[o].Signalling? then
        At(s.(wake := true, reported := s.reported + [s.observers[o].h]), o, Idle)
      else s
    case TakeWake => if s.loop.Parked? && s.wake then s.(wake := false, loop := Woken) else s
    case LoadTarget => if s.loop.Woken? then s.(loop := Passing(s.seen), targets := s.targets + [s.seen]) else s
    case FinishPass => if s.loop.Passing? then s.(loop := Parked) else s
  }

  function Run(s: State, events: seq<Event>): State {
    if events == [] then s else Step(Run(s, events[..|events| - 1]), events[|events| - 1])
  }

  const INIT := State(0, false, Parked, map[], [], [])

  /** A pass whose target covers `h` has started, or one is certain to load its target later. */
  ghost predicate Served(s: State, h: int) {
    s.wake || s.loop.Woken? || exists i :: 0 <= i < |s.targets| && s.targets[i] >= h
  }

  ghost predicate ReportsAreServed(s: State) {
    forall i :: 0 <= i < |s.reported| ==> s.reported[i] <= s.seen && Served(s, s.reported[i])
  }

  ghost predicate Inv(s: State) {
    && ReportsAreServed(s)
    && (forall o :: o in s.observers && s.observers[o].Swapping? ==> s.observers[o].loaded < s.observers[o].h)
    && (forall o :: o in s.observers && s.observers[o].Signalling? ==> s.observers[o].h <= s.seen)
    && (forall i :: 0 <= i < |s.targets| ==> s.targets[i] <= s.seen)
    && (s.loop.Passing? ==> s.targets != [] && s.loop.target == s.targets[|s.targets| - 1])
  }

  lemma ServedStays(s: State, e: Event, h: int)
    requires Served(s, h) && h <= s.seen
    ensures Served(Step(s, e), h)
  {
    var t := Step(s, e);
    if e.LoadTarget? && s.loop.Woken? {
      assert t.targets[|t.targets| - 1] >= h;
    } else if i :| 0 <= i < |s.targets| && s.targets[i] >= h {
      assert t.targets[i] >= h;
    }
  }

  lemma ReportsStep(s: State, e: Event)
    requires Inv(s)
    ensures ReportsAreServed(Step(s, e))
  {
    var t := Step(s, e);
    forall i | 0 <= i < |t.reported| ensures t.reported[i] <= t.seen && Served(t, t.reported[i]) {
      if i < |s.reported| {
        SeenGoesUp(s, e);
        ServedStays(s, e, s.reported[i]);
      }
    }
  }

  lemma SeenGoesUp(s: State, e: Event)
    requires Inv(s)
    ensures s.seen <= Step(s, e).seen
  {
  }

  lemma InvStep(s: State, e: Event)
    requires Inv(s)
    ensures Inv(Step(s, e))
  {
    ReportsStep(s, e);
  }

  lemma {:induction false} InvHolds(events: seq<Event>)
    ensures Inv(Run(INIT, events))
  {
    if events != [] {
      InvHolds(events[..|events| - 1]);
      InvStep(Run(INIT, events[..|events| - 1]), events[|events| - 1]);
    }
  }

  /**
   No lost wakeup: for every report that returned, a pass with a target at least that high has
   started or is still to come.
   */
  lemma NoLostWakeup(events: seq<Event>, h: int)
    requires h in Run(INIT, events).reported
    ensures var s := Run(INIT, events);
            || (exists i :: 0 <= i < |s.targets| && h <= s.targets[i] <= s.seen)
            || (s.loop.Woken? && h <= s.seen && Step(s, LoadTarget).loop == Passing(s.seen))
            || (s.wake && h <= s.seen)
  {
    InvHolds(events);
    var i :| 0 <= i < |Run(INIT, events).reported| && Run(INIT, events).reported[i] == h;
    assert Served(Run(INIT, events), Run(INIT, events).reported[i]);
  }

  /** A pending wake is taken as soon as the loop is free, and the pass it starts covers everything seen. */
  lemma PendingWakeStartsAPass(s: State)
    requires s.wake
    ensures var t := Step(Step(Step(s, FinishPass), TakeWake), LoadTarget);
            t.loop.Passing? && (!s.loop.Woken? ==> t.loop.target == s.seen && t.targets == s.targets + [s.seen])
  {
  }

  lemma {:induction false} PassesAreWoken(events: seq<Event>)
    ensures var s := Run(INIT, events);
            |s.targets| + (if s.wake then 1 else 0) + (if s.loop.Woken? then 1 else 0) <= |s.reported|
  {
    if events != [] {
      PassesAreWoken(events[..|events| - 1]);
    }
  }

  /** The loop never passes for nothing: in every run there are at most as many passes as returned reports. */
  lemma NoPassWithoutAReport(events: seq<Event>)
    ensures |Run(INIT, events).targets| <= |Run(INIT, events).reported|
    ensures Run(INIT, events).wake ==> |Run(INIT, events).targets| < |Run(INIT, events).reported|
  {
    PassesAreWoken(events);
  }

  /** A report nothing overtakes: it raises the height seen exactly when it is higher, and leaves a wake. */
  lemma ReportRaisesAndWakes(s: State, o: Observer, h: int)
    requires o in s.observers ==> s.observers[o].Idle?
    ensures var offered := Step(Step(s, Report(o, h)), Load(o));
            var t := Step(if h > s.seen then Step(offered, Swap(o)) else offered, Signal(o));
            && t.seen == (if h > s.seen then h else s.seen) && t.wake && t.loop == s.loop
            && t.targets == s.targets && t.reported == s.reported + [h] && t.observers[o].Idle?
  {
  }

  /** One that is overtaken between its load and its swap starts over; and a source reports one height at a time. */
  lemma OvertakenReportStartsOver(s: State, o: Observer, h: int)
    requires o in s.observers && s.observers[o].Swapping? && s.seen != s.observers[o].loaded
    ensures Step(s, Swap(o)) == s.(observers := s.observers[o := Raising(s.observers[o].h)])
    ensures Step(s, Report(o, h)) == s
  {
  }

  ghost predicate WasReported(events: seq<Event>, h: int) {
    exists i :: 0 <= i < |events| && events[i].Report? && events[i].h == h
  }

  lemma WasReportedBefore(events: seq<Event>, n: nat, h: int)
    requires n <= |events| && WasReported(events[..n], h)
    ensures WasReported(events, h)
  {
    var i :| 0 <= i < n && events[..n][i].Report? && events[..n][i].h == h;
    assert events[i].Report? && events[i].h == h;
  }

  lemma {:induction false} HeightsAreReports(events: seq<Event>)
    ensures Run(INIT, events).seen == 0 || WasReported(events, Run(INIT, events).seen)
    ensures forall o :: o in Run(INIT, events).observers && !Run(INIT, events).observers[o].Idle? ==>
              WasReported(events, Run(INIT, events).observers[o].h)
  {
    if events != [] {
      var n := |events| - 1;
      HeightsAreReports(events[..n]);
      var s, t := Run(INIT, events[..n]), Run(INIT, events);
      forall o | o in t.observers && !t.observers[o].Idle? ensures WasReported(events, t.observers[o].h) {
        if o in s.observers && !s.observers[o].Idle? && s.observers[o].h == t.observers[o].h {
          WasReportedBefore(events, n, t.observers[o].h);
        } else {
          assert events[n].Report? && events[n].h == t.observers[o].h;
        }
      }
      if t.seen == s.seen && s.seen != 0 {
        WasReportedBefore(events, n, s.seen);
      }
    }
  }

  /**
   Whatever the races, the height seen is at least every height whose report returned, and is
   itself a reported one.
   */
  lemma SeenIsTheHighestReport(events: seq<Event>)
    ensures var s := Run(INIT, events);
            && (forall h :: h in s.reported ==> h <= s.seen)
            && (s.seen == 0 || WasReported(events, s.seen))
  {
    InvHolds(events);
    HeightsAreReports(events);
  }
}

/**
 The leader's published block records, the adapter that serves blocks from them, and
 the (height, time) chain clock (`cache/block_subscriber.go`,
 `cache/redis_block_client_adapter.go`).
 */
module BlockRecords {
  import opened Common
  import BlockFeed
  import Races = AdapterRaces

  type Bytes = BlockFeed.Bytes

  /** A published block event. Time 0 is the unset time. */
  datatype BlockEvent = BlockEvent(height: int, hash: Bytes, time: int)

  datatype SimpleBlock = SimpleBlock(height: int, hash: Bytes)

  /** The shared store's block keys. Each write of a publish stands alone and may be refused. */
  class RecordStore {
    var records: map<int, BlockEvent>
    var latest: Option<int>
    var channel: seq<BlockEvent>

    /** Every record kept under a height describes that height. */
    ghost predicate Valid()
      reads this
    {
      forall h :: h in records ==> records[h].height == h && records[h].time != 0
    }

    constructor ()
      ensures Valid() && records == map[] && latest.None? && channel == []
    {
      records, latest, channel := map[], None, [];
    }

    /** Writes the record, then the latest height, then sends the event. */
    method Publish(event: BlockEvent, now: int, recordKept: bool, latestKept: bool, sent: bool) returns (ok: bool)
      requires Valid() && now != 0
      modifies this
      ensures Valid() && ok == sent
      ensures var stamped := if event.time == 0 then event.(time := now) else event;
              && records == (if recordKept then old(records)[event.height := stamped] else old(records))
              && latest == (if latestKept then Some(event.height) else old(latest))
              && channel == (if sent then old(channel) + [stamped] else old(channel))
    {
      var stamped := event;
      if stamped.time == 0 {
        stamped := stamped.(time := now);
      }
      if recordKept {
        records := records[stamped.height := stamped];
      }
      if latestKept {
        latest := Some(stamped.height);
      }
      if sent {
        channel := channel + [stamped];
      }
      return sent;
    }

    /** A record's lifetime ends, or its key is deleted. */
    method Expire(height: int)
      requires Valid()
      modifies this`records
      ensures Valid() && records == old(records) - {height}
    {
      records := records - {height};
    }
  }

  /**
   Reads a block from the process's own node, asking again while the answer is
   "not yet". `replies` are the node's answers until the caller's context ends.
   */
  method BlockAtHeight(height: int, replies: seq<BlockFeed.NodeReply>) returns (r: Option<BlockFeed.Block>)
    ensures r.Some? ==> r.value.height == height && r.value.hash != []
    ensures r.Some? ==> exists i :: FirstAnswer(replies, i) && IsBlock(replies[i], r.value)
    ensures r.None? ==> forall i :: FirstAnswer(replies, i) ==> !IsBlockAt(replies[i], height)
  {
    for i := 0 to |replies|
      invariant forall j :: 0 <= j < i ==> replies[j] == BlockFeed.Failure(true)
    {
      assert replies[i] != BlockFeed.Failure(true) ==> FirstAnswer(replies, i);
      var read := BlockFeed.ReadBlock(replies[i], height);
      if read.Got? {
        return Some(read.block);
      }
      if read.Failed? {
        return None;
      }
    }
    return None;
  }

  /** The first reply that is not "not yet". */
  ghost predicate FirstAnswer(replies: seq<BlockFeed.NodeReply>, i: int) {
    && 0 <= i < |replies| && replies[i] != BlockFeed.Failure(true)
    && forall j :: 0 <= j < i ==> replies[j] == BlockFeed.Failure(true)
  }

  predicate IsBlockAt(reply: BlockFeed.NodeReply, height: int) {
    reply.Reply? && reply.height == height && reply.hash != []
  }

  predicate IsBlock(reply: BlockFeed.NodeReply, b: BlockFeed.Block) {
    IsBlockAt(reply, b.height) && reply.hash == b.hash && reply.time == b.time
  }

  datatype Advanced = Moved(block: SimpleBlock) | Repeated | Rewound

  function HeightsOf(events: seq<BlockEvent>): seq<int> {
    seq(|events|, i requires 0 <= i < |events| => events[i].height)
  }

  /** The adapter as one goroutine drives it, each call finished before the next begins. */
  class Adapter {
    const store: RecordStore?
    const hasReader: bool
    var lastBlock: Option<SimpleBlock>
    var forwarded: seq<BlockEvent>
    // The subscriber's chain clock.
    var clock: Clock
    // The racing adapter's steps so far.
    ghost var calls: seq<Races.Event>

    ghost predicate Valid()
      reads this, store
    {
      && (store != null ==> store.Valid())
      && (lastBlock.Some? ==> lastBlock.value.height > 0)
      && Follows()
    }

    /** This is the racing adapter with nothing under way: so it never goes back and forwards in order. */
    ghost predicate Follows()
      reads this
    {
      var race := Races.Run(Races.INIT, calls);
      Races.Rests(race, 0) && Races.HeldHeight(race) == Height() && race.forwarded == HeightsOf(forwarded)
    }

    function Height(): int
      reads this
    {
      if lastBlock.Some? then lastBlock.value.height else 0
    }

    constructor (store: RecordStore?, hasReader: bool)
      requires store != null ==> store.Valid()
      ensures Valid() && this.store == store && this.hasReader == hasReader && lastBlock.None? && forwarded == []
      ensures calls == [] && clock == Clock(0, 0)
    {
      this.store, this.hasReader, this.lastBlock, this.forwarded := store, hasReader, None, [];
      this.clock, this.calls := Clock(0, 0), [];
    }

    /** Only a height above the held one moves the adapter. */
    method Advance(height: int, hash: Bytes) returns (r: Advanced)
      requires lastBlock.Some? ==> lastBlock.value.height > 0
      modifies this`lastBlock
      ensures lastBlock.Some? ==> lastBlock.value.height > 0
      ensures Height() == Max(old(Height()), height)
      ensures r.Moved? <==> height > old(Height())
      ensures lastBlock == if r.Moved? then Some(SimpleBlock(height, hash)) else old(lastBlock)
      ensures r.Moved? ==> lastBlock == Some(r.block)
      ensures r.Repeated? <==> height == old(Height())
    {
      var currentHeight := 0;
      if lastBlock.Some? {
        currentHeight := lastBlock.value.height;
      }
      if height == currentHeight {
        return Repeated;
      }
      if height < currentHeight {
        return Rewound;
      }
      lastBlock := Some(SimpleBlock(height, hash));
      return Moved(lastBlock.value);
    }

    method Deliver(event: BlockEvent)
      requires Valid()
      modifies this`lastBlock, this`forwarded, this`calls
      ensures Valid() && Height() == Max(old(Height()), event.height)
      ensures calls == old(calls) + Races.WholeDelivery(0, event.height)
      ensures forwarded == if event.height > old(Height()) then old(forwarded) + [event] else old(forwarded)
      ensures lastBlock == if event.height > old(Height()) then Some(SimpleBlock(event.height, event.hash))
              else old(lastBlock)
    {
      Races.OneMoreDelivery(calls, 0, event.height);
      calls := calls + Races.WholeDelivery(0, event.height);
      var r := Advance(event.height, event.hash);
      if r.Moved? {
        assert HeightsOf(forwarded + [event]) == HeightsOf(forwarded) + [event.height];
        forwarded := forwarded + [event];
      }
    }

    method SeedHeight(height: int) returns (moved: bool)
      requires Valid()
      modifies this`lastBlock, this`calls
      ensures Valid() && Height() == Max(old(Height()), height) && (moved <==> height > old(Height()))
      ensures lastBlock == if moved then Some(SimpleBlock(height, [])) else old(lastBlock)
      ensures calls == old(calls) + Races.WholeSeed(0, height)
    {
      Races.OneMoreSeed(calls, 0, height);
      calls := calls + Races.WholeSeed(0, height);
      var r := Advance(height, []);
      return r.Moved?;
    }

    /**
     One tick of the latest-height poll: advance the clock to the leader's latest block and deliver
     it, if the events have not.
     */
    method PollLatest(latestRead: bool, recordRead: bool)
      requires Valid()
      modifies this`lastBlock, this`forwarded, this`clock, this`calls
      ensures Valid()
      ensures if store != null && latestRead && recordRead && store.latest.Some? &&
              store.latest.value in store.records &&
                 store.latest.value > old(Height())
              then
                var event := store.records[store.latest.value];
                && event.height == store.latest.value
                && lastBlock == Some(SimpleBlock(event.height, event.hash))
                && forwarded == old(forwarded) + [event]
                && clock == Tick(old(clock), Seen(event.height, event.time))
              else lastBlock == old(lastBlock) && forwarded == old(forwarded) && clock == old(clock)
    {
      if store == null || !latestRead || store.latest.None? || store.latest.value <= Height() {
        return;
      }
      if !recordRead || store.latest.value !in store.records {
        return;
      }
      var event := store.records[store.latest.value];
      if event.height > clock.height {
        clock := Clock(event.height, event.time);
      }
      Deliver(event);
    }

    /** The block at a height, from the held block, the leader's record or the node: never another height's. */
    method GetBlockAtHeight(height: int, recordRead: bool,
        replies: seq<BlockFeed.NodeReply>) returns (r: Option<SimpleBlock>)
      requires Valid()
      ensures r.Some? ==> r.value.height == height && r.value.hash != []
      ensures var heldHere := lastBlock.Some? && lastBlock.value.height == height && lastBlock.value.hash != [];
              var recorded := store != null && recordRead && height in store.records &&
                  store.records[height].hash != [];
              && (heldHere ==> r == lastBlock)
              && (!heldHere && recorded ==> r == Some(SimpleBlock(height, store.records[height].hash)))
              && (!heldHere && !recorded && !hasReader ==> r.None?)
              && (!heldHere && !recorded && hasReader && r.Some? ==>
                    exists i :: FirstAnswer(replies, i) && IsBlockAt(replies[i], height)
                                && replies[i].hash == r.value.hash)
              && (!heldHere && !recorded && hasReader && r.None? ==>
                    forall i :: FirstAnswer(replies, i) ==> !IsBlockAt(replies[i], height))
    {
      if lastBlock.Some? && lastBlock.value.height == height && |lastBlock.value.hash| > 0 {
        return lastBlock;
      }
      if store != null && recordRead && height in store.records {
        var event := store.records[height];
        if |event.hash| > 0 {
          return Some(SimpleBlock(event.height, event.hash));
        }
      }
      if !hasReader {
        return None;
      }
      var block := BlockAtHeight(height, replies);
      if block.None? {
        return None;
      }
      return Some(SimpleBlock(block.value.height, block.value.hash));
    }
  }

  /******* The chain clock *******/

  datatype Clock = Clock(height: int, time: int)

  datatype Input = Seen(height: int, time: int) | Seeded(time: int)

  function Tick(c: Clock, i: Input): Clock {
    match i
    case Seen(h, t) => if h > c.height then Clock(h, t) else c
    case Seeded(t) => if c.height > 0 || t == 0 then c else c.(time := t)
  }

  function ClockAfter(c: Clock, inputs: seq<Input>): Clock {
    if inputs == [] then c else Tick(ClockAfter(c, inputs[..|inputs| - 1]), inputs[|inputs| - 1])
  }

  /** `inputs[i]` is the first event to bring the height `h` the clock shows. */
  predicate FirstAt(inputs: seq<Input>, i: int, h: int) {
    && 0 <= i < |inputs| && inputs[i].Seen? && inputs[i].height == h
    && forall j :: 0 <= j < i && inputs[j].Seen? ==> inputs[j].height < h
  }

  /**
   For any mix of repeated, late and reordered events and seeds, the clock shows the
   highest height and that block's own time: a pair no two events ever mix, that
   nothing older and no seed rewinds.
   */
  lemma {:induction false} ClockShowsOneBlock(c: Clock, inputs: seq<Input>)
    requires c.height >= 0
    ensures var r := ClockAfter(c, inputs);
            && r.height >= c.height
            && (forall i :: 0 <= i < |inputs| && inputs[i].Seen? ==> inputs[i].height <= r.height)
            && (r.height > c.height ==> exists i :: FirstAt(inputs, i, r.height) && inputs[i].time == r.time)
            && (r.height == c.height > 0 ==> r.time == c.time)
  {
    if inputs != [] {
      var n := |inputs| - 1;
      ClockShowsOneBlock(c, inputs[..n]);
      var before, r := ClockAfter(c, inputs[..n]), ClockAfter(c, inputs);
      assert forall i :: 0 <= i < n ==> inputs[..n][i] == inputs[i];
      if inputs[n].Seen? && inputs[n].height > before.height {
        assert FirstAt(inputs, n, r.height) && inputs[n].time == r.time;
      } else if r.height > c.height {
        var i :| FirstAt(inputs[..n], i, r.height) && inputs[..n][i].time == r.time;
        assert FirstAt(inputs, i, r.height) && inputs[i].time == r.time;
      }
    }
  }

  /** With no event yet, the last seed that names a time is the time. */
  lemma SeedAppliesBeforeAnyEvent(c: Clock, inputs: seq<Input>, t: int)
    requires c.height == 0 && t != 0 && forall i :: 0 <= i < |inputs| ==> inputs[i].Seeded?
    ensures ClockAfter(c, inputs + [Seeded(t)]) == Clock(0, t)
  {
    OnlySeeds(c, inputs);
    assert (inputs + [Seeded(t)])[..|inputs|] == inputs;
  }

  lemma {:induction false} OnlySeeds(c: Clock, inputs: seq<Input>)
    requires c.height == 0 && forall i :: 0 <= i < |inputs| ==> inputs[i].Seeded?
    ensures ClockAfter(c, inputs).height == 0
  {
    if inputs != [] {
      OnlySeeds(c, inputs[..|inputs| - 1]);
    }
  }

  class ChainClock {
    var currentHeight: int
    var currentTime: int

    function Now(): Clock
      reads this
    {
      Clock(currentHeight, currentTime)
    }

    constructor (initialHeight: int)
      ensures Now() == Clock(initialHeight, 0)
    {
      currentHeight, currentTime := initialHeight, 0;
    }

    method AdvanceClock(event: BlockEvent)
      modifies this
      ensures Now() == Tick(old(Now()), Seen(event.height, event.time))
    {
      if event.height > currentHeight {
        currentHeight := event.height;
        currentTime := event.time;
      }
    }

    method SeedBlockTime(blockTime: int) returns (applied: bool)
      modifies this
      ensures Now() == Tick(old(Now()), Seeded(blockTime))
      ensures applied <==> old(currentHeight) <= 0 && blockTime != 0
    {
      if currentHeight > 0 || blockTime == 0 {
        return false;
      }
      currentTime := blockTime;
      return true;
    }
  }
}

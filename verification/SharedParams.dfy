/**
 The shared-parameter cache (`cache/shared_params.go`): a per-process map (L1), a store
 every replica shares (L2) and the chain. An answer the chain calls final can no longer
 change; only such an answer may reach L2. Any other answer stays in the process that
 asked for it, until that process sees a block past the one it asked at.

 Times are milliseconds; a height of 0 means that the process has seen no block.
 */
module SharedParams {
  import opened Common

  type Height = int
  type Params = nat

  const LOCAL_TTL := 30 * 60 * 1000
  const KEEP_HEIGHTS := 64
  const MAX_PENDING_REUSE := 30 * 1000

  datatype Entry = Entry(params: Params, height: Height, cachedAt: int, final: bool, seenAt: Height)

  /** Whether an entry may be served to a process at height `current`. */
  predicate Servable(e: Entry, current: Height, now: int) {
    if e.final then now - e.cachedAt < LOCAL_TTL
    else current > 0 && current <= e.seenAt && now - e.cachedAt < MAX_PENDING_REUSE
  }

  // -- L1 --

  predicate Kept(e: Entry, stored: Height) {
    stored - KEEP_HEIGHTS <= 0 || e.height >= stored - KEEP_HEIGHTS
  }

  /** What a walk of the map leaves after a store at height `stored`. */
  function Pruned(m: map<Height, Entry>, stored: Height): map<Height, Entry> {
    map k | k in m && Kept(m[k], stored) :: m[k]
  }

  function Stored(m: map<Height, Entry>, e: Entry): map<Height, Entry> {
    Pruned(m[e.height := e], e.height)
  }

  /** Every entry is filed under its own height. */
  ghost predicate Filed(m: map<Height, Entry>) {
    forall k :: k in m ==> m[k].height == k && k >= 0
  }

  class LocalCache {
    var entries: map<Height, Entry>

    constructor ()
      ensures entries == map[]
    {
      entries := map[];
    }

    /** Stores an answer, and walks the map to drop what is far below its height. */
    method Store(e: Entry)
      modifies this
      ensures entries == Stored(old(entries), e)
    {
      entries := entries[e.height := e];
      var cutoff := e.height - KEEP_HEIGHTS;
      if cutoff <= 0 {
        NothingToWalk(entries, e.height);
        return;
      }
      ghost var was := entries;
      var left := entries.Keys;
      while left != {}
        invariant left <= was.Keys && entries == Walked(was, left, cutoff)
        decreases |left|
      {
        var k := Pick(left);
        WalkOne(was, left, cutoff, k);
        if entries[k].height < cutoff {
          entries := entries - {k};
        }
        left := left - {k};
      }
      WalkDone(was, e.height);
    }
  }

  /** The map with the walk still to visit `left`. */
  function Walked(m: map<Height, Entry>, left: set<Height>, cutoff: Height): map<Height, Entry> {
    map k | k in m && (k in left || m[k].height >= cutoff) :: m[k]
  }

  lemma WalkOne(m: map<Height, Entry>, left: set<Height>, cutoff: Height, k: Height)
    requires k in left && k in m
    ensures k in Walked(m, left, cutoff) && Walked(m, left, cutoff)[k] == m[k]
    ensures Walked(m, left - {k}, cutoff) ==
              if m[k].height < cutoff then Walked(m, left, cutoff) - {k} else Walked(m, left, cutoff)
  {
  }

  lemma WalkDone(m: map<Height, Entry>, stored: Height)
    requires stored - KEEP_HEIGHTS > 0
    ensures Walked(m, {}, stored - KEEP_HEIGHTS) == Pruned(m, stored)
  {
    assert forall k :: k in m ==> (Kept(m[k], stored) <==> m[k].height >= stored - KEEP_HEIGHTS);
  }

  /** Nothing is far below a height inside the window. */
  lemma NothingToWalk(m: map<Height, Entry>, stored: Height)
    requires stored - KEEP_HEIGHTS <= 0
    ensures Pruned(m, stored) == m
  {
    assert forall k :: k in m ==> Kept(m[k], stored);
  }

  function Band(low: Height, n: nat): (s: set<Height>)
    ensures |s| == n
    ensures forall k :: k in s <==> low <= k < low + n
  {
    if n == 0 then {} else Band(low, n - 1) + {low + n - 1}
  }

  /** A store leaves at most the 65 heights up to the stored one, and whatever was above it. */
  lemma StoreBoundsTheMap(m: map<Height, Entry>, e: Entry)
    requires Filed(m) && e.height >= 0
    ensures var above := set k | k in m && k > e.height;
            |Stored(m, e)| <= KEEP_HEIGHTS + 1 + |above|
    ensures Filed(Stored(m, e))
  {
    var above := set k | k in m && k > e.height;
    var band := Band(e.height - KEEP_HEIGHTS, KEEP_HEIGHTS + 1);
    SmallerSet(Stored(m, e).Keys, band + above);
    assert |band + above| <= |band| + |above|;
  }

  // -- Runs of stores --

  function After(stores: seq<Entry>): map<Height, Entry> {
    if stores == [] then map[] else Stored(After(stores[..|stores| - 1]), stores[|stores| - 1])
  }

  /** The highest height stored so far; 0 before any. */
  function Highest(stores: seq<Entry>): Height {
    if stores == [] then 0 else Max(Highest(stores[..|stores| - 1]), stores[|stores| - 1].height)
  }

  /** Every store lies at most `spread` below the highest height stored before it. */
  ghost predicate Within(stores: seq<Entry>, spread: nat) {
    forall i :: 0 <= i < |stores| ==> stores[i].height >= 0 && stores[i].height >= Highest(stores[..i]) - spread
  }

  /** What a run keeps lies in one band under the highest height. */
  lemma {:induction false} EntriesLieInABand(stores: seq<Entry>, spread: nat)
    requires Within(stores, spread)
    ensures Filed(After(stores)) && Highest(stores) >= 0
    ensures forall k :: k in After(stores) ==> Highest(stores) - Max(KEEP_HEIGHTS, spread) <= k <= Highest(stores)
  {
    if stores != [] {
      var n := |stores| - 1;
      assert forall i :: 0 <= i < n ==> stores[..n][i] == stores[i] && stores[..n][..i] == stores[..i];
      EntriesLieInABand(stores[..n], spread);
    }
  }

  lemma SpreadBoundsTheMap(stores: seq<Entry>, spread: nat)
    requires Within(stores, spread)
    ensures |After(stores)| <= Max(KEEP_HEIGHTS, spread) + 1
  {
    EntriesLieInABand(stores, spread);
    var width := Max(KEEP_HEIGHTS, spread);
    SmallerSet(After(stores).Keys, Band(Highest(stores) - width, width + 1));
  }

  function At(height: Height): Entry {
    Entry(0, height, 0, true, 0)
  }

  /** Heights `top`, `top - 1`, … `count` times. */
  function Falling(top: nat, count: nat): seq<Entry>
    requires count <= top
  {
    if count == 0 then [] else Falling(top, count - 1) + [At(top - count + 1)]
  }

  /** A store that finds nothing too far below drops nothing. */
  lemma DropsNothing(m: map<Height, Entry>, e: Entry)
    requires Filed(m) && e.height >= 0 && e.height !in m
    requires forall k :: k in m ==> Kept(m[k], e.height)
    ensures Stored(m, e) == m[e.height := e]
    ensures Filed(Stored(m, e)) && |Stored(m, e)| == |m| + 1
  {
    var n := m[e.height := e];
    assert forall k :: k in n ==> Kept(n[k], e.height);
    assert n.Keys == m.Keys + {e.height};
  }

  /** Stores at ever lower heights drop nothing. */
  lemma {:induction false} DescendingStoresAreAllKept(top: nat, count: nat)
    requires count <= top
    ensures Filed(After(Falling(top, count))) && |After(Falling(top, count))| == count
    ensures forall k :: k in After(Falling(top, count)) ==> k > top - count
  {
    if count > 0 {
      var all := Falling(top, count);
      assert all[..|all| - 1] == Falling(top, count - 1);
      DescendingStoresAreAllKept(top, count - 1);
      DropsNothing(After(Falling(top, count - 1)), At(top - count + 1));
    }
  }

  lemma {:induction false} WithinOneMore(stores: seq<Entry>, e: Entry, spread: nat)
    requires Within(stores, spread) && e.height >= 0 && e.height >= Highest(stores) - spread
    ensures Within(stores + [e], spread) && Highest(stores + [e]) == Max(Highest(stores), e.height)
  {
    var all := stores + [e];
    assert all[..|stores|] == stores;
    forall i | 0 <= i < |all| ensures all[i].height >= 0 && all[i].height >= Highest(all[..i]) - spread {
      if i < |stores| {
        assert all[..i] == stores[..i] && all[i] == stores[i];
      }
    }
  }

  lemma {:induction false} FallingSpread(top: nat, count: nat, spread: nat)
    requires 0 < count <= top && count - 1 <= spread
    ensures Highest(Falling(top, count)) == top && Within(Falling(top, count), spread)
  {
    if count > 1 {
      FallingSpread(top, count - 1, spread);
    }
    WithinOneMore(Falling(top, count - 1), At(top - count + 1), spread);
  }

  /** Heights 0, 1, … `count` times. */
  function Rising(count: nat): seq<Entry> {
    if count == 0 then [] else Rising(count - 1) + [At(count - 1)]
  }

  lemma {:induction false} RisingSpread(count: nat, spread: nat)
    ensures Within(Rising(count), spread) && Highest(Rising(count)) == Max(0, count - 1)
  {
    if count > 0 {
      RisingSpread(count - 1, spread);
      WithinOneMore(Rising(count - 1), At(count - 1), spread);
    }
  }

  /** Up to the window's own size, rising stores drop nothing either. */
  lemma {:induction false} RisingStoresFillTheWindow(count: nat)
    requires count <= KEEP_HEIGHTS + 1
    ensures Filed(After(Rising(count))) && |After(Rising(count))| == count
    ensures forall k :: k in After(Rising(count)) ==> k < count
  {
    if count > 0 {
      var all := Rising(count);
      assert all[..|all| - 1] == Rising(count - 1);
      RisingStoresFillTheWindow(count - 1);
      DropsNothing(After(Rising(count - 1)), At(count - 1));
    }
  }

  /** No run whose stores stay within the spread leaves more than `size` entries. */
  ghost predicate NeverExceeds(spread: nat, size: int) {
    forall stores :: Within(stores, spread) ==> |After(stores)| <= size
  }

  /**
   Exactly how large the map can get: one more than the window, or than the spread of the
   stores where that is wider. So it stays within 65 entries if and only if no store lies
   more than 64 below the highest height stored before it.
   */
  lemma MapStaysWithinExactly(spread: nat, size: int)
    ensures NeverExceeds(spread, size) <==> Max(KEEP_HEIGHTS, spread) + 1 <= size
    ensures NeverExceeds(spread, 65) <==> spread <= 64
  {
    forall stores | Within(stores, spread) ensures |After(stores)| <= Max(KEEP_HEIGHTS, spread) + 1 {
      SpreadBoundsTheMap(stores, spread);
    }
    if spread > KEEP_HEIGHTS {
      FallingSpread(spread + 1, spread + 1, spread);
      DescendingStoresAreAllKept(spread + 1, spread + 1);
    } else {
      RisingSpread(KEEP_HEIGHTS + 1, spread);
      RisingStoresFillTheWindow(KEEP_HEIGHTS + 1);
    }
  }
}

/**
 Any number of replicas looking parameters up at once, over one shared store. A call takes
 the lock or finds it taken, and either way may end up asking the chain; it reads its own
 process's height before it asks.
 */
module SharedParamReplicas {
  import opened SharedParams

  type Replica = nat
  type Call = nat

  datatype Process = Process(height: Height, local: map<Height, Entry>)

  // What the chain said, and the height of the asking process when it was asked.
  datatype Reply = Reply(params: Params, final: bool, seenAt: Height)

  datatype Pc =
    | Looking                                // about to look at L1
    | Missed                                 // L1 missed: about to read L2
    | Locking                                // L2 missed: about to take the lock
    | Retrying                               // the lock was taken: one more look at L2
    | Asking(holder: bool)                   // about to read the height, then ask
    | Waiting(holder: bool, seenAt: Height)  // the question is out
    | Writing(reply: Reply)                  // the holder has a final reply, about to write L2
    | Filing(reply: Reply)                   // about to store in L1
    | Served(params: Params, from: Source)
    | Failed

  datatype Source =
    | FromLocal(entry: Entry, current: Height, at: int)   // the entry, and height and time at the look
    | FromShared
    | FromChain(reply: Reply)

  datatype Running = Running(replica: Replica, height: Height, pc: Pc)

  // `asked` is history: every question a process put to the chain, with the reply.
  datatype Asked = Asked(replica: Replica, height: Height, reply: Reply)

  datatype State = State(
    now: int,
    shared: map<Height, Params>,
    processes: map<Replica, Process>,
    calls: map<Call, Running>,
    asked: set<Asked>)

  datatype Event =
    | Start(r: Replica)
    | NewBlock(r: Replica, height: Height)
    | Pass(millis: int)
    | Expire(height: Height)
    | Begin(c: Call, r: Replica, height: Height)
    | LookLocal(c: Call)
    | ReadShared(c: Call, readable: bool)              // the read may fail or not decode
    | TakeLock(c: Call, locked: bool, failed: bool)
    | ReadHeight(c: Call)
    | Answer(c: Call, params: Params, final: bool, failed: bool)
    | WriteShared(c: Call, written: bool)
    | File(c: Call)
    | Warmup(r: Replica, readable: bool)

  /** The chain's final answer for each height. */
  type Truth = Height -> Params

  function To(s: State, c: Call, pc: Pc): State
    requires c in s.calls
  {
    s.(calls := s.calls[c := s.calls[c].(pc := pc)])
  }

  function FileLocal(s: State, r: Replica, e: Entry): State
    requires r in s.processes
  {
    s.(processes := s.processes[r := s.processes[r].(local := Stored(s.processes[r].local, e))])
  }

  /** An answer read from L2: filed as final, and served. */
  function HitShared(s: State, c: Call): State
    requires c in s.calls && s.calls[c].replica in s.processes && s.calls[c].height in s.shared
  {
    var call := s.calls[c];
    var params := s.shared[call.height];
    To(FileLocal(s, call.replica, Entry(params, call.height, s.now, true, s.processes[call.replica].height)), c,
        Served(params, FromShared))
  }

  function CallStep(truth: Truth, s: State, e: Event, call: Running, p: Process): State
    requires !e.Start? && !e.NewBlock? && !e.Pass? && !e.Expire? && !e.Begin? && !e.Warmup?
    requires e.c in s.calls && s.calls[e.c] == call && call.replica in s.processes && s.processes[call.replica] == p
  {
    match e
    case LookLocal(c) =>
      if !call.pc.Looking? then s
      else if call.height in p.local && Servable(p.local[call.height], p.height, s.now) then
        To(s, c, Served(p.local[call.height].params, FromLocal(p.local[call.height], p.height, s.now)))
      else To(s, c, Missed)
    case ReadShared(c, readable) =>
      if !call.pc.Missed? && !call.pc.Retrying? then s
      else if readable && call.height in s.shared then HitShared(s, c)
      else To(s, c, if call.pc.Missed? then Locking else Asking(false))
    case TakeLock(c, locked, failed) =>
      if !call.pc.Locking? then s else To(s, c, if failed then Failed else if locked then Asking(true) else Retrying)
    case ReadHeight(c) =>
      if !call.pc.Asking? then s else To(s, c, Waiting(call.pc.holder, p.height))
    case Answer(c, params, final, failed) =>
      // A final answer is the truth; any other may be anything.
      if !call.pc.Waiting? || (final && params != truth(call.height)) then s
      else if failed then To(s, c, Failed)
      else
        var reply := Reply(params, final, call.pc.seenAt);
        To(s.(asked := s.asked + {Asked(call.replica, call.height, reply)}), c,
           if call.pc.holder && final then Writing(reply) else Filing(reply))
    case WriteShared(c, written) =>
      if !call.pc.Writing? then s
      else To(if written then s.(shared := s.shared[call.height := call.pc.reply.params])
          else s, c, Filing(call.pc.reply))
    case File(c) =>
      if !call.pc.Filing? then s
      else
        var reply := call.pc.reply;
        To(FileLocal(s, call.replica, Entry(reply.params, call.height, s.now, reply.final, reply.seenAt)), c,
            Served(reply.params, FromChain(reply)))
  }

  function Step(truth: Truth, s: State, e: Event): State {
    match e
    case Start(r) => if r in s.processes then s else s.(processes := s.processes[r := Process(0, map[])])
    case NewBlock(r, height) =>
      if r in s.processes && height > s.processes[r].height
          then s.(processes := s.processes[r := s.processes[r].(height := height)]) else s
    case Pass(millis) => if millis > 0 then s.(now := s.now + millis) else s
    case Expire(height) => s.(shared := s.shared - {height})
    case Begin(c, r, height) => if c in s.calls || r !in s.processes then s
      else s.(calls := s.calls[c := Running(r, height, Looking)])
    case Warmup(r, readable) =>
      if r in s.processes && readable && s.processes[r].height in s.shared then
        var h := s.processes[r].height;
        FileLocal(s, r, Entry(s.shared[h], h, s.now, true, h))
      else s
    case _ =>
      if e.c in s.calls && s.calls[e.c].replica in s.processes then
        CallStep(truth, s, e, s.calls[e.c], s.processes[s.calls[e.c].replica])
      else s
  }

  function Run(truth: Truth, s: State, events: seq<Event>): State {
    if events == [] then s else Step(truth, Run(truth, s, events[..|events| - 1]), events[|events| - 1])
  }

  const INIT := State(0, map[], map[], map[], {})

  // -- What every step keeps --

  ghost predicate TrueReply(truth: Truth, height: Height, reply: Reply) {
    reply.final ==> reply.params == truth(height)
  }

  /**
   An entry of a process is the truth if it is final, and otherwise a reply this process heard to a
   question of its own.
   */
  ghost predicate GoodEntry(truth: Truth, asked: set<Asked>, r: Replica, p: Process, e: Entry) {
    if e.final then e.params == truth(e.height)
    else e.seenAt <= p.height && Asked(r, e.height, Reply(e.params, false, e.seenAt)) in asked
  }

  ghost predicate GoodProcess(truth: Truth, asked: set<Asked>, r: Replica, p: Process) {
    && p.height >= 0
    && (forall h :: h in p.local ==> p.local[h].height == h && GoodEntry(truth, asked, r, p, p.local[h]))
  }

  /** Whether what was served was right to serve. */
  ghost predicate GoodServe(truth: Truth, asked: set<Asked>, call: Running, params: Params, from: Source) {
    match from
    case FromShared => params == truth(call.height)
    case FromChain(reply) =>
      params == reply.params && TrueReply(truth, call.height, reply) && Asked(call.replica, call.height, reply) in asked
    case FromLocal(entry, current, at) =>
      && params == entry.params
      && Servable(entry, current, at)
      && (if entry.final then params == truth(call.height)
          else entry.seenAt == current && Asked(call.replica, call.height, Reply(params, false, current)) in asked)
  }

  ghost predicate GoodCall(truth: Truth, asked: set<Asked>, call: Running, p: Process) {
    match call.pc
    case Waiting(holder, seenAt) => seenAt <= p.height
    case Writing(reply) => reply.final && reply.seenAt <= p.height && TrueReply(truth, call.height, reply) &&
      Asked(call.replica, call.height, reply) in asked
    case Filing(reply) => reply.seenAt <= p.height && TrueReply(truth, call.height, reply) &&
      Asked(call.replica, call.height, reply) in asked
    case Served(params, from) => GoodServe(truth, asked, call, params, from)
    case _ => true
  }

  ghost predicate SharedIsTrue(truth: Truth, s: State) {
    forall h :: h in s.shared ==> s.shared[h] == truth(h)
  }

  ghost predicate ProcessesAreGood(truth: Truth, s: State) {
    forall r :: r in s.processes ==> GoodProcess(truth, s.asked, r, s.processes[r])
  }

  ghost predicate CallsAreGood(truth: Truth, s: State) {
    forall c :: c in s.calls ==>
        s.calls[c].replica in s.processes && GoodCall(truth, s.asked, s.calls[c], s.processes[s.calls[c].replica])
  }

  ghost predicate Inv(truth: Truth, s: State) {
    SharedIsTrue(truth, s) && ProcessesAreGood(truth, s) && CallsAreGood(truth, s)
  }

  /** Filing a good entry keeps a process good. */
  lemma FilingKeepsGood(truth: Truth, asked: set<Asked>, r: Replica, p: Process, e: Entry)
    requires GoodProcess(truth, asked, r, p) && GoodEntry(truth, asked, r, p, e)
    ensures GoodProcess(truth, asked, r, p.(local := Stored(p.local, e)))
  {
  }

  lemma SharedStep(truth: Truth, s: State, e: Event)
    requires Inv(truth, s)
    ensures SharedIsTrue(truth, Step(truth, s, e))
  {
  }

  lemma ProcessesStep(truth: Truth, s: State, e: Event)
    requires Inv(truth, s)
    ensures ProcessesAreGood(truth, Step(truth, s, e))
  {
    if (e.File? || e.ReadShared?) && e.c in s.calls {
      var call := s.calls[e.c];
      var p := s.processes[call.replica];
      if call.pc.Filing? {
        FilingKeepsGood(truth, s.asked, call.replica, p,
            Entry(call.pc.reply.params, call.height, s.now, call.pc.reply.final, call.pc.reply.seenAt));
      } else if call.height in s.shared {
        FilingKeepsGood(truth, s.asked, call.replica, p,
            Entry(s.shared[call.height], call.height, s.now, true, p.height));
      }
    } else if e.Warmup? && e.r in s.processes && s.processes[e.r].height in s.shared {
      var h := s.processes[e.r].height;
      FilingKeepsGood(truth, s.asked, e.r, s.processes[e.r], Entry(s.shared[h], h, s.now, true, h));
    }
  }

  /** More history and a higher process keep a call good. */
  lemma GoodCallStays(truth: Truth, asked: set<Asked>, more: set<Asked>, call: Running, p: Process, q: Process)
    requires GoodCall(truth, asked, call, p)
    requires asked <= more && p.height <= q.height
    ensures GoodCall(truth, more, call, q)
  {
  }

  /** What a step leaves alone: every other call, the history, and that processes only go up. */
  lemma StepFrame(truth: Truth, s: State, e: Event)
    ensures var t := Step(truth, s, e);
            && s.asked <= t.asked
            && (forall r :: r in s.processes ==> r in t.processes && s.processes[r].height <= t.processes[r].height)
            && (forall c | c in t.calls ::
                  e.Start? || e.NewBlock? || e.Pass? || e.Expire? || e.Warmup? || e.c != c ==>
                    c in s.calls && t.calls[c] == s.calls[c])
  {
  }

  lemma OwnCallStep(truth: Truth, s: State, e: Event)
    requires Inv(truth, s)
    requires !e.Start? && !e.NewBlock? && !e.Pass? && !e.Expire? && !e.Warmup?
    requires e.c in Step(truth, s, e).calls
    ensures var t := Step(truth, s, e);
            t.calls[e.c].replica in t.processes &&
                GoodCall(truth, t.asked, t.calls[e.c], t.processes[t.calls[e.c].replica])
  {
  }

  lemma CallsStep(truth: Truth, s: State, e: Event)
    requires Inv(truth, s)
    ensures CallsAreGood(truth, Step(truth, s, e))
  {
    var t := Step(truth, s, e);
    StepFrame(truth, s, e);
    forall c | c in t.calls
      ensures t.calls[c].replica in t.processes && GoodCall(truth, t.asked, t.calls[c], t.processes[t.calls[c].replica])
    {
      if e.Start? || e.NewBlock? || e.Pass? || e.Expire? || e.Warmup? || e.c != c {
        GoodCallStays(truth, s.asked, t.asked, s.calls[c], s.processes[s.calls[c].replica],
            t.processes[s.calls[c].replica]);
      } else {
        OwnCallStep(truth, s, e);
      }
    }
  }

  lemma {:induction false} InvHolds(truth: Truth, events: seq<Event>)
    ensures Inv(truth, Run(truth, INIT, events))
  {
    if events != [] {
      var before := Run(truth, INIT, events[..|events| - 1]);
      InvHolds(truth, events[..|events| - 1]);
      SharedStep(truth, before, events[|events| - 1]);
      ProcessesStep(truth, before, events[|events| - 1]);
      CallsStep(truth, before, events[|events| - 1]);
    }
  }

  // -- The theorems --

  /**
   In every run, what L2 holds for a height is that height's final answer, and so is every entry
   any process holds as final.
   */
  lemma OnlyFinalAnswersAreShared(truth: Truth, events: seq<Event>)
    ensures var s := Run(truth, INIT, events);
            && (forall h :: h in s.shared ==> s.shared[h] == truth(h))
            && (forall r, h :: r in s.processes && h in s.processes[r].local && s.processes[r].local[h].final ==>
                  s.processes[r].local[h].params == truth(h))
  {
    InvHolds(truth, events);
  }

  /**
   In every run, an answer served is its height's final answer; or the caller's own reply
   from the chain; or a reply its process heard that was asked at the very height the process
   still was at when it served it, less than thirty seconds after it was filed.
   */
  lemma ServedIsFinalOrCurrent(truth: Truth, events: seq<Event>, c: Call)
    requires c in Run(truth, INIT, events).calls && Run(truth, INIT, events).calls[c].pc.Served?
    ensures var s := Run(truth, INIT, events);
            var call := s.calls[c];
            var params := call.pc.params;
            var from := call.pc.from;
            || params == truth(call.height)
            || (from.FromChain? && from.reply.params == params &&
                Asked(call.replica, call.height, from.reply) in s.asked)
            || (&& from.FromLocal?
                && from.current > 0
                && from.at - from.entry.cachedAt < MAX_PENDING_REUSE
                && Asked(call.replica, call.height, Reply(params, false, from.current)) in s.asked)
  {
    InvHolds(truth, events);
  }

  function Question(c: Call): seq<Event> {
    [LookLocal(c), ReadShared(c, true), TakeLock(c, true, false), ReadHeight(c)]
  }

  function FinalAnswer(truth: Truth, c: Call, height: Height): seq<Event> {
    [Answer(c, truth(height), true, false), WriteShared(c, true), File(c)]
  }

  lemma QuestionIsAsked(truth: Truth, s: State, c: Call, r: Replica, height: Height)
    requires r in s.processes && c in s.calls && s.calls[c] == Running(r, height, Looking)
    requires height !in s.shared
    requires height in s.processes[r].local ==> !Servable(s.processes[r].local[height], s.processes[r].height, s.now)
    ensures Run(truth, s, Question(c)) ==
            s.(calls := s.calls[c := Running(r, height, Waiting(true, s.processes[r].height))])
  {
    var events := Question(c);
    assert events[..3][..2] == events[..2] && events[..2][..1] == events[..1];
    assert Run(truth, s, events[..1][..0]) == s;
    assert Run(truth, s, events[..1]) == s.(calls := s.calls[c := Running(r, height, Missed)]);
    assert Run(truth, s, events[..2]) == s.(calls := s.calls[c := Running(r, height, Locking)]);
    assert Run(truth, s, events[..3]) == s.(calls := s.calls[c := Running(r, height, Asking(true))]);
  }

  lemma FinalAnswerIsKept(truth: Truth, s: State, c: Call, r: Replica, height: Height)
    requires r in s.processes && c in s.calls && s.calls[c] == Running(r, height, Waiting(true, s.processes[r].height))
    ensures var t := Run(truth, s, FinalAnswer(truth, c, height));
            && c in t.calls && t.calls[c].pc.Served? && t.calls[c].pc.params == truth(height)
            && height in t.shared && t.shared[height] == truth(height)
            && r in t.processes && height in t.processes[r].local &&
                t.processes[r].local[height].params == truth(height)
  {
    var events := FinalAnswer(truth, c, height);
    assert events[..2][..1] == events[..1];
    assert Run(truth, s, events[..1][..0]) == s;
    assert Run(truth, s, events[..1]).calls[c].pc.Writing?;
    assert Run(truth, s, events[..2]).calls[c].pc.Filing?;
  }

  /** A lookup that misses both levels and gets a final answer serves it and leaves it in both. */
  lemma FinalAnswerFillsBothLevels(truth: Truth, s: State, c: Call, r: Replica, height: Height)
    requires r in s.processes && c in s.calls && s.calls[c] == Running(r, height, Looking)
    requires height !in s.shared
    requires height in s.processes[r].local ==> !Servable(s.processes[r].local[height], s.processes[r].height, s.now)
    ensures var t := Run(truth, Run(truth, s, Question(c)), FinalAnswer(truth, c, height));
            && c in t.calls && t.calls[c].pc.Served? && t.calls[c].pc.params == truth(height)
            && height in t.shared && t.shared[height] == truth(height)
            && r in t.processes && height in t.processes[r].local &&
                t.processes[r].local[height].params == truth(height)
  {
    QuestionIsAsked(truth, s, c, r, height);
    FinalAnswerIsKept(truth, Run(truth, s, Question(c)), c, r, height);
  }

  // -- What becomes of an answer --

  /** The call has the reply, and has only to write it, file it or return it. */
  predicate Returns(pc: Pc, reply: Reply) {
    || (pc == Writing(reply) && reply.final)
    || pc == Filing(reply)
    || pc == Served(reply.params, FromChain(reply))
  }

  lemma ReturnsStep(truth: Truth, s: State, e: Event, c: Call, reply: Reply)
    requires c in s.calls && Returns(s.calls[c].pc, reply)
    ensures var t := Step(truth, s, e);
            c in t.calls && t.calls[c].replica == s.calls[c].replica && t.calls[c].height == s.calls[c].height
                && Returns(t.calls[c].pc, reply)
  {
  }

  /** The chain answered a call, final or not, the holder of the lock or not. */
  predicate Answered(truth: Truth, s: State, c: Call, params: Params, final: bool) {
    && c in s.calls && s.calls[c].pc.Waiting? && s.calls[c].replica in s.processes
    && (final ==> params == truth(s.calls[c].height))
  }

  /** Whatever happens meanwhile, a call whose answer arrived without an error keeps it to the end. */
  lemma {:induction false} AnswerIsNeverLost(truth: Truth, s: State, c: Call, params: Params, final: bool,
                                             rest: seq<Event>)
    requires Answered(truth, s, c, params, final)
    ensures var t := Run(truth, Step(truth, s, Answer(c, params, final, false)), rest);
            c in t.calls && t.calls[c].replica == s.calls[c].replica && t.calls[c].height == s.calls[c].height
                && Returns(t.calls[c].pc, Reply(params, final, s.calls[c].pc.seenAt))
  {
    if rest != [] {
      var n := |rest| - 1;
      AnswerIsNeverLost(truth, s, c, params, final, rest[..n]);
      ReturnsStep(truth, Run(truth, Step(truth, s, Answer(c, params, final, false)), rest[..n]), rest[n], c,
                  Reply(params, final, s.calls[c].pc.seenAt));
    }
  }

  /** The rest of a call that has its answer: a lock holder with a final one writes it, and all file it. */
  function RestOf(c: Call, written: bool): seq<Event> {
    [WriteShared(c, written), File(c)]
  }

  /**
   An answer that arrives without an error is served, exactly as it came, whoever holds the lock
   and whether or not it is final. It is left in L1 with its finality, the time of filing and the
   height read before asking; L2 changes only for a lock holder's final answer.
   */
  lemma AnswerIsServedAndFiled(truth: Truth, s: State, c: Call, params: Params, final: bool, written: bool)
    requires Answered(truth, s, c, params, final)
    ensures var call := s.calls[c];
            var t := Run(truth, Step(truth, s, Answer(c, params, final, false)), RestOf(c, written));
            && c in t.calls && t.calls[c].pc == Served(params, FromChain(Reply(params, final, call.pc.seenAt)))
            && call.replica in t.processes && call.height in t.processes[call.replica].local
            && t.processes[call.replica].local[call.height]
               == Entry(params, call.height, s.now, final, call.pc.seenAt)
            && t.shared == (if call.pc.holder && final && written then s.shared[call.height := params] else s.shared)
            && t.asked == s.asked + {Asked(call.replica, call.height, Reply(params, final, call.pc.seenAt))}
  {
    var call := s.calls[c];
    var reply := Reply(params, final, call.pc.seenAt);
    var s1 := Step(truth, s, Answer(c, params, final, false));
    var rest := RestOf(c, written);
    assert rest[..1][..0] == [];
    assert Run(truth, s1, rest[..1][..0]) == s1;
    var s2 := Run(truth, s1, rest[..1]);
    assert s2 == Step(truth, s1, WriteShared(c, written));
    assert s2.calls[c].pc == Filing(reply) && s2.processes == s.processes && s2.now == s.now;
    assert Run(truth, s1, rest) == Step(truth, s2, File(c));
  }

  // -- The next lookup --

  /** The event files nothing in the process that would replace or drop its entry for the height. */
  predicate LeavesAlone(s: State, e: Event, r: Replica, height: Height) {
    match e
    case File(c) => c in s.calls && s.calls[c].replica == r ==> FarEnough(s.calls[c].height, height)
    case ReadShared(c, _) => c in s.calls && s.calls[c].replica == r ==> FarEnough(s.calls[c].height, height)
    case Warmup(q, _) => q in s.processes && q == r ==> FarEnough(s.processes[q].height, height)
    case _ => true
  }

  predicate FarEnough(stored: Height, height: Height) {
    stored != height && stored <= height + 64
  }

  lemma LeftAlone(truth: Truth, s: State, e: Event, r: Replica, height: Height)
    requires r in s.processes && height in s.processes[r].local && s.processes[r].local[height].height == height
    requires LeavesAlone(s, e, r, height)
    ensures var t := Step(truth, s, e);
            && r in t.processes && height in t.processes[r].local
            && t.processes[r].local[height] == s.processes[r].local[height]
  {
  }

  /**
   Exactly when a filing leaves an entry of its process alone: it replaces the one for its own
   height, drops those more than 64 below, and keeps the rest. So an entry can be asked for again
   before it is too old, when the process files an answer for a height more than 64 above it.
   */
  lemma FilingLeavesAloneExactlyWhen(truth: Truth, s: State, c: Call, height: Height)
    requires c in s.calls && s.calls[c].pc.Filing? && s.calls[c].replica in s.processes && height >= 0
    requires height in s.processes[s.calls[c].replica].local
    requires s.processes[s.calls[c].replica].local[height].height == height
    ensures var call := s.calls[c];
            var before, after := s.processes[call.replica].local, Step(truth, s, File(c)).processes[call.replica].local;
            && (height in after <==> call.height <= height + 64)
            && (height in after && call.height != height ==> after[height] == before[height])
            && (call.height == height ==>
                  var reply := call.pc.reply;
                  after[height] == Entry(reply.params, height, s.now, reply.final, reply.seenAt))
  {
  }

  ghost predicate AllLeaveAlone(truth: Truth, s: State, events: seq<Event>, r: Replica, height: Height) {
    forall i :: 0 <= i < |events| ==> LeavesAlone(Run(truth, s, events[..i]), events[i], r, height)
  }

  lemma {:induction false} EntryIsKept(truth: Truth, s: State, events: seq<Event>, r: Replica, height: Height)
    requires r in s.processes && height in s.processes[r].local && s.processes[r].local[height].height == height
    requires AllLeaveAlone(truth, s, events, r, height)
    ensures var t := Run(truth, s, events);
            && r in t.processes && height in t.processes[r].local
            && t.processes[r].local[height] == s.processes[r].local[height]
  {
    if events != [] {
      var n := |events| - 1;
      forall i | 0 <= i < n ensures LeavesAlone(Run(truth, s, events[..n][..i]), events[..n][i], r, height) {
        assert events[..n][..i] == events[..i];
      }
      EntryIsKept(truth, s, events[..n], r, height);
      LeftAlone(truth, Run(truth, s, events[..n]), events[n], r, height);
    }
  }

  /** Final and less than thirty minutes old; or asked at the height still seen, and less than thirty seconds old. */
  predicate StillGood(e: Entry, current: Height, now: int) {
    || (e.final && now - e.cachedAt < 30 * 60 * 1000)
    || (!e.final && 0 < current <= e.seenAt && now - e.cachedAt < 30 * 1000)
  }

  function LookedUp(truth: Truth, s: State, c: Call, r: Replica, height: Height): State {
    Step(truth, Step(truth, s, Begin(c, r, height)), LookLocal(c))
  }

  lemma LookupIsServedExactlyWhen(truth: Truth, s: State, c: Call, r: Replica, height: Height)
    requires r in s.processes && c !in s.calls
    ensures var t := LookedUp(truth, s, c, r, height);
            var p := s.processes[r];
            && c in t.calls && t.asked == s.asked && t.shared == s.shared && t.processes == s.processes
            && t.calls[c] == Running(r, height,
                 if height in p.local && StillGood(p.local[height], p.height, s.now)
                 then Served(p.local[height].params, FromLocal(p.local[height], p.height, s.now)) else Missed)
  {
    var s1 := Step(truth, s, Begin(c, r, height));
    assert s1 == s.(calls := s.calls[c := Running(r, height, Looking)]);
  }

  /**
   A later lookup by the same process, whatever happened in between short of replacing the entry,
   is served from it, and the chain is not asked, exactly when it is final and less than thirty
   minutes old; or the process has seen no newer block than when it asked, and filed it less than
   thirty seconds before.
   */
  lemma NextLookupIsServedExactlyWhen(truth: Truth, s: State, between: seq<Event>, r: Replica, height: Height, c: Call)
    requires r in s.processes && height in s.processes[r].local && s.processes[r].local[height].height == height
    requires AllLeaveAlone(truth, s, between, r, height) && c !in Run(truth, s, between).calls
    ensures var entry := s.processes[r].local[height];
            var t := Run(truth, s, between);
            && r in t.processes
            && LookedUp(truth, t, c, r, height).asked == t.asked
            && c in LookedUp(truth, t, c, r, height).calls
            && LookedUp(truth, t, c, r, height).calls[c].pc ==
                 if StillGood(entry, t.processes[r].height, t.now)
                 then Served(entry.params, FromLocal(entry, t.processes[r].height, t.now)) else Missed
  {
    EntryIsKept(truth, s, between, r, height);
    LookupIsServedExactlyWhen(truth, Run(truth, s, between), c, r, height);
  }

  /** So after any answer, a second lookup with no newer block and within thirty seconds serves it without asking. */
  lemma SecondLookupDoesNotAsk(truth: Truth, s: State, c: Call, params: Params, final: bool, written: bool,
                               between: seq<Event>, d: Call)
    requires Answered(truth, s, c, params, final)
    requires var t := Run(truth, Step(truth, s, Answer(c, params, final, false)), RestOf(c, written));
             var u := Run(truth, t, between);
             var r := s.calls[c].replica;
             && AllLeaveAlone(truth, t, between, r, s.calls[c].height) && d !in u.calls
             && (r in u.processes ==> 0 < u.processes[r].height <= s.calls[c].pc.seenAt) && u.now - s.now < 30 * 1000
    ensures var u := Run(truth, Run(truth, Step(truth, s, Answer(c, params, final, false)), RestOf(c, written)),
            between);
            var v := LookedUp(truth, u, d, s.calls[c].replica, s.calls[c].height);
            d in v.calls && v.calls[d].pc.Served? && v.calls[d].pc.params == params && v.asked == u.asked
  {
    AnswerIsServedAndFiled(truth, s, c, params, final, written);
    var t := Run(truth, Step(truth, s, Answer(c, params, final, false)), RestOf(c, written));
    NextLookupIsServedExactlyWhen(truth, t, between, s.calls[c].replica, s.calls[c].height, d);
  }

  /** A lookup that misses L1 and L2 asks the chain at the process's own height, with or without the lock. */
  lemma MissIsAsked(truth: Truth, s: State, c: Call, r: Replica, height: Height, locked: bool)
    requires r in s.processes && c in s.calls && s.calls[c] == Running(r, height, Missed) && height !in s.shared
    ensures var t := Step(truth, Step(truth, s, ReadShared(c, true)), TakeLock(c, locked, false));
            var u := if locked then t else Step(truth, t, ReadShared(c, true));
            Step(truth, u, ReadHeight(c)).calls[c] == Running(r, height, Waiting(locked, s.processes[r].height))
  {
  }

  /** What L2 holds is served and filed as final, with or without a second look. */
  lemma SharedIsServed(truth: Truth, s: State, c: Call, r: Replica, height: Height)
    requires r in s.processes && c in s.calls && s.calls[c].replica == r && s.calls[c].height == height
    requires (s.calls[c].pc.Missed? || s.calls[c].pc.Retrying?) && height in s.shared
    ensures var t := Step(truth, s, ReadShared(c, true));
            && t.calls[c].pc == Served(s.shared[height], FromShared) && t.asked == s.asked && t.shared == s.shared
            && height in t.processes[r].local
            && t.processes[r].local[height] == Entry(s.shared[height], height, s.now, true, s.processes[r].height)
  {
  }

  /** A lock that cannot be asked for and an answer that is an error end the call, and leave everything else alone. */
  lemma ErrorsEndTheCall(truth: Truth, s: State, c: Call, locked: bool, params: Params, final: bool)
    requires c in s.calls && s.calls[c].replica in s.processes && (final ==> params == truth(s.calls[c].height))
    ensures s.calls[c].pc.Locking? ==>
            Step(truth, s, TakeLock(c, locked, true)) == s.(calls := s.calls[c := s.calls[c].(pc := Failed)])
    ensures s.calls[c].pc.Waiting? ==>
            Step(truth, s, Answer(c, params, final, true)) == s.(calls := s.calls[c := s.calls[c].(pc := Failed)])
  {
  }

  /** A newer block ends the reuse of an answer that is not final, and of no other. */
  lemma NewerBlockEndsReuse(truth: Truth, s: State, r: Replica, height: Height, c: Call, newer: Height)
    requires r in s.processes && c !in s.calls && height in s.processes[r].local
    requires newer > s.processes[r].height && newer > s.processes[r].local[height].seenAt
    requires StillGood(s.processes[r].local[height], s.processes[r].height, s.now)
    ensures var t := LookedUp(truth, Step(truth, s, NewBlock(r, newer)), c, r, height);
            c in t.calls && (t.calls[c].pc.Missed? <==> !s.processes[r].local[height].final)
  {
    LookupIsServedExactlyWhen(truth, Step(truth, s, NewBlock(r, newer)), c, r, height);
  }

  /** A block that is not newer changes nothing. */
  lemma OlderBlockIsIgnored(truth: Truth, s: State, r: Replica, height: Height)
    requires r in s.processes ==> height <= s.processes[r].height
    ensures Step(truth, s, NewBlock(r, height)) == s
  {
  }

  /** Time only goes on, and ends the reuse of any answer. */
  lemma TimeEndsReuse(truth: Truth, s: State, r: Replica, height: Height, c: Call, millis: int)
    requires r in s.processes && c !in s.calls && height in s.processes[r].local
    requires s.processes[r].local[height].cachedAt <= s.now && millis > 0
    ensures var entry := s.processes[r].local[height];
            var t := Step(truth, s, Pass(millis));
            && t == s.(now := s.now + millis) && Step(truth, s, Pass(-millis)) == s
            && c in LookedUp(truth, t, c, r, height).calls
            && (millis >= (if entry.final then LOCAL_TTL else MAX_PENDING_REUSE) ==>
                  LookedUp(truth, t, c, r, height).calls[c].pc == Missed)
  {
    LookupIsServedExactlyWhen(truth, Step(truth, s, Pass(millis)), c, r, height);
  }

  /** A shared answer that expires is asked for again. */
  lemma ExpiryIsAMiss(truth: Truth, s: State, c: Call, height: Height)
    requires c in s.calls && s.calls[c].replica in s.processes && s.calls[c].height == height && s.calls[c].pc.Missed?
    ensures var t := Step(truth, s, Expire(height));
            && Step(truth, t, ReadShared(c, true)).calls[c].pc == Locking
            && forall h :: h in t.shared <==> h in s.shared && h != height
  {
  }

  /** A process starts with nothing; warming it up fills in what the store shares for the height it is at. */
  lemma WarmupServesTheNextLookup(truth: Truth, s: State, r: Replica, height: Height, c: Call)
    requires r !in s.processes && height in s.shared && height > 0 && c !in s.calls
    ensures Step(truth, s, Start(r)) == s.(processes := s.processes[r := Process(0, map[])])
    ensures var started := Step(truth, Step(truth, s, Start(r)), NewBlock(r, height));
            && c in LookedUp(truth, started, c, r, height).calls
            && LookedUp(truth, started, c, r, height).calls[c].pc == Missed
            && var warm := Step(truth, started, Warmup(r, true));
               && warm.asked == s.asked && c in LookedUp(truth, warm, c, r, height).calls
               && LookedUp(truth, warm, c, r, height).calls[c].pc.Served?
               && LookedUp(truth, warm, c, r, height).calls[c].pc.params == s.shared[height]
  {
    var started := Step(truth, Step(truth, s, Start(r)), NewBlock(r, height));
    var p := Process(height, map[]);
    assert started == s.(processes := s.processes[r := p]);
    LookupIsServedExactlyWhen(truth, started, c, r, height);
    var warm := Step(truth, started, Warmup(r, true));
    var entry := Entry(s.shared[height], height, s.now, true, height);
    assert warm.processes[r] == Process(height, Stored(map[], entry));
    assert Kept(entry, height) && height in Stored(map[], entry) && Stored(map[], entry)[height] == entry;
    LookupIsServedExactlyWhen(truth, warm, c, r, height);
  }
}

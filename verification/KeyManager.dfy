/**
 Key hot reload (`keys/manager.go`): every reload reads all key sources, and either replaces
 the whole signing set and tells every callback what changed, or keeps the set it has.

 An address is derived from its key, so one address never stands for two keys.
 */
module KeyManager {
  import opened Common

  type Addr(==) = string
  type Key(==) = nat

  // What one source returned; it may return keys and an error at once.
  datatype Load = Load(keys: map<Addr, Key>, failed: bool)
  datatype Change = Change(addr: Addr, added: bool)

  // -- What a reload computes --

  function Merged(loads: seq<Load>): map<Addr, Key> {
    if loads == [] then map[] else Merged(loads[..|loads| - 1]) + loads[|loads| - 1].keys
  }

  predicate AnyFailed(loads: seq<Load>) {
    exists i :: 0 <= i < |loads| && loads[i].failed
  }

  function Reloaded(keys: map<Addr, Key>, loads: seq<Load>): map<Addr, Key> {
    if AnyFailed(loads) && keys != map[] then keys else Merged(loads)
  }

  /** The last source that has the address. */
  ghost predicate IsLastWith(loads: seq<Load>, a: Addr, i: int) {
    0 <= i < |loads| && a in loads[i].keys && forall j :: i < j < |loads| ==> a !in loads[j].keys
  }

  /** An address is merged exactly when some source has it, and the last source that has it wins. */
  lemma {:induction false} LastSourceWins(loads: seq<Load>, a: Addr) returns (i: int)
    ensures a in Merged(loads) ==> IsLastWith(loads, a, i) && Merged(loads)[a] == loads[i].keys[a]
    ensures a !in Merged(loads) ==> forall j :: 0 <= j < |loads| ==> a !in loads[j].keys
  {
    i := 0;
    if loads != [] {
      var n := |loads| - 1;
      i := LastSourceWins(loads[..n], a);
      assert forall j :: 0 <= j < n ==> loads[..n][j] == loads[j];
      if a in loads[n].keys {
        i := n;
      }
    }
  }

  /**
   The set the sources give: an address exactly when some source returned it, with the key of the
   last one that did.
   */
  ghost predicate GivenBy(keys: map<Addr, Key>, loads: seq<Load>) {
    && (forall a :: a in keys <==> exists i :: 0 <= i < |loads| && a in loads[i].keys)
    && (forall a, i :: IsLastWith(loads, a, i) ==> a in keys && keys[a] == loads[i].keys[a])
  }

  lemma MergedIsGiven(loads: seq<Load>)
    ensures GivenBy(Merged(loads), loads)
  {
    forall a ensures a in Merged(loads) <==> exists i :: 0 <= i < |loads| && a in loads[i].keys {
      var i := LastSourceWins(loads, a);
    }
    forall a, i | IsLastWith(loads, a, i) ensures a in Merged(loads) && Merged(loads)[a] == loads[i].keys[a] {
      var j := LastSourceWins(loads, a);
      assert a in loads[i].keys;
    }
  }

  /** Every source could be read. */
  ghost predicate AllRead(loads: seq<Load>) {
    forall i :: 0 <= i < |loads| ==> !loads[i].failed
  }

  // -- What the callbacks hear --

  function Replay(s: set<Addr>, told: seq<Change>): set<Addr> {
    if told == [] then s
    else
      var before := Replay(s, told[..|told| - 1]);
      var last := told[|told| - 1];
      if last.added then before + {last.addr} else before - {last.addr}
  }

  /** Every change from `from` to `to` once, nothing else, and what was added first. */
  ghost predicate Announces(told: seq<Change>, from: set<Addr>, to: set<Addr>) {
    && (forall i :: 0 <= i < |told| ==> if told[i].added then told[i].addr in to - from else told[i].addr in from - to)
    && (forall a :: a in to - from ==> Change(a, true) in told)
    && (forall a :: a in from - to ==> Change(a, false) in told)
    && (forall i, j :: 0 <= i < j < |told| ==> told[i].addr != told[j].addr)
    && (forall i, j :: 0 <= i < j < |told| && told[j].added ==> told[i].added)
  }

  lemma {:induction false} ReplayAt(s: set<Addr>, told: seq<Change>, a: Addr)
    requires forall i, j :: 0 <= i < j < |told| ==> told[i].addr != told[j].addr
    ensures a in Replay(s, told) <==> Change(a, true) in told || (a in s && Change(a, false) !in told)
  {
    if told != [] {
      var n := |told| - 1;
      ReplayAt(s, told[..n], a);
      assert told == told[..n] + [told[n]];
    }
  }

  /** A listener that applies what it is told ends with exactly the new set. */
  lemma AnnouncementsAreEnough(told: seq<Change>, from: set<Addr>, to: set<Addr>)
    requires Announces(told, from, to)
    ensures Replay(from, told) == to
  {
    forall a ensures a in Replay(from, told) <==> a in to {
      ReplayAt(from, told, a);
    }
  }

  lemma {:induction false} ReplayAppend(s: set<Addr>, a: seq<Change>, b: seq<Change>)
    ensures Replay(s, a + b) == Replay(Replay(s, a), b)
  {
    if b == [] {
      assert a + b == a;
    } else {
      var n := |b| - 1;
      ReplayAppend(s, a, b[..n]);
      assert (a + b)[..|a| + n] == a + b[..n];
    }
  }

  /** The addresses of one set that are not in another, each once, in whatever order the map gives them. */
  method Difference(s: set<Addr>, without: set<Addr>) returns (out: seq<Addr>)
    ensures forall a :: a in out <==> a in s - without
    ensures forall i, j :: 0 <= i < j < |out| ==> out[i] != out[j]
  {
    out := [];
    var left := s;
    while left != {}
      invariant left <= s
      invariant forall a :: a in out <==> a in s - without && a !in left
      invariant forall i, j :: 0 <= i < j < |out| ==> out[i] != out[j]
      decreases |left|
    {
      var a := Pick(left);
      left := left - {a};
      if a !in without {
        out := out + [a];
      }
    }
  }

  class Manager {
    var keys: map<Addr, Key>
    // How many reloads completed with every source read.
    var completed: nat
    // Everything the callbacks were told, in order.
    var told: seq<Change>

    /** A listener that started with nothing and applied everything it was told has the held addresses. */
    ghost predicate Valid()
      reads this
    {
      Replay({}, told) == keys.Keys
    }

    constructor ()
      ensures Valid() && keys == map[] && told == [] && completed == 0
    {
      keys, told, completed := map[], [], 0;
    }

    /** Tells every callback of one kind of change. */
    method Notify(addrs: seq<Addr>, added: bool)
      modifies this`told
      ensures told == old(told) + Telling(addrs, added)
    {
      for k := 0 to |addrs|
        invariant told == old(told) + Telling(addrs[..k], added)
      {
        told := told + [Change(addrs[k], added)];
        assert addrs[..k + 1][..k] == addrs[..k];
      }
      assert addrs[..|addrs|] == addrs;
    }

    /** Swaps the held set and tells the callbacks the difference. */
    method Replace(merged: map<Addr, Key>)
      requires Valid()
      modifies this`keys, this`told
      ensures Valid() && keys == merged
      ensures |old(told)| <= |told| && told[..|old(told)|] == old(told)
      ensures Announces(told[|old(told)|..], old(keys).Keys, merged.Keys)
    {
      ghost var before, was := keys.Keys, told;
      var added := Difference(merged.Keys, keys.Keys);
      var removed := Difference(keys.Keys, merged.Keys);
      keys := merged;
      Notify(added, true);
      Notify(removed, false);
      ghost var news := Telling(added, true) + Telling(removed, false);
      assert told == was + news;
      assert told[|was|..] == news;
      TellingTells(added, true, merged.Keys - before);
      TellingTells(removed, false, before - merged.Keys);
      AddedThenRemovedAnnounce(Telling(added, true), Telling(removed, false), before, merged.Keys);
      AnnouncementsAreEnough(news, before, merged.Keys);
      ReplayAppend({}, was, news);
    }

    /**
     A source that could not be read changes nothing, unless no key is held yet. Otherwise the
     held set becomes the merge of the sources, and the callbacks hear the difference.
     */
    method Reload(loads: seq<Load>) returns (failed: bool)
      requires Valid()
      modifies this
      ensures Valid()
      ensures failed <==> !AllRead(loads) && old(keys) != map[]
      ensures failed ==> keys == old(keys) && told == old(told)
      ensures AllRead(loads) || old(keys) == map[] ==> GivenBy(keys, loads)
      ensures |old(told)| <= |told| && told[..|old(told)|] == old(told)
      ensures Announces(told[|old(told)|..], old(keys).Keys, keys.Keys)
      ensures AllRead(loads) || old(keys) == map[] ==>
              forall a :: Change(a, true) in told[|old(told)|..] <==>
                          a !in old(keys) && exists i :: 0 <= i < |loads| && a in loads[i].keys
      ensures keys == Reloaded(old(keys), loads)
      ensures completed == old(completed) + if AllRead(loads) then 1 else 0
    {
      MergedIsGiven(loads);
      var merged, errors := LoadAll(loads);
      if errors > 0 && keys != map[] {
        return true;
      }
      failed := false;
      Replace(merged);
      if errors == 0 {
        completed := completed + 1;
      }
    }
  }

  /** Reads every source in turn, keeping what each did return. */
  method LoadAll(loads: seq<Load>) returns (merged: map<Addr, Key>, errors: nat)
    ensures merged == Merged(loads)
    ensures errors == 0 <==> AllRead(loads)
  {
    merged, errors := map[], 0;
    for k := 0 to |loads|
      invariant merged == Merged(loads[..k])
      invariant errors > 0 <==> exists i :: 0 <= i < k && loads[i].failed
    {
      assert loads[..k + 1][..k] == loads[..k];
      if loads[k].failed {
        errors := errors + 1;
      }
      merged := merged + loads[k].keys;
    }
    assert loads[..|loads|] == loads;
  }

  function Telling(addrs: seq<Addr>, added: bool): seq<Change> {
    if addrs == [] then [] else Telling(addrs[..|addrs| - 1], added) + [Change(addrs[|addrs| - 1], added)]
  }

  /** Exactly the addresses of a set, each once, all as one kind of change. */
  ghost predicate TellsOf(told: seq<Change>, added: bool, s: set<Addr>) {
    && (forall i :: 0 <= i < |told| ==> told[i].added == added && told[i].addr in s)
    && (forall a :: a in s ==> Change(a, added) in told)
    && (forall i, j :: 0 <= i < j < |told| ==> told[i].addr != told[j].addr)
  }

  lemma {:induction false} TellingAt(addrs: seq<Addr>, added: bool)
    ensures |Telling(addrs, added)| == |addrs|
    ensures forall i :: 0 <= i < |addrs| ==> Telling(addrs, added)[i] == Change(addrs[i], added)
  {
    if addrs != [] {
      TellingAt(addrs[..|addrs| - 1], added);
    }
  }

  lemma TellingTells(addrs: seq<Addr>, added: bool, s: set<Addr>)
    requires forall a :: a in addrs <==> a in s
    requires forall i, j :: 0 <= i < j < |addrs| ==> addrs[i] != addrs[j]
    ensures TellsOf(Telling(addrs, added), added, s)
  {
    TellingAt(addrs, added);
    forall a | a in s ensures Change(a, added) in Telling(addrs, added) {
      var i :| 0 <= i < |addrs| && addrs[i] == a;
      assert Telling(addrs, added)[i] == Change(a, added);
    }
  }

  lemma AddedThenRemovedAnnounce(x: seq<Change>, y: seq<Change>, before: set<Addr>, after: set<Addr>)
    requires TellsOf(x, true, after - before) && TellsOf(y, false, before - after)
    ensures Announces(x + y, before, after)
  {
    forall i, j | 0 <= i < j < |x + y| ensures (x + y)[i].addr != (x + y)[j].addr {
      if i < |x| <= j {
        assert x[i].addr in after - before && y[j - |x|].addr in before - after;
      }
    }
  }

  // -- Runs of reloads --

  function After(keys: map<Addr, Key>, runs: seq<seq<Load>>): map<Addr, Key> {
    if runs == [] then keys else Reloaded(After(keys, runs[..|runs| - 1]), runs[|runs| - 1])
  }

  /** Reload `i` of the run could read every source, or found no key held. */
  ghost predicate Applies(keys: map<Addr, Key>, runs: seq<seq<Load>>, i: int) {
    0 <= i < |runs| && (AllRead(runs[i]) || After(keys, runs[..i]) == map[])
  }

  /** It is the last one that did. */
  ghost predicate AppliesLast(keys: map<Addr, Key>, runs: seq<seq<Load>>, i: int) {
    Applies(keys, runs, i) && forall j :: i < j < |runs| ==> !Applies(keys, runs, j)
  }

  ghost predicate NoneApplies(keys: map<Addr, Key>, runs: seq<seq<Load>>) {
    forall i :: 0 <= i < |runs| ==> !Applies(keys, runs, i)
  }

  lemma AppliesBefore(keys: map<Addr, Key>, runs: seq<seq<Load>>, loads: seq<Load>, i: int)
    requires i < |runs|
    ensures Applies(keys, runs + [loads], i) <==> Applies(keys, runs, i)
  {
    if 0 <= i {
      assert (runs + [loads])[..i] == runs[..i];
    }
  }

  lemma AfterOneMore(keys: map<Addr, Key>, runs: seq<seq<Load>>, loads: seq<Load>)
    ensures After(keys, runs + [loads]) == Reloaded(After(keys, runs), loads)
    ensures Applies(keys, runs + [loads], |runs|) <==> AllRead(loads) || After(keys, runs) == map[]
    ensures AllRead(loads) || After(keys, runs) == map[] ==> GivenBy(After(keys, runs + [loads]), loads)
  {
    assert (runs + [loads])[..|runs|] == runs;
    MergedIsGiven(loads);
  }

  lemma AppliesNoMore(keys: map<Addr, Key>, runs: seq<seq<Load>>, loads: seq<Load>, i: int)
    requires AppliesLast(keys, runs, i) && !Applies(keys, runs + [loads], |runs|)
    ensures AppliesLast(keys, runs + [loads], i)
  {
    AppliesBefore(keys, runs, loads, i);
    forall j | i < j < |runs + [loads]| ensures !Applies(keys, runs + [loads], j) {
      if j < |runs| {
        AppliesBefore(keys, runs, loads, j);
      }
    }
  }

  /**
   Over any run of reloads, the held set is what the sources gave the last reload that could read
   them all or found no key held, and the first set if there was none: a source that cannot be
   read takes nothing away, and on the first load takes nothing from the others.
   */
  lemma {:induction false} HeldIsTheLastGiven(keys: map<Addr, Key>, runs: seq<seq<Load>>) returns (i: int)
    ensures NoneApplies(keys, runs) ==> After(keys, runs) == keys
    ensures !NoneApplies(keys, runs) ==> AppliesLast(keys, runs, i) && GivenBy(After(keys, runs), runs[i])
  {
    i := 0;
    if runs != [] {
      var n := |runs| - 1;
      var before, loads := runs[..n], runs[n];
      i := HeldIsTheLastGiven(keys, before);
      AfterOneMore(keys, before, loads);
      assert runs == before + [loads];
      if Applies(keys, runs, n) {
        i := n;
      } else if !NoneApplies(keys, before) {
        AppliesNoMore(keys, before, loads, i);
      } else {
        forall k | 0 <= k < n ensures !Applies(keys, runs, k) {
          AppliesBefore(keys, before, loads, k);
        }
      }
    }
  }

  /** Every source was read, and none has the address. */
  ghost predicate ReadAsGone(loads: seq<Load>, a: Addr) {
    AllRead(loads) && forall i :: 0 <= i < |loads| ==> a !in loads[i].keys
  }

  /** Over any run of reloads, a held key is gone only if some reload read every source and found it in none. */
  lemma {:induction false} KeyLeavesOnlyWhenReadAsGone(keys: map<Addr, Key>, runs: seq<seq<Load>>, a: Addr)
    requires a in keys && a !in After(keys, runs)
    ensures exists i :: 0 <= i < |runs| && ReadAsGone(runs[i], a)
  {
    var n := |runs| - 1;
    if a in After(keys, runs[..n]) {
      var _ := LastSourceWins(runs[n], a);
      assert ReadAsGone(runs[n], a);
    } else {
      KeyLeavesOnlyWhenReadAsGone(keys, runs[..n], a);
      var i :| 0 <= i < n && ReadAsGone(runs[..n][i], a);
      assert ReadAsGone(runs[i], a);
    }
  }

  /** And such a reload does remove it. */
  lemma ReadAsGoneRemoves(keys: map<Addr, Key>, loads: seq<Load>, a: Addr)
    requires ReadAsGone(loads, a)
    ensures a !in Reloaded(keys, loads)
  {
    var _ := LastSourceWins(loads, a);
  }
}

/**
 Reloads called at once, by the watchers and the timer. The lock covers the reading of the
 sources as well as the swap, while the sources change underneath.
 */
module ReloadOrder {
  import opened Common

  type Worker = nat
  // How many edits the sources have had.
  type Version = nat

  datatype Pc =
    | Waiting
    | Reading(read: seq<Version>)   // the version each source was read at
    | Notifying                     // swapped, and still holding the lock

  datatype State = State(disk: Version, owner: Option<Worker>, calls: map<Worker, Pc>, applied: seq<seq<Version>>)

  datatype Event =
    | Edit
    | CallReload(w: Worker)
    | LockReload(w: Worker)
    | ReadSource(w: Worker)
    | Swap(w: Worker)
    | Abandon(w: Worker)
    | Unlock(w: Worker)

  function Step(s: State, e: Event): State {
    match e
    case Edit => s.(disk := s.disk + 1)
    case CallReload(w) => if w in s.calls then s else s.(calls := s.calls[w := Waiting])
    case LockReload(w) =>
      if w in s.calls && s.calls[w].Waiting? && s.owner.None?
          then s.(owner := Some(w), calls := s.calls[w := Reading([])]) else s
    case ReadSource(w) =>
      if w in s.calls && s.calls[w].Reading? then s.(calls := s.calls[w := Reading(s.calls[w].read + [s.disk])]) else s
    case Swap(w) =>
      if w in s.calls && s.calls[w].Reading?
          then s.(calls := s.calls[w := Notifying], applied := s.applied + [s.calls[w].read]) else s
    case Abandon(w) =>
      if w in s.calls && s.calls[w].Reading? then s.(calls := s.calls - {w}, owner := None) else s
    case Unlock(w) =>
      if w in s.calls && s.calls[w].Notifying? then s.(calls := s.calls - {w}, owner := None) else s
  }

  function Run(s: State, events: seq<Event>): State {
    if events == [] then s else Step(Run(s, events[..|events| - 1]), events[|events| - 1])
  }

  const INIT := State(0, None, map[], [])

  ghost predicate Between(low: seq<seq<Version>>, read: seq<Version>, high: Version) {
    && (forall v: Version :: v in read ==> v <= high)
    && (forall i, v: Version, u: Version :: 0 <= i < |low| && u in low[i] && v in read ==> u <= v)
  }

  /** Whatever was read for a later swap was read after whatever was read for an earlier one. */
  ghost predicate Ordered(applied: seq<seq<Version>>) {
    forall i, j, u: Version, v: Version :: 0 <= i < j < |applied| && u in applied[i] && v in applied[j] ==> u <= v
  }

  ghost predicate Inv(s: State) {
    && (forall w: Worker :: w in s.calls && !s.calls[w].Waiting? ==> s.owner == Some(w))
    && (forall w: Worker :: w in s.calls && s.calls[w].Reading? ==> Between(s.applied, s.calls[w].read, s.disk))
    && (forall i, u: Version :: 0 <= i < |s.applied| && u in s.applied[i] ==> u <= s.disk)
    && Ordered(s.applied)
  }

  lemma SwapKeepsOrder(applied: seq<seq<Version>>, read: seq<Version>, disk: Version)
    requires Ordered(applied) && Between(applied, read, disk)
    requires forall i, u: Version :: 0 <= i < |applied| && u in applied[i] ==> u <= disk
    ensures Ordered(applied + [read])
    ensures forall i, u: Version :: 0 <= i < |applied + [read]| && u in (applied + [read])[i] ==> u <= disk
  {
  }

  lemma ReadStaysBetween(applied: seq<seq<Version>>, read: seq<Version>, disk: Version)
    requires Between(applied, read, disk)
    requires forall i, u: Version :: 0 <= i < |applied| && u in applied[i] ==> u <= disk
    ensures Between(applied, read + [disk], disk)
  {
  }

  lemma InvStep(s: State, e: Event)
    requires Inv(s)
    ensures Inv(Step(s, e))
  {
    if e.Swap? && e.w in s.calls && s.calls[e.w].Reading? {
      SwapKeepsOrder(s.applied, s.calls[e.w].read, s.disk);
    } else if e.ReadSource? && e.w in s.calls && s.calls[e.w].Reading? {
      ReadStaysBetween(s.applied, s.calls[e.w].read, s.disk);
    }
  }

  lemma {:induction false} InvHolds(events: seq<Event>)
    ensures Inv(Run(INIT, events))
  {
    if events != [] {
      InvHolds(events[..|events| - 1]);
      InvStep(Run(INIT, events[..|events| - 1]), events[|events| - 1]);
    }
  }

  /** In every run, a set read earlier is never swapped in over one read later, source by source. */
  lemma OlderReadNeverOverwritesNewer(events: seq<Event>, i: nat, j: nat, u: Version, v: Version)
    requires var applied := Run(INIT, events).applied;
             i < j < |applied| && u in applied[i] && v in applied[j]
    ensures u <= v
  {
    InvHolds(events);
  }

  // -- A reload nothing delays --

  /** Reading one source after another, with the sources edited after some of the reads. */
  function Reads(w: Worker, edits: seq<bool>): seq<Event> {
    if edits == [] then []
    else
      var n := |edits| - 1;
      if edits[n] then Reads(w, edits[..n]) + [ReadSource(w)] + [Edit] else Reads(w, edits[..n]) + [ReadSource(w)]
  }

  function EditsIn(edits: seq<bool>): nat {
    if edits == [] then 0 else EditsIn(edits[..|edits| - 1]) + if edits[|edits| - 1] then 1 else 0
  }

  /** The version each source is at when it is read. */
  function VersionsRead(disk: Version, edits: seq<bool>): seq<Version> {
    if edits == [] then []
    else VersionsRead(disk, edits[..|edits| - 1]) + [disk + EditsIn(edits[..|edits| - 1])]
  }

  lemma {:induction false} RunOneMore(s: State, events: seq<Event>, e: Event)
    ensures Run(s, events + [e]) == Step(Run(s, events), e)
  {
    assert (events + [e])[..|events|] == events;
  }

  lemma {:induction false} ReadsVersions(s: State, w: Worker, edits: seq<bool>)
    requires w in s.calls && s.calls[w] == Reading([])
    ensures Run(s, Reads(w, edits)) ==
            s.(disk := s.disk + EditsIn(edits), calls := s.calls[w := Reading(VersionsRead(s.disk, edits))])
  {
    if edits == [] {
      assert s.calls[w := s.calls[w]] == s.calls;
    } else {
      var n := |edits| - 1;
      ReadsVersions(s, w, edits[..n]);
      RunOneMore(s, Reads(w, edits[..n]), ReadSource(w));
      RunOneMore(s, Reads(w, edits[..n]) + [ReadSource(w)], Edit);
    }
  }

  /** A reload that gets the lock, up to its last read. */
  function UpToTheSwap(s: State, w: Worker, edits: seq<bool>): State {
    Run(Step(Step(s, CallReload(w)), LockReload(w)), Reads(w, edits))
  }

  lemma LockIsTaken(s: State, w: Worker)
    requires w !in s.calls && s.owner.None?
    ensures Step(Step(s, CallReload(w)), LockReload(w)) == s.(owner := Some(w), calls := s.calls[w := Reading([])])
  {
    assert Step(s, CallReload(w)) == s.(calls := s.calls[w := Waiting]);
    assert s.calls[w := Waiting][w := Reading([])] == s.calls[w := Reading([])];
  }

  lemma {:induction false} ReadsFromLocked(s: State, locked: State, w: Worker, edits: seq<bool>)
    requires locked == s.(owner := Some(w), calls := s.calls[w := Reading([])])
    ensures Run(locked, Reads(w, edits)) ==
            s.(disk := s.disk + EditsIn(edits), owner := Some(w),
               calls := s.calls[w := Reading(VersionsRead(s.disk, edits))])
  {
    var read := Reading(VersionsRead(s.disk, edits));
    ReadsVersions(locked, w, edits);
    assert s.calls[w := Reading([])][w := read] == s.calls[w := read];
  }

  lemma {:induction false} AllIsRead(s: State, w: Worker, edits: seq<bool>)
    requires w !in s.calls && s.owner.None?
    ensures UpToTheSwap(s, w, edits) ==
            s.(disk := s.disk + EditsIn(edits), owner := Some(w),
               calls := s.calls[w := Reading(VersionsRead(s.disk, edits))])
  {
    LockIsTaken(s, w);
    ReadsFromLocked(s, Step(Step(s, CallReload(w)), LockReload(w)), w, edits);
  }

  /**
   A reload that finds the lock free reads every source as it is at that moment, and swaps in
   exactly what it read, or abandons it all; either way it leaves the lock free.
   */
  lemma ReloadAppliesWhatItRead(s: State, w: Worker, edits: seq<bool>)
    requires w !in s.calls && s.owner.None?
    ensures var t := UpToTheSwap(s, w, edits);
            && Step(Step(t, Swap(w)), Unlock(w)) ==
               s.(disk := s.disk + EditsIn(edits), applied := s.applied + [VersionsRead(s.disk, edits)])
            && Step(t, Abandon(w)) == s.(disk := s.disk + EditsIn(edits))
  {
    AllIsRead(s, w, edits);
    var t := UpToTheSwap(s, w, edits);
    assert t.calls - {w} == s.calls;
    assert t.calls[w := Notifying] - {w} == s.calls;
    assert Step(t, Swap(w)).calls == t.calls[w := Notifying];
  }

  /** And while one holds the lock no other gets it. */
  lemma LockIsKept(events: seq<Event>, w: Worker, x: Worker)
    requires w in Run(INIT, events).calls && !Run(INIT, events).calls[w].Waiting? && x != w
    ensures Step(Run(INIT, events), LockReload(x)) == Run(INIT, events)
    ensures Step(Run(INIT, events), CallReload(w)) == Run(INIT, events)
  {
    InvHolds(events);
  }
}

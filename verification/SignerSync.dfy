/**
 Keeping the relayer's response signer in step with the key manager
 (`cmd/cmd_relayer.go`, over the reloads of `keys/manager.go`). The signer's set is rebuilt
 whole from the manager on every change it hears of, and once more at startup after the
 callback is registered; rebuilding is read-then-store, under a mutex of its own.

 One reload runs at a time and keeps its lock until every change has been announced. An
 address determines its key, so the sets are sets of addresses.
 */
module SignerSync {
  import opened Common

  type Addr = string
  type Key = nat

  /** Rebuilds the key map from the listed addresses and one answer for each; a key gone in between is left out. */
  method SupplierSigningKeys(addresses: seq<Addr>, answers: seq<Option<Key>>) returns (keys: map<Addr, Key>)
    requires |answers| == |addresses|
    requires forall i, j :: 0 <= i < j < |addresses| ==> addresses[i] != addresses[j]
    ensures forall a :: a in keys <==> exists i :: 0 <= i < |addresses| && addresses[i] == a && answers[i].Some?
    ensures forall i :: 0 <= i < |addresses| && answers[i].Some? ==>
            addresses[i] in keys && keys[addresses[i]] == answers[i].value
  {
    keys := map[];
    for k := 0 to |addresses|
      invariant forall a :: a in keys <==> exists i :: 0 <= i < k && addresses[i] == a && answers[i].Some?
      invariant forall i :: 0 <= i < k && answers[i].Some? ==>
              addresses[i] in keys && keys[addresses[i]] == answers[i].value
    {
      if answers[k].Some? {
        keys := keys[addresses[k] := answers[k].value];
      }
    }
  }

  // -- The protocol --

  // A rebuild under way: addresses listed and not yet asked for, and keys got so far.
  datatype Reading = Reading(left: set<Addr>, got: set<Addr>)

  datatype Starter =
    | Opening                       // about to take the first snapshot
    | Snapshotting(copy: Reading)
    | Built                         // the signer exists; about to register the callback
    | Registered                    // about to rebuild once more
    | Locked
    | Rebuilding(copy: Reading)
    | Started

  datatype Reloader =
    | Idle
    | Announcing(changes: set<Addr>)               // swapped; changes not announced yet
    | Calling(changes: set<Addr>)                  // inside the callback, waiting for the mutex
    | InMutex(changes: set<Addr>)
    | Resyncing(changes: set<Addr>, copy: Reading)

  datatype State = State(held: set<Addr>, signer: set<Addr>, registered: bool, starter: Starter, reloader: Reloader)

  datatype Event =
    | Reload(keys: set<Addr>)
    | Announce(a: Addr)
    | ReloaderLock | ReloaderList | ReloaderGet(a: Addr) | ReloaderStore
    | ReloadEnds
    | StarterList | StarterGet(a: Addr) | StarterBuild | StarterRegister
    | StarterLock | StarterRelist | StarterStore

  predicate MutexFree(s: State) {
    !s.starter.Locked? && !s.starter.Rebuilding? && !s.reloader.InMutex? && !s.reloader.Resyncing?
  }

  function Got(copy: Reading, a: Addr, held: set<Addr>): Reading {
    if a in copy.left then Reading(copy.left - {a}, if a in held then copy.got + {a} else copy.got) else copy
  }

  function ReloaderStep(s: State, e: Event): State {
    match s.reloader
    case Idle =>
      if e.Reload? then s.(held := e.keys, reloader := Announcing((e.keys - s.held) + (s.held - e.keys))) else s
    case Announcing(changes) =>
      if e.Announce? && e.a in changes then
        s.(reloader := if s.registered then Calling(changes - {e.a}) else Announcing(changes - {e.a}))
      else if e.ReloadEnds? && changes == {} then s.(reloader := Idle)
      else s
    case Calling(changes) => if e.ReloaderLock? && MutexFree(s) then s.(reloader := InMutex(changes)) else s
    case InMutex(changes) => if e.ReloaderList? then s.(reloader := Resyncing(changes, Reading(s.held, {}))) else s
    case Resyncing(changes, copy) =>
      if e.ReloaderGet? then s.(reloader := Resyncing(changes, Got(copy, e.a, s.held)))
      else if e.ReloaderStore? && copy.left == {} then s.(signer := copy.got, reloader := Announcing(changes))
      else s
  }

  function StarterStep(s: State, e: Event): State {
    match s.starter
    case Opening => if e.StarterList? then s.(starter := Snapshotting(Reading(s.held, {}))) else s
    case Snapshotting(copy) =>
      if e.StarterGet? then s.(starter := Snapshotting(Got(copy, e.a, s.held)))
      else if e.StarterBuild? && copy.left == {} then s.(signer := copy.got, starter := Built)
      else s
    case Built => if e.StarterRegister? then s.(registered := true, starter := Registered) else s
    case Registered => if e.StarterLock? && MutexFree(s) then s.(starter := Locked) else s
    case Locked => if e.StarterRelist? then s.(starter := Rebuilding(Reading(s.held, {}))) else s
    case Rebuilding(copy) =>
      if e.StarterGet? then s.(starter := Rebuilding(Got(copy, e.a, s.held)))
      else if e.StarterStore? && copy.left == {} then s.(signer := copy.got, starter := Started)
      else s
    case Started => s
  }

  predicate IsReloaders(e: Event) {
    e.Reload? || e.Announce? || e.ReloaderLock? || e.ReloaderList? || e.ReloaderGet? || e.ReloaderStore? ||
        e.ReloadEnds?
  }

  function Step(s: State, e: Event): State {
    if IsReloaders(e) then ReloaderStep(s, e) else StarterStep(s, e)
  }

  function Run(s: State, events: seq<Event>): State {
    if events == [] then s else Step(Run(s, events[..|events| - 1]), events[|events| - 1])
  }

  /** The manager is already open, and reloading, when the relayer takes its first snapshot. */
  function Init(held: set<Addr>): State {
    State(held, {}, false, Opening, Idle)
  }

  // -- The signer ends on the manager's set --

  /** A rebuild that, left to finish now, stores exactly the held set. */
  predicate Accurate(copy: Reading, held: set<Addr>) {
    copy.got <= held && held <= copy.got + copy.left
  }

  /** The reload under way has still to rebuild the signer. */
  predicate WillResync(r: Reloader) {
    (r.Announcing? && r.changes != {}) || r.Calling? || r.InMutex? || r.Resyncing?
  }

  predicate Inv(s: State) {
    && (s.registered <==> s.starter.Registered? || s.starter.Locked? || s.starter.Rebuilding? || s.starter.Started?)
    && (s.reloader.Calling? || s.reloader.InMutex? || s.reloader.Resyncing? ==> s.registered)
    && (s.starter.Locked? || s.starter.Rebuilding? ==> !s.reloader.InMutex? && !s.reloader.Resyncing?)
    && (s.reloader.Resyncing? ==> Accurate(s.reloader.copy, s.held))
    && (s.starter.Rebuilding? ==> Accurate(s.starter.copy, s.held) || WillResync(s.reloader))
    && (s.starter.Started? ==> s.signer == s.held || WillResync(s.reloader))
  }

  lemma AccurateStays(copy: Reading, a: Addr, held: set<Addr>)
    requires Accurate(copy, held)
    ensures Accurate(Got(copy, a, held), held)
  {
  }

  lemma NoChangeMeansSame(a: set<Addr>, b: set<Addr>)
    requires (a - b) + (b - a) == {}
    ensures a == b
  {
    assert a - b == {} && b - a == {} by {
      assert forall x :: x in a - b ==> x in (a - b) + (b - a);
      assert forall x :: x in b - a ==> x in (a - b) + (b - a);
    }
    assert forall x :: x in a && x !in b ==> x in a - b;
    assert forall x :: x in b && x !in a ==> x in b - a;
  }

  lemma InvStep(s: State, e: Event)
    requires Inv(s)
    ensures Inv(Step(s, e))
  {
    if e.Reload? && s.reloader.Idle? && (e.keys - s.held) + (s.held - e.keys) == {} {
      NoChangeMeansSame(e.keys, s.held);
    }
    if e.ReloaderGet? && s.reloader.Resyncing? {
      AccurateStays(s.reloader.copy, e.a, s.held);
    }
    if e.StarterGet? && s.starter.Rebuilding? && Accurate(s.starter.copy, s.held) {
      AccurateStays(s.starter.copy, e.a, s.held);
    }
  }

  lemma {:induction false} InvHolds(held: set<Addr>, events: seq<Event>)
    ensures Inv(Run(Init(held), events))
  {
    if events != [] {
      InvHolds(held, events[..|events| - 1]);
      InvStep(Run(Init(held), events[..|events| - 1]), events[|events| - 1]);
    }
  }

  /**
   However startup and any number of reloads interleave: once startup is over and no reload is
   under way, the signer signs for exactly the addresses the manager holds.
   */
  lemma SignerEndsOnTheHeldSet(held: set<Addr>, events: seq<Event>)
    requires Run(Init(held), events).starter.Started? && Run(Init(held), events).reloader.Idle?
    ensures Run(Init(held), events).signer == Run(Init(held), events).held
  {
    InvHolds(held, events);
  }

  // -- On the way there --

  /** Every reload of the run agrees on whether the address is held. */
  ghost predicate Steady(events: seq<Event>, a: Addr, present: bool) {
    forall i :: 0 <= i < |events| && events[i].Reload? ==> (a in events[i].keys <==> present)
  }

  predicate HasOrWillGet(copy: Reading, a: Addr, present: bool) {
    if present then a in copy.got + copy.left else a !in copy.got
  }

  predicate SteadyInv(s: State, a: Addr, present: bool) {
    && (a in s.held <==> present)
    && (s.starter.Snapshotting? ==> HasOrWillGet(s.starter.copy, a, present))
    && (s.starter.Rebuilding? ==> HasOrWillGet(s.starter.copy, a, present))
    && (s.reloader.Resyncing? ==> HasOrWillGet(s.reloader.copy, a, present))
    && (s.starter.Opening? || s.starter.Snapshotting? || (a in s.signer <==> present))
  }

  lemma SteadyStep(s: State, e: Event, a: Addr, present: bool)
    requires Inv(s) && SteadyInv(s, a, present)
    requires e.Reload? ==> (a in e.keys <==> present)
    ensures SteadyInv(Step(s, e), a, present)
  {
  }

  lemma {:induction false} SteadyHolds(held: set<Addr>, events: seq<Event>, a: Addr, present: bool)
    requires (a in held <==> present) && Steady(events, a, present)
    ensures SteadyInv(Run(Init(held), events), a, present)
  {
    if events != [] {
      var n := |events| - 1;
      assert forall i :: 0 <= i < n ==> events[..n][i] == events[i];
      SteadyHolds(held, events[..n], a, present);
      InvHolds(held, events[..n]);
      SteadyStep(Run(Init(held), events[..n]), events[n], a, present);
    }
  }

  /**
   At every moment from the signer's creation on: a key no reload touches signs throughout, and one
   never held never does.
   */
  lemma UntouchedKeyIsNeverDisturbed(held: set<Addr>, events: seq<Event>, a: Addr)
    requires Steady(events, a, a in held)
    requires !Run(Init(held), events).starter.Opening? && !Run(Init(held), events).starter.Snapshotting?
    ensures a in Run(Init(held), events).signer <==> a in held
  {
    SteadyHolds(held, events, a, a in held);
  }

  // -- The extra rebuild at startup is needed --

  /** Startup as it is, up to the registered callback; the rebuild after it is what is missing. */
  function MissedReload(a: Addr): seq<Event> {
    [StarterList, StarterBuild, Reload({a}), Announce(a), ReloadEnds, StarterRegister]
  }

  lemma ReloadIsMissed(a: Addr)
    ensures Run(Init({}), MissedReload(a)) == State({a}, {}, true, Registered, Idle)
  {
    var events := MissedReload(a);
    assert events[..5][..4] == events[..4] && events[..4][..3] == events[..3] && events[..3][..2] == events[..2] &&
        events[..2][..1] == events[..1];
    assert Run(Init({}), events[..1][..0]) == Init({});
    assert Run(Init({}), events[..2]) == State({}, {}, false, Built, Idle);
    assert ({a} - {}) + ({} - {a}) == {a};
    assert Run(Init({}), events[..3]) == State({a}, {}, false, Built, Announcing({a}));
    assert {a} - {a} == {};
    assert Run(Init({}), events[..4]) == State({a}, {}, false, Built, Announcing({}));
    assert Run(Init({}), events[..5]) == State({a}, {}, false, Built, Idle);
  }

  /** Nothing that changes the held keys, and no rebuild by startup. */
  ghost predicate NoRebuild(s: State, events: seq<Event>) {
    forall i :: 0 <= i < |events| ==> !events[i].StarterLock? && (events[i].Reload? ==> events[i].keys == s.held)
  }

  /**
   A reload that lands between the snapshot and the registration is heard by nobody: without
   the rebuild after it the signer stays without the key however long the fleet is steady,
   reloads that find the same keys included.
   */
  lemma {:induction false} RegistrationAloneMissesAReload(a: Addr, more: seq<Event>)
    requires NoRebuild(Run(Init({}), MissedReload(a)), more)
    ensures var s := Run(Run(Init({}), MissedReload(a)), more);
            s.registered && s.held == {a} && s.signer == {} && s.starter.Registered? &&
                (s.reloader == Idle || s.reloader == Announcing({}))
  {
    ReloadIsMissed(a);
    if more != [] {
      RegistrationAloneMissesAReload(a, more[..|more| - 1]);
      assert ({a} - {a}) + ({a} - {a}) == {};
    }
  }

  // -- What a rebuild comes to --

  lemma {:induction false} RunOneMore(s: State, events: seq<Event>, e: Event)
    ensures Run(s, events + [e]) == Step(Run(s, events), e)
  {
    assert (events + [e])[..|events|] == events;
  }

  /** Every listed address asked for, in the order given. */
  function Asking(order: seq<Addr>, byStarter: bool): seq<Event> {
    if order == [] then []
    else Asking(order[..|order| - 1], byStarter)
         + [if byStarter then StarterGet(order[|order| - 1]) else ReloaderGet(order[|order| - 1])]
  }

  function Asked(order: seq<Addr>): set<Addr> {
    set a | a in order
  }

  /** A rebuild that has asked for `order` so far. */
  function AskedSoFar(held: set<Addr>, order: seq<Addr>): Reading {
    Reading(held - Asked(order), Asked(order))
  }

  lemma AskedNothing(held: set<Addr>)
    ensures AskedSoFar(held, []) == Reading(held, {})
  {
    assert Asked([]) == {} && held - {} == held;
  }

  lemma AskedOneMore(held: set<Addr>, order: seq<Addr>, a: Addr)
    requires a in held
    ensures Got(AskedSoFar(held, order), a, held) == AskedSoFar(held, order + [a])
  {
    assert Asked(order + [a]) == Asked(order) + {a};
    if a in Asked(order) {
      assert Asked(order) + {a} == Asked(order);
    } else {
      assert held - Asked(order) - {a} == held - (Asked(order) + {a});
    }
  }

  /** What a rebuild under way has got so far, at whichever place it is made. */
  predicate HasAsked(s: State, byStarter: bool, copy: Reading) {
    if byStarter then s.starter == Rebuilding(copy) || s.starter == Snapshotting(copy)
    else s.reloader.Resyncing? && s.reloader.copy == copy
  }

  function WithAsked(s: State, byStarter: bool, copy: Reading): State {
    if byStarter then s.(starter := if s.starter.Rebuilding? then Rebuilding(copy) else Snapshotting(copy))
    else if s.reloader.Resyncing? then s.(reloader := Resyncing(s.reloader.changes, copy))
    else s
  }

  lemma GetsOne(s: State, byStarter: bool, copy: Reading, a: Addr)
    requires HasAsked(s, byStarter, copy)
    ensures Step(s, if byStarter then StarterGet(a) else ReloaderGet(a))
            == WithAsked(s, byStarter, Got(copy, a, s.held))
  {
  }

  lemma {:induction false} AsksOneMore(s: State, now: State, order: seq<Addr>, byStarter: bool)
    requires order != [] && order[|order| - 1] in now.held
    requires Run(s, Asking(order[..|order| - 1], byStarter)) == now
    requires HasAsked(now, byStarter, AskedSoFar(now.held, order[..|order| - 1]))
    ensures Run(s, Asking(order, byStarter)) == WithAsked(now, byStarter, AskedSoFar(now.held, order))
  {
    var n := |order| - 1;
    var e := if byStarter then StarterGet(order[n]) else ReloaderGet(order[n]);
    assert Asking(order, byStarter) == Asking(order[..n], byStarter) + [e];
    RunOneMore(s, Asking(order[..n], byStarter), e);
    GetsOne(now, byStarter, AskedSoFar(now.held, order[..n]), order[n]);
    AskedOneMore(now.held, order[..n], order[n]);
    assert order == order[..n] + [order[n]];
  }

  lemma {:induction false} ReloaderAsks(s: State, changes: set<Addr>, order: seq<Addr>)
    requires s.reloader == Resyncing(changes, Reading(s.held, {})) && forall a :: a in order ==> a in s.held
    ensures Run(s, Asking(order, false)) == s.(reloader := Resyncing(changes, AskedSoFar(s.held, order)))
  {
    if order == [] {
      AskedNothing(s.held);
    } else {
      var n := |order| - 1;
      ReloaderAsks(s, changes, order[..n]);
      AsksOneMore(s, s.(reloader := Resyncing(changes, AskedSoFar(s.held, order[..n]))), order, false);
    }
  }

  lemma {:induction false} StarterAsks(s: State, order: seq<Addr>)
    requires s.starter == Rebuilding(Reading(s.held, {})) && forall a :: a in order ==> a in s.held
    ensures Run(s, Asking(order, true)) == s.(starter := Rebuilding(AskedSoFar(s.held, order)))
  {
    if order == [] {
      AskedNothing(s.held);
    } else {
      var n := |order| - 1;
      StarterAsks(s, order[..n]);
      AsksOneMore(s, s.(starter := Rebuilding(AskedSoFar(s.held, order[..n]))), order, true);
    }
  }

  /**
   Announcing one change to a registered callback, with the mutex free and the held addresses asked
   for in any order, leaves the signer with exactly the held set and the other changes to announce.
   */
  lemma AnnouncementResyncs(s: State, changes: set<Addr>, a: Addr, order: seq<Addr>)
    requires s.reloader == Announcing(changes) && a in changes && s.registered && MutexFree(s) && Asked(order) == s.held
    ensures var listed := Step(Step(Step(s, Announce(a)), ReloaderLock), ReloaderList);
            Step(Run(listed, Asking(order, false)), ReloaderStore) ==
              s.(signer := s.held, reloader := Announcing(changes - {a}))
  {
    var listed := Step(Step(Step(s, Announce(a)), ReloaderLock), ReloaderList);
    assert listed == s.(reloader := Resyncing(changes - {a}, Reading(s.held, {})));
    ReloaderAsks(listed, changes - {a}, order);
    assert s.held - Asked(order) == {};
  }

  /** Before the callback is registered a change is announced to nobody; and with none left the reload ends. */
  lemma AnnouncementsBeforeRegistering(s: State, changes: set<Addr>, a: Addr)
    requires s.reloader == Announcing(changes)
    ensures a in changes && !s.registered ==> Step(s, Announce(a)) == s.(reloader := Announcing(changes - {a}))
    ensures changes == {} ==> Step(s, ReloadEnds) == s.(reloader := Idle)
    ensures changes != {} ==> Step(s, ReloadEnds) == s
  {
  }

  /** A reload announces exactly the addresses it adds or removes. */
  lemma ReloadAnnouncesTheDifference(s: State, keys: set<Addr>)
    requires s.reloader.Idle?
    ensures var t := Step(s, Reload(keys));
            && t.held == keys && t.signer == s.signer && t.reloader.Announcing?
            && forall a :: a in t.reloader.changes <==> (a in keys <==> a !in s.held)
  {
  }

  /** Startup's own rebuild, with the mutex free, leaves the signer with exactly the held set. */
  lemma StartupRebuilds(s: State, order: seq<Addr>)
    requires s.starter.Registered? && MutexFree(s) && Asked(order) == s.held
    ensures var listed := Step(Step(s, StarterLock), StarterRelist);
            Step(Run(listed, Asking(order, true)), StarterStore) == s.(signer := s.held, starter := Started)
  {
    var listed := Step(Step(s, StarterLock), StarterRelist);
    assert listed == s.(starter := Rebuilding(Reading(s.held, {})));
    StarterAsks(listed, order);
    assert s.held - Asked(order) == {};
  }

  lemma {:induction false} SnapshotAsks(s: State, order: seq<Addr>)
    requires s.starter == Snapshotting(Reading(s.held, {})) && forall a :: a in order ==> a in s.held
    ensures Run(s, Asking(order, true)) == s.(starter := Snapshotting(AskedSoFar(s.held, order)))
  {
    if order == [] {
      AskedNothing(s.held);
    } else {
      var n := |order| - 1;
      SnapshotAsks(s, order[..n]);
      AsksOneMore(s, s.(starter := Snapshotting(AskedSoFar(s.held, order[..n]))), order, true);
    }
  }

  /** The signer is created with exactly the set held while no reload comes in between. */
  lemma SignerIsCreatedWithTheHeldSet(s: State, order: seq<Addr>)
    requires s.starter.Opening? && Asked(order) == s.held
    ensures Step(Run(Step(s, StarterList), Asking(order, true)), StarterBuild) == s.(signer := s.held, starter := Built)
  {
    SnapshotAsks(Step(s, StarterList), order);
    assert s.held - Asked(order) == {};
  }

  /** Startup and a reload move on only by their own next step, and store only what they asked for in full. */
  lemma StepsAreTakenInOrder(s: State, e: Event)
    ensures Step(s, e).starter != s.starter ==>
              match s.starter
              case Opening => e.StarterList?
              case Snapshotting(copy) => e.StarterGet? || (e.StarterBuild? && copy.left == {})
              case Built => e.StarterRegister?
              case Registered => e.StarterLock? && MutexFree(s)
              case Locked => e.StarterRelist?
              case Rebuilding(copy) => e.StarterGet? || (e.StarterStore? && copy.left == {})
              case Started => false
    ensures Step(s, e).reloader != s.reloader ==>
              match s.reloader
              case Idle => e.Reload?
              case Announcing(changes) => (e.Announce? && e.a in changes) || (e.ReloadEnds? && changes == {})
              case Calling(_) => e.ReloaderLock? && MutexFree(s)
              case InMutex(_) => e.ReloaderList?
              case Resyncing(_, copy) => e.ReloaderGet? || (e.ReloaderStore? && copy.left == {})
  {
  }
}

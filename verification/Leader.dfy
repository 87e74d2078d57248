/**
 The leadership lock (`leader/leader_lock.go`, the Lua scripts of
 `leader/global_leader.go`): a Redis key with a lifetime, and the in-process lock of a
 process with no peers.
 */
module LeaderLock {
  import opened Common

  type Owner = string

  /** The lock key. It is gone from `expires` on. */
  datatype Key = Key(owner: Owner, expires: int)

  function Live(key: Option<Key>, now: int): Option<Key> {
    if key.Some? && now < key.value.expires then key else None
  }

  datatype Ran = Ran(key: Option<Key>, result: int)

  function AcquireScript(key: Option<Key>, now: int, owner: Owner, ttl: int): Ran {
    if Live(key, now).None? then Ran(Some(Key(owner, now + ttl)), 1) else Ran(key, 0)
  }

  function RenewScript(key: Option<Key>, now: int, owner: Owner, ttl: int): Ran {
    if Live(key, now).Some? && key.value.owner == owner then Ran(Some(Key(owner, now + ttl)), 1) else Ran(key, 0)
  }

  function ReleaseScript(key: Option<Key>, now: int, owner: Owner): Ran {
    if Live(key, now).Some? && key.value.owner == owner then Ran(None, 1) else Ran(key, 0)
  }

  /** The lifetime the key gets: the configured one, in whole seconds. */
  function KeyTTL(leaderTTLMillis: int): (ttl: int)
    requires leaderTTLMillis >= 0
    ensures ttl <= leaderTTLMillis < ttl + 1000 && ttl % 1000 == 0
  {
    leaderTTLMillis / 1000 * 1000
  }

  /** The lock of a process with no peers: held in memory, it never fails and never expires. */
  class ExclusiveLock {
    var owner: Owner

    constructor ()
      ensures owner == ""
    {
      owner := "";
    }

    method Acquire(who: Owner) returns (result: int)
      modifies this
      ensures ExclusiveAfter(old(owner), Acquiring(who)) == (owner, result)
    {
      if owner != "" {
        return 0;
      }
      owner := who;
      return 1;
    }

    method Renew(who: Owner) returns (result: int)
      ensures ExclusiveAfter(owner, Renewing(who)) == (owner, result)
    {
      if owner != who {
        return 0;
      }
      return 1;
    }

    method Release(who: Owner) returns (result: int)
      modifies this
      ensures ExclusiveAfter(old(owner), Releasing(who)) == (owner, result)
    {
      if owner != who {
        return 0;
      }
      owner := "";
      return 1;
    }
  }

  datatype Op = Acquiring(who: Owner) | Renewing(who: Owner) | Releasing(who: Owner)

  function ExclusiveAfter(owner: Owner, op: Op): (Owner, int) {
    match op
    case Acquiring(who) => if owner != "" then (owner, 0) else (who, 1)
    case Renewing(who) => (owner, if owner != who then 0 else 1)
    case Releasing(who) => if owner != who then (owner, 0) else ("", 1)
  }

  function RedisAfter(key: Option<Key>, now: int, op: Op, ttl: int): Ran {
    match op
    case Acquiring(who) => AcquireScript(key, now, who, ttl)
    case Renewing(who) => RenewScript(key, now, who, ttl)
    case Releasing(who) => ReleaseScript(key, now, who)
  }

  function ExclusiveResults(owner: Owner, ops: seq<Op>): seq<int>
    decreases ops
  {
    if ops == [] then []
    else var (o, r) := ExclusiveAfter(owner, ops[0]); [r] + ExclusiveResults(o, ops[1..])
  }

  function RedisResults(key: Option<Key>, now: int, ops: seq<Op>, ttl: int): seq<int>
    decreases ops
  {
    if ops == [] then []
    else var r := RedisAfter(key, now, ops[0], ttl); [r.result] + RedisResults(r.key, now, ops[1..], ttl)
  }

  /** The field and the key say the same: nobody, or the same owner. */
  predicate SameHolder(owner: Owner, key: Option<Key>, now: int) {
    if owner == "" then Live(key, now).None? else Live(key, now).Some? && key.value.owner == owner
  }

  /** The in-process lock answers every call as a Redis key that never expires would, for owners with a name. */
  lemma {:induction false} ExclusiveLockAgrees(owner: Owner, key: Option<Key>, now: int, ops: seq<Op>, ttl: int)
    requires ttl > 0 && SameHolder(owner, key, now)
    requires Named(ops)
    decreases ops
    ensures ExclusiveResults(owner, ops) == RedisResults(key, now, ops, ttl)
  {
    if ops != [] {
      ExclusiveLockAgrees(ExclusiveAfter(owner, ops[0]).0, RedisAfter(key, now, ops[0], ttl).key, now, ops[1..], ttl);
    }
  }

  /** An owner without a name breaks it: it acquires the in-process lock twice. */
  lemma NamelessOwnerDisagrees(ttl: int)
    requires ttl > 0
    ensures ExclusiveResults("", [Acquiring(""), Acquiring("")]) == [1, 1]
    ensures RedisResults(None, 0, [Acquiring(""), Acquiring("")], ttl) == [1, 0]
  {
    var ops := [Acquiring(""), Acquiring("")];
    assert ops[1..] == [Acquiring("")] && ops[1..][1..] == [];
    assert ExclusiveResults("", ops[1..]) == [1];
    var r := AcquireScript(None, 0, "", ttl);
    assert RedisResults(r.key, 0, ops[1..], ttl) == [0];
  }

  /** Both locks, free to begin with, answer every sequence of calls alike, with or without owners without a name. */
  ghost predicate LocksAgree(nameless: bool, ttl: int) {
    forall ops: seq<Op> :: Named(ops) || nameless ==> ExclusiveResults("", ops) == RedisResults(None, 0, ops, ttl)
  }

  ghost predicate Named(ops: seq<Op>) {
    forall i :: 0 <= i < |ops| ==> ops[i].who != ""
  }

  /** They do if and only if every owner has a name. */
  lemma LocksAgreeExactlyForNamedOwners(nameless: bool, ttl: int)
    requires ttl > 0
    ensures LocksAgree(nameless, ttl) <==> !nameless
  {
    if nameless {
      NamelessOwnerDisagrees(ttl);
      var ops := [Acquiring(""), Acquiring("")];
      assert ExclusiveResults("", ops)[1] != RedisResults(None, 0, ops, ttl)[1];
    } else {
      forall ops: seq<Op> | Named(ops)
        ensures ExclusiveResults("", ops) == RedisResults(None, 0, ops, ttl)
      {
        ExclusiveLockAgrees("", None, 0, ops, ttl);
      }
    }
  }
}

/**
 Leader election over that key (`leader/global_leader.go`): any number of electors,
 scripts that may or may not run, replies that may be lost, shutdowns that may or may
 not release, and time.
 */
module LeaderElection {
  import opened Common
  import opened LeaderLock

  datatype Reply = Answer(result: int) | StoreError

  /** What an elector believes after the reply to its attempt: a leader renews, the others acquire. */
  function AfterReply(wasLeader: bool, reply: Reply): bool {
    reply.Answer? && if wasLeader then reply.result != 0 else reply.result == 1
  }

  /** `attemptLeadership`'s own bookkeeping. */
  class GlobalLeaderElector {
    var isLeader: bool
    var consecutiveAcquireFailures: nat
    var elections: nat
    var losses: nat

    constructor ()
      ensures !isLeader && consecutiveAcquireFailures == 0 && elections == 0 && losses == 0
    {
      isLeader, consecutiveAcquireFailures, elections, losses := false, 0, 0, 0;
    }

    method AttemptLeadership(reply: Reply)
      requires elections == losses + if isLeader then 1 else 0
      modifies this
      ensures old(isLeader) ==> (isLeader <==> reply != StoreError && reply != Answer(0))
      ensures !old(isLeader) ==> (isLeader <==> reply == Answer(1))
      ensures isLeader == AfterReply(old(isLeader), reply)
      ensures elections == losses + if isLeader then 1 else 0
      ensures elections == old(elections) + if isLeader && !old(isLeader) then 1 else 0
      ensures old(isLeader) ==> consecutiveAcquireFailures == old(consecutiveAcquireFailures)
      ensures !old(isLeader) ==>
              consecutiveAcquireFailures == if reply.StoreError? then old(consecutiveAcquireFailures) + 1 else 0
    {
      var wasLeader := isLeader;
      if wasLeader {
        if reply.StoreError? {
          isLeader := false;
          losses := losses + 1;
        } else if reply.result == 0 {
          isLeader := false;
          losses := losses + 1;
        }
      } else {
        if reply.StoreError? {
          consecutiveAcquireFailures := consecutiveAcquireFailures + 1;
        } else if reply.result == 1 {
          consecutiveAcquireFailures := 0;
          isLeader := true;
          elections := elections + 1;
        } else {
          consecutiveAcquireFailures := 0;
        }
      }
    }
  }

  type Id = Owner

  datatype Pc = Ready | Awaiting(reply: Reply, at: int)

  /**
   `anchor` is when the script ran that its belief rests on: the last attempt it heard the
   answer of, or the acquire it is waiting for.
   */
  datatype Elector = Elector(running: bool, isLeader: bool, pc: Pc, anchor: int) {
    /** Leads, or will once it hears the answer it was given. */
    predicate Bound() {
      running && (isLeader || Granted())
    }
    predicate Granted() {
      pc.Awaiting? && pc.reply.Answer? && pc.reply.result == 1
    }
  }

  datatype State = State(now: int, key: Option<Key>, electors: map<Id, Elector>)

  /** The key's lifetime, and how long a bound elector may take from one attempt to hearing the next. */
  datatype Timing = Timing(ttl: int, gap: int)

  datatype Event =
    | Start(id: Id)
    | Attempt(id: Id, ran: bool, heard: bool)   // the script ran or not; its answer arrives or not
    | Hear(id: Id)
    | Pass(millis: int)
    | Stop(id: Id)
    | Release(id: Id, ran: bool)
    | Late(id: Id, renew: bool)                 // a script its caller already gave up on runs after all

  predicate MayPass(s: State, tm: Timing, millis: int) {
    millis > 0 && forall id :: id in s.electors && s.electors[id].Bound() ==>
        s.now + millis - s.electors[id].anchor <= tm.gap
  }

  function Step(tm: Timing, s: State, e: Event): State {
    match e
    case Start(id) =>
      if id in s.electors then s else s.(electors := s.electors[id := Elector(true, false, Ready, s.now)])
    case Attempt(id, ran, heard) =>
      if id in s.electors && s.electors[id].running && s.electors[id].pc.Ready? then
        var me := s.electors[id];
        var r := if !ran then Ran(s.key, 0)
                 else if me.isLeader then RenewScript(s.key, s.now, id, tm.ttl)
                 else AcquireScript(s.key, s.now, id, tm.ttl);
        var reply := if ran && heard then Answer(r.result) else StoreError;
        var me' := me.(pc := Awaiting(reply, s.now), anchor := if me.isLeader then me.anchor else s.now);
        State(s.now, r.key, s.electors[id := me'])
      else s
    case Hear(id) =>
      if id in s.electors && s.electors[id].pc.Awaiting? then
        var me := s.electors[id];
        var me' := me.(isLeader := AfterReply(me.isLeader, me.pc.reply), pc := Ready, anchor := me.pc.at);
        s.(electors := s.electors[id := me'])
      else s
    case Pass(millis) => if MayPass(s, tm, millis) then s.(now := s.now + millis) else s
    case Stop(id) =>
      if id in s.electors && s.electors[id].pc.Ready?
      then s.(electors := s.electors[id := s.electors[id].(running := false)]) else s
    case Release(id, ran) =>
      if id in s.electors && !s.electors[id].running && s.electors[id].isLeader && ran
      then s.(key := ReleaseScript(s.key, s.now, id).key) else s
    case Late(id, renew) =>
      if id in s.electors
      then s.(key := (if renew then RenewScript(s.key, s.now, id, tm.ttl)
          else AcquireScript(s.key, s.now, id, tm.ttl)).key)
      else s
  }

  function Run(tm: Timing, s: State, events: seq<Event>): State {
    if events == [] then s else Step(tm, Run(tm, s, events[..|events| - 1]), events[|events| - 1])
  }

  const INIT := State(0, None, map[])

  /** A bound elector owns the key, and the key outlives the time it may still take. */
  ghost predicate HoldsKey(tm: Timing, s: State, id: Id)
    requires id in s.electors
  {
    var me := s.electors[id];
    && s.key.Some? && s.key.value.owner == id
    && s.key.value.expires >= me.anchor + tm.ttl
    && s.now <= me.anchor + tm.gap
    && (me.pc.Awaiting? ==> me.anchor <= me.pc.at <= s.now)
    && (me.Granted() ==> s.key.value.expires >= me.pc.at + tm.ttl)
    && me.anchor <= s.now
  }

  /** Only a running elector awaits an answer, and an answer is 0 or 1. */
  ghost predicate AnswersAreBits(s: State) {
    forall id :: id in s.electors && s.electors[id].pc.Awaiting? ==>
      s.electors[id].running && (s.electors[id].pc.reply.Answer? ==> s.electors[id].pc.reply.result in {0, 1})
  }

  ghost predicate Inv(tm: Timing, s: State) {
    && (s.key.Some? ==> s.key.value.expires <= s.now + tm.ttl)
    && (forall id :: id in s.electors && s.electors[id].Bound() ==> HoldsKey(tm, s, id))
    && AnswersAreBits(s)
  }

  /** An elector bound after a step owns a key that outlives the time it may still take. */
  lemma BoundStep(tm: Timing, s: State, e: Event, id: Id)
    requires 0 <= tm.gap < tm.ttl && Inv(tm, s)
    requires id in Step(tm, s, e).electors && Step(tm, s, e).electors[id].Bound()
    ensures HoldsKey(tm, Step(tm, s, e), id)
  {
    if id in s.electors && s.electors[id].Bound() {
      assert HoldsKey(tm, s, id);
      if !e.Pass? && e.id in s.electors && s.electors[e.id].Bound() {
        assert HoldsKey(tm, s, e.id);
      }
    }
  }

  lemma AnswersStep(tm: Timing, s: State, e: Event)
    requires 0 <= tm.gap < tm.ttl && Inv(tm, s)
    ensures AnswersAreBits(Step(tm, s, e))
  {
  }

  lemma InvStep(tm: Timing, s: State, e: Event)
    requires 0 <= tm.gap < tm.ttl && Inv(tm, s)
    ensures Inv(tm, Step(tm, s, e))
  {
    var t := Step(tm, s, e);
    forall id | id in t.electors && t.electors[id].Bound() ensures HoldsKey(tm, t, id) {
      BoundStep(tm, s, e, id);
    }
    AnswersStep(tm, s, e);
  }

  lemma {:induction false} InvHolds(tm: Timing, events: seq<Event>)
    requires 0 <= tm.gap < tm.ttl
    ensures Inv(tm, Run(tm, INIT, events))
  {
    if events != [] {
      InvHolds(tm, events[..|events| - 1]);
      InvStep(tm, Run(tm, INIT, events[..|events| - 1]), events[|events| - 1]);
    }
  }

  lemma OnlyOneBound(tm: Timing, s: State, a: Id, b: Id)
    requires Inv(tm, s) && a in s.electors && b in s.electors && a != b
    ensures !s.electors[a].Bound() || !s.electors[b].Bound()
  {
    if s.electors[a].Bound() {
      assert HoldsKey(tm, s, a);
    }
  }

  ghost predicate Leads(s: State, id: Id) {
    id in s.electors && s.electors[id].running && s.electors[id].isLeader
  }

  ghost predicate AtMostOneLeader(s: State) {
    forall a, b :: Leads(s, a) && Leads(s, b) ==> a == b
  }

  lemma ShortGapExcludes(tm: Timing, events: seq<Event>)
    requires 0 <= tm.gap < tm.ttl
    ensures AtMostOneLeader(Run(tm, INIT, events))
  {
    InvHolds(tm, events);
    var s := Run(tm, INIT, events);
    forall a, b | a in s.electors && b in s.electors && a != b
      ensures !s.electors[a].Bound() || !s.electors[b].Bound()
    {
      OnlyOneBound(tm, s, a, b);
    }
  }

  /** A run in which one elector outlives its key and another takes it. */
  function TwoLeaders(tm: Timing): seq<Event> {
    [Start("a"), Attempt("a", true, true), Hear("a"), Pass(tm.ttl), Start("b"), Attempt("b", true, true), Hear("b")]
  }

  lemma {:induction false} RunOneMore(tm: Timing, s: State, events: seq<Event>, e: Event)
    ensures Run(tm, s, events + [e]) == Step(tm, Run(tm, s, events), e)
  {
    assert (events + [e])[..|events|] == events;
  }

  function Follower(now: int): Elector {
    Elector(true, false, Ready, now)
  }

  function Leader(now: int): Elector {
    Elector(true, true, Ready, now)
  }

  /** An elector that was granted the key at `now` and has not heard so yet. */
  function GrantedAt(now: int): Elector {
    Elector(true, false, Awaiting(Answer(1), now), now)
  }

  /** The first elector's three steps. */
  lemma FirstLeads(tm: Timing)
    ensures Step(tm, INIT, Start("a")) == State(0, None, map["a" := Follower(0)])
    ensures Step(tm, State(0, None, map["a" := Follower(0)]), Attempt("a", true, true))
            == State(0, Some(Key("a", tm.ttl)), map["a" := GrantedAt(0)])
    ensures Step(tm, State(0, Some(Key("a", tm.ttl)), map["a" := GrantedAt(0)]), Hear("a"))
            == State(0, Some(Key("a", tm.ttl)), map["a" := Leader(0)])
  {
    assert map["a" := Follower(0)]["a" := GrantedAt(0)] == map["a" := GrantedAt(0)];
    assert map["a" := GrantedAt(0)]["a" := Leader(0)] == map["a" := Leader(0)];
  }

  /** Its key runs out before it has to be heard of again. */
  lemma KeyRunsOut(tm: Timing)
    requires 0 < tm.ttl <= tm.gap
    ensures Step(tm, State(0, Some(Key("a", tm.ttl)), map["a" := Leader(0)]), Pass(tm.ttl))
            == State(tm.ttl, Some(Key("a", tm.ttl)), map["a" := Leader(0)])
  {
  }

  /** And a second elector takes it. */
  lemma SecondLeads(tm: Timing)
    ensures Step(tm, State(tm.ttl, Some(Key("a", tm.ttl)), map["a" := Leader(0)]), Start("b"))
            == State(tm.ttl, Some(Key("a", tm.ttl)), map["a" := Leader(0), "b" := Follower(tm.ttl)])
    ensures Step(tm, State(tm.ttl, Some(Key("a", tm.ttl)), map["a" := Leader(0), "b" := Follower(tm.ttl)]),
                 Attempt("b", true, true))
            == State(tm.ttl, Some(Key("b", tm.ttl + tm.ttl)), map["a" := Leader(0), "b" := GrantedAt(tm.ttl)])
    ensures Step(tm, State(tm.ttl, Some(Key("b", tm.ttl + tm.ttl)), map["a" := Leader(0), "b" := GrantedAt(tm.ttl)]),
                 Hear("b"))
            == State(tm.ttl, Some(Key("b", tm.ttl + tm.ttl)), map["a" := Leader(0), "b" := Leader(tm.ttl)])
  {
    var t := tm.ttl;
    assert "a" != "b";
    assert map["a" := Leader(0), "b" := Follower(t)]["b" := GrantedAt(t)] == map["a" := Leader(0), "b" := GrantedAt(t)];
    assert map["a" := Leader(0), "b" := GrantedAt(t)]["b" := Leader(t)] == map["a" := Leader(0), "b" := Leader(t)];
  }

  lemma {:induction false} TwoLeadersRun(tm: Timing)
    requires 0 < tm.ttl <= tm.gap
    ensures Run(tm, INIT, TwoLeaders(tm))
            == State(tm.ttl, Some(Key("b", tm.ttl + tm.ttl)), map["a" := Leader(0), "b" := Leader(tm.ttl)])
  {
    FirstLeads(tm);
    KeyRunsOut(tm);
    SecondLeads(tm);
    var e1 := [] + [Start("a")];
    var e2 := e1 + [Attempt("a", true, true)];
    var e3 := e2 + [Hear("a")];
    var e4 := e3 + [Pass(tm.ttl)];
    var e5 := e4 + [Start("b")];
    var e6 := e5 + [Attempt("b", true, true)];
    RunOneMore(tm, INIT, [], Start("a"));
    RunOneMore(tm, INIT, e1, Attempt("a", true, true));
    RunOneMore(tm, INIT, e2, Hear("a"));
    RunOneMore(tm, INIT, e3, Pass(tm.ttl));
    RunOneMore(tm, INIT, e4, Start("b"));
    RunOneMore(tm, INIT, e5, Attempt("b", true, true));
    RunOneMore(tm, INIT, e6, Hear("b"));
    assert TwoLeaders(tm) == e6 + [Hear("b")];
  }

  lemma LongGapAdmitsTwo(tm: Timing)
    requires 0 < tm.ttl <= tm.gap
    ensures !AtMostOneLeader(Run(tm, INIT, TwoLeaders(tm)))
  {
    TwoLeadersRun(tm);
    var s := Run(tm, INIT, TwoLeaders(tm));
    assert Leads(s, "a") && Leads(s, "b") && "a" != "b";
  }

  ghost predicate Exclusive(tm: Timing) {
    forall events :: AtMostOneLeader(Run(tm, INIT, events))
  }

  /**
   Exactly when leadership is exclusive: over all runs, with any expiry, lost or ambiguous
   reply and shutdown, at most one running elector believes it leads if and only if every
   leader hears the answer to its next attempt within less than the key's lifetime.
   */
  lemma ExclusiveExactlyWhenAttemptsAreInTime(tm: Timing)
    requires tm.ttl > 0 && tm.gap >= 0
    ensures Exclusive(tm) <==> tm.gap < tm.ttl
  {
    if tm.gap < tm.ttl {
      forall events
        ensures AtMostOneLeader(Run(tm, INIT, events))
      {
        ShortGapExcludes(tm, events);
      }
    } else {
      LongGapAdmitsTwo(tm);
    }
  }

  /**
   The lifetime is cut to whole seconds, so hearing the next answer sooner than the configured
   lifetime is enough if and only if that is whole seconds.
   */
  lemma ConfiguredLifetimeIsEnoughExactlyWhenWhole(leaderTTLMillis: int)
    requires leaderTTLMillis >= 1000
    ensures (forall gap :: 0 <= gap < leaderTTLMillis ==> Exclusive(Timing(KeyTTL(leaderTTLMillis), gap)))
            <==> leaderTTLMillis % 1000 == 0
  {
    var ttl := KeyTTL(leaderTTLMillis);
    forall gap | 0 <= gap < leaderTTLMillis
      ensures Exclusive(Timing(ttl, gap)) <==> gap < ttl
    {
      ExclusiveExactlyWhenAttemptsAreInTime(Timing(ttl, gap));
    }
    if leaderTTLMillis % 1000 != 0 {
      assert !Exclusive(Timing(ttl, ttl));
    }
  }

  /** The owner of `k` still has the key, for at least as long, and no running elector is bound to it. */
  ghost predicate Orphaned(tm: Timing, s: State, k: Key) {
    && s.key.Some? && s.key.value.owner == k.owner && k.expires <= s.key.value.expires <= s.now + tm.ttl
    && s.now < k.expires
    && (k.owner in s.electors && !s.electors[k.owner].isLeader)
    && (forall id :: id in s.electors ==>
        !s.electors[id].Bound() && (s.electors[id].pc.Awaiting? ==> s.electors[id].running))
  }

  /** Hearing that a renew failed, or not hearing at all, leaves the key to nobody. */
  lemma {:induction false} FailedRenewOrphansTheKey(tm: Timing, s: State, id: Id)
    requires 0 <= tm.gap < tm.ttl && Inv(tm, s)
    requires Leads(s, id) && s.electors[id].pc.Awaiting? && s.electors[id].pc.reply in {StoreError, Answer(0)}
    ensures s.key.Some? && s.key.value.owner == id && Orphaned(tm, Step(tm, s, Hear(id)), s.key.value)
  {
    var t := Step(tm, s, Hear(id));
    assert HoldsKey(tm, s, id);
    forall x | x in t.electors
      ensures !t.electors[x].Bound()
    {
      if x != id {
        OnlyOneBound(tm, s, x, id);
      }
    }
  }

  lemma TimeNeverGoesBack(tm: Timing, s: State, e: Event)
    ensures s.now <= Step(tm, s, e).now
  {
  }

  lemma OrphanedStep(tm: Timing, s: State, e: Event, k: Key)
    requires Orphaned(tm, s, k) && Step(tm, s, e).now < k.expires
    ensures Orphaned(tm, Step(tm, s, e), k)
  {
  }

  /** After a failed renew nobody leads, whatever happens, until the old key's time is up. */
  lemma {:induction false} NobodyLeadsUntilTheKeyExpires(tm: Timing, s: State, events: seq<Event>, k: Key)
    requires Orphaned(tm, s, k) && Run(tm, s, events).now < k.expires
    ensures Orphaned(tm, Run(tm, s, events), k)
    ensures forall id :: !Leads(Run(tm, s, events), id)
  {
    if events != [] {
      var n := |events| - 1;
      TimeNeverGoesBack(tm, Run(tm, s, events[..n]), events[n]);
      NobodyLeadsUntilTheKeyExpires(tm, s, events[..n], k);
      OrphanedStep(tm, Run(tm, s, events[..n]), events[n], k);
    }
    forall id
      ensures !Leads(Run(tm, s, events), id)
    {
      var t := Run(tm, s, events);
      if id in t.electors {
        assert !t.electors[id].Bound();
      }
    }
  }

  // -- A leader stays one --

  /** It leads, and no answer it is still to hear would end that. */
  ghost predicate LeadsOn(s: State, id: Id) {
    Leads(s, id) && (s.electors[id].pc.Ready? || s.electors[id].Granted())
  }

  /** The elector is not stopped, and every attempt of its own runs and is heard. */
  predicate Undisturbed(e: Event, id: Id) {
    e != Stop(id) && (e.Attempt? && e.id == id ==> e.ran && e.heard)
  }

  lemma LeadsOnStep(tm: Timing, s: State, e: Event, id: Id)
    requires 0 <= tm.gap < tm.ttl && Inv(tm, s) && LeadsOn(s, id) && Undisturbed(e, id)
    ensures LeadsOn(Step(tm, s, e), id)
  {
    assert HoldsKey(tm, s, id);
  }

  /**
   However many renewals, and whatever the others do: a leader whose renews all run and are heard
   within the gap leads on. In particular it leads after every renew it hears an answer of 1 to.
   */
  lemma {:induction false} RenewingLeaderLeadsOn(tm: Timing, events: seq<Event>, more: seq<Event>, id: Id)
    requires 0 <= tm.gap < tm.ttl && LeadsOn(Run(tm, INIT, events), id)
    requires forall i :: 0 <= i < |more| ==> Undisturbed(more[i], id)
    ensures LeadsOn(Run(tm, INIT, events + more), id)
  {
    if more == [] {
      assert events + more == events;
    } else {
      var n := |more| - 1;
      RenewingLeaderLeadsOn(tm, events, more[..n], id);
      assert events + more == events + more[..n] + [more[n]];
      RunOneMore(tm, INIT, events + more[..n], more[n]);
      InvHolds(tm, events + more[..n]);
      LeadsOnStep(tm, Run(tm, INIT, events + more[..n]), more[n], id);
    }
  }

  /** The key is there, not run out, and the elector's. */
  predicate OwnsKey(s: State, id: Id) {
    s.key.Some? && s.now < s.key.value.expires && s.key.value.owner == id
  }

  ghost predicate Awaits(tm: Timing, events: seq<Event>, id: Id) {
    var s := Run(tm, INIT, events);
    id in s.electors && s.electors[id].pc.Awaiting?
  }

  ghost predicate Runs(tm: Timing, events: seq<Event>, id: Id) {
    var s := Run(tm, INIT, events);
    id in s.electors && s.electors[id].running
  }

  /** Event `k` is the attempt the elector awaits the answer of at the end of the run. */
  ghost predicate IsOpenAttempt(tm: Timing, events: seq<Event>, k: int, id: Id) {
    && 0 <= k < |events| && events[k].Attempt? && events[k].id == id
    && Runs(tm, events[..k], id) && !Awaits(tm, events[..k], id)
    && forall j :: k < j <= |events| ==> Awaits(tm, events[..j], id)
  }

  /**
   What an attempt comes to, by what happened to it: no answer if the script did not run or was
   not heard; 1 to a leader that owned the key, and to any other elector while nobody did; else 0.
   */
  ghost function AnswerTo(tm: Timing, events: seq<Event>, k: int, id: Id): Reply
    requires IsOpenAttempt(tm, events, k, id)
  {
    var s := Run(tm, INIT, events[..k]);
    if !events[k].ran || !events[k].heard then StoreError
    else if s.electors[id].isLeader then Answer(if OwnsKey(s, id) then 1 else 0)
    else Answer(if s.key.Some? && s.now < s.key.value.expires then 0 else 1)
  }

  ghost predicate HasCause(tm: Timing, events: seq<Event>, id: Id) {
    var s := Run(tm, INIT, events);
    exists k :: IsOpenAttempt(tm, events, k, id) && id in s.electors && s.electors[id].pc.Awaiting?
      && s.electors[id].pc.reply == AnswerTo(tm, events, k, id)
      && s.electors[id].isLeader == Run(tm, INIT, events[..k]).electors[id].isLeader
  }

  lemma CauseStays(tm: Timing, events: seq<Event>, e: Event, id: Id)
    requires HasCause(tm, events, id) && Awaits(tm, events + [e], id)
    ensures HasCause(tm, events + [e], id)
  {
    var longer := events + [e];
    var s := Run(tm, INIT, events);
    var k :| IsOpenAttempt(tm, events, k, id) && s.electors[id].pc.reply == AnswerTo(tm, events, k, id)
             && s.electors[id].isLeader == Run(tm, INIT, events[..k]).electors[id].isLeader;
    RunOneMore(tm, INIT, events, e);
    assert longer[..k] == events[..k] && longer[k] == events[k];
    forall j | k < j <= |longer| ensures Awaits(tm, longer[..j], id) {
      if j == |longer| {
        assert longer[..j] == longer;
      } else {
        assert longer[..j] == events[..j];
      }
    }
    assert IsOpenAttempt(tm, longer, k, id);
    assert AnswerTo(tm, longer, k, id) == AnswerTo(tm, events, k, id);
  }

  lemma CauseBegins(tm: Timing, events: seq<Event>, e: Event, id: Id)
    requires !Awaits(tm, events, id) && Awaits(tm, events + [e], id)
    ensures HasCause(tm, events + [e], id)
  {
    var longer := events + [e];
    RunOneMore(tm, INIT, events, e);
    assert longer[..|events|] == events && longer[..|longer|] == longer;
    assert IsOpenAttempt(tm, longer, |events|, id);
  }

  /** Whatever an elector is waiting to hear is what became of its last attempt. */
  lemma {:induction false} AnswersHaveCauses(tm: Timing, events: seq<Event>, id: Id)
    requires Awaits(tm, events, id)
    ensures HasCause(tm, events, id)
  {
    if events != [] {
      var n := |events| - 1;
      assert events == events[..n] + [events[n]];
      if Awaits(tm, events[..n], id) {
        AnswersHaveCauses(tm, events[..n], id);
        CauseStays(tm, events[..n], events[n], id);
      } else {
        CauseBegins(tm, events[..n], events[n], id);
      }
    }
  }

  /** The open attempt is a renew that did not run, was not heard, or found the key not the elector's. */
  ghost predicate RenewFailed(tm: Timing, events: seq<Event>, id: Id) {
    exists k :: IsOpenAttempt(tm, events, k, id)
      && (!events[k].ran || !events[k].heard || !OwnsKey(Run(tm, INIT, events[..k]), id))
  }

  lemma OnlyOneOpenAttempt(tm: Timing, events: seq<Event>, k: int, m: int, id: Id)
    requires IsOpenAttempt(tm, events, k, id) && IsOpenAttempt(tm, events, m, id)
    ensures k == m
  {
  }

  /** What a leader is waiting to hear is a failure exactly when its renew failed. */
  lemma FailureHasACause(tm: Timing, events: seq<Event>, id: Id)
    requires Awaits(tm, events, id) && Run(tm, INIT, events).electors[id].isLeader
    ensures RenewFailed(tm, events, id) <==> Run(tm, INIT, events).electors[id].pc.reply != Answer(1)
    ensures Run(tm, INIT, events).electors[id].pc.reply in {StoreError, Answer(0), Answer(1)}
  {
    AnswersHaveCauses(tm, events, id);
    var s := Run(tm, INIT, events);
    var k :| IsOpenAttempt(tm, events, k, id) && s.electors[id].pc.reply == AnswerTo(tm, events, k, id)
             && s.electors[id].isLeader == Run(tm, INIT, events[..k]).electors[id].isLeader;
    if RenewFailed(tm, events, id) {
      var m :| IsOpenAttempt(tm, events, m, id)
               && (!events[m].ran || !events[m].heard || !OwnsKey(Run(tm, INIT, events[..m]), id));
      OnlyOneOpenAttempt(tm, events, k, m, id);
    }
  }

  /**
   In every run, one event ends an elector's belief that it leads exactly when it is the hearing of
   a renew that did not run, was not heard, or found the key run out or another's.
   */
  lemma BeliefEndsExactlyWhen(tm: Timing, events: seq<Event>, e: Event, id: Id)
    requires id in Run(tm, INIT, events).electors && Run(tm, INIT, events).electors[id].isLeader
    ensures id in Run(tm, INIT, events + [e]).electors
    ensures !Run(tm, INIT, events + [e]).electors[id].isLeader <==>
              e == Hear(id) && Awaits(tm, events, id) && RenewFailed(tm, events, id)
  {
    RunOneMore(tm, INIT, events, e);
    if Awaits(tm, events, id) {
      FailureHasACause(tm, events, id);
    }
  }

  // -- And a free key makes one --

  /** An elector that finds no key, in an attempt that runs and is heard, leads, from the attempt for a lifetime. */
  lemma FreeKeyMakesALeader(tm: Timing, s: State, id: Id)
    requires id in s.electors && s.electors[id].running && s.electors[id].pc.Ready? && !s.electors[id].isLeader
    requires s.key.None? || s.now >= s.key.value.expires
    ensures var t := Step(tm, Step(tm, s, Attempt(id, true, true)), Hear(id));
            Leads(t, id) && t.key == Some(Key(id, s.now + tm.ttl)) && t.now == s.now
  {
  }

  /** A leader that stops and whose release runs leaves the key to whoever attempts next. */
  lemma ReleaseHandsOver(tm: Timing, events: seq<Event>, id: Id, next: Id)
    requires 0 <= tm.gap < tm.ttl && LeadsOn(Run(tm, INIT, events), id) && Run(tm, INIT, events).electors[id].pc.Ready?
    requires next in Run(tm, INIT, events).electors && next != id
    requires var me := Run(tm, INIT, events).electors[next];
             me.running && me.pc.Ready? && !me.isLeader
    ensures var s := Run(tm, INIT, events);
            var t := Step(tm, Step(tm, s, Stop(id)), Release(id, true));
            && t.key.None? && !Leads(t, id)
            && Leads(Step(tm, Step(tm, t, Attempt(next, true, true)), Hear(next)), next)
  {
    InvHolds(tm, events);
    var s := Run(tm, INIT, events);
    assert HoldsKey(tm, s, id);
    var t := Step(tm, Step(tm, s, Stop(id)), Release(id, true));
    FreeKeyMakesALeader(tm, t, next);
  }

  /**
   The key after a script, run for an elector: a renew extends its own live key, an acquire takes
   one that is free.
   */
  function KeyAfter(tm: Timing, s: State, id: Id, renew: bool): Option<Key> {
    var free := s.key.None? || s.now >= s.key.value.expires;
    if (renew && OwnsKey(s, id)) || (!renew && free) then Some(Key(id, s.now + tm.ttl)) else s.key
  }

  /**
   Only a script that runs touches the key, whether or not it is heard: the attempt's own, or one
   that runs after its caller gave up on it.
   */
  lemma OnlyScriptsTouchTheKey(tm: Timing, s: State, e: Event)
    ensures Step(tm, s, e).key ==
              match e
              case Attempt(id, ran, _) =>
                if ran && id in s.electors && s.electors[id].running && s.electors[id].pc.Ready?
                then KeyAfter(tm, s, id, s.electors[id].isLeader) else s.key
              case Late(id, renew) => if id in s.electors then KeyAfter(tm, s, id, renew) else s.key
              case Release(id, ran) =>
                if ran && id in s.electors && !s.electors[id].running && s.electors[id].isLeader && OwnsKey(s, id)
                then None else s.key
              case _ => s.key
  {
  }

  /** One elector that renews at the very end of every gap. */
  function Renewals(tm: Timing, n: nat): seq<Event> {
    if n == 0 then [Start("a"), Attempt("a", true, true), Hear("a")]
    else Renewals(tm, n - 1) + [Pass(tm.gap)] + [Attempt("a", true, true)] + [Hear("a")]
  }

  function Alone(now: int, ttl: int): State {
    State(now, Some(Key("a", now + ttl)), map["a" := Leader(now)])
  }

  lemma OneRenewal(tm: Timing, now: int)
    requires 0 < tm.gap < tm.ttl
    ensures var s := Alone(now, tm.ttl);
            Step(tm, Step(tm, Step(tm, s, Pass(tm.gap)), Attempt("a", true, true)), Hear("a"))
            == Alone(now + tm.gap, tm.ttl)
  {
    var s := Alone(now, tm.ttl);
    var s1 := s.(now := now + tm.gap);
    assert Step(tm, s, Pass(tm.gap)) == s1;
    var waiting := Elector(true, true, Awaiting(Answer(1), now + tm.gap), now);
    var s2 := State(now + tm.gap, Some(Key("a", now + tm.gap + tm.ttl)), map["a" := waiting]);
    assert map["a" := Leader(now)]["a" := waiting] == map["a" := waiting];
    assert Step(tm, s1, Attempt("a", true, true)) == s2;
    assert map["a" := waiting]["a" := Leader(now + tm.gap)] == map["a" := Leader(now + tm.gap)];
  }

  lemma {:induction false} RenewalsBegin(tm: Timing)
    ensures Run(tm, INIT, Renewals(tm, 0)) == Alone(0, tm.ttl)
  {
    FirstLeads(tm);
    RunOneMore(tm, INIT, [], Start("a"));
    RunOneMore(tm, INIT, [] + [Start("a")], Attempt("a", true, true));
    RunOneMore(tm, INIT, [] + [Start("a")] + [Attempt("a", true, true)], Hear("a"));
    assert Renewals(tm, 0) == [] + [Start("a")] + [Attempt("a", true, true)] + [Hear("a")];
  }

  lemma {:induction false} RenewalsGoOn(tm: Timing, events: seq<Event>, now: int)
    requires 0 < tm.gap < tm.ttl && Run(tm, INIT, events) == Alone(now, tm.ttl)
    ensures Run(tm, INIT, events + [Pass(tm.gap)] + [Attempt("a", true, true)] + [Hear("a")])
            == Alone(now + tm.gap, tm.ttl)
  {
    OneRenewal(tm, now);
    RunOneMore(tm, INIT, events, Pass(tm.gap));
    RunOneMore(tm, INIT, events + [Pass(tm.gap)], Attempt("a", true, true));
    RunOneMore(tm, INIT, events + [Pass(tm.gap)] + [Attempt("a", true, true)], Hear("a"));
  }

  /** Such an elector leads for as many gaps as it renews in. */
  lemma {:induction false} LeadershipLastsWhileRenewed(tm: Timing, n: nat)
    requires 0 < tm.gap < tm.ttl
    ensures Run(tm, INIT, Renewals(tm, n)) == Alone(n * tm.gap, tm.ttl) && Leads(Alone(n * tm.gap, tm.ttl), "a")
  {
    if n == 0 {
      RenewalsBegin(tm);
    } else {
      LeadershipLastsWhileRenewed(tm, n - 1);
      RenewalsGoOn(tm, Renewals(tm, n - 1), (n - 1) * tm.gap);
      assert (n - 1) * tm.gap + tm.gap == n * tm.gap;
    }
  }
}

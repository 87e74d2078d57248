/**
 The distributed lock around a chain query (`cache/keyed_query_lock.go`,
 `cache/lock_release.go`): SetNX with a lifetime and a token unique to the
 acquisition, and a release that deletes the key only while it still holds that token.

 Any number of calls race; a call that errors, times out or is slow is one whose next
 event comes late or never.
 */
module CacheLock {
  import opened Common

  type Call = nat
  // Unique to one acquisition: the call's own number stands for its random token.
  type Token = nat

  // The lock's lifetime in milliseconds.
  const LOCK_TTL := 5000

  // `setter` is history: the call whose SetNX stored it.
  datatype Lock = Lock(token: Token, expires: int, setter: Call)

  datatype Pc =
    | Begun(token: Token)
    | Holder(token: Token)      // SetNX answered that this call holds the lock
    | Loser                     // SetNX answered that another holds it
    | Refused                   // SetNX failed, whether it ran or not: the call returns an error
    | Querying                  // a loser whose second look at the cache missed
    | Finishing(token: Token)   // a holder that has its answer, about to release
    | Done

  datatype State = State(now: int, lock: Option<Lock>, calls: map<Call, Pc>, minted: nat)

  datatype Event =
    | Begin(c: Call)
    | SetNX(c: Call, ran: bool, heard: bool)
    | Retry(c: Call, hit: bool)   // the loser's look at the cache after its short sleep
    | Query(c: Call)              // the chain answers, or fails
    | ReleaseLock(c: Call, ran: bool)
    | Pass(millis: int)

  function Live(lock: Option<Lock>, now: int): Option<Lock> {
    if lock.Some? && now < lock.value.expires then lock else None
  }

  function At(s: State, c: Call, pc: Pc): State {
    s.(calls := s.calls[c := pc])
  }

  function Step(s: State, e: Event): State {
    if e.Begin? then
      if e.c in s.calls then s else State(s.now, s.lock, s.calls[e.c := Begun(s.minted)], s.minted + 1)
    else if e.Pass? then
      if e.millis <= 0 then s else s.(now := s.now + e.millis)
    else if e.c !in s.calls then s
    else
      var pc := s.calls[e.c];
      match e
      case SetNX(c, ran, heard) =>
        if !pc.Begun? then s
        else
          var free := Live(s.lock, s.now).None?;
          var s' := if ran && free then s.(lock := Some(Lock(pc.token, s.now + LOCK_TTL, c))) else s;
          At(s', c, if !ran || !heard then Refused else if free then Holder(pc.token) else Loser)
      case Retry(c, hit) => if pc.Loser? then At(s, c, if hit then Done else Querying) else s
      case Query(c) =>
        if pc.Holder? then At(s, c, Finishing(pc.token)) else if pc.Querying? then At(s, c, Done) else s
      case ReleaseLock(c, ran) =>
        if !pc.Finishing? then s
        else
          var mine := Live(s.lock, s.now).Some? && s.lock.value.token == pc.token;
          At(if ran && mine then s.(lock := None) else s, c, Done)
  }

  function Run(s: State, events: seq<Event>): State {
    if events == [] then s else Step(Run(s, events[..|events| - 1]), events[|events| - 1])
  }

  const INIT := State(0, None, map[], 0)

  /** The token a call still knows. */
  function TokenOf(pc: Pc): Option<Token> {
    match pc
    case Begun(t) => Some(t)
    case Holder(t) => Some(t)
    case Finishing(t) => Some(t)
    case _ => None
  }

  predicate Holds(pc: Pc) {
    pc.Holder? || pc.Finishing?
  }

  /** No two calls know one token, and none knows one not minted yet. */
  ghost predicate TokensAreUnique(s: State) {
    && (forall c :: c in s.calls && TokenOf(s.calls[c]).Some? ==> TokenOf(s.calls[c]).value < s.minted)
    && (forall c, d :: c in s.calls && d in s.calls && c != d && TokenOf(s.calls[c]).Some? ==>
        TokenOf(s.calls[c]) != TokenOf(s.calls[d]))
  }

  /** Nobody but the call that stored the lock knows its token, and that call is past its SetNX. */
  ghost predicate LockIsItsSetters(s: State) {
    s.lock.Some? ==>
      && s.lock.value.token < s.minted && s.lock.value.expires <= s.now + LOCK_TTL
      && forall c :: c in s.calls && TokenOf(s.calls[c]) == Some(s.lock.value.token) ==>
          c == s.lock.value.setter && !s.calls[c].Begun?
  }

  ghost predicate Inv(s: State) {
    TokensAreUnique(s) && LockIsItsSetters(s)
  }

  lemma TokensStep(s: State, e: Event)
    requires Inv(s)
    ensures TokensAreUnique(Step(s, e))
  {
  }

  lemma LockStep(s: State, e: Event)
    requires Inv(s)
    ensures LockIsItsSetters(Step(s, e))
  {
  }

  lemma InvStep(s: State, e: Event)
    requires Inv(s)
    ensures Inv(Step(s, e))
  {
    TokensStep(s, e);
    LockStep(s, e);
  }

  lemma {:induction false} InvHolds(events: seq<Event>)
    ensures Inv(Run(INIT, events))
  {
    if events != [] {
      InvHolds(events[..|events| - 1]);
      InvStep(Run(INIT, events[..|events| - 1]), events[|events| - 1]);
    }
  }

  /**
   In every run, a stored lock that is gone after a step has run out, or was released by the
   very call that stored it, done with its query: no loser, no late releaser and no errored
   call ever frees it.
   */
  lemma LockLeavesOnlyByExpiryOrItsOwnRelease(events: seq<Event>, e: Event)
    requires Live(Run(INIT, events).lock, Run(INIT, events).now).Some?
    ensures var s := Run(INIT, events);
            var t := Step(s, e);
            Live(t.lock, t.now) != s.lock ==>
              || t.now >= s.lock.value.expires
              || (e == ReleaseLock(s.lock.value.setter, true) && s.lock.value.setter in s.calls &&
                  s.calls[s.lock.value.setter].Finishing?)
  {
    InvHolds(events);
  }

  /** And a release that finds its own lock still there does free it. */
  lemma OwnReleaseFrees(s: State, c: Call)
    requires c in s.calls && s.calls[c].Finishing? && Live(s.lock, s.now).Some? &&
            s.lock.value.token == s.calls[c].token
    ensures Step(s, ReleaseLock(c, true)).lock.None? && Step(s, ReleaseLock(c, true)).calls[c].Done?
  {
  }

  /** A holder within its lifetime: the lock is still the one it set. */
  ghost predicate HoldsLive(s: State, c: Call) {
    c in s.calls && Holds(s.calls[c]) && Live(s.lock, s.now).Some? && TokenOf(s.calls[c]) == Some(s.lock.value.token)
  }

  /** At most one call holds the lock while it is alive. */
  lemma OneLiveHolder(events: seq<Event>, c: Call, d: Call)
    requires HoldsLive(Run(INIT, events), c) && HoldsLive(Run(INIT, events), d)
    ensures c == d
  {
    InvHolds(events);
  }

  /** One step by anyone but its own release leaves a live holder holding. */
  lemma HolderStep(s: State, c: Call, e: Event)
    requires Inv(s) && HoldsLive(s, c)
    requires Step(s, e).now < s.lock.value.expires
    requires !(e.ReleaseLock? && e.c == c)
    ensures HoldsLive(Step(s, e), c) && Step(s, e).lock == s.lock
  {
    if !e.Begin? && !e.Pass? && e.c != c && e.c in s.calls {
      assert TokenOf(s.calls[c]).Some?;
      assert TokenOf(s.calls[c]) != TokenOf(s.calls[e.c]);
    }
  }

  /**
   From winning the lock until its lifetime is over, a holder that has not released keeps it,
   whatever the others do.
   */
  lemma {:induction false} HolderKeepsTheLock(s: State, c: Call, events: seq<Event>)
    requires Inv(s) && HoldsLive(s, c)
    requires Run(s, events).now < s.lock.value.expires
    requires forall i :: 0 <= i < |events| ==> !(events[i].ReleaseLock? && events[i].c == c)
    ensures Inv(Run(s, events)) && HoldsLive(Run(s, events), c) && Run(s, events).lock == s.lock
  {
    if events != [] {
      var n := |events| - 1;
      var before := Run(s, events[..n]);
      TimeGoesOn(before, events[n]);
      HolderKeepsTheLock(s, c, events[..n]);
      InvStep(before, events[n]);
      HolderStep(before, c, events[n]);
    }
  }

  lemma TimeGoesOn(s: State, e: Event)
    ensures s.now <= Step(s, e).now
  {
  }

  // -- What a call comes to --

  predicate IsFree(s: State) {
    s.lock.None? || s.now >= s.lock.value.expires
  }

  /**
   Asking for the lock: the call holds it, for its lifetime, exactly when it was free and the
   answer was heard; it loses exactly when another's was alive; otherwise it returns an error, and
   a lock it may have set without hearing so stays until it runs out.
   */
  lemma LockIsWonExactlyWhenFree(events: seq<Event>, c: Call, ran: bool, heard: bool)
    requires c in Run(INIT, events).calls && Run(INIT, events).calls[c].Begun?
    ensures var s := Run(INIT, events);
            var t := Step(s, SetNX(c, ran, heard));
            && (HoldsLive(t, c) <==> ran && heard && IsFree(s))
            && (t.calls[c].Loser? <==> ran && heard && !IsFree(s))
            && (t.calls[c].Refused? <==> !ran || !heard)
            && (if ran && IsFree(s) then t.lock.Some? && t.lock.value.expires == s.now + 5000 &&
                t.lock.value.setter == c
                else t.lock == s.lock)
  {
    InvHolds(events);
  }

  /** A lock nobody releases is free once its lifetime has passed, and not before. */
  lemma LockRunsOut(s: State, millis: int)
    requires s.lock.Some? && millis > 0
    ensures IsFree(Step(s, Pass(millis))) <==> s.now + millis >= s.lock.value.expires
    ensures Step(s, Pass(millis)).calls == s.calls && Step(s, Pass(-millis)) == s
  {
  }

  /** A new call has a token no other knows; one that is under way is not begun again. */
  lemma CallBegins(events: seq<Event>, c: Call)
    ensures var s := Run(INIT, events);
            var t := Step(s, Begin(c));
            if c in s.calls then t == s
            else t.calls[c].Begun? && t.lock == s.lock
                 && forall d :: d in s.calls ==> TokenOf(s.calls[d]) != TokenOf(t.calls[c]) && t.calls[d] == s.calls[d]
  {
    InvHolds(events);
  }

  /**
   From there every call ends: a loser that finds the answer after its sleep; one that does not,
   with a query of its own; a holder, with its query and the release, which frees the lock exactly
   when it is still the call's own and the release runs.
   */
  lemma EveryCallEnds(s: State, c: Call, ran: bool)
    requires c in s.calls
    ensures s.calls[c].Loser? ==>
            && Step(s, Retry(c, true)) == s.(calls := s.calls[c := Done])
            && Step(s, Retry(c, false)) == s.(calls := s.calls[c := Querying])
            && Step(Step(s, Retry(c, false)), Query(c)) == s.(calls := s.calls[c := Done])
    ensures s.calls[c].Holder? ==>
            var t := Step(Step(s, Query(c)), ReleaseLock(c, ran));
            && t.calls == s.calls[c := Done]
            && t.lock == if ran && !IsFree(s) && s.lock.value.token == s.calls[c].token then None else s.lock
  {
    if s.calls[c].Loser? {
      assert s.calls[c := Querying][c := Done] == s.calls[c := Done];
    }
    if s.calls[c].Holder? {
      var q := Finishing(s.calls[c].token);
      assert s.calls[c := q][c := Done] == s.calls[c := Done];
    }
  }
}

/**
 Whole runs of reconcile passes over one session: any number of passes, by any
 number of replicas, with any chain, store and transaction answers.

 `GroupReconciler.ReconcileGroup` moves every session of a group by `PassEntry`
 independently of the others, so what holds of one session's runs here holds of
 every session of every group.
 */
module ReconcilerRuns {
  import opened Common
  import opened InclusionReconciler

  /** What stays fixed for one session: the configuration, the phase and the window. */
  datatype Setup = Setup(cfg: Config, phase: Phase, win: Window)

  /** One pass as this session meets it. A pass that abandons the group does not reach it. */
  datatype Visit = Visit(height: int, reached: bool, seen: Sighting, ans: Answer)

  function PassOf(su: Setup, held: Option<Stored>, v: Visit): EntryPass {
    if held.None? || !v.reached then EntryPass(held, [])
    else PassEntry(su.cfg, su.phase, su.win, v.height, v.seen, held.value, v.ans)
  }

  /** What the store holds for the session after the run. */
  function After(su: Setup, held: Option<Stored>, visits: seq<Visit>): Option<Stored> {
    if visits == [] then held
    else PassOf(su, After(su, held, visits[..|visits| - 1]), visits[|visits| - 1]).after
  }

  /** Everything done to the session during the run. */
  function HistoryIn(su: Setup, held: Option<Stored>, visits: seq<Visit>): seq<Event> {
    if visits == [] then []
    else HistoryIn(su, held, visits[..|visits| - 1])
         + PassOf(su, After(su, held, visits[..|visits| - 1]), visits[|visits| - 1]).events
  }

  /** The group's own sessions, visited one pass after another, end as `After` and `HistoryIn` say. */
  function SessionAfter(su: Setup, s: Session, visits: seq<Visit>): Session {
    if visits == [] then s
    else
      var before := SessionAfter(su, s, visits[..|visits| - 1]);
      before.Advanced(PassOf(su, before.stored, visits[|visits| - 1]))
  }

  lemma {:induction false} SessionRuns(su: Setup, s: Session, visits: seq<Visit>)
    ensures SessionAfter(su, s, visits).stored == After(su, s.stored, visits)
    ensures SessionAfter(su, s, visits).history == s.history + HistoryIn(su, s.stored, visits)
  {
    if visits != [] {
      SessionRuns(su, s, visits[..|visits| - 1]);
    }
  }

  /** One pass over a group is one visit to each of its sessions. */
  lemma GroupPassIsAVisitToEach(su: Setup, height: int, view: ChainView, s: Sessions, done: seq<SessionID>,
                                answers: map<SessionID, Answer>, id: SessionID)
    requires forall x :: x in done ==> x in s && s[x].stored.Some? && x in answers
    requires id in s && id in answers
    ensures var v := Visit(height, id in done, SightingOf(view, id), answers[id]);
            GroupAfter(su.cfg, su.phase, su.win, height, view, s, done, answers)[id] == SessionAfter(su, s[id], [v])
  {
    var v := Visit(height, id in done, SightingOf(view, id), answers[id]);
    assert [v][..0] == [];
    assert SessionAfter(su, s[id], [v]) == s[id].Advanced(PassOf(su, s[id].stored, v));
  }

  /******* Counting *******/

  datatype Kind = Recording | Clearing | FailedClear | CountedAttempt | UnsavedAttempt

  /** The answers that spend an attempt. */
  predicate Counted(e: Event) {
    e.Attempted? && (e.answer.error.NoError? || e.answer.error.BytesPreserved? || e.answer.error.TxRejected?)
  }

  predicate Is(e: Event, k: Kind) {
    match k
    case Recording => e.Recorded?
    case Clearing => e.Cleared?
    case FailedClear => e.ClearFailed?
    case CountedAttempt => Counted(e)
    case UnsavedAttempt => Counted(e) && !e.persisted
  }

  function Count(h: seq<Event>, k: Kind): nat {
    if h == [] then 0 else Count(h[..|h| - 1], k) + if Is(h[|h| - 1], k) then 1 else 0
  }

  lemma {:induction false} CountAppend(a: seq<Event>, b: seq<Event>, k: Kind)
    ensures Count(a + b, k) == Count(a, k) + Count(b, k)
  {
    if b == [] {
      assert a + b == a;
    } else {
      var n := |b| - 1;
      assert (a + b)[..|a + b| - 1] == a + b[..n];
      CountAppend(a, b[..n], k);
    }
  }

  /** How many of the at most two events of one pass are of a kind. */
  function Added(p: seq<Event>, k: Kind): nat {
    (if |p| > 0 && Is(p[0], k) then 1 else 0) + (if |p| > 1 && Is(p[1], k) then 1 else 0)
  }

  lemma CountPass(p: seq<Event>, k: Kind)
    requires |p| <= 2
    ensures Count(p, k) == Added(p, k)
  {
    if |p| == 2 {
      assert p[..1] == [p[0]];
    }
  }

  /** How many events of a kind the run produced. */
  function Tally(su: Setup, held: Option<Stored>, visits: seq<Visit>, k: Kind): nat {
    if visits == [] then 0
    else Tally(su, held, visits[..|visits| - 1], k)
         + Added(PassOf(su, After(su, held, visits[..|visits| - 1]), visits[|visits| - 1]).events, k)
  }

  lemma {:induction false} TallyCountsTheHistory(su: Setup, held: Option<Stored>, visits: seq<Visit>, k: Kind)
    ensures Tally(su, held, visits, k) == Count(HistoryIn(su, held, visits), k)
  {
    if visits != [] {
      var front := visits[..|visits| - 1];
      TallyCountsTheHistory(su, held, front, k);
      var p := PassOf(su, After(su, held, front), visits[|visits| - 1]).events;
      PassShape(su, After(su, held, front), visits[|visits| - 1]);
      CountAppend(HistoryIn(su, held, front), p, k);
      CountPass(p, k);
    }
  }

  /******* What one visit can do *******/

  /** Not on chain as far as the visit can tell, with room left in the window. */
  predicate WorthSending(su: Setup, submitHeight: int, v: Visit) {
    && v.reached && su.cfg.hasResubmitter && v.ans.inBudget
    && (v.seen == QueryError || StillMissing(su.phase, v.seen))
    && submitHeight < v.height < su.win.close - su.cfg.safety && v.height <= su.win.close
  }

  /** Whether this visit makes a resend attempt for the entry it finds. */
  predicate Sends(su: Setup, held: Option<Stored>, v: Visit) {
    && held.Some? && held.value.Decoded?
    && WorthSending(su, held.value.entry.submitHeight, v)
    && (su.cfg.cap.Some? ==> held.value.entry.rebroadcasts < su.cfg.cap.value)
  }

  /** The answers after which there is nothing left to verify. */
  predicate Ends(error: SendError) {
    error.NotRequired? || error.AlreadyJudged?
  }

  /** The answers that mean that nothing was sent. */
  predicate IsEcho(error: SendError) {
    error.Saturated? || error.AlreadyQueued?
  }

  /** The attempt such a visit makes. */
  function AttemptOf(e: Entry, v: Visit): Event {
    Attempted(v.height, e.Payload(), v.ans.send, v.ans.persisted && !Ends(v.ans.send.error))
  }

  /** The two-event shapes: an outcome or an ended verification, then its clear. */
  lemma PassShape(su: Setup, held: Option<Stored>, v: Visit)
    ensures var p := PassOf(su, held, v);
            && |p.events| <= 2
            && (|p.events| == 2 ==> p.events[1] == (if p.after.None? then Cleared else ClearFailed))
            && (|p.events| == 2 ==> p.events[0].Recorded? || p.events[0].Attempted?)
            && (|p.events| > 0 && p.events[0].Recorded? ==> |p.events| == 2)
            && (|p.events| > 0 && (p.events[0].Cleared? || p.events[0].ClearFailed?) ==>
                p.events[0] == (if p.after.None? then Cleared else ClearFailed))
            && (held.Some? && p.after.None? ==> p.events != [] && p.events[|p.events| - 1].Cleared?)
            && (held.None? ==> p.events == [] && p.after.None?)
            && (v.ans.deleted ==> ClearFailed !in p.events)
  {
  }

  /** An attempt is a pass's first event, and only a sending visit makes one. */
  lemma VisitSends(su: Setup, held: Option<Stored>, v: Visit)
    ensures var p := PassOf(su, held, v);
            && (|p.events| > 0 && p.events[0].Attempted? <==> Sends(su, held, v))
            && (!Sends(su, held, v) ==> p.after == None || p.after == held)
            && (Sends(su, held, v) ==>
                  && p.events[0] == AttemptOf(held.value.entry, v)
                  && p.after == if Ends(v.ans.send.error) then (if v.ans.deleted then None else held)
                                else if !v.ans.persisted then held
                                else Some(Decoded(Resent(held.value.entry, v.height, v.ans.send))))
  {
  }

  /**
   A failed query with the window open resends whatever an answered one would have, with the
   same effect; and beyond that exactly what an answered one would have settled instead.
   */
  lemma BlindResendMissesNothing(su: Setup, held: Option<Stored>, v: Visit)
    ensures Sends(su, held, v) <==>
            Sends(su, held, v.(seen := QueryError)) && (v.seen == QueryError || StillMissing(su.phase, v.seen))
    ensures Sends(su, held, v) ==> PassOf(su, held, v.(seen := QueryError)) == PassOf(su, held, v)
    ensures Sends(su, held, v) ==> |PassOf(su, held, v).events| > 0 && PassOf(su, held, v).events[0].Attempted?
  {
    VisitSends(su, held, v);
  }

  /******* How an entry leaves the store *******/

  /** The only reasons an entry may leave the store while its window is open. */
  predicate LeavesWhileOpen(su: Setup, stored: Stored, v: Visit) {
    || stored.Corrupt?
    || (Landed(su.phase, v.seen) && v.ans.recorded)
    || TurnedDown(su.phase, v.seen)
    || (Sends(su, Some(stored), v) && Ends(v.ans.send.error))
  }

  /** At a height not past the close, an entry leaves exactly on one of those reasons and a working delete. */
  lemma LeavesOnlyOnAnAnswer(su: Setup, stored: Stored, visits: seq<Visit>, i: nat)
    requires i < |visits| && visits[i].height <= su.win.close
    requires After(su, Some(stored), visits[..i]).Some?
    ensures After(su, Some(stored), visits[..i + 1]).None? <==>
            && visits[i].reached && visits[i].ans.deleted
            && LeavesWhileOpen(su, After(su, Some(stored), visits[..i]).value, visits[i])
  {
    var upTo := visits[..i + 1];
    assert upTo[..|upTo| - 1] == visits[..i] && upTo[|upTo| - 1] == visits[i];
    var held := After(su, Some(stored), visits[..i]);
    assert After(su, Some(stored), upTo) == PassOf(su, held, visits[i]).after;
  }

  /** What a pass past the window needs to end an entry: a working delete, and a found outcome recorded. */
  predicate EndsPastTheWindow(su: Setup, stored: Stored, seen: Sighting, ans: Answer) {
    ans.deleted && (stored.Decoded? && Landed(su.phase, seen) ==> ans.recorded)
  }

  lemma LateVisitEnds(su: Setup, stored: Stored, v: Visit)
    requires v.reached && PastRetrying(su.win, v.height)
    ensures PassOf(su, Some(stored), v).after.None? <==> EndsPastTheWindow(su, stored, v.seen, v.ans)
  {
  }

  /** Any pass that reaches a pending entry past the close and past the retry height ends it exactly then. */
  lemma {:induction false} PastTheWindowNothingStays(su: Setup, stored: Stored, visits: seq<Visit>, v: Visit)
    requires v.reached && PastRetrying(su.win, v.height)
    requires After(su, Some(stored), visits).Some?
    ensures After(su, Some(stored), visits + [v]).None? <==>
              EndsPastTheWindow(su, After(su, Some(stored), visits).value, v.seen, v.ans)
  {
    OneMoreVisit(su, Some(stored), visits, v);
    LateVisitEnds(su, After(su, Some(stored), visits).value, v);
  }

  /** The same for the whole group: after such a pass exactly those sessions are still pending. */
  lemma {:induction false} PastTheWindowGroupIsEmpty(su: Setup, height: int, view: ChainView, s: Sessions,
                                                     order: seq<SessionID>, answers: map<SessionID, Answer>)
    requires Walks(order, s, answers)
    requires PastRetrying(su.win, height)
    ensures var after := GroupAfter(su.cfg, su.phase, su.win, height, view, s, order, answers);
            forall id :: id in after ==>
              (after[id].stored.None? <==>
                s[id].stored.None? || EndsPastTheWindow(su, s[id].stored.value, SightingOf(view, id), answers[id]))
  {
    var after := GroupAfter(su.cfg, su.phase, su.win, height, view, s, order, answers);
    forall id | id in after
      ensures after[id].stored.None? <==>
                s[id].stored.None? || EndsPastTheWindow(su, s[id].stored.value, SightingOf(view, id), answers[id])
    {
      if id in order {
        GroupPassIsAVisitToEach(su, height, view, s, order, answers, id);
      }
    }
  }

  /**
   In every run, an entry that does not decode is only ever dropped, with no outcome and no resend:
   by the first visit that reaches it with a working delete, unless a failed query is to be asked
   again.
   */
  lemma {:induction false} CorruptIsOnlyDropped(su: Setup, visits: seq<Visit>, v: Visit)
    ensures After(su, Some(Corrupt), visits) in {None, Some(Corrupt)}
    ensures forall e :: e in HistoryIn(su, Some(Corrupt), visits) ==> e.Cleared? || e.ClearFailed?
    ensures After(su, Some(Corrupt), visits).Some? ==>
            (After(su, Some(Corrupt), visits + [v]).None? <==>
              && v.reached && v.ans.deleted
              && (v.seen == QueryError ==> v.height <= su.win.close || PastRetrying(su.win, v.height)))
  {
    OneMoreVisit(su, Some(Corrupt), visits, v);
    if visits != [] {
      CorruptIsOnlyDropped(su, visits[..|visits| - 1], v);
    }
  }

  /******* Outcomes *******/

  ghost predicate DeletesWork(visits: seq<Visit>) {
    forall i :: 0 <= i < |visits| ==> visits[i].ans.deleted
  }

  /**
   Conservation of outcomes: each recorded outcome is followed by a clear that worked,
   after which nothing happens, or by one that failed.
   */
  lemma {:induction false} OutcomesAreConserved(su: Setup, stored: Stored, visits: seq<Visit>)
    ensures Tally(su, Some(stored), visits, Clearing) == if After(su, Some(stored), visits).None? then 1 else 0
    ensures Tally(su, Some(stored), visits, Recording)
            <= Tally(su, Some(stored), visits, FailedClear) + Tally(su, Some(stored), visits, Clearing)
    ensures DeletesWork(visits) ==> Tally(su, Some(stored), visits, FailedClear) == 0
  {
    if visits != [] {
      var front := visits[..|visits| - 1];
      OutcomesAreConserved(su, stored, front);
      PassShape(su, After(su, Some(stored), front), visits[|visits| - 1]);
    }
  }

  /** With working deletes: at most one outcome, and none while the entry is still pending. */
  lemma {:induction false} AtMostOneOutcome(su: Setup, stored: Stored, visits: seq<Visit>)
    requires DeletesWork(visits)
    ensures Count(HistoryIn(su, Some(stored), visits), Recording) <= if After(su, Some(stored), visits).None? then 1
            else 0
  {
    OutcomesAreConserved(su, stored, visits);
    TallyCountsTheHistory(su, Some(stored), visits, Recording);
  }

  /**
   What a visit must have seen for an outcome to be recorded in it: a claim of any kind, or exactly
   a validated proof; exactly a refused proof; past the close, no claim, or a proof neither
   validated nor refused; past the retry height, no answer.
   */
  predicate Witnesses(su: Setup, v: Visit, e: Event) {
    && e.Recorded? && v.reached
    && match e.outcome
       case OnChainFound =>
         e.atHeight == v.height && if su.phase.Claim? then v.seen.There? else v.seen == There(Validated)
       case OnChainRejected => e.atHeight == v.height && su.phase.Proof? && v.seen == There(Refused)
       case OnChainMissing =>
         && e.atHeight == 0 && v.height > su.win.close
         && (v.seen == NotThere || (su.phase.Proof? && (v.seen == There(Pending) || v.seen == There(Unknown))))
       case PollError =>
         && e.atHeight == 0 && v.height > su.win.close && v.seen == QueryError
         && (su.win.pollRetryUntil.Some? ==> v.height > su.win.pollRetryUntil.value)
  }

  ghost predicate Witnessed(su: Setup, visits: seq<Visit>, e: Event) {
    exists i :: 0 <= i < |visits| && Witnesses(su, visits[i], e)
  }

  lemma PassIsWitnessed(su: Setup, held: Option<Stored>, v: Visit, e: Event)
    requires e.Recorded? && e in PassOf(su, held, v).events
    ensures Witnesses(su, v, e)
  {
  }

  /** Every recorded outcome is what some pass of the run saw. */
  lemma {:induction false} OutcomesAreWitnessed(su: Setup, stored: Stored, visits: seq<Visit>, e: Event)
    requires e.Recorded? && e in HistoryIn(su, Some(stored), visits)
    ensures Witnessed(su, visits, e)
  {
    var n := |visits| - 1;
    if e in HistoryIn(su, Some(stored), visits[..n]) {
      OutcomesAreWitnessed(su, stored, visits[..n], e);
      var i :| 0 <= i < n && Witnesses(su, visits[..n][i], e);
      assert Witnesses(su, visits[i], e);
    } else {
      PassIsWitnessed(su, After(su, Some(stored), visits[..n]), visits[n], e);
    }
  }

  /** What one more visit adds to the history. */
  function News(su: Setup, stored: Stored, visits: seq<Visit>, v: Visit): seq<Event> {
    var before, after := HistoryIn(su, Some(stored), visits), HistoryIn(su, Some(stored), visits + [v]);
    if |before| <= |after| then after[|before|..] else []
  }

  lemma NewsAre(su: Setup, stored: Stored, visits: seq<Visit>, v: Visit)
    ensures News(su, stored, visits, v) == PassOf(su, After(su, Some(stored), visits), v).events
    ensures HistoryIn(su, Some(stored), visits + [v])
            == HistoryIn(su, Some(stored), visits) + News(su, stored, visits, v)
  {
    assert (visits + [v])[..|visits + [v]| - 1] == visits;
  }

  lemma SettledLeaves(su: Setup, e: Entry, v: Visit)
    requires v.reached && v.ans.deleted
    ensures || (v.ans.recorded && Landed(su.phase, v.seen))
            || TurnedDown(su.phase, v.seen)
            || (StillMissing(su.phase, v.seen) && v.height > su.win.close) ==>
              PassOf(su, Some(Decoded(e)), v).after.None?
  {
  }

  /**
   In every run, a visit that reaches an entry that decodes records an outcome exactly on these
   sightings, whatever the store does; with working writes the entry then leaves.
   */
  lemma {:induction false} SettlesExactlyOnItsSighting(su: Setup, stored: Stored, visits: seq<Visit>, v: Visit)
    requires v.reached && After(su, Some(stored), visits).Some? && After(su, Some(stored), visits).value.Decoded?
    ensures HistoryIn(su, Some(stored), visits + [v])
            == HistoryIn(su, Some(stored), visits) + News(su, stored, visits, v)
    ensures SettledAsSeen(su.phase, su.win, v.height, v.seen, v.ans, News(su, stored, visits, v))
    ensures v.ans.recorded && v.ans.deleted && (Landed(su.phase, v.seen) || TurnedDown(su.phase, v.seen)) ==>
            After(su, Some(stored), visits + [v]).None?
    ensures v.ans.deleted && v.height > su.win.close && StillMissing(su.phase, v.seen) ==>
            After(su, Some(stored), visits + [v]).None?
  {
    NewsAre(su, stored, visits, v);
    var e := After(su, Some(stored), visits).value.entry;
    assert News(su, stored, visits, v) ==
        PassEntry(su.cfg, su.phase, su.win, v.height, v.seen, Decoded(e), v.ans).events;
    PassSettlesAsSeen(su.cfg, su.phase, su.win, v.height, v.seen, e, v.ans);
    OneMoreVisit(su, Some(stored), visits, v);
    if v.ans.deleted {
      SettledLeaves(su, e, v);
    }
  }

  /******* Where and how often a resend happens *******/

  function AttemptIn(p: seq<Event>): (r: seq<Event>)
    ensures forall i :: 0 <= i < |r| ==> r[i].Attempted?
  {
    if |p| > 0 && p[0].Attempted? then [p[0]] else []
  }

  /** The resend attempts of a run, oldest first. */
  function Attempts(su: Setup, held: Option<Stored>, visits: seq<Visit>): (r: seq<Event>)
    ensures forall i :: 0 <= i < |r| ==> r[i].Attempted?
  {
    if visits == [] then []
    else
      var p := PassOf(su, After(su, held, visits[..|visits| - 1]), visits[|visits| - 1]).events;
      Attempts(su, held, visits[..|visits| - 1]) + AttemptIn(p)
  }

  /** The parts of an entry no pass ever rewrites. */
  predicate SameSubmission(a: Entry, b: Entry) {
    && a.msg == b.msg && a.submitHeight == b.submitHeight && a.origTxHash == b.origTxHash
    && a.serviceID == b.serviceID && a.timeoutSeconds == b.timeoutSeconds && a.timeoutRegime == b.timeoutRegime
  }

  predicate StillOf(held: Option<Stored>, e: Entry) {
    held.Some? ==> held.value.Decoded? && SameSubmission(e, held.value.entry)
  }

  lemma {:induction false} SubmissionIsKept(su: Setup, e: Entry, visits: seq<Visit>)
    ensures StillOf(After(su, Some(Decoded(e)), visits), e)
  {
    if visits != [] {
      SubmissionIsKept(su, e, visits[..|visits| - 1]);
      VisitSends(su, After(su, Some(Decoded(e)), visits[..|visits| - 1]), visits[|visits| - 1]);
    }
  }

  /** Every attempt, by any replica, is strictly after the submission and strictly before the close less the margin. */
  lemma {:induction false} AttemptsAreInsideTheWindow(su: Setup, e: Entry, visits: seq<Visit>)
    ensures forall a :: a in Attempts(su, Some(Decoded(e)), visits) ==>
              e.submitHeight < a.height < su.win.close - su.cfg.safety
  {
    if visits != [] {
      var front := visits[..|visits| - 1];
      AttemptsAreInsideTheWindow(su, e, front);
      SubmissionIsKept(su, e, front);
      VisitSends(su, After(su, Some(Decoded(e)), front), visits[|visits| - 1]);
    }
  }

  ghost predicate Ascending(visits: seq<Visit>) {
    forall i, j :: 0 <= i < j < |visits| ==> visits[i].height < visits[j].height
  }

  /** One replica taking blocks in sequence: the number of attempts is bounded by the window alone. */
  lemma {:induction false} AttemptsFitTheWindow(su: Setup, e: Entry, visits: seq<Visit>)
    requires Ascending(visits)
    ensures var a := Attempts(su, Some(Decoded(e)), visits);
            && |a| <= Max(0, su.win.close - su.cfg.safety - e.submitHeight - 1)
            && (a != [] ==> e.submitHeight + |a| <= a[|a| - 1].height <= visits[|visits| - 1].height)
  {
    if visits != [] {
      var n := |visits| - 1;
      AttemptsFitTheWindow(su, e, visits[..n]);
      AttemptsAreInsideTheWindow(su, e, visits);
      SubmissionIsKept(su, e, visits[..n]);
      VisitSends(su, After(su, Some(Decoded(e)), visits[..n]), visits[n]);
    }
  }

  /** The stored count is the entry's own, and one for each counted attempt the store kept. */
  lemma {:induction false} CountsAreKept(su: Setup, e: Entry, visits: seq<Visit>)
    ensures var held := After(su, Some(Decoded(e)), visits);
            held.Some? ==>
              && held.value.Decoded?
              && e.rebroadcasts + Tally(su, Some(Decoded(e)), visits, CountedAttempt)
                 == held.value.entry.rebroadcasts + Tally(su, Some(Decoded(e)), visits, UnsavedAttempt)
  {
    if visits != [] {
      var front := visits[..|visits| - 1];
      CountsAreKept(su, e, front);
      PassShape(su, After(su, Some(Decoded(e)), front), visits[|visits| - 1]);
      VisitSends(su, After(su, Some(Decoded(e)), front), visits[|visits| - 1]);
    }
  }

  /** The cap holds over every run, whoever makes the passes, up to the counts the store refused to keep. */
  lemma {:induction false} CapHolds(su: Setup, e: Entry, visits: seq<Visit>)
    requires su.cfg.cap.Some?
    ensures var counted := Tally(su, Some(Decoded(e)), visits, CountedAttempt);
            var unsaved := Tally(su, Some(Decoded(e)), visits, UnsavedAttempt);
            var held := After(su, Some(Decoded(e)), visits);
            && counted <= Max(0, su.cfg.cap.value - e.rebroadcasts) + unsaved
            && (held.Some? ==>
                  held.value.Decoded? && e.rebroadcasts + counted == held.value.entry.rebroadcasts + unsaved)
  {
    CountsAreKept(su, e, visits);
    if visits != [] {
      var front := visits[..|visits| - 1];
      CapHolds(su, e, front);
      PassShape(su, After(su, Some(Decoded(e)), front), visits[|visits| - 1]);
      VisitSends(su, After(su, Some(Decoded(e)), front), visits[|visits| - 1]);
    }
  }

  ghost predicate PutsWork(visits: seq<Visit>) {
    forall i :: 0 <= i < |visits| ==> visits[i].ans.persisted
  }

  lemma {:induction false} WorkingPutsSaveEveryCount(su: Setup, held: Option<Stored>, visits: seq<Visit>)
    requires PutsWork(visits)
    ensures Tally(su, held, visits, UnsavedAttempt) == 0
  {
    if visits != [] {
      var front := visits[..|visits| - 1];
      WorkingPutsSaveEveryCount(su, held, front);
      PassShape(su, After(su, held, front), visits[|visits| - 1]);
      VisitSends(su, After(su, held, front), visits[|visits| - 1]);
    }
  }

  /**
   With persisted writes: never more counted resends than the cap leaves, across any failover; none
   under a cap lowered below the count.
   */
  lemma CountedResendsNeverExceedTheCap(su: Setup, e: Entry, visits: seq<Visit>)
    requires su.cfg.cap.Some? && PutsWork(visits)
    ensures Count(HistoryIn(su, Some(Decoded(e)), visits), CountedAttempt) <= Max(0, su.cfg.cap.value - e.rebroadcasts)
  {
    CapHolds(su, e, visits);
    WorkingPutsSaveEveryCount(su, Some(Decoded(e)), visits);
    TallyCountsTheHistory(su, Some(Decoded(e)), visits, CountedAttempt);
  }

  /******* What an entry remembers of its attempts *******/

  ghost predicate AreAttempts(a: seq<Event>) {
    forall i :: 0 <= i < |a| ==> a[i].Attempted?
  }

  /** The height of the last counted attempt that was written back, or the given one when there is none. */
  function LastCounted(a: seq<Event>, none: int): int
    requires AreAttempts(a)
  {
    if a == [] then none
    else if Counted(a[|a| - 1]) && a[|a| - 1].persisted then a[|a| - 1].height
    else LastCounted(a[..|a| - 1], none)
  }

  /** The hash of the last accepted attempt that was written back and named one. */
  function LastHash(a: seq<Event>, none: string): string
    requires AreAttempts(a)
  {
    if a == [] then none
    else if a[|a| - 1].persisted && a[|a| - 1].answer.error.NoError? && a[|a| - 1].answer.newHash != ""
    then a[|a| - 1].answer.newHash
    else LastHash(a[..|a| - 1], none)
  }

  /** The height a stall is measured from: the last counted attempt's, or the submission's. */
  function StalledFrom(e: Entry, a: seq<Event>): int
    requires AreAttempts(a)
  {
    var h := LastCounted(a, e.lastAttemptHeight);
    if h == 0 then e.submitHeight else h
  }

  /** The signed transaction an entry is left with after an attempt that was written back. */
  function Kept(e: Entry, before: seq<Event>, last: Event): SignedPayload
    requires AreAttempts(before) && last.Attempted?
  {
    var error := last.answer.error;
    if error.TxRejected? || (!error.NoError? && last.height - StalledFrom(e, before) >= 3) then NO_PAYLOAD
    else if last.answer.sent.bytes != [] then last.answer.sent
    else last.carried
  }

  /** The signed transaction left after the attempts. */
  function Left(e: Entry, a: seq<Event>): SignedPayload
    requires AreAttempts(a)
  {
    if a == [] then e.Payload()
    else
      var n := |a| - 1;
      if a[n].persisted then Kept(e, a[..n], a[n]) else a[n].carried
  }

  ghost predicate CarriedInTurn(e: Entry, a: seq<Event>)
    requires AreAttempts(a)
  {
    forall i :: 0 <= i < |a| ==> a[i].carried == Left(e, a[..i])
  }

  ghost predicate Tracks(held: Option<Stored>, e: Entry, a: seq<Event>)
    requires AreAttempts(a)
  {
    held.Some? ==>
      && held.value.Decoded?
      && held.value.entry.submitHeight == e.submitHeight
      && held.value.entry.lastAttemptHeight == LastCounted(a, e.lastAttemptHeight)
      && held.value.entry.txHash == LastHash(a, e.txHash)
      && held.value.entry.Payload() == Left(e, a)
  }

  /** One attempt's bookkeeping. */
  lemma TracksOneMore(e: Entry, now: Entry, a: seq<Event>, v: Visit)
    requires AreAttempts(a) && Tracks(Some(Decoded(now)), e, a)
    ensures var last := AttemptOf(now, v);
            Tracks(Some(Decoded(if last.persisted then Resent(now, v.height, v.ans.send) else now)), e, a + [last])
  {
    assert (a + [AttemptOf(now, v)])[..|a|] == a;
  }

  lemma CarriedOneMore(e: Entry, a: seq<Event>, last: Event)
    requires AreAttempts(a) && last.Attempted? && CarriedInTurn(e, a) && last.carried == Left(e, a)
    ensures CarriedInTurn(e, a + [last])
  {
    var longer := a + [last];
    forall i | 0 <= i < |longer| ensures longer[i].carried == Left(e, longer[..i]) {
      assert longer[..i] == a[..i];
      assert a[..|a|] == a;
    }
  }

  lemma TracksVisit(su: Setup, held: Option<Stored>, e: Entry, a: seq<Event>, v: Visit)
    requires AreAttempts(a) && Tracks(held, e, a) && CarriedInTurn(e, a)
    ensures var p := PassOf(su, held, v);
            Tracks(p.after, e, a + AttemptIn(p.events)) && CarriedInTurn(e, a + AttemptIn(p.events))
  {
    var p := PassOf(su, held, v);
    VisitSends(su, held, v);
    PassShape(su, held, v);
    if Sends(su, held, v) {
      TracksOneMore(e, held.value.entry, a, v);
      CarriedOneMore(e, a, AttemptOf(held.value.entry, v));
    } else {
      assert a + AttemptIn(p.events) == a;
    }
  }

  /**
   In every run, whatever the store refuses: the entry's last attempt height, hash and signed
   transaction are exactly what the attempts that were written back make them.
   */
  lemma {:induction false} EntryTracksItsHistory(su: Setup, e: Entry, visits: seq<Visit>)
    ensures Tracks(After(su, Some(Decoded(e)), visits), e, Attempts(su, Some(Decoded(e)), visits))
    ensures CarriedInTurn(e, Attempts(su, Some(Decoded(e)), visits))
  {
    if visits != [] {
      var n := |visits| - 1;
      EntryTracksItsHistory(su, e, visits[..n]);
      TracksVisit(su, After(su, Some(Decoded(e)), visits[..n]), e, Attempts(su, Some(Decoded(e)), visits[..n]),
          visits[n]);
    }
  }

  /**
   In every run, what an attempt carries, by the answer to the one before it. Written back: nothing
   after a refusal, or after any error three or more blocks past the last counted attempt; else the
   transaction that answer came with, if it came with one; else the same again. Not written back:
   the same again.
   */
  lemma NextAttemptCarries(su: Setup, e: Entry, visits: seq<Visit>, i: nat)
    requires i + 1 < |Attempts(su, Some(Decoded(e)), visits)|
    ensures var a := Attempts(su, Some(Decoded(e)), visits);
            var error, sent := a[i].answer.error, a[i].answer.sent;
            var stalled := !error.NoError? && a[i].height - StalledFrom(e, a[..i]) >= 3;
            && (!a[i].persisted ==> a[i + 1].carried == a[i].carried)
            && (a[i].persisted && (error.TxRejected? || stalled) ==> a[i + 1].carried == SignedPayload([], 0, 0))
            && (a[i].persisted && !error.TxRejected? && !stalled ==>
                  a[i + 1].carried == if |sent.bytes| > 0 then sent else a[i].carried)
  {
    EntryTracksItsHistory(su, e, visits);
    var a := Attempts(su, Some(Decoded(e)), visits);
    assert a[i + 1].carried == Left(e, a[..i + 1]) && a[..i + 1][..i] == a[..i];
  }

  /**
   In every run, a visit resends exactly when the entry is pending, not seen on chain, inside the
   window and under its cap; and then it carries what the attempts before have left.
   */
  lemma ResendsExactlyWhen(su: Setup, e: Entry, visits: seq<Visit>, v: Visit)
    ensures var held := Some(Decoded(e));
            var a := Attempts(su, held, visits);
            var kept := Tally(su, held, visits, CountedAttempt) - Tally(su, held, visits, UnsavedAttempt);
            Attempts(su, held, visits + [v]) ==
              if After(su, held, visits).Some? && WorthSending(su, e.submitHeight, v)
                 && (su.cfg.cap.Some? ==> e.rebroadcasts + kept < su.cfg.cap.value)
              then a + [Attempted(v.height, Left(e, a), v.ans.send, v.ans.persisted && !Ends(v.ans.send.error))]
              else a
  {
    var held := Some(Decoded(e));
    OneMoreVisit(su, held, visits, v);
    CountsAreKept(su, e, visits);
    EntryTracksItsHistory(su, e, visits);
    VisitSends(su, After(su, held, visits), v);
  }

  /******* Re-injection *******/

  ghost predicate StartsAbove(visits: seq<Visit>, floor: int) {
    forall i :: 0 <= i < |visits| ==> floor < visits[i].height
  }

  ghost predicate RisesFrom(a: seq<Event>, floor: int)
    requires AreAttempts(a)
  {
    && (forall i :: 0 <= i < |a| ==> floor < a[i].height)
    && (forall i, j :: 0 <= i < j < |a| ==> a[i].height < a[j].height)
  }

  lemma {:induction false} AttemptsRise(su: Setup, held: Option<Stored>, visits: seq<Visit>, floor: int)
    requires Ascending(visits) && StartsAbove(visits, floor)
    ensures RisesFrom(Attempts(su, held, visits), floor)
    ensures var a := Attempts(su, held, visits);
            a != [] ==> visits != [] && a[|a| - 1].height <= visits[|visits| - 1].height
  {
    if visits != [] {
      var n := |visits| - 1;
      AttemptsRise(su, held, visits[..n], floor);
      VisitSends(su, After(su, held, visits[..n]), visits[n]);
    }
  }

  lemma {:induction false} LastCountedIsBelow(a: seq<Event>, none: int, floor: int, next: int)
    requires AreAttempts(a) && RisesFrom(a, floor) && none <= floor < next
    requires forall i :: 0 <= i < |a| ==> a[i].height < next
    ensures LastCounted(a, none) < next
  {
    if a != [] {
      LastCountedIsBelow(a[..|a| - 1], none, floor, next);
    }
  }

  /** Two uncounted attempts on, a rising height is three past where the stall is measured from. */
  lemma ThirdIsStalled(e: Entry, a: seq<Event>, i: nat, floor: int)
    requires AreAttempts(a) && RisesFrom(a, floor) && e.lastAttemptHeight <= floor
    requires i + 2 < |a| && e.submitHeight < a[i].height && !Counted(a[i]) && !Counted(a[i + 1])
    ensures a[i + 2].height - StalledFrom(e, a[..i + 2]) >= 3
  {
    LastCountedIsBelow(a[..i], e.lastAttemptHeight, floor, a[i].height);
    assert a[..i + 2][..i + 1] == a[..i + 1] && a[..i + 1][..i] == a[..i];
    assert LastCounted(a[..i + 2], e.lastAttemptHeight) == LastCounted(a[..i + 1], e.lastAttemptHeight);
    assert LastCounted(a[..i + 1], e.lastAttemptHeight) == LastCounted(a[..i], e.lastAttemptHeight);
  }

  /**
   Exactly when re-injection goes on. With heights going up, whatever the store refuses: an
   attempt that follows three uncounted ones in a row carries no cached bytes if and only if the
   third was written back, or carried none itself. So once the store takes one write, at most
   three uncounted attempts in a row carry the same signed transaction.
   */
  lemma AtMostThreeInARow(su: Setup, e: Entry, visits: seq<Visit>, floor: int, i: nat)
    requires Ascending(visits) && StartsAbove(visits, floor) && e.lastAttemptHeight <= floor
    requires var a := Attempts(su, Some(Decoded(e)), visits);
             i + 3 < |a| && !Counted(a[i]) && !Counted(a[i + 1]) && !Counted(a[i + 2])
    ensures var a := Attempts(su, Some(Decoded(e)), visits);
            a[i + 3].carried.bytes == [] <==> a[i + 2].persisted || a[i + 2].carried.bytes == []
  {
    var a := Attempts(su, Some(Decoded(e)), visits);
    AttemptsRise(su, Some(Decoded(e)), visits, floor);
    AttemptsAreInsideTheWindow(su, e, visits);
    assert a[i] in a;
    ThirdIsStalled(e, a, i, floor);
    NextAttemptCarries(su, e, visits, i + 2);
  }

  /** A session with one cached byte, an open window and no cap. */
  function OpenSetup(close: int): Setup {
    Setup(Config(None, 0, true), Claim, Window(close, None))
  }

  const CACHED := Entry([], 0, "", "", "", 0, 0, "", 0, [1], 0, 0)

  /** At block `height` the store refuses what the resend's answer asks of it, and only that. */
  function RefusedVisit(height: int, answer: SendError): Visit {
    Visit(height, true, NotThere,
          Answer(true, !Ends(answer), true, SendAnswer(answer, "", NO_PAYLOAD), Ends(answer)))
  }

  function RefusedWrites(n: nat, answer: SendError): seq<Visit> {
    if n == 0 then [] else RefusedWrites(n - 1, answer) + [RefusedVisit(n, answer)]
  }

  lemma {:induction false} RefusedWritesAre(n: nat, answer: SendError)
    ensures |RefusedWrites(n, answer)| == n
    ensures forall i :: 0 <= i < n ==> RefusedWrites(n, answer)[i] == RefusedVisit(i + 1, answer)
  {
    if n > 0 {
      RefusedWritesAre(n - 1, answer);
    }
  }

  lemma {:induction false} OneMoreVisit(su: Setup, held: Option<Stored>, visits: seq<Visit>, v: Visit)
    ensures var p := PassOf(su, After(su, held, visits), v);
            && After(su, held, visits + [v]) == p.after
            && Attempts(su, held, visits + [v]) == Attempts(su, held, visits) + AttemptIn(p.events)
  {
    assert (visits + [v])[..|visits + [v]| - 1] == visits;
  }

  predicate Repeats(a: Event) {
    a.Attempted? && a.carried.bytes == [1] && !Counted(a) && !a.persisted
  }

  /** A visit that leaves what is held as it is, and resends the cached byte once. */
  ghost predicate Loops(su: Setup, held: Option<Stored>, v: Visit) {
    var p := PassOf(su, held, v);
    p.after == held && |AttemptIn(p.events)| == 1 && Repeats(AttemptIn(p.events)[0])
  }

  lemma RefusedVisitLoops(height: int, close: int, answer: SendError)
    requires 0 < height < close && (IsEcho(answer) || Ends(answer))
    ensures Loops(OpenSetup(close), Some(Decoded(CACHED)), RefusedVisit(height, answer))
  {
    VisitSends(OpenSetup(close), Some(Decoded(CACHED)), RefusedVisit(height, answer));
  }

  ghost predicate AllRepeat(a: seq<Event>, n: nat) {
    |a| == n && forall i :: 0 <= i < n ==> Repeats(a[i])
  }

  lemma LoopsOneMore(su: Setup, held: Option<Stored>, visits: seq<Visit>, v: Visit)
    requires After(su, held, visits) == held && AllRepeat(Attempts(su, held, visits), |visits|) && Loops(su, held, v)
    ensures After(su, held, visits + [v]) == held && AllRepeat(Attempts(su, held, visits + [v]), |visits| + 1)
  {
    OneMoreVisit(su, held, visits, v);
  }

  lemma {:induction false} LoopsGoOn(su: Setup, held: Option<Stored>, visits: seq<Visit>)
    requires forall i :: 0 <= i < |visits| ==> Loops(su, held, visits[i])
    ensures After(su, held, visits) == held && AllRepeat(Attempts(su, held, visits), |visits|)
  {
    if visits != [] {
      var n := |visits| - 1;
      LoopsGoOn(su, held, visits[..n]);
      LoopsOneMore(su, held, visits[..n], visits[n]);
      assert visits == visits[..n] + [visits[n]];
    }
  }

  /**
   Without a write that is taken there is no bound: a node that holds the transaction and refused
   puts, or an answer that ends the verification and refused deletes, resend one transaction at
   every block.
   */
  lemma RefusedWritesResendForever(n: nat, close: int, answer: SendError)
    requires n < close && (IsEcho(answer) || Ends(answer))
    ensures After(OpenSetup(close), Some(Decoded(CACHED)), RefusedWrites(n, answer)) == Some(Decoded(CACHED))
    ensures AllRepeat(Attempts(OpenSetup(close), Some(Decoded(CACHED)), RefusedWrites(n, answer)), n)
  {
    RefusedWritesAre(n, answer);
    forall i | 0 <= i < n ensures Loops(OpenSetup(close), Some(Decoded(CACHED)), RefusedWrites(n, answer)[i]) {
      RefusedVisitLoops(i + 1, close, answer);
    }
    LoopsGoOn(OpenSetup(close), Some(Decoded(CACHED)), RefusedWrites(n, answer));
  }

  /** What the store may refuse during a run: puts, deletes, both or neither. */
  ghost predicate StoreRefuses(visits: seq<Visit>, puts: bool, deletes: bool) {
    forall i :: 0 <= i < |visits| ==> (puts || visits[i].ans.persisted) && (deletes || visits[i].ans.deleted)
  }

  /** No four uncounted attempts in a row carry one and the same signed transaction, in any run at rising heights. */
  ghost predicate NeverFourInARow(puts: bool, deletes: bool) {
    forall su: Setup, e: Entry, visits, i: nat ::
      && Ascending(visits) && StartsAbove(visits, Max(0, e.lastAttemptHeight)) && StoreRefuses(visits, puts, deletes)
      ==> !FourInARow(Attempts(su, Some(Decoded(e)), visits), i)
  }

  predicate FourInARow(a: seq<Event>, i: nat)
    requires forall k :: 0 <= k < |a| ==> a[k].Attempted?
  {
    && i + 3 < |a| && a[i].carried.bytes != []
    && forall k :: i <= k <= i + 3 ==> !Counted(a[k]) && a[k].carried.bytes == a[i].carried.bytes
  }

  /** Every attempt but the last was written back, and the last too if the entry is still there. */
  ghost predicate WrittenBack(a: seq<Event>, held: Option<Stored>)
    requires forall k :: 0 <= k < |a| ==> a[k].Attempted?
  {
    forall k :: 0 <= k < |a| && (k < |a| - 1 || held.Some?) ==> a[k].persisted
  }

  lemma WrittenBackVisit(su: Setup, held: Option<Stored>, a: seq<Event>, v: Visit)
    requires forall k :: 0 <= k < |a| ==> a[k].Attempted?
    requires WrittenBack(a, held) && v.ans.persisted && v.ans.deleted
    ensures var p := PassOf(su, held, v);
            WrittenBack(a + AttemptIn(p.events), p.after)
  {
    var p := PassOf(su, held, v);
    VisitSends(su, held, v);
    PassShape(su, held, v);
    if !Sends(su, held, v) {
      assert a + AttemptIn(p.events) == a;
    }
  }

  /** With a store that takes every write, an attempt not written back ended the entry and is the last. */
  lemma {:induction false} UnwrittenIsLast(su: Setup, e: Entry, visits: seq<Visit>)
    requires StoreRefuses(visits, false, false)
    ensures WrittenBack(Attempts(su, Some(Decoded(e)), visits), After(su, Some(Decoded(e)), visits))
  {
    if visits != [] {
      var n := |visits| - 1;
      UnwrittenIsLast(su, e, visits[..n]);
      WrittenBackVisit(su, After(su, Some(Decoded(e)), visits[..n]), Attempts(su, Some(Decoded(e)), visits[..n]),
          visits[n]);
    }
  }

  lemma FourNeedARefusal(su: Setup, e: Entry, visits: seq<Visit>, i: nat)
    requires Ascending(visits) && StartsAbove(visits, Max(0, e.lastAttemptHeight)) && StoreRefuses(visits, false, false)
    ensures !FourInARow(Attempts(su, Some(Decoded(e)), visits), i)
  {
    var a := Attempts(su, Some(Decoded(e)), visits);
    if i + 3 < |a| && !Counted(a[i]) && !Counted(a[i + 1]) && !Counted(a[i + 2]) {
      AtMostThreeInARow(su, e, visits, Max(0, e.lastAttemptHeight), i);
      UnwrittenIsLast(su, e, visits);
      assert a[i + 2].persisted;
    }
  }

  lemma FourAfterRefusals(answer: SendError)
    requires IsEcho(answer) || Ends(answer)
    ensures !NeverFourInARow(IsEcho(answer), Ends(answer))
  {
    var visits := RefusedWrites(4, answer);
    RefusedWritesAre(4, answer);
    RefusedWritesResendForever(4, 5, answer);
    assert FourInARow(Attempts(OpenSetup(5), Some(Decoded(CACHED)), visits), 0);
    assert StoreRefuses(visits, IsEcho(answer), Ends(answer));
  }

  lemma MoreRefusals(puts: bool, deletes: bool)
    requires NeverFourInARow(puts, deletes)
    ensures NeverFourInARow(false, deletes) && NeverFourInARow(puts, false)
  {
    forall su: Setup, e: Entry, visits, i: nat
      | Ascending(visits) && StartsAbove(visits, Max(0, e.lastAttemptHeight))
        && (StoreRefuses(visits, false, deletes) || StoreRefuses(visits, puts, false))
      ensures !FourInARow(Attempts(su, Some(Decoded(e)), visits), i)
    {
      assert StoreRefuses(visits, puts, deletes);
    }
  }

  /**
   The bound of three holds over all runs at rising heights if and only if the store refuses
   neither puts nor deletes.
   */
  lemma ThreeIsTheBoundExactlyWhenWritesWork(puts: bool, deletes: bool)
    ensures NeverFourInARow(puts, deletes) <==> !puts && !deletes
  {
    if !puts && !deletes {
      forall su: Setup, e: Entry, visits, i: nat
        | Ascending(visits) && StartsAbove(visits, Max(0, e.lastAttemptHeight)) && StoreRefuses(visits, false, false)
        ensures !FourInARow(Attempts(su, Some(Decoded(e)), visits), i)
      {
        FourNeedARefusal(su, e, visits, i);
      }
    } else {
      FourAfterRefusals(if puts then AlreadyQueued else NotRequired);
      if NeverFourInARow(puts, deletes) {
        MoreRefusals(puts, deletes);
      }
    }
  }

  /** The bytes and their two deadlines: the submission's, one resend's, or none of the three. */
  ghost predicate FromOneTransaction(held: Option<Stored>, e: Entry, visits: seq<Visit>) {
    held.Some? ==>
      && held.value.Decoded?
      && var p := held.value.entry.Payload();
         p == e.Payload() || p == NO_PAYLOAD || exists i :: 0 <= i < |visits| && visits[i].ans.send.sent == p
  }

  lemma {:induction false} PayloadComesFromOneTransaction(su: Setup, e: Entry, visits: seq<Visit>)
    ensures FromOneTransaction(After(su, Some(Decoded(e)), visits), e, visits)
  {
    if visits != [] {
      var n := |visits| - 1;
      PayloadComesFromOneTransaction(su, e, visits[..n]);
      var held := After(su, Some(Decoded(e)), visits[..n]);
      var after := After(su, Some(Decoded(e)), visits);
      VisitSends(su, held, visits[n]);
      if after.Some? {
        var p := after.value.entry.Payload();
        if p == held.value.entry.Payload() {
          if i :| 0 <= i < n && visits[..n][i].ans.send.sent == p {
            assert visits[i].ans.send.sent == p;
          }
        } else {
          assert p == NO_PAYLOAD || visits[n].ans.send.sent == p;
        }
      }
    }
  }
}

/**
 The inclusion reconciler of `miner/inclusion_reconciler.go`: what one pass at one
 block height does to the pending claim and proof entries of one group (one
 supplier, one session end).

 The chain, the store and the transaction client are the environment. Their
 answers are parameters: any combination of them is one possible pass.
 */
module InclusionReconciler {
  import opened Common

  newtype byte = b: int | 0 <= b < 256
  type Bytes = seq<byte>
  type SessionID = string

  // An errored attempt this many blocks past the last counted one drops the cached bytes.
  const REINJECTION_STALL_BLOCKS := 3

  /******* Data *******/

  datatype Phase = Claim | Proof

  /** `MaxRebroadcasts` (absent: no cap) and `RebroadcastSafetyBlocks`, after normalisation. */
  datatype Config = Config(cap: Option<int>, safety: int, hasResubmitter: bool) {
    predicate Valid() {
      (cap.Some? ==> cap.value >= 0) && safety >= 0
    }
  }

  /** The persisted per-session record. Heights and the two signed deadlines are plain integers. */
  datatype Entry = Entry(
    msg: Bytes, submitHeight: int, txHash: string, origTxHash: string, serviceID: string,
    rebroadcasts: int, timeoutSeconds: int, timeoutRegime: string,
    lastAttemptHeight: int, signedBytes: Bytes, signedTimeoutAt: int, signedTimeoutHeight: int)
  {
    function Payload(): SignedPayload {
      SignedPayload(signedBytes, signedTimeoutAt, signedTimeoutHeight)
    }
  }

  datatype SignedPayload = SignedPayload(bytes: Bytes, timeoutAt: int, timeoutHeight: int)

  const NO_PAYLOAD := SignedPayload([], 0, 0)

  /** What the store holds under a session: a payload that decodes, or one that does not. */
  datatype Stored = Corrupt | Decoded(entry: Entry)

  /** When the window closes, and the last height a failed query is asked again after that. */
  datatype Window = Window(close: int, pollRetryUntil: Option<int>)

  datatype ProofState = Unknown | Pending | Validated | Refused

  /** The chain's answer for the whole supplier, or the failure of the read. */
  datatype ChainView = QueryFailed | Claims(claims: map<SessionID, ProofState>)

  /** The same answer as seen by one session. */
  datatype Sighting = QueryError | NotThere | There(state: ProofState)

  /** How the resubmitter's error is classified. The classes are disjoint. */
  datatype SendError =
    | NoError
    | Saturated         // no permit: never signed, never sent
    | AlreadyQueued     // the node holds these exact bytes
    | NotRequired       // the chain says no proof is required
    | AlreadyJudged     // the chain already validated or rejected the proof
    | BytesPreserved    // failed, but the transaction was not judged invalid
    | TxRejected        // refused: the same bytes are refused again

  datatype SendAnswer = SendAnswer(error: SendError, newHash: string, sent: SignedPayload)

  /** Everything the environment answers while one pass handles one session. */
  datatype Answer = Answer(
    recorded: bool,    // recording a found outcome succeeded
    deleted: bool,     // the store's delete succeeded
    inBudget: bool,    // the group's budget is not spent when the resend is about to leave
    send: SendAnswer,
    persisted: bool)   // the store's put succeeded

  datatype Outcome = OnChainFound | OnChainMissing | PollError | OnChainRejected

  /**
   What an observer of one session sees a pass do. An attempt shows the signed transaction the
   resubmitter was given, what it answered, and whether the entry was written back.
   */
  datatype Event =
    | Recorded(outcome: Outcome, atHeight: int)
    | Attempted(height: int, carried: SignedPayload, answer: SendAnswer, persisted: bool)
    | Cleared
    | ClearFailed

  /******* Pure decisions *******/

  /** What the constructor makes of the configured values. */
  function Normalised(cap: Option<int>, safety: int, hasResubmitter: bool): (c: Config)
    ensures c.Valid()
    ensures c.cap.None? <==> cap.None?
    ensures cap.Some? ==> c.cap == Some(if cap.value >= 0 then cap.value else 0)
    ensures c.safety == if safety >= 0 then safety else 0
  {
    Config(if cap.Some? && cap.value < 0 then Some(0) else cap, Max(0, safety), hasResubmitter)
  }

  datatype Verdict = Missing | Found | Rejected

  function ClaimPhaseVerdict(seen: Sighting): Verdict {
    if seen.There? then Found else Missing
  }

  function ProofPhaseVerdict(seen: Sighting): Verdict {
    match seen
    case There(Validated) => Found
    case There(Refused) => Rejected
    case _ => Missing
  }

  function VerdictOf(phase: Phase, seen: Sighting): Verdict {
    if phase.Claim? then ClaimPhaseVerdict(seen) else ProofPhaseVerdict(seen)
  }

  // -- The same, by what is on chain --

  /** On chain, as far as the phase asks: the claim is there, whatever its proof; or the proof is validated. */
  predicate Landed(phase: Phase, seen: Sighting) {
    match phase
    case Claim => seen.There?
    case Proof => seen == There(Validated)
  }

  /** On chain and refused, which only a proof can be. */
  predicate TurnedDown(phase: Phase, seen: Sighting) {
    phase.Proof? && seen == There(Refused)
  }

  /** The chain answered, and there is nothing yet that the phase asks for. */
  predicate StillMissing(phase: Phase, seen: Sighting) {
    match phase
    case Claim => seen == NotThere
    case Proof => seen == NotThere || seen == There(Pending) || seen == There(Unknown)
  }

  predicate CanRebroadcast(cfg: Config, e: Entry, height: int, close: int) {
    && !(cfg.cap.Some? && e.rebroadcasts >= cfg.cap.value)
    && e.submitHeight < height < close - cfg.safety
  }

  predicate NothingWasSpent(err: SendError) {
    err.Saturated? || err.AlreadyQueued?
  }

  predicate RejectionPreservesBytes(err: SendError) {
    err.NoError? || err.AlreadyQueued? || err.BytesPreserved? || err.AlreadyJudged? || err.Saturated?
  }

  /** The height re-injection is measured from: the last counted attempt, or the submission. */
  function StuckSince(e: Entry): int {
    if e.lastAttemptHeight == 0 then e.submitHeight else e.lastAttemptHeight
  }

  predicate DropsBytes(e: Entry, height: int, err: SendError) {
    && !err.NoError?
    && (|| (!NothingWasSpent(err) && !RejectionPreservesBytes(err))
        || height - StuckSince(e) >= REINJECTION_STALL_BLOCKS)
  }

  predicate EndsVerification(err: SendError) {
    err.NotRequired? || err.AlreadyJudged?
  }

  /** The signed transaction kept after an attempt. */
  function KeptPayload(e: Entry, height: int, s: SendAnswer): SignedPayload {
    if DropsBytes(e, height, s.error) then NO_PAYLOAD
    else if |s.sent.bytes| > 0 then s.sent
    else e.Payload()
  }

  function WithPayload(e: Entry, p: SignedPayload): Entry {
    e.(signedBytes := p.bytes, signedTimeoutAt := p.timeoutAt, signedTimeoutHeight := p.timeoutHeight)
  }

  /** The entry an attempt writes back. */
  function Resent(e: Entry, height: int, s: SendAnswer): Entry {
    var kept := WithPayload(e, KeptPayload(e, height, s));
    var counted := if NothingWasSpent(s.error) then kept
                   else kept.(rebroadcasts := e.rebroadcasts + 1, lastAttemptHeight := height);
    if s.error.NoError? && s.newHash != "" then counted.(txHash := s.newHash) else counted
  }

  /******* One session in one pass *******/

  datatype EntryPass = EntryPass(after: Option<Stored>, events: seq<Event>)

  /** What the store holds for a session now, and everything done to it so far. */
  datatype Session = Session(stored: Option<Stored>, history: seq<Event>) {
    function Advanced(p: EntryPass): (r: Session)
      ensures p.events == [] ==> r == Session(p.after, history)
      ensures |p.events| == 2 ==> r == Session(p.after, history + [p.events[0]] + [p.events[1]])
    {
      assert |p.events| == 2 ==> history + [p.events[0]] + [p.events[1]] == history + p.events;
      Session(p.after, history + p.events)
    }
  }

  function ClearPass(stored: Stored, before: seq<Event>, ans: Answer): EntryPass {
    var last := if ans.deleted then Cleared else ClearFailed;
    EntryPass(if ans.deleted then None else Some(stored), if before == [] then [last] else before + [last])
  }

  function ResendPass(cfg: Config, e: Entry, height: int, ans: Answer): EntryPass {
    if !cfg.hasResubmitter || !ans.inBudget then EntryPass(Some(Decoded(e)), [])
    else
      var ends := EndsVerification(ans.send.error);
      var attempt := Attempted(height, e.Payload(), ans.send, !ends && ans.persisted);
      if ends then ClearPass(Decoded(e), [attempt], ans)
      else EntryPass(Some(Decoded(if ans.persisted then Resent(e, height, ans.send) else e)), [attempt])
  }

  function SettlePass(stored: Stored, outcome: Outcome, height: int, ans: Answer): EntryPass {
    ClearPass(stored, [Recorded(outcome, height)], ans)
  }

  function MissingOpenPass(cfg: Config, e: Entry, height: int, close: int, ans: Answer): EntryPass {
    if CanRebroadcast(cfg, e, height, close) then ResendPass(cfg, e, height, ans)
    else EntryPass(Some(Decoded(e)), [])
  }

  predicate AsksAgain(win: Window, height: int) {
    height > win.close && win.pollRetryUntil.Some? && height <= win.pollRetryUntil.value
  }

  /** One pass over one session whose group was listed, had its window, and was reached. */
  function PassEntry(cfg: Config, phase: Phase, win: Window, height: int, seen: Sighting, stored: Stored, ans: Answer)
    : EntryPass
  {
    if seen.QueryError? && AsksAgain(win, height) then EntryPass(Some(stored), [])
    else match stored
      case Corrupt => ClearPass(stored, [], ans)
      case Decoded(e) =>
        match VerdictOf(phase, seen)
        case Found =>
          if ans.recorded then SettlePass(stored, OnChainFound, height, ans) else EntryPass(Some(stored), [])
        case Rejected => SettlePass(stored, OnChainRejected, height, ans)
        case Missing =>
          if height <= win.close then MissingOpenPass(cfg, e, height, win.close, ans)
          else SettlePass(stored, if seen.QueryError? then PollError else OnChainMissing, 0, ans)
  }

  /** An outcome, and the clear that follows it. */
  function Settling(outcome: Outcome, at: int, deleted: bool): seq<Event> {
    [Recorded(outcome, at), if deleted then Cleared else ClearFailed]
  }

  /** The height is one at which a failed query past the close is given up on. */
  predicate PastRetrying(win: Window, height: int) {
    height > win.close && (win.pollRetryUntil.Some? ==> height > win.pollRetryUntil.value)
  }

  /** What a visit does to an entry that decodes, by what it saw on chain: it settles exactly on these sightings. */
  ghost predicate SettledAsSeen(phase: Phase, win: Window, height: int, seen: Sighting, ans: Answer, news: seq<Event>) {
    && (news == Settling(OnChainFound, height, ans.deleted) <==> Landed(phase, seen) && ans.recorded)
    && (news == Settling(OnChainRejected, height, ans.deleted) <==> TurnedDown(phase, seen))
    && (news == Settling(OnChainMissing, 0, ans.deleted) <==> StillMissing(phase, seen) && height > win.close)
    && (news == Settling(PollError, 0, ans.deleted) <==> seen == QueryError && PastRetrying(win, height))
    && ((exists e :: e in news && e.Recorded?) <==>
          || (Landed(phase, seen) && ans.recorded)
          || TurnedDown(phase, seen)
          || (StillMissing(phase, seen) && height > win.close)
          || (seen == QueryError && PastRetrying(win, height)))
  }

  lemma PassSettlesAsSeen(cfg: Config, phase: Phase, win: Window, height: int, seen: Sighting, e: Entry, ans: Answer)
    ensures SettledAsSeen(phase, win, height, seen, ans,
                          PassEntry(cfg, phase, win, height, seen, Decoded(e), ans).events)
  {
    var news := PassEntry(cfg, phase, win, height, seen, Decoded(e), ans).events;
    if news != [] && news[0].Recorded? {
      assert news[0] in news;
    }
  }

  function SightingOf(view: ChainView, id: SessionID): (seen: Sighting)
    ensures seen == QueryError <==> view == QueryFailed
    ensures seen == NotThere <==> view.Claims? && id !in view.claims
    ensures seen.There? ==> view.Claims? && id in view.claims && seen.state == view.claims[id]
  {
    match view
    case QueryFailed => QueryError
    case Claims(m) => if id in m then There(m[id]) else NotThere
  }

  /** The sessions the answered loop gets to before the group's budget is spent. */
  function ReachedOf(order: seq<SessionID>, budget: nat): (r: seq<SessionID>)
    ensures r <= order && (r == order || |r| == budget)
  {
    if budget < |order| then order[..budget] else order
  }

  /******* The group *******/

  type Sessions = map<SessionID, Session>

  /** `order` walks exactly the pending sessions, each once, and every one has its answers. */
  ghost predicate Walks(order: seq<SessionID>, s: Sessions, answers: map<SessionID, Answer>) {
    && (forall i, j :: 0 <= i < j < |order| ==> order[i] != order[j])
    && (forall id :: id in order <==> id in s && s[id].stored.Some?)
    && (forall id :: id in order ==> id in answers)
  }

  /** The whole group after the sessions of `done` took one pass each, independently. */
  ghost function GroupAfter(cfg: Config, phase: Phase, win: Window, height: int, view: ChainView, s: Sessions,
                            done: seq<SessionID>, answers: map<SessionID, Answer>): Sessions
    requires forall id :: id in done ==> id in s && s[id].stored.Some? && id in answers
  {
    map id | id in s ::
      if id in done then
        s[id].Advanced(PassEntry(cfg, phase, win, height, SightingOf(view, id), s[id].stored.value, answers[id]))
      else s[id]
  }

  /** Handling one more session changes that session alone. */
  lemma GroupAfterOneMore(cfg: Config, phase: Phase, win: Window, height: int, view: ChainView, s: Sessions,
                          done: seq<SessionID>, id: SessionID, answers: map<SessionID, Answer>)
    requires forall x :: x in done + [id] ==> x in s && s[x].stored.Some? && x in answers
    requires id !in done
    ensures GroupAfter(cfg, phase, win, height, view, s, done, answers)[id :=
              s[id].Advanced(PassEntry(cfg, phase, win, height, SightingOf(view, id), s[id].stored.value, answers[id]))]
            == GroupAfter(cfg, phase, win, height, view, s, done + [id], answers)
  {
  }

  /** Every session handled is settled as seen. */
  ghost predicate GroupSettled(phase: Phase, win: Window, height: int, view: ChainView, s: Sessions, after: Sessions,
                               done: seq<SessionID>, answers: map<SessionID, Answer>) {
    forall id :: id in done && id in s && s[id].stored.Some? && s[id].stored.value.Decoded? ==>
      && id in answers && id in after && s[id].history <= after[id].history
      && SettledAsSeen(phase, win, height, SightingOf(view, id), answers[id], after[id].history[|s[id].history|..])
  }

  lemma GroupSettlesAsSeen(cfg: Config, phase: Phase, win: Window, height: int, view: ChainView, s: Sessions,
                           done: seq<SessionID>, answers: map<SessionID, Answer>)
    requires forall id :: id in done ==> id in s && s[id].stored.Some? && id in answers
    ensures GroupSettled(phase, win, height, view, s, GroupAfter(cfg, phase, win, height, view, s, done, answers), done,
                         answers)
  {
    var after := GroupAfter(cfg, phase, win, height, view, s, done, answers);
    forall id | id in done && s[id].stored.value.Decoded?
      ensures && id in after && s[id].history <= after[id].history
              && SettledAsSeen(phase, win, height, SightingOf(view, id), answers[id],
                               after[id].history[|s[id].history|..])
    {
      var seen, e := SightingOf(view, id), s[id].stored.value.entry;
      var news := PassEntry(cfg, phase, win, height, seen, Decoded(e), answers[id]).events;
      PassSettlesAsSeen(cfg, phase, win, height, seen, e, answers[id]);
      assert after[id].history == s[id].history + news;
      assert after[id].history[|s[id].history|..] == news;
    }
  }

  /** One group's sessions: the store's pending entries and what was done to each. */
  class GroupReconciler {
    const cfg: Config
    var sessions: Sessions

    constructor (cfg: Config, pending: map<SessionID, Stored>)
      ensures this.cfg == cfg
      ensures sessions == map id | id in pending :: Session(Some(pending[id]), [])
    {
      this.cfg := cfg;
      this.sessions := map id | id in pending :: Session(Some(pending[id]), []);
    }

    method Note(id: SessionID, e: Event)
      requires id in sessions
      modifies this`sessions
      ensures sessions == old(sessions)[id := Session(old(sessions)[id].stored, old(sessions)[id].history + [e])]
    {
      sessions := sessions[id := sessions[id].(history := sessions[id].history + [e])];
    }

    /** Removes a settled entry; a refused delete leaves it in place. */
    method Clear(id: SessionID, ans: Answer)
      requires id in sessions
      modifies this`sessions
      ensures sessions == old(sessions)[id :=
        if ans.deleted then Session(None, old(sessions)[id].history + [Cleared])
        else Session(old(sessions)[id].stored, old(sessions)[id].history + [ClearFailed])]
    {
      if ans.deleted {
        sessions := sessions[id := sessions[id].(stored := None)];
        Note(id, Cleared);
      } else {
        Note(id, ClearFailed);
      }
    }

    /**
     The signed bytes and both deadlines after an attempt: dropped together on a refusal, or on any
     error three blocks past the last counted attempt; otherwise replaced together or kept.
     */
    static method KeepOrDropBytes(stored: Entry, height: int, send: SendAnswer) returns (entry: Entry)
      ensures var since := if stored.lastAttemptHeight == 0 then stored.submitHeight else stored.lastAttemptHeight;
              entry.Payload() ==
                match send.error
                case NoError => if send.sent.bytes == [] then stored.Payload() else send.sent
                case TxRejected => NO_PAYLOAD
                case NotRequired => NO_PAYLOAD
                case _ =>
                  if height - since >= 3 then NO_PAYLOAD
                  else if send.sent.bytes == [] then stored.Payload() else send.sent
      ensures entry == WithPayload(stored, entry.Payload())
    {
      entry := stored;
      var err := send.error;
      var stuckSince := entry.lastAttemptHeight;
      if stuckSince == 0 {
        stuckSince := entry.submitHeight;
      }
      var stuckTooLong := height - stuckSince >= REINJECTION_STALL_BLOCKS;
      if (!err.NoError? && !NothingWasSpent(err) && !RejectionPreservesBytes(err)) || (!err.NoError? && stuckTooLong) {
        entry := entry.(signedBytes := [], signedTimeoutAt := 0, signedTimeoutHeight := 0);
      } else if |send.sent.bytes| > 0 {
        entry := entry.(signedBytes := send.sent.bytes, signedTimeoutAt := send.sent.timeoutAt,
                        signedTimeoutHeight := send.sent.timeoutHeight);
      }
    }

    /** Resends one stored message once. */
    method Rebroadcast(id: SessionID, stored: Entry, height: int, ans: Answer)
      requires id in sessions && sessions[id].stored == Some(Decoded(stored))
      modifies this`sessions
      ensures sessions == old(sessions)[id := old(sessions)[id].Advanced(ResendPass(cfg, stored, height, ans))]
    {
      if !cfg.hasResubmitter {
        return;
      }
      if !ans.inBudget {
        return;
      }
      var err := ans.send.error;
      var entry := KeepOrDropBytes(stored, height, ans.send);
      if err.NotRequired? || err.AlreadyJudged? {
        Note(id, Attempted(height, stored.Payload(), ans.send, false));
        Clear(id, ans);
        return;
      }
      if !NothingWasSpent(err) {
        entry := entry.(rebroadcasts := entry.rebroadcasts + 1, lastAttemptHeight := height);
      }
      if err.NoError? && ans.send.newHash != "" {
        entry := entry.(txHash := ans.send.newHash);
      }
      if ans.persisted {
        sessions := sessions[id := sessions[id].(stored := Some(Decoded(entry)))];
      }
      Note(id, Attempted(height, stored.Payload(), ans.send, ans.persisted));
    }

    method BlindResendOne(phase: Phase, win: Window, height: int, id: SessionID, ans: Answer)
      requires id in sessions && sessions[id].stored.Some? && height <= win.close
      modifies this`sessions
      ensures sessions == old(sessions)[id := old(sessions)[id].Advanced(
        PassEntry(cfg, phase, win, height, QueryError, old(sessions)[id].stored.value, ans))]
    {
      match sessions[id].stored.value {
        case Corrupt => Clear(id, ans);
        case Decoded(entry) =>
          if CanRebroadcast(cfg, entry, height, win.close) {
            Rebroadcast(id, entry, height, ans);
          }
      }
    }

    /** The degraded path: the query failed with the window open, so resend without an answer. */
    method BlindResend(phase: Phase, win: Window, height: int, order: seq<SessionID>, answers: map<SessionID, Answer>)
      requires Walks(order, sessions, answers) && height <= win.close
      modifies this`sessions
      ensures sessions == GroupAfter(cfg, phase, win, height, QueryFailed, old(sessions), order, answers)
    {
      for i := 0 to |order|
        invariant sessions == GroupAfter(cfg, phase, win, height, QueryFailed, old(sessions), order[..i], answers)
      {
        var id := order[i];
        assert order[..i + 1] == order[..i] + [id];
        GroupAfterOneMore(cfg, phase, win, height, QueryFailed, old(sessions), order[..i], id, answers);
        BlindResendOne(phase, win, height, id, answers[id]);
      }
      assert order[..|order|] == order;
    }

    method RecordPollError(phase: Phase, win: Window, height: int, id: SessionID, ans: Answer)
      requires id in sessions && sessions[id].stored.Some? && PastRetrying(win, height)
      modifies this`sessions
      ensures sessions == old(sessions)[id := old(sessions)[id].Advanced(
        PassEntry(cfg, phase, win, height, QueryError, old(sessions)[id].stored.value, ans))]
    {
      if sessions[id].stored.value.Decoded? {
        Note(id, Recorded(PollError, 0));
      }
      Clear(id, ans);
    }

    /** The window closed and the chain cannot be asked any more. */
    method RecordPollErrors(phase: Phase, win: Window, height: int, order: seq<SessionID>, answers: map<SessionID,
        Answer>)
      requires Walks(order, sessions, answers) && PastRetrying(win, height)
      modifies this`sessions
      ensures sessions == GroupAfter(cfg, phase, win, height, QueryFailed, old(sessions), order, answers)
    {
      for i := 0 to |order|
        invariant sessions == GroupAfter(cfg, phase, win, height, QueryFailed, old(sessions), order[..i], answers)
      {
        var id := order[i];
        assert order[..i + 1] == order[..i] + [id];
        GroupAfterOneMore(cfg, phase, win, height, QueryFailed, old(sessions), order[..i], id, answers);
        RecordPollError(phase, win, height, id, answers[id]);
      }
      assert order[..|order|] == order;
    }

    /** The body of the answered loop for one session. */
    method ReconcileOne(phase: Phase, win: Window, height: int, seen: Sighting, id: SessionID, ans: Answer)
      requires id in sessions && sessions[id].stored.Some? && !seen.QueryError?
      modifies this`sessions
      ensures sessions == old(sessions)[id := old(sessions)[id].Advanced(
        PassEntry(cfg, phase, win, height, seen, old(sessions)[id].stored.value, ans))]
    {
      if sessions[id].stored.value.Corrupt? {
        Clear(id, ans);
        return;
      }
      var entry := sessions[id].stored.value.entry;
      if VerdictOf(phase, seen).Found? {
        if !ans.recorded {
          return;
        }
        Note(id, Recorded(OnChainFound, height));
        Clear(id, ans);
        return;
      }
      if VerdictOf(phase, seen).Rejected? {
        Note(id, Recorded(OnChainRejected, height));
        Clear(id, ans);
        return;
      }
      if height > win.close {
        Note(id, Recorded(OnChainMissing, 0));
        Clear(id, ans);
        return;
      }
      if CanRebroadcast(cfg, entry, height, win.close) {
        Rebroadcast(id, entry, height, ans);
      }
    }

    /** Walks the sessions until the budget is spent. */
    method WalkAnswered(phase: Phase, win: Window, height: int, claims: map<SessionID, ProofState>,
                        order: seq<SessionID>, budget: nat, answers: map<SessionID, Answer>)
      requires Walks(order, sessions, answers)
      modifies this`sessions
      ensures sessions == GroupAfter(cfg, phase, win, height, Claims(claims), old(sessions), ReachedOf(order, budget),
              answers)
    {
      var i := 0;
      while i < |order| && i < budget
        invariant 0 <= i <= |order| && i <= budget
        invariant sessions == GroupAfter(cfg, phase, win, height, Claims(claims), old(sessions), order[..i], answers)
      {
        var id := order[i];
        assert order[..i + 1] == order[..i] + [id];
        GroupAfterOneMore(cfg, phase, win, height, Claims(claims), old(sessions), order[..i], id, answers);
        ReconcileOne(phase, win, height, SightingOf(Claims(claims), id), id, answers[id]);
        i := i + 1;
      }
    }

    /** The chain answered: settle, keep or resend each session until the budget is spent. */
    method ReconcileAnswered(phase: Phase, win: Window, height: int, claims: map<SessionID, ProofState>,
                             order: seq<SessionID>, budget: nat, answers: map<SessionID, Answer>)
      requires Walks(order, sessions, answers)
      modifies this`sessions
      ensures sessions == GroupAfter(cfg, phase, win, height, Claims(claims), old(sessions), ReachedOf(order, budget),
              answers)
      ensures GroupSettled(phase, win, height, Claims(claims), old(sessions), sessions, ReachedOf(order, budget),
              answers)
    {
      GroupSettlesAsSeen(cfg, phase, win, height, Claims(claims), sessions, ReachedOf(order, budget), answers);
      WalkAnswered(phase, win, height, claims, order, budget, answers);
    }

    /**
     One group in one pass. `listed` and `win` say whether the listing and the window
     parameters were readable; `order` is the order the pending map is walked in and
     `budget` how many sessions of the answered loop start before the budget is spent.
     */
    method ReconcileGroup(phase: Phase, listed: bool, win: Option<Window>, height: int, view: ChainView,
                          order: seq<SessionID>, budget: nat, answers: map<SessionID, Answer>)
      requires Walks(order, sessions, answers)
      modifies this`sessions
      ensures !listed || win.None? ==> sessions == old(sessions)
      ensures listed && win.Some? ==>
        sessions == GroupAfter(cfg, phase, win.value, height, view, old(sessions),
                               if view.QueryFailed? then order else ReachedOf(order, budget), answers)
      ensures listed && win.Some? ==>
        GroupSettled(phase, win.value, height, view, old(sessions), sessions,
                     if view.QueryFailed? then order else ReachedOf(order, budget), answers)
    {
      if win.Some? {
        GroupSettlesAsSeen(cfg, phase, win.value, height, view, sessions,
                           if view.QueryFailed? then order else ReachedOf(order, budget), answers);
      }
      if !listed {
        return;
      }
      if order == [] {
        return;
      }
      if win.None? {
        return;
      }
      var window := win.value;
      var windowClosed := height > window.close;
      match view {
        case QueryFailed =>
          if !windowClosed {
            BlindResend(phase, window, height, order, answers);
            return;
          }
          if window.pollRetryUntil.Some? && height <= window.pollRetryUntil.value {
            return;
          }
          RecordPollErrors(phase, window, height, order, answers);
        case Claims(claims) =>
          ReconcileAnswered(phase, window, height, claims, order, budget, answers);
      }
    }
  }
}

/**
 Passes of several replicas over one pending entry at once: a pass lists the entry, and only
 later writes back or deletes what it then found, so another pass may have written meanwhile.
 What each pass does is what `InclusionReconciler.PassEntry` says of the copy it listed.
 */
module OverlappingPasses {
  import opened Common
  import opened InclusionReconciler
  import opened ReconcilerRuns

  type Replica = nat

  // `copies` is what each pass under way listed; the rest is history: the attempts, how many were
  // counted, how many outcomes were recorded, and whether a pass has cleared the entry.
  datatype State = State(
    stored: Option<Stored>, copies: map<Replica, Stored>, attempts: seq<Event>, counted: nat, recorded: nat,
        cleared: bool)

  datatype Move =
    | List(r: Replica)
    | Act(r: Replica, v: Visit)
    | Crash(r: Replica)

  /** Whether the visit writes the entry back. */
  predicate Writes(su: Setup, copy: Stored, v: Visit) {
    Sends(su, Some(copy), v) && AttemptOf(copy.entry, v).persisted
  }

  /** Whether the visit records an outcome. */
  predicate Records(su: Setup, copy: Stored, v: Visit) {
    var events := PassOf(su, Some(copy), v).events;
    events != [] && events[0].Recorded?
  }

  function Acted(su: Setup, s: State, copy: Stored, v: Visit): State {
    var p := PassOf(su, Some(copy), v);
    s.(stored := if p.after.None? then None else if Writes(su, copy, v) then p.after else s.stored,
       attempts := if Sends(su, Some(copy), v) then s.attempts + [AttemptOf(copy.entry, v)] else s.attempts,
       counted := if Sends(su, Some(copy), v) && Counted(AttemptOf(copy.entry, v)) then s.counted + 1 else s.counted,
       recorded := if Records(su, copy, v) then s.recorded + 1 else s.recorded,
       cleared := s.cleared || p.after.None?)
  }

  function Step(su: Setup, s: State, m: Move): State {
    match m
    case List(r) => if r in s.copies || s.stored.None? then s else s.(copies := s.copies[r := s.stored.value])
    case Act(r, v) => if r !in s.copies then s else Acted(su, s, s.copies[r], v).(copies := s.copies - {r})
    case Crash(r) => s.(copies := s.copies - {r})
  }

  function Run(su: Setup, s: State, moves: seq<Move>): State {
    if moves == [] then s else Step(su, Run(su, s, moves[..|moves| - 1]), moves[|moves| - 1])
  }

  function Init(e: Entry): State {
    State(Some(Decoded(e)), map[], [], 0, 0, false)
  }

  /**
   What a pass's acting on its copy does, whatever was written since it listed: a delete that worked
   empties the store, a resend written back replaces what is there, and anything else leaves it;
   every resend is an attempt of that copy. A replica that crashes only forgets its copy.
   */
  lemma OnlyWritesTouchTheStore(su: Setup, s: State, r: Replica, v: Visit)
    requires r in s.copies
    ensures var copy := s.copies[r];
            var t := Step(su, s, Act(r, v));
            && t.copies == s.copies - {r}
            && t.stored == (if After(su, Some(copy), [v]).None? then None
                            else if Sends(su, Some(copy), v) && v.ans.persisted && !Ends(v.ans.send.error)
                            then Some(Decoded(Resent(copy.entry, v.height, v.ans.send)))
                            else s.stored)
            && t.attempts == (if Sends(su, Some(copy), v) then s.attempts + [AttemptOf(copy.entry, v)] else s.attempts)
    ensures Step(su, s, Crash(r)) == s.(copies := s.copies - {r})
  {
    assert [v][..0] == [];
    assert After(su, Some(s.copies[r]), [v]) == PassOf(su, Some(s.copies[r]), v).after;
    VisitSends(su, Some(s.copies[r]), v);
  }

  // -- What survives any overlap --

  ghost predicate WindowInv(su: Setup, e: Entry, s: State) {
    && StillOf(s.stored, e)
    && (forall r :: r in s.copies ==> StillOf(Some(s.copies[r]), e))
    && (forall a :: a in s.attempts ==> a.Attempted? && e.submitHeight < a.height < su.win.close - su.cfg.safety)
  }

  lemma WindowStep(su: Setup, e: Entry, s: State, m: Move)
    requires WindowInv(su, e, s)
    ensures WindowInv(su, e, Step(su, s, m))
  {
    if m.Act? && m.r in s.copies {
      VisitSends(su, Some(s.copies[m.r]), m.v);
    }
  }

  /**
   However many passes overlap, every resend is strictly after the submission and strictly before
   the close less the margin.
   */
  lemma {:induction false} OverlappingAttemptsAreInsideTheWindow(su: Setup, e: Entry, moves: seq<Move>)
    ensures WindowInv(su, e, Run(su, Init(e), moves))
  {
    if moves != [] {
      OverlappingAttemptsAreInsideTheWindow(su, e, moves[..|moves| - 1]);
      WindowStep(su, e, Run(su, Init(e), moves[..|moves| - 1]), moves[|moves| - 1]);
    }
  }

  // -- And what does not --

  ghost predicate PutsKept(moves: seq<Move>) {
    forall i :: 0 <= i < |moves| && moves[i].Act? ==> moves[i].v.ans.persisted
  }

  /** At no moment are more than `n` passes between listing and acting. */
  ghost predicate OverlapAtMost(su: Setup, e: Entry, moves: seq<Move>, n: int) {
    forall k :: 0 <= k <= |moves| ==> |Run(su, Init(e), moves[..k]).copies| <= n
  }

  ghost predicate CapInv(su: Setup, e: Entry, s: State)
    requires su.cfg.cap.Some?
  {
    && s.counted <= Max(0, su.cfg.cap.value - e.rebroadcasts)
    && (s.stored.Some? ==> s.stored.value.Decoded? && e.rebroadcasts + s.counted == s.stored.value.entry.rebroadcasts)
    && (forall r :: r in s.copies ==> s.stored == Some(s.copies[r]))
  }

  lemma CapStep(su: Setup, e: Entry, s: State, m: Move)
    requires su.cfg.cap.Some? && CapInv(su, e, s) && |s.copies| <= 1
    requires m.Act? ==> m.v.ans.persisted
    ensures CapInv(su, e, Step(su, s, m))
  {
    if m.Act? && m.r in s.copies {
      VisitSends(su, Some(s.copies[m.r]), m.v);
      OnlyCopy(s.copies, m.r);
    }
  }

  lemma OnlyCopy(copies: map<Replica, Stored>, r: Replica)
    requires |copies| <= 1 && r in copies
    ensures copies - {r} == map[]
  {
    if x: Replica :| x in copies && x != r {
      assert |{x, r}| == 2;
      SmallerSet({x, r}, copies.Keys);
    }
  }

  lemma {:induction false} CapHoldsWithoutOverlap(su: Setup, e: Entry, moves: seq<Move>)
    requires su.cfg.cap.Some? && PutsKept(moves) && OverlapAtMost(su, e, moves, 1)
    ensures CapInv(su, e, Run(su, Init(e), moves))
  {
    if moves != [] {
      var n := |moves| - 1;
      var before := moves[..n];
      assert forall i :: 0 <= i < n ==> before[i] == moves[i];
      OverlapBefore(su, e, moves, 1);
      CapHoldsWithoutOverlap(su, e, before);
      CapStep(su, e, Run(su, Init(e), before), moves[n]);
    }
  }

  /** With writes that work, no entry is ever resent and counted more often than its cap leaves. */
  ghost predicate CapNeverExceeded(n: int) {
    forall su: Setup, e: Entry, moves :: su.cfg.cap.Some? && PutsKept(moves) && OverlapAtMost(su, e, moves, n) ==>
      Run(su, Init(e), moves).counted <= Max(0, su.cfg.cap.value - e.rebroadcasts)
  }

  /** A cap of one, and a resend that is sent and kept. */
  const SETUP := Setup(Config(Some(1), 0, true), Claim, Window(10, None))
  const ENTRY := Entry([], 0, "", "", "", 0, 0, "", 0, [], 0, 0)
  const VISIT := Visit(1, true, NotThere, Answer(true, true, true, SendAnswer(NoError, "", NO_PAYLOAD), true))

  /** Two passes list the entry before either acts. */
  const TWO_PASSES: seq<Move> := [List(0), List(1), Act(0, VISIT), Act(1, VISIT)]

  lemma VisitIsCounted(s: State, r: Replica)
    requires r in s.copies && s.copies[r] == Decoded(ENTRY)
    ensures Step(SETUP, s, Act(r, VISIT)).counted == s.counted + 1
    ensures Step(SETUP, s, Act(r, VISIT)).copies == s.copies - {r}
  {
    assert Sends(SETUP, Some(Decoded(ENTRY)), VISIT) && Counted(AttemptOf(ENTRY, VISIT));
  }

  lemma BothList()
    ensures Run(SETUP, Init(ENTRY), TWO_PASSES[..2]) ==
            State(Some(Decoded(ENTRY)), map[0 := Decoded(ENTRY), 1 := Decoded(ENTRY)], [], 0, 0, false)
  {
    var m := TWO_PASSES;
    assert m[..2][..1] == m[..1] && m[..1][..0] == [];
    assert Run(SETUP, Init(ENTRY), m[..1]) == State(Some(Decoded(ENTRY)), map[0 := Decoded(ENTRY)], [], 0, 0, false);
  }

  lemma {:induction false} OnlyTheseList(su: Setup, e: Entry, moves: seq<Move>, replicas: set<Replica>)
    requires forall i :: 0 <= i < |moves| ==> moves[i].r in replicas
    ensures |Run(su, Init(e), moves).copies| <= |replicas| && Run(su, Init(e), moves).copies.Keys <= replicas
  {
    if moves != [] {
      OnlyTheseList(su, e, moves[..|moves| - 1], replicas);
    }
    SmallerSet(Run(su, Init(e), moves).copies.Keys, replicas);
  }

  lemma TwoPassesResendTwice()
    ensures Run(SETUP, Init(ENTRY), TWO_PASSES).counted == 2
    ensures PutsKept(TWO_PASSES) && OverlapAtMost(SETUP, ENTRY, TWO_PASSES, 2)
  {
    var m := TWO_PASSES;
    BothList();
    var s2 := Run(SETUP, Init(ENTRY), m[..2]);
    VisitIsCounted(s2, 0);
    var s3 := Step(SETUP, s2, m[2]);
    VisitIsCounted(s3, 1);
    assert m[..3][..2] == m[..2];
    assert Run(SETUP, Init(ENTRY), m[..3]) == s3;
    assert Run(SETUP, Init(ENTRY), m) == Step(SETUP, s3, m[3]);
    forall k | 0 <= k <= |m| ensures |Run(SETUP, Init(ENTRY), m[..k]).copies| <= 2 {
      OnlyTheseList(SETUP, ENTRY, m[..k], {0, 1});
    }
  }

  /** The cap holds over all runs if and only if no two passes overlap on the entry. */
  lemma CapHoldsExactlyWithoutOverlap(n: int)
    ensures CapNeverExceeded(n) <==> n <= 1
  {
    if n <= 1 {
      forall su: Setup, e: Entry, moves | su.cfg.cap.Some? && PutsKept(moves) && OverlapAtMost(su, e, moves, n)
        ensures Run(su, Init(e), moves).counted <= Max(0, su.cfg.cap.value - e.rebroadcasts)
      {
        CapHoldsWithoutOverlap(su, e, moves);
      }
    } else {
      TwoPassesResendTwice();
      assert OverlapAtMost(SETUP, ENTRY, TWO_PASSES, n);
    }
  }

  // -- Outcomes, and entries that come back --

  ghost predicate DeletesKept(moves: seq<Move>) {
    forall i :: 0 <= i < |moves| && moves[i].Act? ==> moves[i].v.ans.deleted
  }

  /** A cleared entry is gone, and only then has an outcome been recorded. */
  ghost predicate OutcomeInv(s: State) {
    && s.recorded <= (if s.cleared then 1 else 0)
    && (s.cleared ==> s.stored.None?)
    && (forall r :: r in s.copies ==> s.stored == Some(s.copies[r]))
  }

  lemma OutcomeStep(su: Setup, s: State, m: Move)
    requires OutcomeInv(s) && |s.copies| <= 1 && (m.Act? ==> m.v.ans.deleted)
    ensures OutcomeInv(Step(su, s, m))
  {
    if m.Act? && m.r in s.copies {
      PassShape(su, Some(s.copies[m.r]), m.v);
      VisitSends(su, Some(s.copies[m.r]), m.v);
      OnlyCopy(s.copies, m.r);
    }
  }

  lemma {:induction false} OneOutcomeWithoutOverlap(su: Setup, e: Entry, moves: seq<Move>)
    requires DeletesKept(moves) && OverlapAtMost(su, e, moves, 1)
    ensures OutcomeInv(Run(su, Init(e), moves))
  {
    if moves != [] {
      var n := |moves| - 1;
      var before := moves[..n];
      assert forall i :: 0 <= i < n ==> before[i] == moves[i];
      OverlapBefore(su, e, moves, 1);
      OneOutcomeWithoutOverlap(su, e, before);
      OutcomeStep(su, Run(su, Init(e), before), moves[n]);
    }
  }

  lemma OverlapBefore(su: Setup, e: Entry, moves: seq<Move>, n: int)
    requires moves != [] && OverlapAtMost(su, e, moves, n)
    ensures OverlapAtMost(su, e, moves[..|moves| - 1], n) && |Run(su, Init(e), moves[..|moves| - 1]).copies| <= n
  {
    var before := moves[..|moves| - 1];
    forall k | 0 <= k <= |before| ensures |Run(su, Init(e), before[..k]).copies| <= n {
      assert before[..k] == moves[..k];
    }
    assert before[..|before|] == before;
  }

  /** With deletes that work, at most one outcome is recorded, and none of an entry that is still there. */
  ghost predicate OneOutcome(n: int) {
    forall su: Setup, e: Entry, moves :: DeletesKept(moves) && OverlapAtMost(su, e, moves, n) ==>
      Run(su, Init(e), moves).recorded <= 1
  }

  /** With deletes that work, a cleared entry stays gone. */
  ghost predicate ClearedStaysGone(n: int) {
    forall su: Setup, e: Entry, moves :: DeletesKept(moves) && OverlapAtMost(su, e, moves, n) ==>
      (Run(su, Init(e), moves).cleared ==> Run(su, Init(e), moves).stored.None?)
  }

  // The chain shows the claim.
  const FOUND := VISIT.(seen := There(Unknown))

  /** Two passes list the entry; the first finds it settled, and the second acts on its copy. */
  function Settled(second: Visit): seq<Move> {
    [List(0), List(1), Act(0, FOUND), Act(1, second)]
  }

  lemma SettledRuns(second: Visit)
    requires second == FOUND || second == VISIT
    ensures OverlapAtMost(SETUP, ENTRY, Settled(second), 2) && DeletesKept(Settled(second))
    ensures var s := Run(SETUP, Init(ENTRY), Settled(second));
            s.cleared && (second == FOUND ==> s.recorded == 2) && (second == VISIT ==> s.stored.Some?)
  {
    var m := Settled(second);
    assert m[..2] == TWO_PASSES[..2];
    BothList();
    var s2 := Run(SETUP, Init(ENTRY), m[..2]);
    FoundClears(s2, 0);
    var s3 := Step(SETUP, s2, m[2]);
    assert m[..3][..2] == m[..2];
    assert Run(SETUP, Init(ENTRY), m[..3]) == s3;
    assert Run(SETUP, Init(ENTRY), m) == Step(SETUP, s3, m[3]);
    if second == FOUND {
      FoundClears(s3, 1);
    } else {
      ResendWrites(s3, 1);
    }
    forall k | 0 <= k <= |m| ensures |Run(SETUP, Init(ENTRY), m[..k]).copies| <= 2 {
      OnlyTheseList(SETUP, ENTRY, m[..k], {0, 1});
    }
  }

  lemma FoundClears(s: State, r: Replica)
    requires r in s.copies && s.copies[r] == Decoded(ENTRY)
    ensures var t := Step(SETUP, s, Act(r, FOUND));
            t.stored.None? && t.cleared && t.recorded == s.recorded + 1 && t.copies == s.copies - {r}
  {
  }

  lemma ResendWrites(s: State, r: Replica)
    requires r in s.copies && s.copies[r] == Decoded(ENTRY)
    ensures var t := Step(SETUP, s, Act(r, VISIT));
            t.stored.Some? && t.cleared == s.cleared
  {
    VisitSends(SETUP, Some(Decoded(ENTRY)), VISIT);
  }

  /** Over all runs with working deletes, one outcome at most if and only if no two passes overlap on the entry. */
  lemma OneOutcomeExactlyWithoutOverlap(n: int)
    ensures OneOutcome(n) <==> n <= 1
  {
    if n <= 1 {
      forall su: Setup, e: Entry, moves | DeletesKept(moves) && OverlapAtMost(su, e, moves, n)
        ensures Run(su, Init(e), moves).recorded <= 1
      {
        OneOutcomeWithoutOverlap(su, e, moves);
      }
    } else {
      SettledRuns(FOUND);
      assert OverlapAtMost(SETUP, ENTRY, Settled(FOUND), n);
    }
  }

  /** And a cleared entry stays gone if and only if none do: an overlapping pass writes it back. */
  lemma ClearedStaysGoneExactlyWithoutOverlap(n: int)
    ensures ClearedStaysGone(n) <==> n <= 1
  {
    if n <= 1 {
      forall su: Setup, e: Entry, moves | DeletesKept(moves) && OverlapAtMost(su, e, moves, n)
        ensures Run(su, Init(e), moves).cleared ==> Run(su, Init(e), moves).stored.None?
      {
        OneOutcomeWithoutOverlap(su, e, moves);
      }
    } else {
      SettledRuns(VISIT);
      assert OverlapAtMost(SETUP, ENTRY, Settled(VISIT), n);
    }
  }
}

/**
 The ingestion memory brake (`miner/ingestion_memory_brake.go`, with the thresholds of
 `internal/memlimit/memlimit.go`): evaluated once a second, it stops the stream consumers
 when the process nears its memory limit and lets them read again after a calm stretch.
 Times are milliseconds.
 */
module MemoryBrake {
  import opened Common

  const MAX_MARGIN: nat := 1024 * 1024 * 1024
  const OVERAGE_TICKS: nat := 2
  const REOPEN_AFTER := 10 * 1000
  const COLLECT_AFTER := 60 * 1000

  function Margin(limit: nat): nat {
    if limit / 8 < MAX_MARGIN then limit / 8 else MAX_MARGIN
  }

  function CloseAbove(limit: nat): int {
    limit - Margin(limit)
  }

  function ReopenBelow(limit: nat): int {
    limit - Margin(limit) - Margin(limit) / 2
  }

  /**
   The subtractions never wrap, and from sixteen bytes up the two thresholds are apart. The brake
   closes an eighth of the limit below it, at most 1 GiB, and reopens half as much again below that.
   */
  lemma ThresholdsAreOrdered(limit: nat)
    ensures 0 <= ReopenBelow(limit) <= CloseAbove(limit) <= limit
    ensures ReopenBelow(limit) < CloseAbove(limit) <==> limit >= 16
    ensures var margin := limit - CloseAbove(limit);
            && (limit < 8 * 0x4000_0000 ==> 8 * margin <= limit < 8 * (margin + 1))
            && (limit >= 8 * 0x4000_0000 ==> margin == 0x4000_0000)
            && 0 <= margin - 2 * (CloseAbove(limit) - ReopenBelow(limit)) <= 1
  {
  }

  // What one evaluation reads; `afterLive` and `afterMapped` are what a forced collection would leave.
  datatype Reading = Reading(at: int, limit: nat, mapped: nat, live: nat, lastCollection: int, afterLive: nat,
      afterMapped: nat)

  datatype Brake = Brake(closed: bool, overages: nat, withinSince: Option<int>, closedAt: int)

  const OPEN := Brake(false, 0, None, 0)

  predicate Over(r: Reading) {
    r.mapped > r.limit
  }

  /** Closed, with a high live heap and no collection for a minute, one is forced before judging. */
  predicate Collects(r: Reading) {
    r.live >= ReopenBelow(r.limit) && r.at - r.lastCollection >= COLLECT_AFTER
  }

  /** The live heap is below the reopen threshold and the runtime within its limit. */
  predicate Calm(r: Reading) {
    if Collects(r) then r.afterLive < ReopenBelow(r.limit) && r.afterMapped <= r.limit
    else r.live < ReopenBelow(r.limit) && r.mapped <= r.limit
  }

  function Counted(b: Brake, r: Reading): Brake {
    b.(overages := if Over(r) then b.overages + 1 else 0)
  }

  function Next(b: Brake, r: Reading): Brake {
    var c := Counted(b, r);
    if !b.closed then
      if c.overages >= OVERAGE_TICKS || r.live > CloseAbove(r.limit) then Brake(true, c.overages, None, r.at) else c
    else if !Calm(r) then c.(withinSince := None)
    else if b.withinSince.None? then c.(withinSince := Some(r.at))
    else if r.at - b.withinSince.value < REOPEN_AFTER then c
    else c.(closed := false)
  }

  class RebuildAdmission {
    var brake: Brake
    // Forced collections, counted.
    var collections: nat

    constructor ()
      ensures brake == OPEN && collections == 0
    {
      brake, collections := OPEN, 0;
    }

    /** One evaluation; when it reopens the brake it says how long it was closed. */
    method Evaluate(r: Reading) returns (closedFor: Option<int>)
      modifies this
      ensures brake == Next(old(brake), r)
      ensures collections == old(collections) +
                if old(brake).closed && r.live >= ReopenBelow(r.limit) && r.at - r.lastCollection >= 60 * 1000 then 1
                    else 0
      ensures closedFor == if old(brake).closed && !brake.closed then Some(r.at - old(brake).closedAt) else None
    {
      closedFor := None;
      var closed := brake.closed;
      var mapped, live := r.mapped, r.live;
      if mapped > r.limit {
        brake := brake.(overages := brake.overages + 1);
      } else {
        brake := brake.(overages := 0);
      }
      if !closed {
        if brake.overages >= OVERAGE_TICKS || live > CloseAbove(r.limit) {
          brake := brake.(withinSince := None);
          brake := brake.(closed := true, closedAt := r.at);
        }
        return;
      }
      if live >= ReopenBelow(r.limit) && r.at - r.lastCollection >= COLLECT_AFTER {
        collections := collections + 1;
        live, mapped := r.afterLive, r.afterMapped;
      }
      if live >= ReopenBelow(r.limit) || mapped > r.limit {
        brake := brake.(withinSince := None);
        return;
      }
      if brake.withinSince.None? {
        brake := brake.(withinSince := Some(r.at));
        return;
      } else if r.at - brake.withinSince.value < REOPEN_AFTER {
        return;
      }
      closedFor := Some(r.at - brake.closedAt);
      brake := brake.(closed := false);
    }
  }

  // -- Every run of evaluations --

  function After(rs: seq<Reading>): Brake {
    if rs == [] then OPEN else Next(After(rs[..|rs| - 1]), rs[|rs| - 1])
  }

  ghost predicate Ascending(rs: seq<Reading>) {
    forall i, j :: 0 <= i < j < |rs| ==> rs[i].at <= rs[j].at
  }

  lemma AfterOneMore(rs: seq<Reading>, r: Reading)
    ensures After(rs + [r]) == Next(After(rs), r)
  {
    assert (rs + [r])[..|rs|] == rs;
  }

  /** The counter says how many evaluations in a row, up to the last, were over the limit. */
  lemma {:induction false} OveragesAreTheLastRun(rs: seq<Reading>)
    ensures After(rs).overages <= |rs|
    ensures forall i :: |rs| - After(rs).overages <= i < |rs| ==> rs[i].mapped > rs[i].limit
    ensures After(rs).overages < |rs| ==>
            rs[|rs| - After(rs).overages - 1].mapped <= rs[|rs| - After(rs).overages - 1].limit
  {
    if rs != [] {
      OveragesAreTheLastRun(rs[..|rs| - 1]);
    }
  }

  /**
   In every run, an evaluation closes the open brake exactly when it and the one before it both
   found the runtime over its limit, or it found the live heap above the close threshold.
   */
  lemma {:induction false} ClosesExactlyWhen(rs: seq<Reading>, r: Reading)
    requires !After(rs).closed
    ensures After(rs + [r]).closed <==>
              || (|rs| > 0 && rs[|rs| - 1].mapped > rs[|rs| - 1].limit && r.mapped > r.limit)
              || r.live > CloseAbove(r.limit)
  {
    AfterOneMore(rs, r);
    OveragesAreTheLastRun(rs);
  }

  predicate ClosedAfter(rs: seq<Reading>, k: int) {
    0 <= k <= |rs| && After(rs[..k]).closed
  }

  lemma ClosedAfterPrefix(rs: seq<Reading>, r: Reading, k: int)
    requires 0 <= k <= |rs|
    ensures ClosedAfter(rs + [r], k) == ClosedAfter(rs, k)
  {
    assert (rs + [r])[..k] == rs[..k];
  }

  /**
   Memory is within bounds as read; or the live heap was too high with no collection for a minute,
   and memory is within bounds after the one that is forced then.
   */
  predicate WithinBounds(r: Reading) {
    || (r.live < ReopenBelow(r.limit) && r.mapped <= r.limit)
    || (&& r.live >= ReopenBelow(r.limit) && r.at - r.lastCollection >= 60 * 1000
        && r.afterLive < ReopenBelow(r.limit) && r.afterMapped <= r.limit)
  }

  /** From reading `j` on, closed all along, and every evaluation calm. */
  ghost predicate CalmFrom(rs: seq<Reading>, j: int) {
    && 0 <= j < |rs|
    && (forall k :: j <= k <= |rs| ==> ClosedAfter(rs, k))
    && (forall i :: j <= i < |rs| ==> WithinBounds(rs[i]))
  }

  /** Where the calm stretch that leads up to the end of the run began. */
  ghost predicate StretchBegan(rs: seq<Reading>, since: Option<int>) {
    match since
    case None => forall j :: 0 <= j < |rs| ==> !CalmFrom(rs, j)
    case Some(t) => (exists j :: CalmFrom(rs, j) && rs[j].at == t) && forall j :: CalmFrom(rs, j) ==> t <= rs[j].at
  }

  lemma CalmShorter(rs: seq<Reading>, r: Reading, j: int)
    requires CalmFrom(rs + [r], j)
    ensures After(rs).closed && After(rs + [r]).closed && WithinBounds(r)
    ensures j == |rs| || CalmFrom(rs, j)
  {
    var longer := rs + [r];
    assert longer[|rs|] == r;
    assert ClosedAfter(longer, |rs|) && longer[..|rs|] == rs;
    assert ClosedAfter(longer, |longer|) && longer[..|longer|] == longer;
    forall k | j <= k <= |rs| ensures ClosedAfter(rs, k) {
      ClosedAfterPrefix(rs, r, k);
    }
    forall i | j <= i < |rs| ensures WithinBounds(rs[i]) {
      assert longer[i] == rs[i];
    }
  }

  lemma CalmLonger(rs: seq<Reading>, r: Reading, j: int)
    requires After(rs).closed && After(rs + [r]).closed && WithinBounds(r)
    requires j == |rs| || CalmFrom(rs, j)
    ensures CalmFrom(rs + [r], j)
  {
    var longer := rs + [r];
    forall k | j <= k <= |longer| ensures ClosedAfter(longer, k) {
      if k == |longer| {
        assert longer[..k] == longer;
      } else {
        ClosedAfterPrefix(rs, r, k);
        assert rs[..|rs|] == rs;
      }
    }
    forall i | j <= i < |longer| ensures WithinBounds(longer[i]) {
      assert i < |rs| ==> longer[i] == rs[i];
    }
  }

  lemma {:induction false} WithinSinceIsTheStretch(rs: seq<Reading>)
    requires Ascending(rs)
    ensures After(rs).closed ==> StretchBegan(rs, After(rs).withinSince)
  {
    if rs != [] {
      var n := |rs| - 1;
      var before, r := rs[..n], rs[n];
      assert rs == before + [r];
      WithinSinceIsTheStretch(before);
      if After(rs).closed {
        StretchStep(before, r);
      }
    }
  }

  lemma StretchStep(rs: seq<Reading>, r: Reading)
    requires Ascending(rs + [r]) && After(rs + [r]).closed
    requires After(rs).closed ==> StretchBegan(rs, After(rs).withinSince)
    ensures StretchBegan(rs + [r], After(rs + [r]).withinSince)
  {
    var longer := rs + [r];
    AfterOneMore(rs, r);
    var since := After(longer).withinSince;
    forall j ensures CalmFrom(longer, j) <==> After(rs).closed && WithinBounds(r) && (j == |rs| || CalmFrom(rs, j)) {
      if CalmFrom(longer, j) {
        CalmShorter(rs, r, j);
      } else if After(rs).closed && WithinBounds(r) && (j == |rs| || CalmFrom(rs, j)) {
        CalmLonger(rs, r, j);
      }
    }
    if After(rs).closed && WithinBounds(r) {
      if After(rs).withinSince.Some? {
        var j :| CalmFrom(rs, j) && rs[j].at == After(rs).withinSince.value;
        assert CalmFrom(longer, j) && longer[j].at == since.value;
        assert since.value <= longer[|rs|].at;
      } else {
        assert CalmFrom(longer, |rs|) && longer[|rs|].at == since.value;
      }
      forall j | CalmFrom(longer, j) ensures since.value <= longer[j].at {
        assert j == |rs| || CalmFrom(rs, j);
      }
    }
  }

  /**
   In every run, an evaluation reopens the closed brake exactly when it is calm and ends a
   stretch of calm evaluations, all made while it was closed, that spans at least ten seconds.
   */
  lemma ReopensExactlyWhen(rs: seq<Reading>, r: Reading)
    requires Ascending(rs + [r]) && After(rs).closed
    ensures !After(rs + [r]).closed <==>
              WithinBounds(r) && exists j :: CalmFrom(rs, j) && r.at - rs[j].at >= 10 * 1000
  {
    AfterOneMore(rs, r);
    assert forall i :: 0 <= i < |rs| ==> (rs + [r])[i] == rs[i];
    WithinSinceIsTheStretch(rs);
    if !After(rs + [r]).closed {
      var t := After(rs).withinSince.value;
      var j :| CalmFrom(rs, j) && rs[j].at == t;
      assert r.at - rs[j].at >= REOPEN_AFTER;
    }
  }

  /** Closed, the calm stretch being timed began no earlier than the brake closed. */
  lemma {:induction false} StretchIsWithinTheClosing(rs: seq<Reading>)
    requires Ascending(rs)
    ensures rs != [] && After(rs).closed ==> After(rs).closedAt <= rs[|rs| - 1].at
    ensures After(rs).closed && After(rs).withinSince.Some? ==> After(rs).closedAt <= After(rs).withinSince.value
  {
    if rs != [] {
      var n := |rs| - 1;
      StretchIsWithinTheClosing(rs[..n]);
      if n > 0 {
        assert rs[n - 1].at <= rs[n].at;
      }
    }
  }

  /** Every closing lasts at least ten seconds: consumers are never flapped faster than that. */
  lemma EveryClosingLastsTenSeconds(rs: seq<Reading>, r: Reading)
    requires Ascending(rs + [r]) && After(rs).closed && !After(rs + [r]).closed
    ensures r.at - After(rs).closedAt >= 10 * 1000
  {
    AfterOneMore(rs, r);
    assert forall i :: 0 <= i < |rs| ==> (rs + [r])[i] == rs[i];
    StretchIsWithinTheClosing(rs);
  }
}

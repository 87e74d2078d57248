/**
 Every run of the block reader: any sequence of reported heights, fallback fetches and passes,
 with any answers from the node.
 */
module BlockFeedRuns {
  import opened Common
  import opened BlockFeed

  // -- How often one height fails --

  /** How many reads of the height failed from index `i` of the log on. */
  function FailedFrom(log: seq<int>, i: nat, h: int): nat
    decreases |log| - i
  {
    if i >= |log| then 0 else (if log[i] == h then 1 else 0) + FailedFrom(log, i + 1, h)
  }

  lemma {:induction false} FailedReadsLeft(log: seq<int>, mark: nat, p: int, h: int, i: nat)
    requires OnlyInRun(log, mark, p, h) && mark <= i
    ensures FailedFrom(log, i, h) <= Max(0, p + MAX_READ_FAILURES - Max(i, p))
    ensures TenInARow(log, p, h) ==> FailedFrom(log, i, h) == Max(0, p + MAX_READ_FAILURES - Max(i, p))
    decreases |log| - i
  {
    if i < |log| {
      FailedReadsLeft(log, mark, p, h, i + 1);
    }
  }

  lemma {:induction false} FailedOneMore(log: seq<int>, i: nat, h: int, x: int)
    requires i <= |log|
    ensures FailedFrom(log + [x], i, h) == FailedFrom(log, i, h) + if x == h then 1 else 0
    decreases |log| - i
  {
    if i < |log| {
      assert (log + [x])[i] == log[i];
      FailedOneMore(log, i + 1, h, x);
    } else {
      assert FailedFrom(log + [x], i + 1, h) == 0;
    }
  }

  lemma {:induction false} FailedOnlyAfter(log: seq<int>, i: nat, q: int, h: int)
    requires q <= |log| && forall k :: i <= k < |log| && log[k] == h ==> q <= k
    ensures FailedFrom(log, i, h) <= Max(0, |log| - Max(i, q))
    decreases |log| - i
  {
    if i < |log| {
      FailedOnlyAfter(log, i + 1, q, h);
    }
  }

  /** When failed heights never go down, those of a height not below them are the last ones. */
  lemma FailuresAreTheLastRun(log: seq<int>, mark: nat, h: int)
    requires NeverDown(log, mark) && mark <= |log| && forall i :: mark <= i < |log| ==> log[i] <= h
    ensures FailedFrom(log, mark, h) <= if log != [] && log[|log| - 1] == h then TrailingRun(log) else 0
  {
    if log != [] {
      TrailingRunIsExact(log);
      var q := if log[|log| - 1] == h then |log| - TrailingRun(log) else |log|;
      forall k | mark <= k < q ensures log[k] != h {
        assert k < q - 1 ==> log[k] <= log[q - 1];
      }
      FailedOnlyAfter(log, mark, q, h);
    }
  }

  // -- What every run keeps --

  /** Published in order, each block with its own height and a hash, none before the first height or past the next. */
  ghost predicate InOrder(f: Feed) {
    && Ascending(f.published)
    && (forall i :: 0 <= i < |f.published| ==>
          0 < f.published[i].height && f.anchor <= f.published[i].height < f.nextHeight && f.published[i].hash != [])
    && f.nextHeight >= 0 && f.seenHeight >= 0
    && (f.lastBlock.Some? ==> f.lastBlock.value.height > 0)
    && (f.nextHeight > 0 ==> 0 < f.anchor < f.nextHeight)
  }

  /** The failure count is that of the last failing height, and a height that used it up is behind. */
  ghost predicate Counts(f: Feed) {
    && f.failures == TrailingRun(f.failLog) <= MAX_READ_FAILURES
    && f.failingHeight == (if f.failLog == [] then 0 else f.failLog[|f.failLog| - 1])
    && (f.failures >= MAX_READ_FAILURES ==> f.failingHeight < f.nextHeight)
  }

  /** Since the first height was passed, failed heights never went down, and none is above `limit`. */
  ghost predicate GoesUpTo(f: Feed, limit: int) {
    f.nextHeight > 0 ==>
      && f.mark <= |f.failLog| && NeverDown(f.failLog, f.mark)
      && forall i :: f.mark <= i < |f.failLog| ==> f.failLog[i] <= limit
  }

  /** Since the first height was passed, no height failed more than ten times. */
  ghost predicate AtMostTen(f: Feed) {
    f.nextHeight > 0 ==> forall h :: FailedFrom(f.failLog, f.mark, h) <= MAX_READ_FAILURES
  }

  /** No height from the first one on is unaccounted for. */
  ghost predicate NoGaps(f: Feed) {
    f.nextHeight > 0 ==> AllAccounted(f.published, f.failLog, f.mark, f.jumps, f.anchor, f.nextHeight)
  }

  /** Every jump was over heights at least 64 below a height that had been reported. */
  ghost predicate JumpsWereReported(f: Feed) {
    forall i :: 0 <= i < |f.jumps| ==> f.jumps[i].target <= f.seenHeight
  }

  /** Each pass a failing height held is one more failure of it, so it held fewer than ten. */
  ghost predicate HeldForFewerThanTen(f: Feed) {
    f.heldPasses > 0 ==> f.heldHeight == f.failingHeight && f.heldPasses <= f.failures < MAX_READ_FAILURES
  }

  /** From where a pass reads once the first height is passed. */
  function Floor(f: Feed): int {
    Max(f.nextHeight, f.seenHeight - MAX_CATCH_UP_BLOCKS + 1)
  }

  ghost predicate Books(f: Feed, limit: int) {
    InOrder(f) && Counts(f) && GoesUpTo(f, limit) && AtMostTen(f) && NoGaps(f) && JumpsWereReported(f)
  }

  ghost predicate Inv(f: Feed) {
    Books(f, Floor(f)) && HeldForFewerThanTen(f)
  }

  // -- During a pass, about to read `height` --

  /** The heights a pass leaves behind are covered by a jump. */
  ghost predicate Covered(f: Feed, height: int) {
    f.nextHeight > 0 ==> f.nextHeight <= height && forall h :: f.nextHeight <= h < height ==> JumpedOver(f.jumps, h)
  }

  ghost predicate Reading(f: Feed, height: int) {
    Books(f, height) && Covered(f, height) && 0 < height
  }

  lemma CountedKeepsCounts(f: Feed, height: int)
    requires Counts(f) && f.nextHeight <= height
    ensures var g := Counted(f, height);
            && g.failures == TrailingRun(g.failLog) && 0 < g.failures <= MAX_READ_FAILURES
            && g.failingHeight == g.failLog[|g.failLog| - 1] == height
  {
    TrailingRunGrows(f.failLog, height);
  }

  lemma CountedKeepsGoingUp(f: Feed, height: int)
    requires GoesUpTo(f, height)
    ensures GoesUpTo(Counted(f, height), height)
  {
    if f.nextHeight > 0 {
      NeverDownOneMore(f.failLog, f.mark, height);
    }
  }

  lemma CountedKeepsAtMostTen(f: Feed, height: int)
    requires Counts(f) && GoesUpTo(f, height) && AtMostTen(f) && f.nextHeight <= height
    ensures AtMostTen(Counted(f, height))
  {
    if f.nextHeight > 0 {
      CountedKeepsCounts(f, height);
      TrailingRunGrows(f.failLog, height);
      FailuresAreTheLastRun(f.failLog, f.mark, height);
      forall h ensures FailedFrom(f.failLog + [height], f.mark, h) <= MAX_READ_FAILURES {
        FailedOneMore(f.failLog, f.mark, h, height);
      }
    }
  }

  lemma CountedKeepsNoGaps(f: Feed, height: int)
    requires NoGaps(f) && f.nextHeight <= height
    ensures NoGaps(Counted(f, height))
  {
    if f.nextHeight > 0 {
      AllAccountedStays(f.published, f.published, f.failLog, f.failLog + [height], f.mark, f.jumps, f.jumps, f.anchor,
                        f.nextHeight);
    }
  }

  /** A height whose count reaches ten has failed ten times in a row, and not otherwise since the first. */
  lemma TenthIsGivenUp(f: Feed, height: int)
    requires Counts(f) && GoesUpTo(f, height) && f.nextHeight <= height
    requires Counted(f, height).failures == MAX_READ_FAILURES
    ensures var g := Counted(f, height);
            if f.nextHeight > 0 then GaveUpOn(g.failLog, g.mark, g.anchor, height)
            else GaveUpOn(g.failLog, |g.failLog|, height, height)
  {
    CountedKeepsCounts(f, height);
    if f.nextHeight > 0 {
      CountedFailure(f.failLog, f.mark, f.anchor, height);
    } else {
      CountedFailure(f.failLog, |f.failLog| + 1, height, height);
    }
  }

  lemma PassedKeepsOrder(f: Feed, height: int, block: Option<Block>)
    requires InOrder(f) && 0 < height && f.nextHeight <= height
    requires block.Some? ==> block.value.height == height && block.value.hash != []
    ensures InOrder(Passed(f, height, block))
  {
  }

  lemma PassedKeepsNoGaps(f: Feed, height: int, block: Option<Block>)
    requires NoGaps(f) && Covered(f, height) && 0 < height && f.nextHeight >= 0
    requires block.Some? ==> block.value.height == height
    requires block.None? && f.nextHeight > 0 ==> GaveUpOn(f.failLog, f.mark, f.anchor, height)
    requires block.None? && f.nextHeight == 0 ==> GaveUpOn(f.failLog, |f.failLog|, height, height)
    ensures NoGaps(Passed(f, height, block))
  {
    var g := Passed(f, height, block);
    if block.Some? {
      assert g.published[|f.published|].height == height;
      assert Published(g.published, height);
    }
    if f.nextHeight > 0 {
      AllAccountedStays(f.published, g.published, f.failLog, f.failLog, f.mark, f.jumps, f.jumps, f.anchor,
          f.nextHeight);
    }
  }

  lemma GotKeeps(f: Feed, height: int, block: Block)
    requires Reading(f, height) && block.height == height && block.hash != []
    ensures Reading(Passed(f, height, Some(block)), height + 1)
  {
    PassedKeepsOrder(f, height, Some(block));
    PassedKeepsNoGaps(f, height, Some(block));
  }

  lemma HeldKeeps(f: Feed, height: int)
    requires Reading(f, height) && HeldFor(f.failingHeight, f.failures, height) < MAX_READ_FAILURES
    ensures Reading(Counted(f, height), height)
  {
    CountedKeepsCounts(f, height);
    CountedKeepsGoingUp(f, height);
    CountedKeepsAtMostTen(f, height);
    CountedKeepsNoGaps(f, height);
  }

  lemma GivenUpKeeps(f: Feed, height: int)
    requires Reading(f, height) && HeldFor(f.failingHeight, f.failures, height) >= MAX_READ_FAILURES
    ensures Reading(Passed(Counted(f, height), height, None), height + 1)
  {
    var g := Counted(f, height);
    CountedKeepsCounts(f, height);
    CountedKeepsGoingUp(f, height);
    CountedKeepsAtMostTen(f, height);
    CountedKeepsNoGaps(f, height);
    TenthIsGivenUp(f, height);
    PassedKeepsOrder(g, height, None);
    PassedKeepsNoGaps(g, height, None);
  }

  /** Reading one height keeps the books, and moves on unless it stops the pass. */
  lemma ReadOneKeeps(f: Feed, height: int, reply: NodeReply)
    requires Reading(f, height)
    ensures Reading(ReadOne(f, height, reply), if Stops(f, height, reply) then height else height + 1)
  {
    match ReadBlock(reply, height)
    case NotYet =>
    case Got(block) => GotKeeps(f, height, block);
    case Failed =>
      if Stops(f, height, reply) {
        HeldKeeps(f, height);
      } else {
        GivenUpKeeps(f, height);
      }
  }

  /** Where a pass stopped reading. */
  function Last(end: PassEnd, target: int): int {
    if end.CaughtUp? then target + 1 else end.height
  }

  lemma {:induction false} ReadAllEnds(f: Feed, height: int, target: int, node: int -> NodeReply)
    requires height <= target + 1
    ensures var r := ReadAll(f, height, target, node);
            var last := Last(r.end, target);
            && height <= last <= target + 1
            && r.feed.nextHeight == (if last == height then f.nextHeight else last)
            && r.feed.seenHeight == f.seenHeight
    decreases target - height
  {
    if height <= target && !Stops(f, height, node(height)) {
      ReadAllEnds(ReadOne(f, height, node(height)), height + 1, target, node);
    }
  }

  /** A pass keeps the books to its end. */
  lemma {:induction false} ReadAllKeeps(f: Feed, height: int, target: int, node: int -> NodeReply)
    requires Reading(f, height) && height <= target + 1
    ensures Reading(ReadAll(f, height, target, node).feed, Last(ReadAll(f, height, target, node).end, target))
    decreases target - height
  {
    if height <= target {
      ReadOneKeeps(f, height, node(height));
      if !Stops(f, height, node(height)) {
        ReadAllKeeps(ReadOne(f, height, node(height)), height + 1, target, node);
      }
    }
  }

  // -- What a pass publishes --

  /** The blocks published from index `from` on are what the node answered. */
  ghost predicate AsRead(node: int -> NodeReply, published: seq<Block>, from: nat) {
    forall i :: from <= i < |published| ==>
      ReadBlock(node(published[i].height), published[i].height) == Got(published[i])
  }

  /**
   A pass publishes what it reads, as it was read, and nothing else; and it reads every height up
   to where it ends.
   */
  lemma {:induction false} PassPublishesWhatItReads(f: Feed, height: int, target: int, node: int -> NodeReply, h: int)
    requires height <= h < Last(ReadAll(f, height, target, node).end, target) && ReadBlock(node(h), h).Got?
    ensures Published(ReadAll(f, height, target, node).feed.published, h)
    decreases target - height
  {
    if height <= target && !Stops(f, height, node(height)) {
      var g := ReadOne(f, height, node(height));
      if h == height {
        PublishedGrows(g, height + 1, target, node);
        assert g.published[|f.published|].height == h;
        PublishedStays(g.published, ReadAll(g, height + 1, target, node).feed.published, h);
      } else {
        PassPublishesWhatItReads(g, height + 1, target, node, h);
      }
    }
  }

  lemma {:induction false} PublishedGrows(f: Feed, height: int, target: int, node: int -> NodeReply)
    ensures var r := ReadAll(f, height, target, node);
            f.published <= r.feed.published && AsRead(node, r.feed.published, |f.published|)
    decreases target - height
  {
    if height <= target && !Stops(f, height, node(height)) {
      var g := ReadOne(f, height, node(height));
      PublishedGrows(g, height + 1, target, node);
      var after := ReadAll(g, height + 1, target, node).feed.published;
      forall i | |f.published| <= i < |after| ensures ReadBlock(node(after[i].height), after[i].height) ==
          Got(after[i]) {
        if i < |g.published| {
          assert after[i] == g.published[i];
        }
      }
    }
  }

  // -- What a pass does to the failure count --

  /** Either the count is as it was, or the height that was failing is behind. */
  predicate Untouched(f: Feed, g: Feed, height: int) {
    (g.failingHeight == f.failingHeight && g.failures == f.failures) || f.failingHeight < height
  }

  lemma {:induction false} PassCountsOneFailure(f: Feed, g: Feed, height: int, target: int, node: int -> NodeReply)
    requires Untouched(f, g, height) && 0 <= g.failures <= MAX_READ_FAILURES && height <= target + 1
    requires g.failures == MAX_READ_FAILURES ==> g.failingHeight < height
    ensures var r := ReadAll(g, height, target, node);
            && (r.end.HeldBy? ==> r.feed.failingHeight == r.end.height && 0 < r.feed.failures < MAX_READ_FAILURES)
            && (r.end.HeldBy? && r.end.height == f.failingHeight ==> r.feed.failures == f.failures + 1)
            && (!r.end.HeldBy? ==> Untouched(f, r.feed, Last(r.end, target)))
            && (!r.end.HeldBy? && Last(r.end, target) == height ==> r.feed == g)
            && r.feed.heldHeight == g.heldHeight && r.feed.heldPasses == g.heldPasses
    decreases target - height
  {
    if height <= target && !Stops(g, height, node(height)) {
      PassCountsOneFailure(f, ReadOne(g, height, node(height)), height + 1, target, node);
      ReadAllEnds(ReadOne(g, height, node(height)), height + 1, target, node);
    }
  }

  // -- Every run --

  lemma BegunReads(f: Feed)
    requires Inv(f) && f.seenHeight > 0
    ensures Reading(Begun(f), StartOf(f))
    ensures f.nextHeight > 0 ==> StartOf(f) == Floor(f)
  {
    var g := Begun(f);
    if Jumps(f) {
      var jump := Jump(FirstHeight(f), StartOf(f), f.seenHeight);
      assert g.jumps[|f.jumps|] == jump;
      if f.nextHeight > 0 {
        AllAccountedStays(f.published, f.published, f.failLog, f.failLog, f.mark, f.jumps, g.jumps, f.anchor,
            f.nextHeight);
        forall h | f.nextHeight <= h < StartOf(f) ensures JumpedOver(g.jumps, h) {
          assert g.jumps[|f.jumps|].from <= h;
        }
      }
    }
  }

  /** A pass with something to read. */
  lemma PassKeepsBooks(f: Feed, node: int -> NodeReply)
    requires Inv(f) && f.seenHeight > 0 && StartOf(f) <= f.seenHeight + 1
    ensures Books(CaughtUpTo(f, node), Floor(CaughtUpTo(f, node)))
  {
    BegunReads(f);
    ReadAllKeeps(Begun(f), StartOf(f), f.seenHeight, node);
    PassEndsAtTheFloor(f, node);
    var r := PassOf(f, node);
    HigherLimit(r.feed, Last(r.end, f.seenHeight), Floor(r.feed));
    NotedKeeps(r.feed, r.end, Floor(r.feed));
  }

  lemma PassEndsAtTheFloor(f: Feed, node: int -> NodeReply)
    requires StartOf(f) <= f.seenHeight + 1 && (f.nextHeight > 0 ==> StartOf(f) == Floor(f))
    ensures var r := PassOf(f, node);
            r.feed.nextHeight > 0 ==> Last(r.end, f.seenHeight) <= Floor(r.feed)
  {
    ReadAllEnds(Begun(f), StartOf(f), f.seenHeight, node);
  }

  lemma HigherLimit(f: Feed, limit: int, higher: int)
    requires Books(f, limit) && (f.nextHeight > 0 ==> limit <= higher)
    ensures Books(f, higher)
  {
  }

  lemma NotedKeeps(f: Feed, end: PassEnd, limit: int)
    requires Books(f, limit)
    ensures Books(Noted(f, end), limit)
  {
  }

  lemma PassKeepsHeld(f: Feed, node: int -> NodeReply)
    requires Inv(f) && f.seenHeight > 0 && StartOf(f) <= f.seenHeight + 1
    ensures HeldForFewerThanTen(CaughtUpTo(f, node))
  {
    var g, height, target := Begun(f), StartOf(f), f.seenHeight;
    BegunReads(f);
    ReadAllEnds(g, height, target, node);
    PassCountsOneFailure(g, g, height, target, node);
  }

  lemma PassKeeps(f: Feed, node: int -> NodeReply)
    requires Inv(f) && f.seenHeight > 0
    ensures Inv(CaughtUpTo(f, node))
  {
    if StartOf(f) <= f.seenHeight + 1 {
      PassKeepsBooks(f, node);
      PassKeepsHeld(f, node);
    }
  }

  lemma InvStep(f: Feed, e: Event)
    requires Inv(f)
    ensures Inv(Step(f, e))
  {
    match e
    case Observe(_) =>
    case FetchLatest(_, _) =>
    case CatchUp(node) =>
      if f.seenHeight > 0 {
        PassKeeps(f, node);
      }
  }

  lemma {:induction false} InvHolds(events: seq<Event>)
    ensures Inv(Run(INIT, events))
  {
    if events != [] {
      InvHolds(events[..|events| - 1]);
      InvStep(Run(INIT, events[..|events| - 1]), events[|events| - 1]);
    }
  }

  // -- The theorems --

  /**
   In every run, published heights strictly increase, and every block has the height it is
   published at and a hash.
   */
  lemma PublishedInOrder(events: seq<Event>)
    ensures var p := Run(INIT, events).published;
            Ascending(p) && forall i :: 0 <= i < |p| ==> p[i].height > 0 && p[i].hash != []
  {
    InvHolds(events);
  }

  /** A height between two published ones that was not published. */
  ghost predicate IsMissing(f: Feed, h: int) {
    && f.published != [] && f.published[0].height <= h <= f.published[|f.published| - 1].height
    && !Published(f.published, h)
  }

  /**
   In every run, a height missing between two published ones was jumped over at least 64 below a
   reported height, or had exactly ten failed reads in a row and, since the first height was
   passed, no other failed read at all.
   */
  lemma GapsAreExplained(events: seq<Event>, h: int)
    requires IsMissing(Run(INIT, events), h)
    ensures var f := Run(INIT, events);
            (f.anchor < h && GaveUpOn(f.failLog, f.mark, f.anchor, h)) || JumpedOver(f.jumps, h)
  {
    InvHolds(events);
    var f := Run(INIT, events);
    assert f.published[0].height != h;
    assert Accounted(f.published, f.failLog, f.mark, f.anchor, f.jumps, h);
  }

  /**
   In every run, since the first height was passed no height has failed in more than ten passes,
   whatever came in between.
   */
  lemma AtMostTenFailures(events: seq<Event>, h: int)
    requires Run(INIT, events).nextHeight > 0
    ensures FailedFrom(Run(INIT, events).failLog, Run(INIT, events).mark, h) <= 10
  {
    InvHolds(events);
  }

  /** In every run, a failing height holds fewer than ten passes, however many others end at a "not yet" in between. */
  lemma HeldForFewerThanTenPasses(events: seq<Event>)
    ensures Run(INIT, events).heldPasses < 10
  {
    InvHolds(events);
  }

  /**
   A pass that ends held by a height is one more pass held by it, unless it is the first since
   another or since it was behind.
   */
  lemma HeldPassIsCounted(f: Feed, node: int -> NodeReply)
    requires Inv(f) && f.seenHeight > 0 && StartOf(f) <= f.seenHeight + 1 && PassOf(f, node).end.HeldBy?
    ensures var g := CaughtUpTo(f, node);
            && g.heldHeight == PassOf(f, node).end.height
            && g.heldPasses == (if f.heldPasses > 0 && f.heldHeight == g.heldHeight then f.heldPasses + 1 else 1)
            && g.failLog != [] && g.failLog[|g.failLog| - 1] == g.heldHeight
  {
    BegunReads(f);
    PassCountsOneFailure(Begun(f), Begun(f), StartOf(f), f.seenHeight, node);
    PassKeepsBooks(f, node);
  }

  /** A pass that ends otherwise leaves that count as it is, until the height is behind. */
  lemma OtherPassesKeepTheCount(f: Feed, node: int -> NodeReply)
    requires Inv(f) && f.seenHeight > 0 && StartOf(f) <= f.seenHeight + 1 && !PassOf(f, node).end.HeldBy?
    ensures var g := CaughtUpTo(f, node);
            && g.heldHeight == f.heldHeight
            && g.heldPasses == if f.heldHeight < g.nextHeight then 0 else f.heldPasses
  {
    BegunReads(f);
    PassCountsOneFailure(Begun(f), Begun(f), StartOf(f), f.seenHeight, node);
  }

  /** The first pass of all reads the height that was reported, and no other. */
  lemma FirstPassReadsTheReport(height: int, node: int -> NodeReply)
    requires height > 0
    ensures var f := Step(Step(INIT, Observe(height)), CatchUp(node));
            var reply := node(height);
            if reply.Reply? && reply.height == height && reply.hash != []
            then f.published == [Block(height, reply.hash, reply.time)] && f.nextHeight == height + 1
            else f.published == [] && f.nextHeight == 0
                 && f.failLog == if reply == Failure(true) then [] else [height]
  {
    var f := Step(INIT, Observe(height));
    assert StartOf(f) == height && Begun(f) == f;
    var g := ReadOne(f, height, node(height));
    assert ReadAll(g, height + 1, height, node) == Ended(g, CaughtUp);
  }

  // -- How often a missing height failed --

  /** The failed reads just before and just after the first height was passed are both of `h`. */
  predicate SpansTheFirst(f: Feed, h: int) {
    0 < f.mark < |f.failLog| && f.failLog[f.mark - 1] == h && f.failLog[f.mark] == h
  }

  /**
   In every run, a missing height that was not jumped over has at most ten failed reads since the
   first height was passed, and all ten exactly when its failures do not span that moment.
   */
  lemma TenSinceTheFirstExactlyWhen(events: seq<Event>, h: int)
    requires IsMissing(Run(INIT, events), h) && !JumpedOver(Run(INIT, events).jumps, h)
    ensures var f := Run(INIT, events);
            && FailedFrom(f.failLog, f.mark, h) <= 10
            && (FailedFrom(f.failLog, f.mark, h) == 10 <==> !SpansTheFirst(f, h))
  {
    GapsAreExplained(events, h);
    var f := Run(INIT, events);
    var p :| TenInARow(f.failLog, p, h) && OnlyInRun(f.failLog, f.mark, p, h) && f.mark < p + MAX_READ_FAILURES;
    FailedReadsLeft(f.failLog, f.mark, p, h, f.mark);
    if f.mark <= p {
      assert f.mark == p && p > 0 ==> f.failLog[p - 1] != h;
    }
  }

  // -- A run whose failures do span it --

  /** A node that answers every height but 3, which fails. */
  function AllButThree(h: int): NodeReply {
    if h == 3 then NoBlock else Reply(h, [0], 0)
  }

  function BlockAt(h: int): Block {
    Block(h, [0], 0)
  }

  function Threes(n: nat): seq<int> {
    if n == 0 then [] else Threes(n - 1) + [3]
  }

  /**
   Height 3 fails before anything was published; the fallback fetch then stores block 1, and the
   next pass starts at 2.
   */
  function StuckAtThree(n: nat): seq<Event> {
    if n <= 2 then [Observe(3), CatchUp(AllButThree), FetchLatest(1, Reply(1, [0], 0)), CatchUp(AllButThree)]
    else StuckAtThree(n - 1) + [CatchUp(AllButThree)]
  }

  /** Block 2 is published, and height 3 has failed `n` times, once of them before. */
  function Stuck(n: nat): Feed {
    Feed(3, 3, n, Some(BlockAt(2)), 3, [BlockAt(2)], Threes(n), [], 2, 1, 3, n)
  }

  lemma ReadTwoSteps(f: Feed, height: int, node: int -> NodeReply)
    requires !Stops(f, height, node(height))
    ensures var g := ReadOne(f, height, node(height));
            ReadAll(f, height, height + 1, node) ==
              if Stops(g, height + 1, node(height + 1))
              then Ended(ReadOne(g, height + 1, node(height + 1)), EndOf(height + 1, node(height + 1)))
              else Ended(ReadOne(g, height + 1, node(height + 1)), CaughtUp)
  {
    var g := ReadOne(f, height, node(height));
    var h := height + 1;
    assert ReadAll(f, height, h, node) == ReadAll(g, h, h, node);
    assert ReadAll(ReadOne(g, h, node(h)), h + 1, h, node) == Ended(ReadOne(g, h, node(h)), CaughtUp);
  }

  lemma StuckBegins()
    ensures Run(INIT, StuckAtThree(2)) == Stuck(2)
  {
    var e := StuckAtThree(2);
    assert e[..3][..2] == e[..2] && e[..2][..1] == e[..1] && e[..1][..0] == [];
    var f1 := INIT.(seenHeight := 3);
    assert Run(INIT, e[..1]) == f1;
    var f2 := Feed(0, 3, 1, None, 3, [], [3], [], 0, 0, 3, 1);
    assert Run(INIT, e[..2]) == f2;
    var f3 := f2.(lastBlock := Some(BlockAt(1)));
    assert Run(INIT, e[..3]) == f3;
    assert StartOf(f3) == 2 && Begun(f3) == f3;
    ReadTwoSteps(f3, 2, AllButThree);
    assert Threes(1) == [3] && Threes(2) == [3, 3];
  }

  lemma StuckGoesOn(n: nat)
    requires 2 <= n < 9
    ensures CaughtUpTo(Stuck(n), AllButThree) == Stuck(n + 1)
  {
    var f := Stuck(n);
    assert StartOf(f) == 3 && Begun(f) == f;
    assert ReadAll(f, 3, 3, AllButThree) == Ended(Counted(f, 3), HeldBy(3));
  }

  lemma {:induction false} StuckStays(n: nat)
    requires 2 <= n <= 9
    ensures Run(INIT, StuckAtThree(n)) == Stuck(n)
  {
    if n == 2 {
      StuckBegins();
    } else {
      var e := StuckAtThree(n);
      assert e[..|e| - 1] == StuckAtThree(n - 1);
      StuckStays(n - 1);
      StuckGoesOn(n - 1);
    }
  }

  /** And then 4 is reported, and the tenth failed read gives 3 up. */
  function GivesUpThree(): seq<Event> {
    StuckAtThree(9) + [Observe(4)] + [CatchUp(AllButThree)]
  }

  lemma ThreeIsGivenUp()
    ensures Run(INIT, GivesUpThree()) ==
            Feed(5, 3, 10, Some(BlockAt(4)), 4, [BlockAt(2), BlockAt(4)], Threes(10), [], 2, 1, 3, 0)
  {
    var e := GivesUpThree();
    assert e[..|e| - 1] == StuckAtThree(9) + [Observe(4)];
    assert (StuckAtThree(9) + [Observe(4)])[..|StuckAtThree(9)|] == StuckAtThree(9);
    StuckStays(9);
    var f := Stuck(9).(seenHeight := 4);
    assert Run(INIT, e[..|e| - 1]) == f;
    assert StartOf(f) == 3 && Begun(f) == f;
    ReadTwoSteps(f, 3, AllButThree);
  }

  /**
   A run in which a missing height that was not jumped over has only nine failed reads since the
   first height was passed.
   */
  lemma NineSinceTheFirst()
    ensures var f := Run(INIT, GivesUpThree());
            IsMissing(f, 3) && !JumpedOver(f.jumps, 3) && SpansTheFirst(f, 3) && FailedFrom(f.failLog, f.mark, 3) == 9
  {
    ThreeIsGivenUp();
    ThreesAre(10);
    var f := Run(INIT, GivesUpThree());
    assert !Published(f.published, 3);
    FailedReadsLeft(f.failLog, f.mark, 0, 3, f.mark);
  }

  lemma {:induction false} ThreesAre(n: nat)
    ensures |Threes(n)| == n && forall i :: 0 <= i < n ==> Threes(n)[i] == 3
  {
    if n > 0 {
      ThreesAre(n - 1);
    }
  }
}

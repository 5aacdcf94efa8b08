/** Round-robin polling within one call of the read scheduler, on values: what holds throughout the
    call, what each turn and each pass add to it, and why the call may stop. */
module ReadPasses {
  import opened Segmentation
  import opened Readers
  import opened Rings
  import Budgets

  /** One file was polled: which event happened and how it was reported. */
  ghost predicate Advanced<T>(r: Reader<T>, before: seq<Event<T>>, index: nat, q: Reader<T>, after: seq<Event<T>>,
                              faulted: bool, progressed: bool, asked: bool)
  {
    && |after| == |before| + 1 && after[..|before|] == before && index < |r.files|
    && var e := after[|before|];
       && e.PollFile? && e.index == index && Enabled(r, e) && q == PollStep(r, index, e.answer, e.made).0
       && (faulted <==> q.terminated)
       && (!faulted ==> progressed == PollStep(r, index, e.answer, e.made).1)
       && asked == Asks(r, index)
  }

  /** In the events from position `from` on, exactly the files that wait for their backend were
      found pending, each once; finished files are set aside too. */
  ghost predicate Settling<T>(init: Reader<T>, r: Reader<T>, h: seq<Event<T>>, from: nat) {
    && PendingOnce(init, h, from)
    && (forall k :: from <= k < |h| && h[k].PollFile? && h[k].answer.Pending? ==>
          h[k].index < |r.files| && r.files[h[k].index].blocked)
    && (forall i :: 0 <= i < |r.files| && r.files[i].blocked ==>
          r.files[i].received == r.files[i].count || PendingIn(h, from, i))
  }

  /** One call, which began after event `from`, reached `r` and may still poll `left` of `limit`. */
  ghost predicate Driving<T>(init: Reader<T>, from: nat, r: Reader<T>, h: seq<Event<T>>, left: nat, limit: nat) {
    && from <= |h| && Run(init, h) == Some(r) && !r.terminated
    && left + Polls(init, h, from) == limit
    && Extra(r) == 0
    && Settling(init, r, h, from)
  }

  /** The `n` events from `at` on polled `n` files in ring order. */
  ghost predicate Rounds<T>(h: seq<Event<T>>, at: nat, first: nat, n: nat, count: nat) {
    && at + n <= |h|
    && forall k :: at <= k < at + n ==> h[k].PollFile? && h[k].index == RingAt(first, k - at, count)
  }

  /** A pass of `n` turns after events `h0`. */
  ghost predicate Passing<T>(init: Reader<T>, from: nat, r: Reader<T>, h0: seq<Event<T>>, h: seq<Event<T>>,
                             left: nat, limit: nat, progressed: bool, first: nat, n: nat, count: nat)
  {
    && Driving(init, from, r, h, left, limit)
    && from <= |h0| && h0 <= h && |h| == |h0| + n
    && n <= count == |r.files| && first < count
    && Rounds(h, |h0|, first, n, count)
    && (!progressed ==> forall i :: 0 <= i < count && Visited(i, first, n, count) ==> Stuck(r, i))
  }

  /** No file was polled by the events from `from` on. */
  ghost predicate Quiet<T>(h: seq<Event<T>>, from: nat) {
    forall k :: from <= k < |h| ==> !h[k].PollFile?
  }

  /** Events without polls leave nothing to account for. */
  lemma {:induction false} QuietEvents<T>(init: Reader<T>, h: seq<Event<T>>, from: nat)
    requires Quiet(h, from)
    ensures Polls(init, h, from) == 0 && PendingOnce(init, h, from)
    decreases |h|
  {
    if from < |h| {
      QuietEvents(init, h[..|h| - 1], from);
    }
  }

  /** Once the window is authorized and every file unblocked, the call's polling may begin. */
  lemma DriveStarts<T>(init: Reader<T>, from: nat, r: Reader<T>, h: seq<Event<T>>, limit: nat)
    requires from <= |h| && Run(init, h) == Some(r) && !r.terminated && Extra(r) == 0 && Fresh(r) && Quiet(h, from)
    ensures Driving(init, from, r, h, limit, limit) && Quiet(h[..|h|], from)
  {
    QuietEvents(init, h, from);
    assert h[..|h|] == h;
  }

  /** No file has been set aside yet. */
  predicate Fresh<T>(r: Reader<T>) {
    forall i :: 0 <= i < |r.files| ==> !r.files[i].blocked
  }

  /** Every file has been set aside for this call. */
  predicate AllSetAside<T>(r: Reader<T>) {
    forall i :: 0 <= i < |r.files| ==> r.files[i].blocked
  }

  /** What no poll, grant or authorization changes. */
  ghost predicate Carried<T>(r: Reader<T>, q: Reader<T>) {
    && q.emitted == r.emitted && q.outputs == r.outputs && q.admitted == r.admitted && q.discovered == r.discovered
    && q.closed == r.closed && q.window == r.window && q.delivered == r.delivered && q.total == r.total
  }

  lemma CarriedSelf<T>(r: Reader<T>)
    ensures Carried(r, r)
  {
  }

  lemma CarriedSeen<T>(r: Reader<T>, q: Reader<T>)
    requires Carried(r, q)
    ensures q.window == r.window
    ensures q.admitted == r.admitted && q.emitted == r.emitted && q.delivered == r.delivered && q.closed == r.closed
  {
  }

  /** What reserving, authorizing and unblocking achieve together. */
  lemma PreparedSeen<T>(r0: Reader<T>, h0: seq<Event<T>>, r: Reader<T>, h1: seq<Event<T>>, h: seq<Event<T>>)
    requires r == r0.(capacity := r.capacity) && h0 <= h1 && Quiet(h1, |h0|)
    requires h == h1 + [Event.Authorize] + [Event.Unblock]
    ensures var a := AuthorizeStep(r);
            var q := a.(files := Unblocked(a.files));
            && Fresh(q) && Extra(q) == 0 && |q.files| == |r0.files| && q.capacity == r.capacity && Carried(r0, q)
    ensures h0 <= h && Quiet(h, |h0|)
  {
    AuthorizeIsIdempotent(r);
    forall k | |h0| <= k < |h|
      ensures !h[k].PollFile?
    {
      if k < |h1| {
        assert h[k] == h1[k];
      }
    }
  }

  lemma CarriedTrans<T>(q: Reader<T>, r: Reader<T>, s: Reader<T>)
    requires Carried(q, r) && Carried(r, s)
    ensures Carried(q, s)
  {
  }

  lemma PollCarries<T>(r: Reader<T>, i: nat, answer: Answer<T>, made: T)
    requires i < |r.files| && !r.terminated
    ensures Carried(r, PollStep(r, i, answer, made).0)
  {
    hide PollRead;
    if InWindow(r, r.files[i]) {
      ReadCarries(r, i, answer, made);
    }
  }

  lemma ReadCarries<T>(r: Reader<T>, i: nat, answer: Answer<T>, made: T)
    requires i < |r.files| && InWindow(r, r.files[i])
    ensures Carried(r, PollRead(r, i, answer, made).0)
  {
    hide WithBuffer;
    WithBufferKeepsRest(r, Offset(r, r.files[i]), made);
  }

  /** The files polled by the events from position `from` on, in order. */
  function Turns<T>(h: seq<Event<T>>, from: nat): seq<nat>
    decreases |h|
  {
    if |h| <= from then []
    else
      var last := h[|h| - 1];
      Turns(h[..|h| - 1], from) + if last.PollFile? then [last.index] else []
  }

  lemma TurnsOn<T>(r: Reader<T>, h: seq<Event<T>>, from: nat, index: nat, q: Reader<T>, after: seq<Event<T>>,
                   faulted: bool, progressed: bool, asked: bool)
    requires from <= |h| && Advanced(r, h, index, q, after, faulted, progressed, asked)
    ensures Turns(after, from) == Turns(h, from) + [index]
  {
    hide PollStep;
  }

  /** Events that poll nothing take no turn. */
  lemma {:induction false} QuietTurns<T>(h: seq<Event<T>>, after: seq<Event<T>>, from: nat)
    requires from <= |h| && h <= after && Quiet(after, |h|)
    ensures Turns(after, from) == Turns(h, from)
    decreases |after|
  {
    if |h| < |after| {
      assert after[..|after| - 1] + [after[|after| - 1]] == after;
      QuietTurns(h, after[..|after| - 1], from);
    } else {
      assert h == after;
    }
  }

  lemma QuietEvent<T>(h: seq<Event<T>>, e: Event<T>)
    requires !e.PollFile?
    ensures Quiet(h, |h|) && Quiet(h + [e], |h|)
  {
  }

  /** An event that polls nothing takes no turn. */
  lemma QuietTurn<T>(h: seq<Event<T>>, from: nat, e: Event<T>)
    requires from <= |h| && !e.PollFile?
    ensures Turns(h + [e], from) == Turns(h, from)
  {
    assert (h + [e])[..|h|] == h;
  }

  lemma NoTurns<T>(h: seq<Event<T>>, from: nat, first: nat, count: nat)
    requires from <= |h| && Quiet(h, from)
    ensures Turns(h, from) == [] && (count > 0 ==> Rotates(Turns(h, from), first, first, count))
  {
    assert h[..from] <= h;
    QuietTurns(h[..from], h, from);
  }

  /** What the loop over one pass sees of a turn. */
  lemma TurnSeen<T>(r0: Reader<T>, r: Reader<T>, h: seq<Event<T>>, index: nat, q: Reader<T>, after: seq<Event<T>>,
                    faulted: bool, progressed: bool, asked: bool)
    requires Advanced(r, h, index, q, after, faulted, progressed, asked) && Carried(r0, r) && !r.terminated
    ensures h <= after && (faulted <==> q.terminated) && Carried(r0, q)
    ensures !faulted && progressed ==> asked
  {
    var e := after[|h|];
    PollCarries(r, index, e.answer, e.made);
    ProgressAsks(r, index, e.answer, e.made);
    hide PollStep;
    assert after[..|h|] == h;
  }

  /** Only a file that asks its backend can make progress. */
  lemma ProgressAsks<T>(r: Reader<T>, i: nat, answer: Answer<T>, made: T)
    requires i < |r.files|
    ensures PollStep(r, i, answer, made).1 ==> Asks(r, i)
  {
  }

  /** The first polls of the call go once around all files before any file is polled again. */
  ghost predicate VisitsAll<T>(h: seq<Event<T>>, from: nat, count: nat) {
    exists at, first :: Visiting(h, from, at, first, count)
  }

  ghost predicate Visiting<T>(h: seq<Event<T>>, from: nat, at: nat, first: nat, count: nat) {
    from <= at <= |h| && first < count && Quiet(h[..at], from) && Rounds(h, at, first, count, count)
  }

  /** A whole round stays in the history. */
  lemma RoundsStay<T>(h: seq<Event<T>>, after: seq<Event<T>>, at: nat, first: nat, count: nat, from: nat)
    requires h <= after && from <= at <= |h| && first < count && Quiet(h[..at], from)
    requires Rounds(h, at, first, count, count) || Rounds(after, at, first, count, count)
    ensures Rounds(after, at, first, count, count) && Quiet(after[..at], from) && VisitsAll(after, from, count)
  {
    assert after[..at] == h[..at];
    assert Visiting(after, from, at, first, count);
  }

  lemma PassStarts<T>(init: Reader<T>, from: nat, r: Reader<T>, h: seq<Event<T>>, left: nat, limit: nat, first: nat)
    requires Driving(init, from, r, h, left, limit) && first < |r.files|
    ensures Passing(init, from, r, h, h, left, limit, false, first, 0, |r.files|)
    ensures RingAt(first, 0, |r.files|) == first
  {
  }

  /** A poll that finds its file pending is the first to do so in this call. */
  lemma TurnSettles<T>(init: Reader<T>, r: Reader<T>, h: seq<Event<T>>, from: nat, index: nat, q: Reader<T>,
                       after: seq<Event<T>>, faulted: bool, progressed: bool, asked: bool)
    requires Settling(init, r, h, from) && from <= |h| && Run(init, h) == Some(r) && Layout(r) && !r.terminated
    requires Advanced(r, h, index, q, after, faulted, progressed, asked)
    ensures PendingOnce(init, after, from)
    ensures !faulted ==> Settling(init, q, after, from)
  {
    hide PollStep, Layout, PendingOnce, PendingIn, Run;
    TurnAsksNobodyPending(init, r, h, from, after);
    if !faulted {
      TurnBlocks(init, r, h, from, index, q, after, progressed, asked);
      var e := after[|h|];
      IdlePoll(r, index, e.answer, e.made);
      forall i | 0 <= i < |q.files| && q.files[i].blocked
        ensures q.files[i].received == q.files[i].count || PendingIn(after, from, i)
      {
        TurnKeepsCause(init, r, h, from, index, q, after, progressed, asked, i);
      }
    }
  }

  /** Files that were found pending are set aside, so a turn does not ask them. */
  lemma TurnAsksNobodyPending<T>(init: Reader<T>, r: Reader<T>, h: seq<Event<T>>, from: nat, after: seq<Event<T>>)
    requires Settling(init, r, h, from) && from <= |h| && Run(init, h) == Some(r)
    requires |after| == |h| + 1 && after[..|h|] == h
    ensures PendingOnce(init, after, from)
  {
    hide Run;
    var e := after[|h|];
    assert after == h + [e] && (h + [e])[..|h|] == h;
    PendingOnceAppend(init, h, from, e);
  }

  lemma TurnBlocks<T>(init: Reader<T>, r: Reader<T>, h: seq<Event<T>>, from: nat, index: nat, q: Reader<T>,
                      after: seq<Event<T>>, progressed: bool, asked: bool)
    requires Settling(init, r, h, from) && from <= |h| && Layout(r) && !r.terminated
    requires Advanced(r, h, index, q, after, false, progressed, asked)
    ensures forall k :: from <= k < |after| && after[k].PollFile? && after[k].answer.Pending? ==>
              after[k].index < |q.files| && q.files[after[k].index].blocked
  {
    hide PollStep, Layout, PendingOnce;
    var e := after[|h|];
    IdlePoll(r, index, e.answer, e.made);
    PendingBlocks(r, index, e.answer, e.made);
    forall k | from <= k < |after| && after[k].PollFile? && after[k].answer.Pending?
      ensures after[k].index < |q.files| && q.files[after[k].index].blocked
    {
      if k < |h| {
        assert after[..|h|][k] == h[k];
      }
    }
  }

  /** A pending answer sets its file aside, and a file set aside stays so. */
  lemma PendingBlocks<T>(r: Reader<T>, i: nat, answer: Answer<T>, made: T)
    requires i < |r.files| && (answer.Pending? ==> Asks(r, i)) && !PollStep(r, i, answer, made).0.terminated
    ensures var q := PollStep(r, i, answer, made).0;
            i < |q.files| && (answer.Pending? || r.files[i].blocked ==> q.files[i].blocked)
  {
  }

  lemma TurnKeepsCause<T>(init: Reader<T>, r: Reader<T>, h: seq<Event<T>>, from: nat, index: nat, q: Reader<T>,
                          after: seq<Event<T>>, progressed: bool, asked: bool, i: nat)
    requires Settling(init, r, h, from) && from <= |h| && Layout(r) && !r.terminated
    requires Advanced(r, h, index, q, after, false, progressed, asked)
    requires i < |q.files| && q.files[i].blocked && |q.files| == |r.files|
    ensures q.files[i].received == q.files[i].count || PendingIn(after, from, i)
  {
    hide Layout, PollStep;
    var e := after[|h|];
    IdlePoll(r, index, e.answer, e.made);
    if i != index {
      CauseStays(h, after, from, i);
    } else if r.files[i].blocked {
      BlockedPoll(r, i, e.answer, e.made);
      CauseStays(h, after, from, i);
    } else if q.files[i].received != q.files[i].count {
      assert PendingAt(after[|h|], i);
    }
  }

  lemma BlockedPoll<T>(r: Reader<T>, i: nat, answer: Answer<T>, made: T)
    requires i < |r.files| && r.files[i].blocked
    ensures PollStep(r, i, answer, made) == (r, false)
  {
  }

  lemma CauseStays<T>(h: seq<Event<T>>, after: seq<Event<T>>, from: nat, i: nat)
    requires h <= after
    ensures PendingIn(h, from, i) ==> PendingIn(after, from, i)
  {
    if PendingIn(h, from, i) {
      var k :| from <= k < |h| && PendingAt(h[k], i);
      assert after[k] == h[k];
    }
  }

  lemma TurnRounds<T>(h: seq<Event<T>>, after: seq<Event<T>>, at: nat, first: nat, n: nat, count: nat)
    requires Rounds(h, at, first, n, count) && |h| == at + n
    requires |after| == |h| + 1 && h <= after && after[|h|].PollFile? && after[|h|].index == RingAt(first, n, count)
    ensures Rounds(after, at, first, n + 1, count)
  {
  }

  /** Files passed over stay stuck: another file's poll moves neither them nor the window. */
  lemma TurnKeepsStuck<T>(r: Reader<T>, q: Reader<T>, index: nat, answer: Answer<T>, made: T, first: nat, n: nat)
    requires Layout(r) && !r.terminated && index == RingAt(first, n, |r.files|) && n < |r.files| && first < |r.files|
    requires (q, false) == PollStep(r, index, answer, made) && !q.terminated
    requires forall i :: 0 <= i < |r.files| && Visited(i, first, n, |r.files|) ==> Stuck(r, i)
    ensures |q.files| == |r.files|
    ensures forall i :: 0 <= i < |q.files| && Visited(i, first, n + 1, |r.files|) ==> Stuck(q, i)
  {
    IdlePoll(r, index, answer, made);
    hide PollStep, Layout;
    forall i | 0 <= i < |q.files| && Visited(i, first, n + 1, |r.files|)
      ensures Stuck(q, i)
    {
      if i != index {
        assert Visited(i, first, n, |r.files|) && Stuck(r, i);
      }
    }
  }

  /** Some backend reported an error, or the end of a file, since event `from`. */
  ghost predicate Fault<T>(events: seq<Event<T>>, from: nat) {
    exists k :: from <= k < |events| && FaultAt(events[k])
  }

  predicate FaultAt<T>(e: Event<T>) {
    e.PollFile? && (e.answer.Failed? || e.answer.Eof?)
  }

  lemma FaultStays<T>(events: seq<Event<T>>, from: nat, later: seq<Event<T>>, earlier: nat)
    requires events <= later && earlier <= from
    ensures Fault(events, from) ==> Fault(later, earlier)
  {
    if Fault(events, from) {
      var k :| from <= k < |events| && FaultAt(events[k]);
      assert FaultAt(later[k]);
    }
  }

  lemma TurnFaults<T>(r: Reader<T>, h: seq<Event<T>>, index: nat, q: Reader<T>, after: seq<Event<T>>,
                      progressed: bool, asked: bool, from: nat)
    requires Inv(r) && !r.terminated && from <= |h| && Advanced(r, h, index, q, after, true, progressed, asked)
    ensures Fault(after, from)
  {
    hide Inv, PollStep;
    var e := after[|h|];
    PollFailsExactly(r, index, e.answer, e.made);
    assert FaultAt(after[|h|]);
  }

  lemma PassTurn<T>(init: Reader<T>, from: nat, r: Reader<T>, h0: seq<Event<T>>, h: seq<Event<T>>,
                    left: nat, limit: nat, progressed: bool, first: nat, n: nat, count: nat,
                    index: nat, q: Reader<T>, after: seq<Event<T>>, faulted: bool, moved: bool, asked: bool)
    requires Passing(init, from, r, h0, h, left, limit, progressed, first, n, count) && Inv(r)
    requires n < count && index == RingAt(first, n, count) && left > 0
    requires Advanced(r, h, index, q, after, faulted, moved, asked) && Run(init, after) == Some(q)
    ensures h0 <= after && PendingOnce(init, after, from)
    ensures Polls(init, after, from) + left == limit + (if asked then 1 else 0)
    ensures !faulted ==>
              Passing(init, from, q, h0, after, if asked then left - 1 else left, limit, progressed || moved,
                  first, n + 1, count)
    ensures faulted ==> Fault(after, |h0|)
  {
    hide Fault, PollStep, Settling, Layout, Rounds, Inv, Run, Stuck, Visited, RingAt, Polls;
    var e := after[|h|];
    assert after == h + [e];
    PollsAppend(init, h, from, e);
    InvLayout(r);
    TurnSettles(init, r, h, from, index, q, after, faulted, moved, asked);
    TurnRounds(h, after, |h0|, first, n, count);
    PollKeepsRest(r, index, e.answer, e.made);
    if faulted {
      TurnFaults(r, h, index, q, after, moved, asked, |h0|);
    } else {
      SameExtra(r, q);
      if !moved && !progressed {
        TurnKeepsStuck(r, q, index, e.answer, e.made, first, n);
      }
    }
  }

  lemma InvLayout<T>(r: Reader<T>)
    requires Inv(r) && !r.terminated
    ensures Layout(r)
  {
  }

  lemma SameExtra<T>(r: Reader<T>, q: Reader<T>)
    requires Untouched(r, q)
    ensures Extra(q) == Extra(r)
  {
  }

  /** A complete pass polled every file, and if none moved all are stuck. */
  lemma PassEnds<T>(init: Reader<T>, from: nat, r: Reader<T>, h0: seq<Event<T>>, h: seq<Event<T>>,
                    left: nat, limit: nat, progressed: bool, first: nat, count: nat)
    requires Passing(init, from, r, h0, h, left, limit, progressed, first, count, count)
    ensures !progressed ==> AllStuck(r)
    ensures Rounds(h, |h0|, first, count, count)
  {
    forall i | 0 <= i < count && !progressed
      ensures Stuck(r, i)
    {
      FullTurn(i, first, count);
    }
  }

  lemma PassSeen<T>(init: Reader<T>, from: nat, r: Reader<T>, h0: seq<Event<T>>, h: seq<Event<T>>,
                    left: nat, limit: nat, progressed: bool, first: nat, n: nat, count: nat)
    requires Passing(init, from, r, h0, h, left, limit, progressed, first, n, count)
    ensures Driving(init, from, r, h, left, limit) && h0 <= h && PendingOnce(init, h, from)
    ensures Polls(init, h, from) <= limit
    ensures |r.files| == count
  {
  }

  lemma DrivingSeen<T>(init: Reader<T>, from: nat, r: Reader<T>, h: seq<Event<T>>, left: nat, limit: nat)
    requires Driving(init, from, r, h, left, limit)
    ensures PendingOnce(init, h, from) && Polls(init, h, from) <= limit && !r.terminated
    ensures left == 0 ==> Polls(init, h, from) == limit
  {
  }

  /** Authorizing again within the call adds nothing. */
  lemma AuthorizeAgain<T>(init: Reader<T>, from: nat, r: Reader<T>, h: seq<Event<T>>, left: nat, limit: nat)
    requires Driving(init, from, r, h, left, limit)
    ensures AuthorizeStep(r) == r && Driving(init, from, r, h + [Event.Authorize], left, limit)
  {
    AuthorizeIsIdempotent(r);
    var after := h + [Event<T>.Authorize];
    RunAppend(init, h, Event.Authorize);
    PollsAppend(init, h, from, Event.Authorize);
    PendingOnceAppend(init, h, from, Event.Authorize);
    forall i
      ensures PendingIn(h, from, i) ==> PendingIn(after, from, i)
    {
      CauseStays(h, after, from, i);
    }
  }

  /** Whether the first frame is not there to hand out. */
  predicate FrontMissing<T>(r: Reader<T>) {
    r.frames == [] || !r.frames[0].complete
  }

  lemma FrontSeen<T>(r: Reader<T>)
    ensures FrontMissing(r) <==> r.frames == [] || !r.frames[0].complete
  {
  }

  /** What will lead on: the last thing the head file's backend was asked in this call is pending,
      or no cell is authorized and the permit waits in the budget queue. */
  ghost predicate HeadAwaits<T>(init: Reader<T>, r: Reader<T>, p: Budgets.Permit, h: seq<Event<T>>, from: nat) {
    || (r.files != [] && r.files[0].blocked && Awaits(init, h, from, 0))
    || (r.frames == [] && p.waiting)
  }

  /** No lost wakeup: a call may stop once the head file is stuck. */
  lemma StoppedFrontWaits<T>(init: Reader<T>, from: nat, r: Reader<T>, h: seq<Event<T>>, left: nat, limit: nat,
                             p: Budgets.Permit, stopped: bool)
    requires Driving(init, from, r, h, left, limit) && Inv(r)
    requires r.files != [] && (stopped ==> AllStuck(r)) && (r.capacity == 0 ==> p.waiting)
    ensures stopped && FrontMissing(r) ==> HeadAwaits(init, r, p, h, from)
  {
    InvLayout(r);
    if !stopped {
    } else if r.frames == [] {
      NoCellsNoCapacity(r);
    } else if !r.frames[0].complete {
      StuckHeadIsBlocked(r);
      PendingAwaits(init, h, from, 0);
    }
  }

  /** Nothing held, nothing granted and nothing asked for. */
  predicate MayRest(p: Budgets.Permit) {
    p.capacity == 0 && p.granted == 0 && !p.waiting
  }

  /** Why a caller waits: the input is empty and open and nothing is asked for, or there is
      something outstanding that will lead on. */
  ghost predicate WaitCause<T>(init: Reader<T>, r: Reader<T>, p: Budgets.Permit, h: seq<Event<T>>, from: nat) {
    if r.files == [] then !r.closed && MayRest(p) else HeadAwaits(init, r, p, h, from)
  }

  lemma DriveSeen<T>(init: Reader<T>, r: Reader<T>, p: Budgets.Permit, h: seq<Event<T>>, from: nat)
    ensures r.files != [] && HeadAwaits(init, r, p, h, from) ==> WaitCause(init, r, p, h, from)
  {
  }

  /** An event other than a poll adds no work. */
  lemma QuietStep<T>(init: Reader<T>, h: seq<Event<T>>, from: nat, e: Event<T>)
    requires from <= |h| && !e.PollFile?
    ensures h <= h + [e] && Polls(init, h + [e], from) == Polls(init, h, from)
    ensures PendingOnce(init, h, from) ==> PendingOnce(init, h + [e], from)
  {
    PollsAppend(init, h, from, e);
    if PendingOnce(init, h, from) {
      PendingOnceAppend(init, h, from, e);
    }
  }

  lemma NothingPolled<T>(init: Reader<T>, h: seq<Event<T>>, r: Reader<T>)
    ensures Polls(init, h, |h|) == 0 && PendingOnce(init, h, |h|) && Carried(r, r)
  {
  }

  lemma FinishSeen<T>(init: Reader<T>, r: Reader<T>, h: seq<Event<T>>, q: Reader<T>, p: Budgets.Permit)
    requires q == r.(capacity := 0, terminated := r.closed) && r.files == [] && MayRest(p)
    ensures Carried(r, q) && (!q.terminated ==> WaitCause(init, q, p, h + [Finish], |h|))
    ensures h <= h + [Finish] && Polls(init, h + [Finish], |h|) == 0 && PendingOnce(init, h + [Finish], |h|)
  {
    QuietStep(init, h, |h|, Finish);
  }

  /** A terminated reader has failed or delivered everything; a failure is reported once. */
  lemma ReaderSeen<T>(r: Reader<T>)
    requires Inv(r)
    ensures r.error.Some? ==> r.terminated && r.delivered == 0
    ensures r.delivered <= 1 && (r.delivered == 1 ==> r.terminated)
    ensures r.terminated && r.error.None? ==>
              r.delivered == 1 || (r.closed && r.emitted == |Flatten(Contents(r.admitted))|)
  {
  }

  /** The first complete frame is the next one of the sequential reading. */
  lemma FrontFrame<T>(r: Reader<T>, given: T)
    requires Inv(r) && !r.terminated && r.frames != [] && r.frames[0].complete
    ensures r.files != []
    ensures r.emitted < |Flatten(Contents(r.admitted))|
    ensures r.frames[0].frame == Some(Flatten(Contents(r.admitted))[r.emitted])
    ensures var q := EmitStep(r, given);
            q.emitted == r.emitted + 1 && q.admitted == r.admitted && q.delivered == r.delivered && q.closed == r.closed
  {
    NonemptyWindow(r);
    EmittedFrame(r);
    EmitChanges(r, given);
  }
}

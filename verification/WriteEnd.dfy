/** Closing comes to an end: when backends succeed, every state change brings the writer closer to
    the state in which everything is closed, and nothing leads away from it. */
module WriteEnds {
  import opened Segmentation
  import opened WriteSlots
  import opened Writers
  import opened Rings

  /** State changes that are left until all of `files` are closed, if no backend fails. */
  function StagesOf<T>(files: seq<Slot<T>>): nat {
    if files == [] then 0 else Stage(files[0]) + StagesOf(files[1..])
  }

  function Effort<T>(w: Writer<T>): nat {
    StagesOf(w.files)
  }

  /** Every poll since event `from` succeeded. */
  predicate Succeeds<T(==)>(events: seq<Event<T>>, from: nat) {
    forall k :: from <= k < |events| && events[k].PollSlot? ==> events[k].answer.Done?
  }

  /** Some backend reported an error since event `from`. */
  ghost predicate Failure<T>(events: seq<Event<T>>, from: nat) {
    exists k :: from <= k < |events| && FailureAt(events[k])
  }

  predicate FailureAt<T>(e: Event<T>) {
    e.PollSlot? && e.answer.Failed?
  }

  lemma FailureStays<T>(events: seq<Event<T>>, from: nat, later: seq<Event<T>>, earlier: nat)
    requires events <= later && earlier <= from
    ensures Failure(events, from) ==> Failure(later, earlier)
  {
    if Failure(events, from) {
      var k :| from <= k < |events| && FailureAt(events[k]);
      assert FailureAt(later[k]);
    }
  }

  ghost predicate NoPolls<T>(events: seq<Event<T>>, from: nat) {
    forall k :: from <= k < |events| ==> !events[k].PollSlot?
  }

  /** Events that poll nothing change nothing that is counted. */
  lemma {:induction false} QuietWork<T>(w: Writer<T>, before: seq<Event<T>>, events: seq<Event<T>>, from: nat)
    requires from <= |before| && before <= events && NoPolls(events, |before|)
    ensures Work(w, events, from) == Work(w, before, from)
    decreases |events|
  {
    if |before| == |events| {
      assert before == events;
    } else {
      QuietWork(w, before, events[..|events| - 1], from);
    }
  }

  lemma {:induction false} LateWork<T>(w: Writer<T>, before: seq<Event<T>>, events: seq<Event<T>>, from: nat)
    requires from <= |before| && before <= events && NoPolls(before, from)
    ensures Work(w, events, from) == Work(w, events, |before|)
    decreases |events|
  {
    if |before| == |events| {
      assert before == events;
      NothingDone(w, events, from);
    } else {
      LateWork(w, before, events[..|events| - 1], from);
    }
  }

  lemma {:induction false} NothingDone<T>(w: Writer<T>, events: seq<Event<T>>, from: nat)
    requires NoPolls(events, from)
    ensures Work(w, events, from) == 0
    decreases |events|
  {
    if from < |events| {
      NothingDone(w, events[..|events| - 1], from);
    }
  }

  lemma {:induction false} StagesUpdate<T>(files: seq<Slot<T>>, i: nat, s: Slot<T>)
    requires i < |files|
    ensures StagesOf(files[i := s]) == StagesOf(files) - Stage(files[i]) + Stage(s)
  {
    if i == 0 {
      assert files[i := s][1..] == files[1..];
    } else {
      assert files[i := s][1..] == files[1..][i - 1 := s];
      StagesUpdate(files[1..], i - 1, s);
    }
  }

  lemma {:induction false} StagesPrefix<T>(files: seq<Slot<T>>, k: nat)
    requires k <= |files|
    ensures StagesOf(files[..k]) <= StagesOf(files)
  {
    if k > 0 {
      assert files[..k][1..] == files[1..][..k - 1];
      StagesPrefix(files[1..], k - 1);
    }
  }

  /** A successful poll that changes a slot brings it closer to its end. */
  lemma DoneLowersStage<T>(s: Slot<T>, closing: bool, maxRetries: nat)
    requires SlotInv(s, maxRetries)
    ensures var r := Poll(s, Done, closing, maxRetries);
            && r.Polled?
            && Stage(r.slot) + (if r.changed then 1 else 0) <= Stage(s)
  {
    PollKeepsAssigned(s, Done, closing, maxRetries);
  }

  lemma DoneLowersEffort<T>(w: Writer<T>, i: nat)
    requires Inv(w) && !w.phase.Broken? && i < |w.files|
    ensures var v := PollStep(w, i, Done);
            v.phase == w.phase && Progress(Some(w), PollSlot(i, Done)) + Effort(v) <= Effort(w)
  {
    assert FileOk(w, i);
    DoneLowersStage(w.files[i], w.phase.Draining?, w.maxRetries);
    var r := Poll(w.files[i], Done, w.phase.Draining?, w.maxRetries);
    StagesUpdate(w.files, i, r.slot);
  }

  /** An event of a closing writer that no failing poll is part of. */
  lemma StepLowersEffort<T>(w: Writer<T>, e: Event<T>)
    requires Inv(w) && w.phase.Draining? && Enabled(w, e) && (e.PollSlot? ==> e.answer.Done?)
    ensures var v := Step(w, e);
            v.phase.Draining? && |v.files| <= |w.files| && Progress(Some(w), e) + Effort(v) <= Effort(w)
  {
    hide Inv, PollStep;
    match e
    case PollSlot(i, _) => DoneLowersEffort(w, i); DoneKeepsFiles(w, i);
    case Fill(_) => NoPartial(w);
    case _ =>
  }

  lemma DoneKeepsFiles<T>(w: Writer<T>, i: nat)
    requires i < |w.files|
    ensures |PollStep(w, i, Done).files| <= |w.files|
  {
  }

  lemma NoPartial<T>(w: Writer<T>)
    requires Inv(w) && w.phase.Draining?
    ensures w.partial.None?
  {
  }

  /** Beginning to close leaves no more to do than there was. */
  lemma CloseLowersEffort<T>(w: Writer<T>)
    requires Inv(w) && w.phase.Accepting?
    ensures w.partial.Some? ==> w.fill < |w.files|
    ensures CloseStep(w).phase.Draining? && |CloseStep(w).files| <= |w.files| && Effort(CloseStep(w)) <= Effort(w)
  {
    FlushLowersEffort(w);
    FlushIgnoresPhase(w);
    var k := DropUnusedPrefix(Flush(w).files);
    StagesPrefix(Flush(w).files, k);
  }

  lemma FlushLowersEffort<T>(w: Writer<T>)
    requires Shape(w)
    ensures |Flush(w).files| == |w.files| && Effort(Flush(w)) <= Effort(w)
  {
    if w.partial.Some? && !w.partial.value.empty {
      assert FileOk(w, w.fill);
      StagesUpdate(w.files, w.fill, Flush(w).files[w.fill]);
    }
  }

  /** Main result. While the polls of a closing writer succeed it is never broken, and the state
      changes they make are paid for, one each, out of a finite effort. */
  lemma {:induction false} SuccessfulClosingEnds<T>(w: Writer<T>, events: seq<Event<T>>, from: nat)
    requires Inv(w) && from <= |events| && Run(w, events).Some? && Succeeds(events, from)
    requires Run(w, events[..from]).Some? && Run(w, events[..from]).value.phase.Draining?
    ensures var u, v := Run(w, events[..from]).value, Run(w, events).value;
            && v.phase.Draining? && |v.files| <= |u.files|
            && Work(w, events, from) + Effort(v) <= Effort(u)
    decreases |events|
  {
    hide Inv, Step, Progress, Effort;
    if |events| == from {
      assert events[..from] == events;
    } else {
      var last := |events| - 1;
      assert events[..last][..from] == events[..from];
      SuccessfulClosingEnds(w, events[..last], from);
      EveryRunKeepsInv(w, events[..last]);
      StepLowersEffort(Run(w, events[..last]).value, events[last]);
    }
  }

  /** The same while input is still open, as long as nothing is admitted. */
  lemma StepSpends<T>(w: Writer<T>, e: Event<T>)
    requires Inv(w) && Enabled(w, e) && (e.PollSlot? ==> e.answer.Done?) && |Step(w, e).admitted| == |w.admitted|
    ensures Progress(Some(w), e) + Effort(Step(w, e)) <= Effort(w)
  {
    hide Inv, PollStep, FillStep, CloseStep;
    match e
    case PollSlot(i, _) => DoneLowersEffort(w, i);
    case Fill(result) => FillLowersEffort(w, result);
    case BeginClose => CloseLowersEffort(w);
    case _ =>
  }

  lemma FillLowersEffort<T>(w: Writer<T>, result: FillResult<T>)
    requires Inv(w) && Enabled(w, Fill(result))
    ensures Effort(FillStep(w, result)) <= Effort(w)
  {
    if result.FillDone? && result.after.complete && !result.after.empty {
      var v := w.(partial := Some(result.after));
      assert FileOk(w, w.fill);
      StagesUpdate(v.files, v.fill, Flush(v).files[v.fill]);
    }
  }

  lemma AdmittedGrows<T>(w: Writer<T>, e: Event<T>)
    requires Enabled(w, e)
    ensures |w.admitted| <= |Step(w, e).admitted|
  {
    hide Needed, Fits, DropUnused;
  }

  /** Successful polls spend effort; only admitting a destination adds to it. */
  lemma {:induction false} SuccessfulWorkSpends<T>(w: Writer<T>, events: seq<Event<T>>, from: nat)
    requires Inv(w) && from <= |events| && Run(w, events).Some? && Succeeds(events, from)
    requires Run(w, events[..from]).Some?
    ensures |Run(w, events[..from]).value.admitted| <= |Run(w, events).value.admitted|
    ensures |Run(w, events).value.admitted| == |Run(w, events[..from]).value.admitted| ==>
              Work(w, events, from) + Effort(Run(w, events).value) <= Effort(Run(w, events[..from]).value)
    decreases |events|
  {
    hide Inv, Step, Progress, Effort;
    if |events| == from {
      assert events[..from] == events;
    } else {
      var last := |events| - 1;
      assert events[..last][..from] == events[..from];
      SuccessfulWorkSpends(w, events[..last], from);
      EveryRunKeepsInv(w, events[..last]);
      var v := Run(w, events[..last]).value;
      AdmittedGrows(v, events[last]);
      if |Step(v, events[last]).admitted| == |v.admitted| {
        StepSpends(v, events[last]);
      }
    }
  }

  // --- how many calls that takes -------------------------------------------------------------------

  /** What a closing call that polled with success only has achieved since state `u`. */
  ghost predicate Nearer<T>(u: Writer<T>, v: Writer<T>, changes: nat) {
    v.phase.Draining? && |v.files| <= |u.files| && Effort(v) + changes <= Effort(u)
  }

  /** Calls that may end without every destination closed and taken. */
  function CallsLeft<T>(w: Writer<T>): nat {
    Effort(w) / MAX_POLL_OPS + |w.files|
  }

  lemma NearerCalls<T>(u: Writer<T>, v: Writer<T>, n: nat)
    requires Nearer(u, v, n)
    ensures CallsLeft(v) <= CallsLeft(u) && (n >= MAX_POLL_OPS ==> CallsLeft(v) < CallsLeft(u))
  {
  }

  lemma TakenCalls<T>(w: Writer<T>)
    requires HeadDone(w)
    ensures CallsLeft(TakeHead(w)) < CallsLeft(w) && HeadsDone(TakeHead(w).files) + 1 == HeadsDone(w.files)
    ensures TakeHead(w).phase == w.phase
  {
    assert Effort(TakeHead(w)) <= Effort(w);
  }
}

/** How much work one destination takes over a whole run of the writer. */
module WriteWork {
  import opened Segmentation
  import opened WriteSlots
  import opened Writers

  /** Destination `k`, in admission order, is still in the window. */
  predicate InWindow<T>(w: Writer<T>, k: nat) {
    |w.popped| <= k < |w.popped| + |w.files|
  }

  /** State changes of destination `k` during a run. */
  function ChangesOf<T>(w: Writer<T>, events: seq<Event<T>>, k: nat): nat
    decreases |events|
  {
    if events == [] then 0
    else
      var last := |events| - 1;
      ChangesOf(w, events[..last], k) + ChangeOf(Run(w, events[..last]), events[last], k)
  }

  function ChangeOf<T>(w: Option<Writer<T>>, e: Event<T>, k: nat): nat {
    if w.Some? && e.PollSlot? && |w.value.popped| + e.index == k then Progress(w, e) else 0
  }

  /** State changes destination `k` may still make. */
  function Ahead<T>(w: Writer<T>, k: nat): nat {
    if InWindow(w, k) then Rank(w.files[k - |w.popped|], w.maxRetries) else 0
  }

  /** The state changes a destination may make over its life. */
  function Allowed<T>(w: Writer<T>, k: nat): nat {
    if k < |w.admitted| then (w.maxRetries + 1) * (w.admitted[k].capacity + 3) else 0
  }

  lemma PollSpends<T>(w: Writer<T>, index: nat, answer: Response<T>, k: nat)
    requires Inv(w) && Enabled(w, PollSlot(index, answer))
    ensures ChangeOf(Some(w), PollSlot(index, answer), k) + Ahead(PollStep(w, index, answer), k) <= Ahead(w, k)
  {
    assert FileOk(w, index);
    PollLowersRank(w.files[index], answer, w.phase.Draining?, w.maxRetries);
    UnchangedPoll(w, index, answer);
  }

  lemma FlushSpends<T>(w: Writer<T>, k: nat)
    requires Shape(w.(partial := None)) && w.phase.Accepting? && (w.partial.Some? ==> w.fill < |w.files|)
    ensures Ahead(Flush(w), k) <= Ahead(w, k)
  {
    if w.partial.Some? && !w.partial.value.empty {
      assert FileOk(w.(partial := None), w.fill);
      var s := w.files[w.fill];
      SlotNextBounded(s, PushEvent(w.partial.value.value), Push(s, w.partial.value.value), w.maxRetries);
    }
  }

  lemma AdmitSpends<T>(w: Writer<T>, file: Descriptor, k: nat)
    requires Inv(w) && w.phase.Accepting?
    ensures Ahead(Admit(w, file), k) + Allowed(w, k) <= Ahead(w, k) + Allowed(Admit(w, file), k)
  {
    assert |Descriptors(w)| == |w.admitted|;
    RankOfNew<T>(file.name, file.capacity, w.maxRetries);
  }

  lemma CloseSpends<T>(w: Writer<T>, k: nat)
    requires Inv(w) && w.phase.Accepting?
    ensures Ahead(CloseStep(w), k) <= Ahead(w, k) && CloseStep(w).admitted == w.admitted
    ensures CloseStep(w).maxRetries == w.maxRetries
  {
    SameFilesKeepShape(w, w.(partial := None));
    FlushSpends(w, k);
    FlushIgnoresPhase(w);
    var _ := DropUnusedPrefix(Flush(w).files);
  }

  lemma FillSpends<T>(w: Writer<T>, result: FillResult<T>, k: nat)
    requires Inv(w) && Enabled(w, Fill(result))
    ensures Ahead(FillStep(w, result), k) <= Ahead(w, k) && FillStep(w, result).admitted == w.admitted
    ensures FillStep(w, result).maxRetries == w.maxRetries
  {
    if result.FillDone? && result.after.complete && !result.after.empty {
      var v := w.(partial := Some(result.after));
      SameFilesKeepShape(w, v.(partial := None));
      FlushSpends(v, k);
    }
  }

  /** Every event pays for the changes it makes out of what the destination may still spend. */
  lemma StepSpends<T>(w: Writer<T>, e: Event<T>, k: nat)
    requires Inv(w) && Enabled(w, e)
    ensures ChangeOf(Some(w), e, k) + Ahead(Step(w, e), k) + Allowed(w, k) <= Ahead(w, k) + Allowed(Step(w, e), k)
  {
    hide Inv, Rank, PollStep, CloseStep, FillStep, Flush;
    match e
    case PushFile(file) => AdmitSpends(w, file, k);
    case PollSlot(index, answer) => PollSpends(w, index, answer, k); PollKeepsAdmitted(w, index, answer);
    case Fill(result) => FillSpends(w, result, k);
    case PopSwap(file) =>
      ValidPop(w);
      TakeHeadKeepsInv(w);
      AdmitSpends(TakeHead(w), file, k);
    case BeginClose => CloseSpends(w, k);
    case _ =>
  }

  lemma ValidPop<T>(w: Writer<T>)
    requires HeadDone(w)
    ensures forall k: nat :: Ahead(TakeHead(w), k) <= Ahead(w, k)
  {
  }

  lemma PollKeepsAdmitted<T>(w: Writer<T>, index: nat, answer: Response<T>)
    requires index < |w.files|
    ensures PollStep(w, index, answer).admitted == w.admitted && PollStep(w, index, answer).maxRetries == w.maxRetries
  {
  }

  lemma {:induction false} RunSpends<T>(w: Writer<T>, events: seq<Event<T>>, k: nat)
    requires Inv(w) && w.admitted == [] && w.files == [] && Run(w, events).Some?
    ensures var v := Run(w, events).value;
            ChangesOf(w, events, k) + Ahead(v, k) <= Allowed(v, k)
    decreases |events|
  {
    hide Inv, Ahead, Allowed, ChangeOf;
    if events == [] {
      NothingAhead(w, k);
    } else {
      var last := |events| - 1;
      RunSpends(w, events[..last], k);
      EveryRunKeepsInv(w, events[..last]);
      StepSpends(Run(w, events[..last]).value, events[last], k);
    }
  }

  lemma NothingAhead<T>(w: Writer<T>, k: nat)
    requires w.files == []
    ensures Ahead(w, k) == 0
  {
  }

  /** Main result. In any run of a writer, each destination changes state at most
      (retries + 1) * (capacity + 3) times from its admission to its close. */
  lemma EveryDestinationIsBounded<T>(w: Writer<T>, events: seq<Event<T>>, v: Writer<T>, k: nat)
    requires Inv(w) && w.admitted == [] && w.files == [] && Run(w, events) == Some(v) && k < |v.admitted|
    ensures ChangesOf(w, events, k) <= (v.maxRetries + 1) * (v.admitted[k].capacity + 3)
  {
    hide Inv, Run, ChangesOf, Ahead, Rank;
    RunSpends(w, events, k);
  }
}

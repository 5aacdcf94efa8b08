/** Reading comes to an end: when backends succeed, every poll leaves less to do, and a reader fails
    only on what a backend reported. */
module ReadEnds {
  import opened Segmentation
  import opened Readers
  import opened ReadPasses

  /** Polls with progress left to all of `files`, if no backend fails. */
  function RestOf<T>(files: seq<Slot<T>>, maxRetries: nat): nat {
    if files == [] then 0 else Rest(files[0], maxRetries) + RestOf(files[1..], maxRetries)
  }

  function Remaining<T>(r: Reader<T>): nat {
    RestOf(r.files, r.maxRetries)
  }

  /** Every poll since event `from` succeeded. */
  predicate Smooth<T(==)>(events: seq<Event<T>>, from: nat) {
    forall k :: from <= k < |events| && events[k].PollFile? ==> events[k].answer.Done?
  }

  lemma {:induction false} RestUpdate<T>(files: seq<Slot<T>>, i: nat, s: Slot<T>, maxRetries: nat)
    requires i < |files|
    ensures RestOf(files[i := s], maxRetries)
            == RestOf(files, maxRetries) - Rest(files[i], maxRetries) + Rest(s, maxRetries)
  {
    if i == 0 {
      assert files[i := s][1..] == files[1..];
    } else {
      assert files[i := s][1..] == files[1..][i - 1 := s];
      RestUpdate(files[1..], i - 1, s, maxRetries);
    }
  }

  lemma {:induction false} RestAppend<T>(a: seq<Slot<T>>, b: seq<Slot<T>>, maxRetries: nat)
    ensures RestOf(a + b, maxRetries) == RestOf(a, maxRetries) + RestOf(b, maxRetries)
  {
    if a == [] {
      assert a + b == b;
    } else {
      assert (a + b)[1..] == a[1..] + b;
      RestAppend(a[1..], b, maxRetries);
    }
  }

  /** A new file has to be opened and all its frames to be read. */
  lemma PushAddsRest<T>(r: Reader<T>, file: Source<T>)
    ensures Remaining(PushStep(r, file)) == Remaining(r) + r.maxRetries + 1 + |file.content|
  {
    var s := Slot(file, r.discovered, |file.content|, 0, 0, Opening, false);
    RestAppend(r.files, [s], r.maxRetries);
    assert [s][1..] == [];
  }

  /** A successful poll does not fail the reader, and leaves less to do if it asked a backend. */
  lemma DoneLowersRest<T>(r: Reader<T>, i: nat, made: T)
    requires Inv(r) && !r.terminated && i < |r.files|
    ensures var q := PollStep(r, i, Done, made).0;
            && !q.terminated && q.maxRetries == r.maxRetries
            && Remaining(q) + (if Asks(r, i) then 1 else 0) <= Remaining(r)
  {
    hide Inv, PollStep, Rest;
    PollFailsExactly(r, i, Done, made);
    PollLowersRest(r, i, Done, made);
    PollKeepsRest(r, i, Done, made);
    OthersSame(r, i, made);
    var q := PollStep(r, i, Done, made).0;
    RestUpdate(r.files, i, q.files[i], r.maxRetries);
  }

  lemma OthersSame<T>(r: Reader<T>, i: nat, made: T)
    requires Inv(r) && !r.terminated && i < |r.files| && !PollStep(r, i, Done, made).0.terminated
    ensures var q := PollStep(r, i, Done, made).0;
            |q.files| == |r.files| && q.files == r.files[i := q.files[i]]
  {
    hide PollStep, Inv;
    SoundLayout(r);
    PollKeepsRest(r, i, Done, made);
    IdlePoll(r, i, Done, made);
  }

  lemma SoundLayout<T>(r: Reader<T>)
    requires Inv(r) && !r.terminated
    ensures Layout(r) && !r.failed
  {
  }

  lemma {:induction false} UnblockedRest<T>(files: seq<Slot<T>>, maxRetries: nat)
    ensures RestOf(Unblocked(files), maxRetries) == RestOf(files, maxRetries)
  {
    if files != [] {
      assert Unblocked(files)[1..] == Unblocked(files[1..]);
      UnblockedRest(files[1..], maxRetries);
    }
  }

  lemma EmitLowersRest<T>(r: Reader<T>, given: T)
    requires Inv(r) && Enabled(r, Emit(given))
    ensures Remaining(EmitStep(r, given)) <= Remaining(r) && EmitStep(r, given).maxRetries == r.maxRetries
    ensures EmitStep(r, given).admitted == r.admitted
  {
    hide Layout, Retire;
    SoundLayout(r);
    NonemptyWindow(r);
    RetireHead(r, Popped(r, given), given);
  }

  /** An event that no failing poll is part of, and that admits nothing. */
  lemma StepSpends<T>(r: Reader<T>, e: Event<T>)
    requires Inv(r) && Enabled(r, e) && (e.PollFile? ==> e.answer.Done?) && |Step(r, e).admitted| == |r.admitted|
    ensures Remaining(Step(r, e)) + Asked(Some(r), e) <= Remaining(r) && Step(r, e).maxRetries == r.maxRetries
  {
    hide Inv, PollStep, EmitStep, AuthorizeStep, Rest, Remaining;
    match e
    case PollFile(i, _, made) => DoneLowersRest(r, i, made);
    case Unblock => UnblockSpends(r);
    case Emit(given) => EmitLowersRest(r, given);
    case Authorize => AuthorizeSpends(r);
    case PushFile(_) => assert false;
    case _ => SameFilesSpend(r, Step(r, e));
  }

  lemma UnblockSpends<T>(r: Reader<T>)
    ensures Remaining(r.(files := Unblocked(r.files))) == Remaining(r)
  {
    UnblockedRest(r.files, r.maxRetries);
  }

  lemma AuthorizeSpends<T>(r: Reader<T>)
    ensures Remaining(AuthorizeStep(r)) == Remaining(r) && AuthorizeStep(r).maxRetries == r.maxRetries
  {
  }

  lemma SameFilesSpend<T>(r: Reader<T>, q: Reader<T>)
    ensures q.files == r.files && q.maxRetries == r.maxRetries ==> Remaining(q) == Remaining(r)
  {
  }

  lemma AdmittedGrows<T>(r: Reader<T>, e: Event<T>)
    requires Inv(r) && Enabled(r, e)
    ensures |r.admitted| <= |Step(r, e).admitted|
  {
    hide Inv, PollStep, EmitStep, AuthorizeStep;
    match e
    case PollFile(i, answer, made) => FailKeepsAdmitted(r, i, answer, made);
    case Emit(given) => EmitLowersRest(r, given);
    case Authorize => AuthorizeKeepsAdmitted(r);
    case _ =>
  }

  lemma AuthorizeKeepsAdmitted<T>(r: Reader<T>)
    ensures AuthorizeStep(r).admitted == r.admitted
  {
  }

  lemma FailKeepsAdmitted<T>(r: Reader<T>, i: nat, answer: Answer<T>, made: T)
    requires i < |r.files|
    ensures PollStep(r, i, answer, made).0.admitted == r.admitted
  {
  }

  /** Main result. Successful polls are paid for, one each, out of what the admitted files have left. */
  lemma {:induction false} SmoothReadingEnds<T>(r: Reader<T>, events: seq<Event<T>>, from: nat)
    requires Inv(r) && from <= |events| && Run(r, events).Some? && Smooth(events, from)
    requires Run(r, events[..from]).Some?
    ensures |Run(r, events[..from]).value.admitted| <= |Run(r, events).value.admitted|
    ensures |Run(r, events[..from]).value.admitted| == |Run(r, events).value.admitted| ==>
              Remaining(Run(r, events).value) + Polls(r, events, from) <= Remaining(Run(r, events[..from]).value)
    decreases |events|
  {
    hide Inv, Step, Asked, Remaining;
    if |events| == from {
      assert events[..from] == events;
    } else {
      var last := |events| - 1;
      assert events[..last][..from] == events[..from];
      SmoothReadingEnds(r, events[..last], from);
      EveryRunKeepsInv(r, events[..last]);
      var q := Run(r, events[..last]).value;
      AdmittedGrows(q, events[last]);
      if |Step(q, events[last]).admitted| == |q.admitted| {
        StepSpends(q, events[last]);
      }
    }
  }

  lemma StepFails<T>(r: Reader<T>, e: Event<T>)
    requires Inv(r) && Enabled(r, e) && !r.failed && Step(r, e).failed
    ensures FaultAt(e)
  {
    hide Inv, PollStep, EmitStep, AuthorizeStep;
    match e
    case PollFile(i, answer, made) =>
      SoundLayout(r);
      PollKeepsRest(r, i, answer, made);
      PollFailsExactly(r, i, answer, made);
    case Emit(given) => EmitStaysSound(r, given);
    case Authorize => AuthorizeStaysSound(r);
    case _ =>
  }

  lemma EmitStaysSound<T>(r: Reader<T>, given: T)
    requires Inv(r) && Enabled(r, Emit(given))
    ensures EmitStep(r, given).failed == r.failed
  {
    hide Layout, Retire;
    SoundLayout(r);
    NonemptyWindow(r);
    RetireHead(r, Popped(r, given), given);
  }

  lemma AuthorizeStaysSound<T>(r: Reader<T>)
    ensures AuthorizeStep(r).failed == r.failed
  {
  }

  /** A reader only fails on an error or an early end that a backend reported. */
  lemma {:induction false} FailureNeedsFault<T>(r: Reader<T>, events: seq<Event<T>>)
    requires Inv(r) && !r.failed && Run(r, events).Some? && Run(r, events).value.failed
    ensures Fault(events, 0)
    decreases |events|
  {
    hide Inv, Step, Fault;
    var last := |events| - 1;
    assert events != [];
    var q := Run(r, events[..last]).value;
    EveryRunKeepsInv(r, events[..last]);
    if q.failed {
      FailureNeedsFault(r, events[..last]);
      FaultStays(events[..last], 0, events, 0);
    } else {
      StepFails(q, events[last]);
      FaultHere(events, last);
    }
  }

  lemma FaultHere<T>(events: seq<Event<T>>, k: nat)
    requires k < |events| && FaultAt(events[k])
    ensures Fault(events, 0)
  {
  }
}

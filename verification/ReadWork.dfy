/** How many polls with progress one file takes over a whole run of the reader. */
module ReadWork {
  import opened Segmentation
  import opened Readers

  /** Files leave the window in admission order only. */
  function Retired<T>(r: Reader<T>): int {
    |r.admitted| - |r.files|
  }

  ghost predicate Aligned<T>(r: Reader<T>) {
    && Retired(r) >= 0
    && forall i :: 0 <= i < |r.files| ==> r.files[i].count == |r.admitted[Retired(r) + i].content|
  }

  /** Polls of file `k`, in admission order, that made progress during a run. */
  function ProgressOf<T>(r: Reader<T>, events: seq<Event<T>>, k: nat): nat
    decreases |events|
  {
    if events == [] then 0
    else
      var last := |events| - 1;
      ProgressOf(r, events[..last], k) + ProgressBy(Run(r, events[..last]), events[last], k)
  }

  function ProgressBy<T>(r: Option<Reader<T>>, e: Event<T>, k: nat): nat {
    if r.Some? && e.PollFile? && e.index < |r.value.files| && Retired(r.value) + e.index == k
       && PollStep(r.value, e.index, e.answer, e.made).1
    then 1 else 0
  }

  /** Polls with progress file `k` may still make. */
  function Ahead<T>(r: Reader<T>, k: nat): nat {
    if Retired(r) <= k < |r.admitted| && 0 <= k - Retired(r) then Rest(r.files[k - Retired(r)], r.maxRetries) else 0
  }

  function Allowed<T>(r: Reader<T>, k: nat): nat {
    if k < |r.admitted| then r.maxRetries + 1 + |r.admitted[k].content| else 0
  }

  lemma PollSpends<T>(r: Reader<T>, i: nat, answer: Answer<T>, made: T, k: nat)
    requires Inv(r) && Enabled(r, PollFile(i, answer, made)) && Aligned(r)
    ensures var q := PollStep(r, i, answer, made).0;
            && ProgressBy(Some(r), PollFile(i, answer, made), k) + Ahead(q, k) <= Ahead(r, k)
            && Aligned(q) && q.admitted == r.admitted && q.maxRetries == r.maxRetries
  {
    hide Inv, PollStep, Rest;
    PollKeepsRest(r, i, answer, made);
    PollOutcome(r, i, answer, made);
    if !PollStep(r, i, answer, made).0.terminated {
      PollLowersRest(r, i, answer, made);
    }
  }

  lemma PollOutcome<T>(r: Reader<T>, i: nat, answer: Answer<T>, made: T)
    requires Inv(r) && !r.terminated && i < |r.files|
    ensures var (q, progressed) := PollStep(r, i, answer, made);
            && q.admitted == r.admitted && q.maxRetries == r.maxRetries
            && if q.terminated then q.files == [] && !progressed
               else && |q.files| == |r.files| && q.files[i].count == r.files[i].count
                    && forall j :: 0 <= j < |r.files| && j != i ==> q.files[j] == r.files[j]
  {
    LayoutFile(r, i);
    PollKeepsRest(r, i, answer, made);
    if !PollStep(r, i, answer, made).0.terminated {
      IdlePoll(r, i, answer, made);
    }
  }

  lemma EmitSpends<T>(r: Reader<T>, given: T, k: nat)
    requires Inv(r) && Enabled(r, Emit(given)) && Aligned(r)
    ensures var q := EmitStep(r, given);
            Ahead(q, k) <= Ahead(r, k) && Aligned(q) && q.admitted == r.admitted && q.maxRetries == r.maxRetries
  {
    hide Inv, Layout, Retire, Rest, Chain;
    EmitDropsHead(r, given);
    HeadsSpend(r, EmitStep(r, given), k);
  }

  lemma EmitDropsHead<T>(r: Reader<T>, given: T)
    requires Inv(r) && Enabled(r, Emit(given))
    ensures r.files != []
    ensures var q := EmitStep(r, given);
            && (q.files == r.files || q.files == r.files[1..])
            && q.admitted == r.admitted && q.maxRetries == r.maxRetries
  {
    hide Layout, Retire, Grant, Recycling, Chain;
    NonemptyWindow(r);
    RetireHead(r, Popped(r, given), given);
  }

  lemma HeadsSpend<T>(r: Reader<T>, q: Reader<T>, k: nat)
    requires Aligned(r) && r.files != [] && (q.files == r.files || q.files == r.files[1..])
    requires q.admitted == r.admitted && q.maxRetries == r.maxRetries
    ensures Ahead(q, k) <= Ahead(r, k) && Aligned(q)
  {
  }

  lemma StepSpends<T>(r: Reader<T>, e: Event<T>, k: nat)
    requires Inv(r) && Enabled(r, e) && Aligned(r)
    ensures Aligned(Step(r, e)) && Step(r, e).maxRetries == r.maxRetries
    ensures ProgressBy(Some(r), e, k) + Ahead(Step(r, e), k) + Allowed(r, k) <= Ahead(r, k) + Allowed(Step(r, e), k)
  {
    hide Inv, PollStep, EmitStep, AuthorizeStep;
    match e
    case PollFile(i, answer, made) => PollSpends(r, i, answer, made, k);
    case Emit(given) => EmitSpends(r, given, k);
    case Authorize => AuthorizeSame(r);
    case _ =>
  }

  lemma AuthorizeSame<T>(r: Reader<T>)
    ensures AuthorizeStep(r) == r.(frames := AuthorizeStep(r).frames)
  {
  }

  lemma {:induction false} RunSpends<T>(r: Reader<T>, events: seq<Event<T>>, k: nat)
    requires Inv(r) && r.admitted == [] && r.files == [] && Run(r, events).Some?
    ensures var q := Run(r, events).value;
            Aligned(q) && q.maxRetries == r.maxRetries && ProgressOf(r, events, k) + Ahead(q, k) <= Allowed(q, k)
    decreases |events|
  {
    hide Inv, Allowed, ProgressBy;
    if events != [] {
      hide Ahead, Aligned;
      var last := |events| - 1;
      RunSpends(r, events[..last], k);
      EveryRunKeepsInv(r, events[..last]);
      StepSpends(Run(r, events[..last]).value, events[last], k);
    }
  }

  /** Main result. In any run of a reader, each file takes at most retries + 1 polls with progress to
      open and one for each of its frames. */
  lemma EveryFileIsBounded<T>(r: Reader<T>, events: seq<Event<T>>, q: Reader<T>, k: nat)
    requires Inv(r) && r.admitted == [] && r.files == [] && Run(r, events) == Some(q) && k < |q.admitted|
    ensures ProgressOf(r, events, k) <= r.maxRetries + 1 + |q.admitted[k].content|
  {
    RunSpends(r, events, k);
  }
}

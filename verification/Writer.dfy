/** The write scheduler as a state machine over values: one event per backend poll, budget change
    or API step. Its last three fields are histories: what was fed, admitted and popped. */
module Writers {
  import opened Naturals
  import opened Segmentation
  import opened WriteSlots

  datatype Phase = Accepting | Draining | Broken

  /** A partially built frame; `value` is what finishing it yields. */
  datatype Partial<T> = Partial(value: T, empty: bool, complete: bool)

  datatype FillResult<T> = FillPending | FillFailed | FillDone(after: Partial<T>, output: nat)

  datatype Descriptor = Descriptor(name: nat, capacity: nat)

  datatype Popped<T> = Popped(descriptor: Descriptor, output: seq<T>)

  datatype Writer<T> = Writer(
    maxRetries: nat, total: nat, target: nat, maxActive: nat,
    files: seq<Slot<T>>, partial: Option<Partial<T>>, capacity: nat, used: nat, fill: nat, phase: Phase,
    fed: seq<T>, admitted: seq<Descriptor>, popped: seq<Popped<T>>)

  datatype Event<T> =
    | PushFile(file: Descriptor)
    | PollSlot(index: nat, answer: Response<T>)
    | ShrinkGrant(capacity: nat)
    | GrowGrant(capacity: nat)
    | Allocate(partial: Partial<T>)
    | Fill(result: FillResult<T>)
    | PopSwap(file: Descriptor)
    | BeginClose
    | PopFile
    | SetWindow(target: nat, maxActive: nat)

  function Init<T>(maxRetries: nat, total: nat, target: nat, maxActive: nat): Writer<T> {
    Writer(maxRetries, total, target, maxActive, [], None, 0, 0, 0, Accepting, [], [], [])
  }

  // --- steps ---------------------------------------------------------------------------------

  function Fail<T>(w: Writer<T>): Writer<T> {
    w.(phase := Broken, files := [], partial := None, used := 0, capacity := 0)
  }

  predicate ValidFile<T>(w: Writer<T>, file: Descriptor) {
    file.capacity > 0 && (w.maxRetries > 0 ==> file.capacity <= w.total)
  }

  function Opened<T>(w: Writer<T>, file: Descriptor): Slot<T> {
    NewSlot(file.name, file.capacity, w.maxRetries > 0)
  }

  /** One poll of one slot, and the capacity it gives back. */
  function PollStep<T>(w: Writer<T>, index: nat, answer: Response<T>): Writer<T>
    requires index < |w.files|
  {
    match Poll(w.files[index], answer, w.phase.Draining?, w.maxRetries)
    case Fatal => Fail(w)
    case Polled(slot, changed, released) =>
      var used := Minus(w.used, released);
      var keep :=
        if changed && Finished(slot) then used
        else if released > 0 then (if w.phase.Draining? then used else Max(w.target, used))
        else w.capacity;
      w.(files := w.files[index := slot], used := used, capacity := Min(w.capacity, keep))
  }

  /** Capacity to reserve before the fill slot's next frame is allocated. */
  function Needed<T>(w: Writer<T>): nat
    requires w.fill < |w.files|
  {
    if w.maxRetries == 0 then 1
    else if w.files[w.fill].filled == 0 then w.files[w.fill].capacity
    else 0
  }

  function Limit<T>(w: Writer<T>): nat {
    if w.maxRetries == 0 then Min(w.total, w.target) else w.total
  }

  predicate Fits<T>(w: Writer<T>)
    requires w.fill < |w.files|
  {
    Needed(w) <= Minus(Limit(w), w.used)
  }

  function AllocateStep<T>(w: Writer<T>, partial: Partial<T>): Writer<T>
    requires w.fill < |w.files|
  {
    var w := w.(used := w.used + Needed(w));
    if !partial.empty || partial.complete then Fail(w) else w.(partial := Some(partial))
  }

  /** Hand the partial frame over to the fill slot, or give its reservation back if it is empty. */
  function Flush<T>(w: Writer<T>): Writer<T>
    requires w.partial.Some? ==> w.fill < |w.files|
  {
    if w.partial.None? then w
    else
      var slot := w.files[w.fill];
      if w.partial.value.empty then
        w.(partial := None, used := Minus(w.used, Needed(w)))
      else
        var slot := Push(slot, w.partial.value.value);
        w.(partial := None, files := w.files[w.fill := slot],
           fill := if slot.filled == slot.capacity then w.fill + 1 else w.fill,
           fed := w.fed + [w.partial.value.value])
  }

  function FillStep<T>(w: Writer<T>, result: FillResult<T>): Writer<T>
    requires w.partial.Some? && w.fill < |w.files|
  {
    match result
    case FillPending => w
    case FillFailed => Fail(w)
    case FillDone(after, _) =>
      var w := w.(partial := Some(after));
      if !after.complete then w
      else if after.empty then Fail(w)
      else Flush(w)
  }

  /** Remove the closed head and record its descriptor with the close result. */
  function TakeHead<T>(w: Writer<T>): Writer<T>
    requires w.files != [] && Finished(w.files[0])
  {
    var head := w.files[0];
    w.(files := w.files[1..], fill := Minus(w.fill, 1),
       popped := w.popped + [Popped(Descriptor(head.file.name, head.file.capacity), head.state.output)])
  }

  function Admit<T>(w: Writer<T>, file: Descriptor): Writer<T> {
    w.(files := w.files + [Opened(w, file)], admitted := w.admitted + [file])
  }

  function DropUnused<T>(files: seq<Slot<T>>): seq<Slot<T>> {
    if files != [] && files[|files| - 1].filled == 0 then DropUnused(files[..|files| - 1]) else files
  }

  function CloseStep<T>(w: Writer<T>): Writer<T>
    requires w.partial.Some? ==> w.fill < |w.files|
  {
    var w := Flush(w.(phase := Draining));
    w.(files := DropUnused(w.files), capacity := Min(w.capacity, w.used))
  }

  function WindowStep<T>(w: Writer<T>, target: nat, maxActive: nat): Writer<T> {
    w.(target := target, maxActive := maxActive, capacity := Min(w.capacity, Max(target, w.used)))
  }

  predicate HeadDone<T>(w: Writer<T>) {
    w.files != [] && Finished(w.files[0])
  }

  predicate Enabled<T>(w: Writer<T>, e: Event<T>) {
    match e
    case PushFile(file) => w.phase.Accepting? && |w.files| < w.maxActive && ValidFile(w, file)
    case PollSlot(index, answer) =>
      !w.phase.Broken? && index < |w.files| && (!answer.Done? ==> Asks(w.files[index]))
    case ShrinkGrant(capacity) => w.phase.Accepting? && w.used <= capacity
    case GrowGrant(capacity) => w.phase.Accepting? && w.capacity <= capacity <= w.total
    case Allocate(_) =>
      w.phase.Accepting? && w.partial.None? && w.fill < |w.files| && Fits(w) && w.used + Needed(w) <= w.capacity
    case Fill(_) => w.partial.Some? && w.fill < |w.files|
    case PopSwap(file) => w.phase.Accepting? && ValidFile(w, file) && HeadDone(w)
    case BeginClose => w.phase.Accepting? && (w.partial.Some? ==> w.fill < |w.files|)
    case PopFile => w.phase.Draining? && HeadDone(w)
    case SetWindow(target, maxActive) => target > 0 && maxActive > 0
  }

  function Step<T>(w: Writer<T>, e: Event<T>): Writer<T>
    requires Enabled(w, e)
  {
    match e
    case PushFile(file) => Admit(w, file)
    case PollSlot(index, answer) => PollStep(w, index, answer)
    case ShrinkGrant(capacity) => w.(capacity := Min(w.capacity, capacity))
    case GrowGrant(capacity) => w.(capacity := capacity)
    case Allocate(partial) => AllocateStep(w, partial)
    case Fill(result) => FillStep(w, result)
    case PopSwap(file) => Admit(TakeHead(w), file)
    case BeginClose => CloseStep(w)
    case PopFile => TakeHead(w)
    case SetWindow(target, maxActive) => WindowStep(w, target, maxActive)
  }

  /** The state after a run, or nothing when some event was not possible. */
  function Run<T>(w: Writer<T>, events: seq<Event<T>>): Option<Writer<T>>
    decreases |events|
  {
    if events == [] then Some(w)
    else
      var last := |events| - 1;
      match Run(w, events[..last])
      case None => None
      case Some(v) => if Enabled(v, events[last]) then Some(Step(v, events[last])) else None
  }

  lemma RunAppend<T>(w: Writer<T>, events: seq<Event<T>>, e: Event<T>)
    requires Run(w, events).Some? && Enabled(Run(w, events).value, e)
    ensures Run(w, events + [e]) == Some(Step(Run(w, events).value, e))
  {
    assert (events + [e])[..|events|] == events;
  }

  // --- invariant -----------------------------------------------------------------------------

  function UsedBy<T>(files: seq<Slot<T>>): nat {
    if files == [] then 0 else Weight(files[0]) + UsedBy(files[1..])
  }

  /** Everything assigned to the destinations still in the window, in order. */
  function Contents<T>(files: seq<Slot<T>>): seq<T> {
    if files == [] then [] else Assigned(files[0]) + Contents(files[1..])
  }

  function Outputs<T>(popped: seq<Popped<T>>): seq<seq<T>> {
    seq(|popped|, k requires 0 <= k < |popped| => popped[k].output)
  }

  function PartialWeight<T>(w: Writer<T>): nat {
    if w.partial.None? || w.fill >= |w.files| then 0 else Needed(w)
  }

  /** A full prefix, one filling slot, and an idle suffix. */
  ghost predicate FileOk<T>(w: Writer<T>, i: nat)
    requires i < |w.files|
  {
    var s := w.files[i];
    && SlotInv(s, w.maxRetries)
    && (i < w.fill ==> s.filled == s.capacity)
    && (i == w.fill ==> s.filled < s.capacity)
    && (i > w.fill ==> s.filled == 0)
    && (w.phase.Draining? ==> s.filled > 0)
    && (!w.phase.Draining? && (s.state.Closing? || s.state.Closed?) ==> s.filled == s.capacity)
    && (w.maxRetries > 0 ==> s.capacity <= w.total)
  }

  ghost predicate Shape<T>(w: Writer<T>) {
    && w.fill <= |w.files|
    && (forall i :: 0 <= i < |w.files| ==> FileOk(w, i))
    && (w.partial.Some? ==> w.phase.Accepting? && w.fill < |w.files| && !w.partial.value.complete)
  }

  /** The accounting is exact in both modes, and always covered by the grant. */
  ghost predicate Accounting<T>(w: Writer<T>) {
    && w.used == UsedBy(w.files) + PartialWeight(w)
    && w.used <= w.capacity <= w.total
    && (w.phase.Draining? ==> w.capacity == w.used)
  }

  ghost predicate PoppedOk<T>(p: Popped<T>, last: bool) {
    0 < |p.output| <= p.descriptor.capacity && (|p.output| == p.descriptor.capacity || last)
  }

  function Descriptors<T>(w: Writer<T>): seq<Descriptor> {
    seq(|w.popped| + |w.files|, k requires 0 <= k < |w.popped| + |w.files| =>
      if k < |w.popped| then w.popped[k].descriptor
      else var f := w.files[k - |w.popped|].file; Descriptor(f.name, f.capacity))
  }

  /** Nothing fed is lost, duplicated or reordered; destinations leave in admission order. */
  ghost predicate History<T>(w: Writer<T>) {
    && w.fed == Flatten(Outputs(w.popped)) + Contents(w.files)
    && Descriptors(w) <= w.admitted
    && (w.phase.Accepting? ==> Descriptors(w) == w.admitted)
    && (forall k :: 0 <= k < |w.popped| ==>
         PoppedOk(w.popped[k], k == |w.popped| - 1 && w.phase.Draining? && w.files == []))
  }

  /** What survives a failure: the results handed out so far, and no capacity at all. */
  ghost predicate Cancelled<T>(w: Writer<T>) {
    && w.files == [] && w.partial.None? && w.used == 0 && w.capacity == 0
    && Flatten(Outputs(w.popped)) <= w.fed
    && Descriptors(w) <= w.admitted
    && (forall k :: 0 <= k < |w.popped| ==> PoppedOk(w.popped[k], false))
  }

  ghost predicate Inv<T>(w: Writer<T>) {
    && w.total > 0 && w.target > 0 && w.maxActive > 0
    && if w.phase.Broken? then Cancelled(w) else Shape(w) && Accounting(w) && History(w)
  }

  // --- sums over the window ------------------------------------------------------------------

  lemma {:induction false} UsedByUpdate<T>(files: seq<Slot<T>>, i: nat, s: Slot<T>)
    requires i < |files|
    ensures UsedBy(files[i := s]) == UsedBy(files) - Weight(files[i]) + Weight(s)
  {
    if i == 0 {
      assert files[i := s][1..] == files[1..];
    } else {
      assert files[i := s][1..] == files[1..][i - 1 := s];
      UsedByUpdate(files[1..], i - 1, s);
    }
  }

  lemma {:induction false} UsedByAppend<T>(a: seq<Slot<T>>, b: seq<Slot<T>>)
    ensures UsedBy(a + b) == UsedBy(a) + UsedBy(b)
  {
    if a == [] {
      assert a + b == b;
    } else {
      assert (a + b)[1..] == a[1..] + b;
      UsedByAppend(a[1..], b);
    }
  }

  lemma {:induction false} ContentsAppend<T>(a: seq<Slot<T>>, b: seq<Slot<T>>)
    ensures Contents(a + b) == Contents(a) + Contents(b)
  {
    if a == [] {
      assert a + b == b;
    } else {
      assert (a + b)[1..] == a[1..] + b;
      ContentsAppend(a[1..], b);
    }
  }

  lemma {:induction false} ContentsSame<T>(a: seq<Slot<T>>, i: nat, s: Slot<T>)
    requires i < |a| && Assigned(s) == Assigned(a[i])
    ensures Contents(a[i := s]) == Contents(a)
  {
    if i == 0 {
      assert a[i := s][1..] == a[1..];
    } else {
      assert a[i := s][1..] == a[1..][i - 1 := s];
      ContentsSame(a[1..], i - 1, s);
    }
  }

  lemma {:induction false} ContentsEmpty<T>(a: seq<Slot<T>>)
    requires forall i :: 0 <= i < |a| ==> Assigned(a[i]) == []
    ensures Contents(a) == []
  {
    if a != [] {
      ContentsEmpty(a[1..]);
    }
  }

  /** Feeding the last slot that holds anything extends the whole contents at its end. */
  lemma {:induction false} ContentsGrow<T>(a: seq<Slot<T>>, i: nat, s: Slot<T>, frame: T)
    requires i < |a| && Assigned(s) == Assigned(a[i]) + [frame]
    requires forall j :: i < j < |a| ==> Assigned(a[j]) == []
    ensures Contents(a[i := s]) == Contents(a) + [frame]
  {
    if i == 0 {
      assert a[i := s][1..] == a[1..];
      ContentsEmpty(a[1..]);
    } else {
      assert a[i := s][1..] == a[1..][i - 1 := s];
      ContentsGrow(a[1..], i - 1, s, frame);
    }
  }

  // --- every event keeps the invariant ---------------------------------------------------------

  lemma PollKeepsShape<T>(w: Writer<T>, index: nat, answer: Response<T>)
    requires !w.phase.Broken? && Shape(w) && index < |w.files|
    requires Poll(w.files[index], answer, w.phase.Draining?, w.maxRetries).Polled?
    ensures Shape(PollStep(w, index, answer))
  {
    assert FileOk(w, index);
    PollKeepsAssigned(w.files[index], answer, w.phase.Draining?, w.maxRetries);
    var v := PollStep(w, index, answer);
    forall i | 0 <= i < |v.files|
      ensures FileOk(v, i)
    {
      assert FileOk(w, i);
    }
  }

  lemma PollKeepsAccounting<T>(w: Writer<T>, index: nat, answer: Response<T>)
    requires !w.phase.Broken? && Shape(w) && Accounting(w) && index < |w.files|
    requires Poll(w.files[index], answer, w.phase.Draining?, w.maxRetries).Polled?
    ensures Accounting(PollStep(w, index, answer))
  {
    assert FileOk(w, index);
    var s := w.files[index];
    PollKeepsAssigned(s, answer, w.phase.Draining?, w.maxRetries);
    PollReleases(s, answer, w.phase.Draining?, w.maxRetries);
    StuckPoll(s, answer, w.phase.Draining?, w.maxRetries);
    var v := PollStep(w, index, answer);
    UsedByUpdate(w.files, index, v.files[index]);
    UsedByAtLeast(w.files, index);
    assert PartialWeight(v) == PartialWeight(w);
  }

  lemma {:induction false} UsedByAtLeast<T>(files: seq<Slot<T>>, i: nat)
    requires i < |files|
    ensures Weight(files[i]) <= UsedBy(files)
  {
    if i > 0 {
      UsedByAtLeast(files[1..], i - 1);
    }
  }

  lemma SameDescriptors<T>(w: Writer<T>, v: Writer<T>, i: nat)
    requires i < |w.files| == |v.files| && v.files == w.files[i := v.files[i]] && v.popped == w.popped
    requires v.files[i].file.name == w.files[i].file.name && v.files[i].file.capacity == w.files[i].file.capacity
    ensures Descriptors(v) == Descriptors(w)
  {
  }

  lemma PollKeepsHistory<T>(w: Writer<T>, index: nat, answer: Response<T>)
    requires !w.phase.Broken? && Shape(w) && History(w) && index < |w.files|
    requires Poll(w.files[index], answer, w.phase.Draining?, w.maxRetries).Polled?
    ensures History(PollStep(w, index, answer))
  {
    assert FileOk(w, index);
    PollKeepsAssigned(w.files[index], answer, w.phase.Draining?, w.maxRetries);
    var v := PollStep(w, index, answer);
    ContentsSame(w.files, index, v.files[index]);
    SameDescriptors(w, v, index);
  }

  lemma FailKeepsInv<T>(w: Writer<T>)
    requires Inv(w) || (w.total > 0 && w.target > 0 && w.maxActive > 0 && !w.phase.Broken? && History(w))
    requires w.files != []
    ensures Inv(Fail(w))
  {
    var v := Fail(w);
    assert Descriptors(v) == Descriptors(w)[..|w.popped|];
  }

  lemma AllocateKeepsInv<T>(w: Writer<T>, partial: Partial<T>)
    requires Inv(w) && Enabled(w, Allocate(partial))
    ensures Inv(AllocateStep(w, partial))
  {
    if !partial.empty || partial.complete {
      FailKeepsInv(w);
    } else {
      var v := AllocateStep(w, partial);
      SameFilesKeepShape(w, v);
      assert Descriptors(v) == Descriptors(w);
    }
  }

  lemma SameFilesKeepShape<T>(w: Writer<T>, v: Writer<T>)
    requires Shape(w)
    requires v.files == w.files && v.fill == w.fill && v.phase == w.phase && v.maxRetries == w.maxRetries
    requires v.total == w.total
    requires v.partial.Some? ==> v.phase.Accepting? && v.fill < |v.files| && !v.partial.value.complete
    ensures Shape(v)
  {
    forall i | 0 <= i < |v.files|
      ensures FileOk(v, i)
    {
      assert FileOk(w, i);
    }
  }

  /** What flushing does to everything but the phase: the invariant with a complete partial allowed. */
  lemma FlushShape<T>(w: Writer<T>)
    requires Shape(w.(partial := None)) && w.phase.Accepting? && w.partial.Some? && w.fill < |w.files|
    ensures Shape(Flush(w))
  {
    var u := w.(partial := None);
    assert FileOk(u, w.fill);
    if !w.partial.value.empty {
      PushKeepsInv(w.files[w.fill], w.partial.value.value, w.maxRetries);
    }
    var v := Flush(w);
    forall i | 0 <= i < |v.files|
      ensures FileOk(v, i)
    {
      assert FileOk(u, i);
    }
  }

  lemma FlushAccounting<T>(w: Writer<T>)
    requires Shape(w.(partial := None)) && w.phase.Accepting? && w.partial.Some? && w.fill < |w.files|
    requires Accounting(w)
    ensures Accounting(Flush(w))
  {
    assert FileOk(w.(partial := None), w.fill);
    var slot := w.files[w.fill];
    UsedByUpdate(w.files, w.fill, Push(slot, w.partial.value.value));
  }

  lemma FlushHistory<T>(w: Writer<T>)
    requires Shape(w.(partial := None)) && w.phase.Accepting? && w.partial.Some? && w.fill < |w.files|
    requires History(w)
    ensures History(Flush(w))
  {
    hide Shape, Flatten, Outputs, Contents, Descriptors, PoppedOk;
    FlushContents(w);
    SameDescriptors(w, Flush(w), w.fill);
  }

  /** What a flush feeds is what it adds to the window. */
  lemma FlushContents<T>(w: Writer<T>)
    requires Shape(w.(partial := None)) && w.phase.Accepting? && w.partial.Some? && w.fill < |w.files|
    ensures var fed := if w.partial.value.empty then [] else [w.partial.value.value];
            Flush(w).fed == w.fed + fed && Contents(Flush(w).files) == Contents(w.files) + fed
  {
    var u := w.(partial := None);
    assert FileOk(u, w.fill);
    if w.partial.value.empty {
      assert Contents(w.files) + [] == Contents(w.files) && w.fed + [] == w.fed;
    } else {
      var slot, frame := w.files[w.fill], w.partial.value.value;
      PushKeepsInv(slot, frame, w.maxRetries);
      forall j | w.fill < j < |w.files|
        ensures Assigned(w.files[j]) == []
      {
        assert FileOk(u, j);
      }
      ContentsGrow(w.files, w.fill, Push(slot, frame), frame);
    }
  }

  lemma FillKeepsInv<T>(w: Writer<T>, result: FillResult<T>)
    requires Inv(w) && Enabled(w, Fill(result))
    ensures Inv(FillStep(w, result))
  {
    if result.FillFailed? {
      FailKeepsInv(w);
    } else if result.FillDone? {
      var v := w.(partial := Some(result.after));
      assert Descriptors(v) == Descriptors(w);
      if !result.after.complete {
        SameFilesKeepShape(w, v);
      } else if result.after.empty {
        FailKeepsInv(v);
      } else {
        SameFilesKeepShape(w, v.(partial := None));
        FlushShape(v);
        FlushAccounting(v);
        FlushHistory(v);
      }
    }
  }

  lemma TakeHeadShape<T>(w: Writer<T>)
    requires !w.phase.Broken? && Shape(w) && HeadDone(w)
    ensures Shape(TakeHead(w))
  {
    var v := TakeHead(w);
    assert FileOk(w, 0);
    forall i | 0 <= i < |v.files|
      ensures FileOk(v, i)
    {
      assert FileOk(w, i + 1);
    }
  }

  lemma TakeHeadAccounting<T>(w: Writer<T>)
    requires !w.phase.Broken? && Shape(w) && Accounting(w) && HeadDone(w)
    ensures Accounting(TakeHead(w))
  {
    assert FileOk(w, 0);
    assert Weight(w.files[0]) == 0;
    var v := TakeHead(w);
    if w.partial.Some? {
      assert v.files[v.fill] == w.files[w.fill];
    }
  }

  lemma TakeHeadHistory<T>(w: Writer<T>)
    requires !w.phase.Broken? && Shape(w) && History(w) && HeadDone(w)
    ensures History(TakeHead(w))
  {
    var v := TakeHead(w);
    TakeHeadOutputs(w);
    TakeHeadDescriptors(w);
    HeadIsResult(w);
    hide Shape, Outputs, Descriptors, Contents;
    forall k | 0 <= k < |v.popped|
      ensures PoppedOk(v.popped[k], k == |v.popped| - 1 && v.phase.Draining? && v.files == [])
    {
      if k < |w.popped| {
        assert PoppedOk(w.popped[k], k == |w.popped| - 1 && w.phase.Draining? && w.files == []);
      }
    }
  }

  lemma TakeHeadDescriptors<T>(w: Writer<T>)
    requires HeadDone(w)
    ensures Descriptors(TakeHead(w)) == Descriptors(w)
  {
  }

  /** A result is full unless it is the last one of a close. */
  lemma HeadIsResult<T>(w: Writer<T>)
    requires !w.phase.Broken? && Shape(w) && HeadDone(w)
    ensures var head := w.files[0];
            PoppedOk(Popped(Descriptor(head.file.name, head.file.capacity), head.state.output),
                     w.phase.Draining? && |w.files| == 1)
  {
    assert FileOk(w, 0);
    if |w.files| > 1 {
      assert FileOk(w, 1);
    }
  }

  /** The popped result takes the head's contents over from the window. */
  lemma TakeHeadOutputs<T>(w: Writer<T>)
    requires HeadDone(w)
    ensures Flatten(Outputs(TakeHead(w).popped)) + Contents(TakeHead(w).files)
            == Flatten(Outputs(w.popped)) + Contents(w.files)
  {
    var head := Assigned(w.files[0]);
    assert Outputs(TakeHead(w).popped) == Outputs(w.popped) + [head];
    FlattenAppend(Outputs(w.popped), [head]);
    FlattenOne(head);
    ConcatAssociates(Flatten(Outputs(w.popped)), head, Contents(w.files[1..]));
  }

  lemma AdmitShape<T>(w: Writer<T>, file: Descriptor)
    requires w.phase.Accepting? && Shape(w) && ValidFile(w, file)
    ensures Shape(Admit(w, file))
  {
    var v := Admit(w, file);
    NewSlotInv<T>(file.name, file.capacity, w.maxRetries);
    forall i | 0 <= i < |v.files|
      ensures FileOk(v, i)
    {
      if i < |w.files| {
        assert FileOk(w, i);
      }
    }
  }

  lemma AdmitKeepsInv<T>(w: Writer<T>, file: Descriptor)
    requires w.phase.Accepting? && Inv(w) && ValidFile(w, file)
    ensures Inv(Admit(w, file))
  {
    AdmitShape(w, file);
    AdmitAccounting(w, file);
    AdmitHistory(w, file);
  }

  lemma AdmitAccounting<T>(w: Writer<T>, file: Descriptor)
    requires w.phase.Accepting? && Shape(w) && Accounting(w)
    ensures Accounting(Admit(w, file))
  {
    UsedByAppend(w.files, [Opened(w, file)]);
    assert UsedBy([Opened(w, file)]) == 0;
    assert PartialWeight(Admit(w, file)) == PartialWeight(w);
  }

  lemma AdmitHistory<T>(w: Writer<T>, file: Descriptor)
    requires w.phase.Accepting? && History(w)
    ensures History(Admit(w, file))
  {
    hide Flatten, Outputs, Contents, Descriptors, PoppedOk;
    ContentsAppend(w.files, [Opened(w, file)]);
    OpenedIsEmpty(w, file);
    AdmitDescriptors(w, file);
    assert Contents(w.files) + [] == Contents(w.files);
  }

  lemma OpenedIsEmpty<T>(w: Writer<T>, file: Descriptor)
    ensures Contents([Opened(w, file)]) == []
  {
  }

  lemma AdmitDescriptors<T>(w: Writer<T>, file: Descriptor)
    ensures Descriptors(Admit(w, file)) == Descriptors(w) + [file]
  {
  }

  lemma {:induction false} DropUnusedPrefix<T>(files: seq<Slot<T>>) returns (k: nat)
    ensures k <= |files| && DropUnused(files) == files[..k]
    ensures forall i :: k <= i < |files| ==> files[i].filled == 0
    ensures k > 0 ==> files[k - 1].filled > 0
    decreases |files|
  {
    k := |files|;
    if files != [] && files[|files| - 1].filled == 0 {
      k := DropUnusedPrefix(files[..|files| - 1]);
    }
  }

  lemma {:induction false} UnusedWeighNothing<T>(w: Writer<T>, k: nat)
    requires Shape(w) && k <= |w.files| && forall i :: k <= i < |w.files| ==> w.files[i].filled == 0
    ensures UsedBy(w.files[..k]) == UsedBy(w.files)
    ensures Contents(w.files[..k]) == Contents(w.files)
    decreases |w.files| - k
  {
    hide Shape, UsedBy, Contents;
    if k == |w.files| {
      assert w.files[..k] == w.files;
    } else {
      UnusedWeighNothing(w, k + 1);
      assert w.files[..k + 1] == w.files[..k] + [w.files[k]];
      UsedByAppend(w.files[..k], [w.files[k]]);
      ContentsAppend(w.files[..k], [w.files[k]]);
      UnusedIsEmpty(w, k);
    }
  }

  lemma UnusedIsEmpty<T>(w: Writer<T>, k: nat)
    requires Shape(w) && k < |w.files| && w.files[k].filled == 0
    ensures UsedBy([w.files[k]]) == 0 && Contents([w.files[k]]) == []
  {
    assert FileOk(w, k);
  }

  lemma DrainKeepsInv<T>(w: Writer<T>)
    requires Inv(w) && w.phase.Accepting? && w.partial.None?
    ensures Inv(w.(phase := Draining, files := DropUnused(w.files), capacity := Min(w.capacity, w.used)))
  {
    var k := DropUnusedPrefix(w.files);
    UnusedWeighNothing(w, k);
    var v := w.(phase := Draining, files := DropUnused(w.files), capacity := Min(w.capacity, w.used));
    DrainShape(w, k);
    assert Descriptors(v) == Descriptors(w)[..|w.popped| + k];
  }

  lemma DrainShape<T>(w: Writer<T>, k: nat)
    requires Shape(w) && w.phase.Accepting? && w.partial.None? && k <= |w.files|
    requires forall i :: k <= i < |w.files| ==> w.files[i].filled == 0
    requires k > 0 ==> w.files[k - 1].filled > 0
    ensures Shape(w.(phase := Draining, files := w.files[..k], capacity := Min(w.capacity, w.used)))
  {
    var v := w.(phase := Draining, files := w.files[..k], capacity := Min(w.capacity, w.used));
    forall i | 0 <= i < w.fill
      ensures w.files[i].filled > 0
    {
      assert FileOk(w, i);
    }
    assert k < |w.files| ==> w.files[k].filled == 0;
    forall i | 0 <= i < |v.files|
      ensures FileOk(v, i)
    {
      assert FileOk(w, i) && FileOk(w, k - 1);
    }
  }

  lemma FlushKeepsInv<T>(w: Writer<T>)
    requires Inv(w) && w.phase.Accepting?
    ensures Inv(Flush(w)) && Flush(w).partial.None?
  {
    if w.partial.Some? {
      SameFilesKeepShape(w, w.(partial := None));
      FlushShape(w);
      FlushAccounting(w);
      FlushHistory(w);
    }
  }

  lemma FlushIgnoresPhase<T>(w: Writer<T>)
    requires w.partial.Some? ==> w.fill < |w.files|
    ensures CloseStep(w) == var u := Flush(w);
            u.(phase := Draining, files := DropUnused(u.files), capacity := Min(u.capacity, u.used))
  {
  }

  lemma CloseKeepsInv<T>(w: Writer<T>)
    requires Inv(w) && w.phase.Accepting?
    ensures Inv(CloseStep(w))
  {
    var u := Flush(w);
    FlushKeepsInv(w);
    DrainKeepsInv(u);
    FlushIgnoresPhase(w);
  }

  lemma PollKeepsInv<T>(w: Writer<T>, index: nat, answer: Response<T>)
    requires Inv(w) && Enabled(w, PollSlot(index, answer))
    ensures Inv(PollStep(w, index, answer))
  {
    if Poll(w.files[index], answer, w.phase.Draining?, w.maxRetries).Fatal? {
      FailKeepsInv(w);
    } else {
      PollKeepsShape(w, index, answer);
      PollKeepsAccounting(w, index, answer);
      PollKeepsHistory(w, index, answer);
    }
  }

  lemma GrantKeepsInv<T>(w: Writer<T>, v: Writer<T>)
    requires Inv(w) && v == w.(capacity := v.capacity, target := v.target, maxActive := v.maxActive)
    requires v.target > 0 && v.maxActive > 0
    requires if w.phase.Accepting? then v.used <= v.capacity <= v.total else v.capacity == w.capacity
    ensures Inv(v)
  {
    assert Descriptors(v) == Descriptors(w);
    if !w.phase.Broken? {
      SameFilesKeepShape(w, v);
    }
  }

  lemma StepKeepsInv<T>(w: Writer<T>, e: Event<T>)
    requires Inv(w) && Enabled(w, e)
    ensures Inv(Step(w, e))
  {
    match e
    case PushFile(file) => AdmitKeepsInv(w, file);
    case PollSlot(index, answer) => PollKeepsInv(w, index, answer);
    case ShrinkGrant(_) => GrantKeepsInv(w, Step(w, e));
    case GrowGrant(_) => GrantKeepsInv(w, Step(w, e));
    case Allocate(partial) => AllocateKeepsInv(w, partial);
    case Fill(result) => FillKeepsInv(w, result);
    case PopSwap(file) =>
      TakeHeadKeepsInv(w);
      AdmitKeepsInv(TakeHead(w), file);
    case BeginClose => CloseKeepsInv(w);
    case PopFile => TakeHeadKeepsInv(w);
    case SetWindow(_, _) => GrantKeepsInv(w, Step(w, e));
  }

  lemma TakeHeadKeepsInv<T>(w: Writer<T>)
    requires Inv(w) && !w.phase.Broken? && HeadDone(w)
    ensures Inv(TakeHead(w))
  {
    TakeHeadShape(w);
    TakeHeadAccounting(w);
    TakeHeadHistory(w);
  }

  // --- whole runs ------------------------------------------------------------------------------

  lemma {:induction false} EveryRunKeepsInv<T>(w: Writer<T>, events: seq<Event<T>>)
    requires Inv(w)
    ensures Run(w, events).Some? ==> Inv(Run(w, events).value)
    decreases |events|
  {
    if events != [] {
      var last := |events| - 1;
      EveryRunKeepsInv(w, events[..last]);
      if Run(w, events).Some? {
        StepKeepsInv(Run(w, events[..last]).value, events[last]);
      }
    }
  }

  function Capacities(files: seq<Descriptor>): seq<nat> {
    seq(|files|, k requires 0 <= k < |files| => files[k].capacity)
  }

  /** The destinations that left so far, in the order they left. */
  function Left<T>(popped: seq<Popped<T>>): seq<Descriptor> {
    seq(|popped|, k requires 0 <= k < |popped| => popped[k].descriptor)
  }

  /** Results leave in admission order, and as long as the run is not over they are the first
      full segments of the input: what is still in the window is the rest of the input. */
  lemma ResultsAreSegments<T>(w: Writer<T>)
    requires Inv(w) && !w.phase.Broken? && w.files != []
    ensures Left(w.popped) <= w.admitted
    ensures Segments(w.fed, Capacities(w.admitted))
            == Outputs(w.popped) + Segments(Contents(w.files), Capacities(w.admitted)[|w.popped|..])
  {
    LeftInOrder(w);
    var outs, sizes := Outputs(w.popped), Capacities(w.admitted);
    forall k | 0 <= k < |outs|
      ensures 0 < |outs[k]| == sizes[k]
    {
      assert PoppedOk(w.popped[k], false);
      assert Left(w.popped)[k] == w.admitted[k];
    }
    FullPartsAreSegments(outs, Contents(w.files), sizes);
  }

  lemma LeftInOrder<T>(w: Writer<T>)
    requires Inv(w)
    ensures |w.popped| <= |w.admitted| && Left(w.popped) <= w.admitted
  {
    assert Left(w.popped) == Descriptors(w)[..|w.popped|];
  }

  lemma DrainedIsSegmentation<T>(v: Writer<T>)
    requires Inv(v) && v.phase.Draining? && v.files == []
    ensures Left(v.popped) <= v.admitted
    ensures Outputs(v.popped) == Segments(v.fed, Capacities(v.admitted))
    ensures forall k :: 0 <= k < |v.popped| ==> 0 < |v.popped[k].output| <= v.popped[k].descriptor.capacity
    ensures forall k :: 0 <= k < |v.popped| - 1 ==> |v.popped[k].output| == v.popped[k].descriptor.capacity
    ensures v.used == 0 && v.capacity == 0
  {
    LeftInOrder(v);
    var sizes := Capacities(v.admitted);
    forall k | 0 <= k < |v.popped|
      ensures PoppedOk(v.popped[k], k == |v.popped| - 1) && sizes[k] == v.popped[k].descriptor.capacity
    {
      assert PoppedOk(v.popped[k], k == |v.popped| - 1 && v.phase.Draining? && v.files == []);
      assert Left(v.popped)[k] == v.admitted[k];
    }
    assert v.fed == Flatten(Outputs(v.popped));
    PartsAreSegments(Outputs(v.popped), sizes);
  }

  /** Main result. A run that closes completely has produced exactly the sequential segmentation
      of its input over the admitted destinations, in admission order, with no capacity left;
      every destination but the last is full and none is empty. This holds for every interleaving
      of the events and every backend behaviour that does not exhaust the retries. */
  lemma ClosedRunIsSegmentation<T>(w: Writer<T>, events: seq<Event<T>>, v: Writer<T>)
    requires Inv(w) && Run(w, events) == Some(v)
    requires v.phase.Draining? && v.files == []
    ensures Left(v.popped) <= v.admitted
    ensures Outputs(v.popped) == Segments(v.fed, Capacities(v.admitted))
    ensures forall k :: 0 <= k < |v.popped| ==> 0 < |v.popped[k].output| <= v.popped[k].descriptor.capacity
    ensures forall k :: 0 <= k < |v.popped| - 1 ==> |v.popped[k].output| == v.popped[k].descriptor.capacity
    ensures v.used == 0 && v.capacity == 0
  {
    EveryRunKeepsInv(w, events);
    DrainedIsSegmentation(v);
  }

  // --- stalls ----------------------------------------------------------------------------------

  /** Slot `i` cannot move until its backend answers or its user feeds or removes it. */
  predicate StuckAt<T>(w: Writer<T>, i: nat)
    requires i < |w.files|
  {
    var s := w.files[i];
    Asks(s) || s.state.Idle? || s.state.Closed? || (s.filled < s.capacity && !w.phase.Draining?)
  }

  ghost predicate Stuck<T>(w: Writer<T>) {
    forall i :: 0 <= i < |w.files| ==> StuckAt(w, i)
  }

  lemma {:induction false} SomeSlotWeighs<T>(files: seq<Slot<T>>) returns (i: nat)
    requires UsedBy(files) > 0
    ensures i < |files| && Weight(files[i]) > 0
  {
    if Weight(files[0]) > 0 {
      i := 0;
    } else {
      var j := SomeSlotWeighs(files[1..]);
      i := j + 1;
    }
  }

  /** A stuck writer without room for its next frame, and with no result to hand out, is waiting
      for some backend: the slots holding the capacity cannot all be idle or closed. */
  lemma FullWriterWaitsForBackend<T>(w: Writer<T>) returns (i: nat)
    requires Inv(w) && w.phase.Accepting? && w.partial.None? && Stuck(w)
    requires w.files != [] && !HeadDone(w)
    requires w.fill < |w.files| ==> !Fits(w)
    ensures i < |w.files| && Asks(w.files[i])
  {
    if w.fill == |w.files| {
      i := 0;
    } else {
      assert FileOk(w, w.fill);
      i := SomeSlotWeighs(w.files);
    }
    assert FileOk(w, i);
    assert StuckAt(w, i);
  }

  /** A stuck closing writer whose head is not done is waiting for the head's backend. */
  lemma DrainingWriterWaitsForHead<T>(w: Writer<T>)
    requires Inv(w) && w.phase.Draining? && Stuck(w)
    requires w.files != [] && !HeadDone(w)
    ensures Asks(w.files[0])
  {
    assert FileOk(w, 0);
    assert StuckAt(w, 0);
  }

  lemma InitInv<T>(maxRetries: nat, total: nat, target: nat, maxActive: nat)
    requires total > 0 && target > 0 && maxActive > 0
    ensures Inv(Init<T>(maxRetries, total, target, maxActive))
  {
    assert Descriptors(Init<T>(maxRetries, total, target, maxActive)) == [];
  }

  // --- one drive ---------------------------------------------------------------------------------

  /** What polling slots never touches. */
  ghost predicate Kept<T>(w: Writer<T>, v: Writer<T>) {
    && |v.files| == |w.files| && v == w.(files := v.files, used := v.used, capacity := v.capacity)
    && v.used <= w.used && v.capacity <= w.capacity
  }

  /** State changes made by the events from position `from` on. */
  function Work<T>(w: Writer<T>, events: seq<Event<T>>, from: nat): nat
    decreases |events|
  {
    if |events| <= from then 0
    else
      var last := |events| - 1;
      Work(w, events[..last], from) + Progress(Run(w, events[..last]), events[last])
  }

  function Progress<T>(w: Option<Writer<T>>, e: Event<T>): nat {
    if w.Some? && e.PollSlot? && e.index < |w.value.files| then
      var r := Poll(w.value.files[e.index], e.answer, w.value.phase.Draining?, w.value.maxRetries);
      if r.Polled? && r.changed then 1 else 0
    else 0
  }

  lemma WorkAppend<T>(w: Writer<T>, events: seq<Event<T>>, from: nat, e: Event<T>)
    requires from <= |events|
    ensures Work(w, events + [e], from) == Work(w, events, from) + Progress(Run(w, events), e)
  {
    assert (events + [e])[..|events|] == events;
  }

  /** A poll that reports no change leaves the writer as it was and its slot stuck. */
  lemma UnchangedPoll<T>(w: Writer<T>, index: nat, answer: Response<T>)
    requires Inv(w) && Enabled(w, PollSlot(index, answer))
    ensures var r := Poll(w.files[index], answer, w.phase.Draining?, w.maxRetries);
            r.Polled? && !r.changed ==>
              PollStep(w, index, answer) == w && StuckAt(w, index) && (Asks(w.files[index]) ==> answer.Pending?)
    ensures var r := Poll(w.files[index], answer, w.phase.Draining?, w.maxRetries);
            if r.Fatal? then PollStep(w, index, answer) == Fail(w) else Kept(w, PollStep(w, index, answer))
  {
    assert FileOk(w, index);
    StuckPoll(w.files[index], answer, w.phase.Draining?, w.maxRetries);
  }

  /** Closed destinations at the head of the window. */
  function HeadsDone<T>(files: seq<Slot<T>>): nat {
    if files == [] || !Finished(files[0]) then 0 else 1 + HeadsDone(files[1..])
  }
}

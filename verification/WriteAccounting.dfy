/** What the writer's `used` counter means, stated with sums of its own: retained frames when
    streaming, whole files when retaining them for replay. */
module WriteAccounting {
  import opened Segmentation
  import opened WriteSlots
  import opened Writers

  /** Finished frames kept in memory. */
  function Retained<T>(files: seq<Slot<T>>): nat {
    if files == [] then 0 else files[0].frames.Len() + Retained(files[1..])
  }

  /** Capacities of the destinations that hold frames and are not closed. */
  function Reserved<T>(files: seq<Slot<T>>): nat {
    if files == [] then 0
    else (if files[0].filled > 0 && !Finished(files[0]) then files[0].capacity else 0) + Reserved(files[1..])
  }

  /** Frames in memory: the finished ones, and the one being filled. */
  function InMemory<T>(w: Writer<T>): nat {
    Retained(w.files) + (if w.partial.Some? then 1 else 0)
  }

  lemma {:induction false} StreamingSum<T>(files: seq<Slot<T>>)
    requires forall i :: 0 <= i < |files| ==> files[i].frames.Streaming?
    ensures UsedBy(files) == Retained(files)
  {
    if files != [] {
      StreamingSum(files[1..]);
    }
  }

  lemma {:induction false} ReplaySum<T>(files: seq<Slot<T>>)
    requires forall i :: 0 <= i < |files| ==> files[i].frames.Replay?
    ensures UsedBy(files) == Reserved(files)
  {
    if files != [] {
      ReplaySum(files[1..]);
    }
  }

  /** Retained files never outgrow their reservations. */
  lemma {:induction false} RetainedFits<T>(files: seq<Slot<T>>, maxRetries: nat)
    requires forall i :: 0 <= i < |files| ==> SlotInv(files[i], maxRetries) && files[i].frames.Replay?
    ensures Retained(files) <= Reserved(files)
  {
    if files != [] {
      assert SlotInv(files[0], maxRetries);
      RetainedFits(files[1..], maxRetries);
    }
  }

  /** A file that is being filled further has room for one frame more than it retains. */
  lemma {:induction false} RetainedLeavesRoom<T>(files: seq<Slot<T>>, maxRetries: nat, k: nat)
    requires forall i :: 0 <= i < |files| ==> SlotInv(files[i], maxRetries) && files[i].frames.Replay?
    requires k < |files| && 0 < files[k].filled < files[k].capacity && !Finished(files[k])
    ensures Retained(files) + 1 <= Reserved(files)
  {
    assert SlotInv(files[0], maxRetries);
    if k == 0 {
      RetainedFits(files[1..], maxRetries);
    } else {
      RetainedLeavesRoom(files[1..], maxRetries, k - 1);
    }
  }

  /** The accounting is exact in every reachable state. Without retries a writer uses one unit per
      frame in memory. With retries it uses the whole capacity of every file that holds frames
      and is not closed, and of the file whose first frame is being filled. */
  lemma AccountingIsExact<T>(w: Writer<T>, events: seq<Event<T>>, v: Writer<T>)
    requires Writers.Inv(w) && Run(w, events) == Some(v)
    ensures v.maxRetries == 0 ==> v.used == InMemory(v)
    ensures v.maxRetries > 0 ==>
              v.used == Reserved(v.files)
                        + (if v.partial.Some? && v.fill < |v.files| && v.files[v.fill].filled == 0
                           then v.files[v.fill].capacity else 0)
    ensures v.used <= v.capacity <= v.total
    ensures v.phase.Broken? || (v.phase.Draining? && v.files == []) ==> v.used == 0 && v.capacity == 0
  {
    EveryRunKeepsInv(w, events);
    if !v.phase.Broken? {
      SameMode(v);
      if v.maxRetries == 0 {
        StreamingSum(v.files);
      } else {
        ReplaySum(v.files);
      }
    }
  }

  lemma SameMode<T>(w: Writer<T>)
    requires Writers.Inv(w) && !w.phase.Broken?
    ensures forall i :: 0 <= i < |w.files| ==>
              SlotInv(w.files[i], w.maxRetries) && (w.files[i].frames.Replay? <==> w.maxRetries > 0)
  {
    forall i | 0 <= i < |w.files|
      ensures SlotInv(w.files[i], w.maxRetries)
    {
      assert FileOk(w, i);
    }
  }

  /** In both modes no writer keeps more frames in memory than the budget has granted it. */
  lemma MemoryIsGranted<T>(w: Writer<T>)
    requires Writers.Inv(w)
    ensures InMemory(w) <= w.used <= w.capacity
  {
    assert Run(w, []) == Some(w);
    AccountingIsExact(w, [], w);
    if !w.phase.Broken? && w.maxRetries > 0 {
      SameMode(w);
      RetainedFits(w.files, w.maxRetries);
      if w.partial.Some? {
        assert FileOk(w, w.fill);
        if w.files[w.fill].filled > 0 {
          RetainedLeavesRoom(w.files, w.maxRetries, w.fill);
        }
      }
    }
  }

  /** The saturating subtractions of the accounting never saturate: neither when a poll releases
      capacity nor when an empty partial frame gives its reservation back. */
  lemma ReleasesNeverSaturate<T>(w: Writer<T>, events: seq<Event<T>>, v: Writer<T>)
    requires Writers.Inv(w) && Run(w, events) == Some(v) && !v.phase.Broken?
    ensures forall i, answer :: 0 <= i < |v.files| ==>
              var r := Poll(v.files[i], answer, v.phase.Draining?, v.maxRetries);
              r.Polled? ==> r.released <= v.used
    ensures v.partial.Some? ==> v.fill < |v.files| && Needed(v) <= v.used
  {
    EveryRunKeepsInv(w, events);
    forall i, answer | 0 <= i < |v.files|
      ensures var r := Poll(v.files[i], answer, v.phase.Draining?, v.maxRetries);
              r.Polled? ==> r.released <= v.used
    {
      assert FileOk(v, i);
      PollReleases(v.files[i], answer, v.phase.Draining?, v.maxRetries);
      UsedByAtLeast(v.files, i);
    }
  }

  /** The room left below the window is the one subtraction that may saturate: exactly when a
      streaming window has shrunk below what is in use. The writer then starts no frame. */
  lemma RoomSaturates<T>(w: Writer<T>, events: seq<Event<T>>, v: Writer<T>)
    requires Writers.Inv(w) && Run(w, events) == Some(v) && !v.phase.Broken?
    ensures Limit(v) < v.used <==> v.maxRetries == 0 && v.target < v.used
    ensures Limit(v) < v.used && v.fill < |v.files| ==> !Fits(v)
  {
    EveryRunKeepsInv(w, events);
  }

  /** A streaming writer of one file with a window of two frames, then of one. */
  function Narrowing(): seq<Event<int>> {
    [PushFile(Descriptor(0, 3)), GrowGrant(2), Allocate(Partial(0, true, false)),
     Fill(FillDone(Partial(7, false, true), 1)), Allocate(Partial(0, true, false)), SetWindow(1, 1)]
  }

  /** It does happen: two frames are in use when the window is set to one. */
  lemma RoomCanSaturate() returns (v: Writer<int>)
    ensures Writers.Inv(Init<int>(0, 2, 2, 1)) && Run(Init(0, 2, 2, 1), Narrowing()) == Some(v)
    ensures !v.phase.Broken? && Limit(v) < v.used
  {
    hide Run, Step, Writers.Enabled, Writers.Inv;
    InitInv<int>(0, 2, 2, 1);
    var e := Narrowing();
    var w := Init<int>(0, 2, 2, 1);
    var w4 := HalfNarrowed(w, e[..4]);
    v := Narrowed(w4, e[4], e[5]);
    OneMore(w, e[..4], e[4]);
    OneMore(w, e[..5], e[5]);
    assert e[..4] + [e[4]] == e[..5] && e[..5] + [e[5]] == e;
  }

  lemma HalfNarrowed(w: Writer<int>, e: seq<Event<int>>) returns (v: Writer<int>)
    requires w == Init(0, 2, 2, 1) && e == Narrowing()[..4]
    ensures Run(w, e) == Some(v) && v.phase.Accepting? && v.partial.None? && v.fill == 0 && |v.files| == 1
    ensures v.maxRetries == 0 && v.total == 2 && v.target == 2 && v.used == 1 && v.capacity == 2
  {
    assert Run(w, []) == Some(w) && e[..0] == [];
    OneMore(w, e[..0], e[0]);
    assert e[..0] + [e[0]] == e[..1];
    OneMore(w, e[..1], e[1]);
    assert e[..1] + [e[1]] == e[..2];
    OneMore(w, e[..2], e[2]);
    assert e[..2] + [e[2]] == e[..3];
    OneMore(w, e[..3], e[3]);
    assert e[..3] + [e[3]] == e;
    v := Run(w, e).value;
  }

  lemma Narrowed(w: Writer<int>, allocate: Event<int>, narrow: Event<int>) returns (v: Writer<int>)
    requires w.phase.Accepting? && w.partial.None? && w.fill == 0 && |w.files| == 1
    requires w.maxRetries == 0 && w.total == 2 && w.target == 2 && w.used == 1 && w.capacity == 2
    requires allocate == Allocate(Partial(0, true, false)) && narrow == SetWindow(1, 1)
    ensures Writers.Enabled(w, allocate) && Writers.Enabled(Step(w, allocate), narrow)
    ensures v == Step(Step(w, allocate), narrow) && !v.phase.Broken? && Limit(v) < v.used
  {
    v := Step(Step(w, allocate), narrow);
  }

  lemma OneMore(w: Writer<int>, events: seq<Event<int>>, e: Event<int>)
    ensures Run(w, events).Some? && Writers.Enabled(Run(w, events).value, e) ==>
              Run(w, events + [e]) == Some(Step(Run(w, events).value, e))
  {
    if Run(w, events).Some? && Writers.Enabled(Run(w, events).value, e) {
      RunAppend(w, events, e);
    }
  }
}

/** Any number of read and write schedulers on one budget. A move is a step of one scheduler
    together with the budget operation that goes with it, so a run is any interleaving of them. */
module SharedSystems {
  import opened Segmentation
  import opened Naturals
  import opened Clients
  import S = WriteSlots
  import W = Writers
  import R = Readers
  import BW = BudgetedWriters
  import BR = BudgetedReaders
  import B = Budgets
  import A = WriteAccounting

  /** Client `i` owns permit `i`. */
  datatype System<T> = System(budget: B.Budget, clients: seq<Client<T>>)

  datatype Move<T> = Join(client: Client<T>) | Step(i: nat, act: Act<T>) | Leave(i: nat)

  ghost predicate Fits<T>(c: Client<T>, p: B.Permit, total: nat) {
    match c
    case Writer(w) => W.Inv(w) && BW.Coupled(w, p) && w.total == total
    case Reader(r) => R.Inv(r) && BR.Coupled(r, p) && r.total == total
  }

  ghost predicate Inv<T>(s: System<T>) {
    && B.Inv(s.budget) && |s.clients| == |s.budget.permits|
    && forall i :: 0 <= i < |s.clients| && s.budget.permits[i].live ==>
         Fits(s.clients[i], s.budget.permits[i], s.budget.total)
  }

  // --- moves ---------------------------------------------------------------------------------------

  ghost predicate Alive<T>(s: System<T>, i: nat) {
    B.Usable(s.budget, i) && i < |s.clients|
  }

  ghost predicate Possible<T>(s: System<T>, m: Move<T>) {
    match m
    case Join(c) => Fits(c, B.NEW_PERMIT, s.budget.total)
    case Step(i, a) => Alive(s, i) && CanAct(i, Share(s.budget, s.clients[i]), a)
    case Leave(i) => Alive(s, i)
  }

  ghost function Next<T>(s: System<T>, m: Move<T>): System<T>
    requires Inv(s) && Possible(s, m)
  {
    match m
    case Join(c) => System(B.Create(s.budget), s.clients + [c])
    case Step(i, a) =>
      var t := Acted(i, Share(s.budget, s.clients[i]), a);
      System(t.budget, s.clients[i := t.client])
    case Leave(i) => System(B.Retire(s.budget, i), s.clients)
  }

  // --- each client's own move --------------------------------------------------------------------

  /** A budget operation of permit `i` that leaves client `c` fitting its permit. */
  ghost predicate Settles<T>(b: B.Budget, d: B.Budget, i: nat, c: Client<T>) {
    |d.permits| == |b.permits| && i < |d.permits| && d.total == b.total && Fits(c, d.permits[i], d.total)
  }

  lemma ReturnedPermit(b: B.Budget, i: nat, capacity: Option<nat>)
    requires B.Inv(b) && B.Usable(b, i)
    ensures var d := B.Returned(b, i, capacity);
            && |d.permits| == |b.permits| && d.total == b.total
            && d.permits[i] == if capacity.Some? then B.Cancelled(b.permits[i], capacity.value) else b.permits[i]
  {
    if capacity.Some? {
      var _ := B.ShrinkOutcome(b, i, capacity.value);
    }
  }

  lemma WriterSettles<T>(b: B.Budget, w: W.Writer<T>, i: nat, e: W.Event<T>)
    requires B.Inv(b) && B.Usable(b, i) && Fits(Writer(w), b.permits[i], b.total) && WriterMoves(w, e)
    ensures Settles(b, B.Returned(b, i, WriterReturns(w, e)), i, Writer(W.Step(w, e)))
  {
    hide W.Inv, BW.Coupled, WriterReturns, B.Inv, B.Returned, WriterMoves;
    WriterCouples(w, b.permits[i], e);
    MovesAreEnabled(w, e);
    W.StepKeepsInv(w, e);
    StepKeepsTotal(w, e);
    ReturnedPermit(b, i, WriterReturns(w, e));
  }

  lemma MovesAreEnabled<T>(w: W.Writer<T>, e: W.Event<T>)
    requires WriterMoves(w, e)
    ensures W.Enabled(w, e)
  {
  }

  lemma StepKeepsTotal<T>(w: W.Writer<T>, e: W.Event<T>)
    requires W.Enabled(w, e)
    ensures W.Step(w, e).total == w.total
  {
  }

  /** Reserving either covers the next frame or leaves the writer coupled to its queued request. */
  lemma ReservationOutcome<T>(b: B.Budget, w: W.Writer<T>, i: nat)
    requires B.Inv(b) && B.Usable(b, i) && Fits(Writer(w), b.permits[i], b.total) && Reserves(w)
    ensures var (c, result) := Reservation(b, w, i);
            && B.Inv(c) && |c.permits| == |b.permits| && c.total == b.total && B.Usable(c, i)
            && (result.Ready? ==>
                  && !c.permits[i].waiting && c.permits[i].granted == 0
                  && w.used + W.Needed(w) <= c.permits[i].capacity <= b.total
                  && c.permits[i].capacity <= Max(w.target, w.used + W.Needed(w)))
            && (result.Pending? ==> BW.Coupled(w, c.permits[i]))
  {
    hide B.Inv, B.Grow, W.Inv, BW.Coupled, B.GrowSeen;
    var minimum, desired := w.used + W.Needed(w), BW.ReserveSize(w);
    B.GrowKeepsInv(b, i, minimum, desired);
    B.GrowAnswer(b, i, minimum, desired);
    var (c, result) := B.Grow(b, i, minimum, desired);
    BW.ReserveOutcome(w, b.permits[i], c.permits[i], result);
    GrowTotal(b, i, minimum, desired);
  }

  lemma GrowTotal(b: B.Budget, i: nat, minimum: nat, desired: nat)
    requires B.Usable(b, i)
    ensures B.Grow(b, i, minimum, desired).0.total == b.total && B.Usable(B.Grow(b, i, minimum, desired).0, i)
  {
  }

  lemma StartSettles<T>(b: B.Budget, w: W.Writer<T>, i: nat, empty: W.Partial<T>)
    requires B.Inv(b) && B.Usable(b, i) && Fits(Writer(w), b.permits[i], b.total) && Reserves(w)
    requires Reservation(b, w, i).1.Ready?
    ensures var (d, v) := Started(b, w, i, empty);
            Settles(b, d, i, Writer(v))
  {
    hide B.Inv, W.Inv, BW.Coupled, Reservation, W.AllocateStep;
    ReservationOutcome(b, w, i);
    var c := Reservation(b, w, i).0;
    var u := w.(capacity := c.permits[i].capacity);
    GrantedKeepsInv(w, u);
    W.AllocateKeepsInv(u, empty);
    BW.AllocateCoupled(u, c.permits[i], empty);
    StepKeepsTotal(u, W.Allocate(empty));
    ReturnedPermit(c, i, Some(0));
  }

  lemma GrantedKeepsInv<T>(w: W.Writer<T>, u: W.Writer<T>)
    requires W.Inv(w) && Reserves(w) && u == w.(capacity := u.capacity) && w.used <= u.capacity <= w.total
    ensures W.Inv(u)
  {
    W.GrantKeepsInv(w, u);
  }

  lemma ReaderKeepsTotal<T>(r: R.Reader<T>, e: R.Event<T>)
    requires R.Inv(r) && R.Enabled(r, e)
    ensures R.Step(r, e).total == r.total
  {
    hide R.Layout, R.Retire, R.Recycling, R.Grant;
    if e.Emit? {
      EmitSame(r, e.given);
    }
    if e.PollFile? {
      PollKeepsTotal(r, e.index, e.answer, e.made);
    }
  }

  lemma PollKeepsTotal<T>(r: R.Reader<T>, i: nat, answer: R.Answer<T>, made: T)
    requires i < |r.files|
    ensures R.PollStep(r, i, answer, made).0.total == r.total
  {
  }

  lemma ReaderSettles<T>(b: B.Budget, r: R.Reader<T>, i: nat, e: R.Event<T>)
    requires B.Inv(b) && B.Usable(b, i) && Fits(Reader(r), b.permits[i], b.total) && ReaderMoves(r, e)
    requires e.GrowGrant? ==>
               i < |ReaderBudget(b, r, i, e).permits| && e.capacity == ReaderBudget(b, r, i, e).permits[i].capacity
    ensures Settles(b, ReaderBudget(b, r, i, e), i, Reader(R.Step(r, e)))
  {
    R.StepKeepsInv(r, e);
    ReaderKeepsTotal(r, e);
    if e.GrowGrant? {
      ReaderGrows(b, r, i, e.capacity);
    } else {
      hide R.Inv, BR.Coupled, B.Inv, B.Returned, R.Step, ReaderReturns;
      ReaderCouples(r, b.permits[i], e);
      ReturnedPermit(b, i, ReaderReturns(r, e));
    }
  }

  lemma ReaderGrows<T>(b: B.Budget, r: R.Reader<T>, i: nat, capacity: nat)
    requires B.Inv(b) && B.Usable(b, i) && Fits(Reader(r), b.permits[i], b.total)
    requires !r.terminated && r.files != [] && r.capacity < BR.Goal(r)
    ensures var c := B.Grow(b, i, BR.Batch(r), BR.Goal(r)).0;
            && |c.permits| == |b.permits| && c.total == b.total
            && (capacity == c.permits[i].capacity ==> BR.Coupled(r.(capacity := capacity), c.permits[i]))
  {
    B.GrowKeepsInv(b, i, BR.Batch(r), BR.Goal(r));
    B.GrowAnswer(b, i, BR.Batch(r), BR.Goal(r));
    GrowTotal(b, i, BR.Batch(r), BR.Goal(r));
    var (c, result) := B.Grow(b, i, BR.Batch(r), BR.Goal(r));
    BR.GrowOutcome(r, b.permits[i], c.permits[i], result);
  }

  // --- everyone else ------------------------------------------------------------------------------

  /** Clients that do nothing keep fitting their permits, whatever the others do. */
  lemma OtherFits<T>(b: B.Budget, d: B.Budget, j: nat, c: Client<T>)
    requires B.Inv(b) && B.Spares(b, d, j) && j < |b.permits|
    ensures B.Inv(d) && d.total == b.total && j < |d.permits| && (d.permits[j].live ==> b.permits[j].live)
    ensures Fits(c, b.permits[j], b.total) ==> Fits(c, d.permits[j], d.total)
  {
    hide B.Inv, B.Spares, W.Inv, R.Inv, BW.Coupled, BR.Coupled;
    B.OthersOnlyServe(b, d, j);
    match c
    case Writer(w) => if BW.Coupled(w, b.permits[j]) { BW.OthersKeepCoupled(b, d, j, w); }
    case Reader(r) => if BR.Coupled(r, b.permits[j]) { BR.OthersKeepCoupled(b, d, j, r); }
  }

  lemma BudgetInRange(b: B.Budget)
    requires B.Inv(b)
    ensures B.InRange(b)
  {
  }

  /** After what client `i` did, everyone fits if that client does. */
  lemma OthersFit<T>(s: System<T>, d: B.Budget, i: nat, c: Client<T>)
    requires Inv(s) && i < |s.clients| == |d.permits| && B.Inv(d) && d.total == s.budget.total
    requires forall j :: 0 <= j < |s.clients| && j != i ==> B.Spares(s.budget, d, j)
    requires d.permits[i].live ==> Fits(c, d.permits[i], d.total)
    ensures Inv(System(d, s.clients[i := c]))
  {
    hide B.Inv, B.Spares, Fits;
    forall j | 0 <= j < |s.clients| && j != i && d.permits[j].live
      ensures Fits(s.clients[j], d.permits[j], d.total)
    {
      OtherFits(s.budget, d, j, s.clients[j]);
    }
  }

  // --- every run ----------------------------------------------------------------------------------

  /** A step of a client leaves the client fitting its own permit. */
  lemma ActSettles<T>(i: nat, s: Share<T>, a: Act<T>)
    requires CanAct(i, s, a) && B.Inv(s.budget) && Fits(s.client, s.budget.permits[i], s.budget.total)
    ensures var t := Acted(i, s, a); Settles(s.budget, t.budget, i, t.client)
  {
    hide B.Inv, Fits, B.Returned, WriterReturns, ReaderBudget, Started, Settles, W.Step, R.Step, Reserves, Reservation;
    match a
    case Write(e) => WriterSettles(s.budget, s.client.w, i, e);
    case Start(empty) => StartSettles(s.budget, s.client.w, i, empty);
    case Wait => WaitSettles(s.budget, s.client.w, i);
    case Read(e) => ReaderSettles(s.budget, s.client.r, i, e);
  }

  lemma WaitSettles<T>(b: B.Budget, w: W.Writer<T>, i: nat)
    requires B.Inv(b) && B.Usable(b, i) && Fits(Writer(w), b.permits[i], b.total) && Reserves(w)
    requires Reservation(b, w, i).1.Pending?
    ensures Settles(b, Reservation(b, w, i).0, i, Writer(w))
  {
    hide B.Inv, Reserves, Reservation, W.Inv, BW.Coupled;
    ReservationOutcome(b, w, i);
  }

  lemma StepKeepsInv<T>(s: System<T>, i: nat, a: Act<T>)
    requires Inv(s) && Possible(s, Step(i, a))
    ensures Inv(Next(s, Step(i, a))) && Next(s, Step(i, a)).budget.total == s.budget.total
  {
    hide B.Inv, B.Spares, Fits, CanAct, Acted;
    var u := Share(s.budget, s.clients[i]);
    ActSettles(i, u, a);
    var t := Acted(i, u, a);
    forall j | 0 <= j < |s.clients| && j != i
      ensures B.Spares(s.budget, t.budget, j)
    {
      ActSpares(i, u, a, j);
    }
    ActSpares(i, u, a, |s.clients|);
    OthersFit(s, t.budget, i, t.client);
  }

  lemma JoinKeepsInv<T>(s: System<T>, c: Client<T>)
    requires Inv(s) && Fits(c, B.NEW_PERMIT, s.budget.total)
    ensures Inv(System(B.Create(s.budget), s.clients + [c]))
  {
    hide Fits;
    B.CreateOutcome(s.budget);
  }

  lemma RetiredPermit(b: B.Budget, i: nat)
    requires B.Inv(b) && B.InRange(b) && B.Usable(b, i)
    ensures i < |b.permits| == |B.Retire(b, i).permits| && !B.Retire(b, i).permits[i].live
  {
    hide B.Inv, B.Shrink;
    var _ := B.ShrinkOutcome(b, i, 0);
  }

  lemma LeaveKeepsInv<T>(s: System<T>, i: nat)
    requires Inv(s) && Possible(s, Leave(i))
    ensures Inv(System(B.Retire(s.budget, i), s.clients)) && B.Retire(s.budget, i).total == s.budget.total
  {
    hide B.Inv, Fits, B.Retire, B.Spares;
    BudgetInRange(s.budget);
    RetiredPermit(s.budget, i);
    var _ := B.RetireOutcome(s.budget, i);
    forall j | 0 <= j < |s.clients| && j != i
      ensures B.Spares(s.budget, B.Retire(s.budget, i), j)
    {
      B.SparesOperation(s.budget, B.DropPermit(i), j);
    }
    OthersFit(s, B.Retire(s.budget, i), i, s.clients[i]);
    assert s.clients[i := s.clients[i]] == s.clients;
  }

  lemma NextKeepsInv<T>(s: System<T>, m: Move<T>)
    requires Inv(s) && Possible(s, m)
    ensures Inv(Next(s, m)) && Next(s, m).budget.total == s.budget.total
  {
    hide B.Inv, Fits, CanAct, Acted, B.Retire;
    match m
    case Join(c) => JoinKeepsInv(s, c);
    case Step(i, a) => StepKeepsInv(s, i, a);
    case Leave(i) => LeaveKeepsInv(s, i);
  }

  /** The systems a run goes through. */
  ghost predicate IsRun<T(!new)>(states: seq<System<T>>, moves: seq<Move<T>>) {
    && |states| == |moves| + 1
    && forall k :: 0 <= k < |moves| ==> Follows(states[k], moves[k], states[k + 1])
  }

  /** From a sound system only possible moves are made. */
  ghost predicate Follows<T>(s: System<T>, m: Move<T>, t: System<T>) {
    Inv(s) ==> Possible(s, m) && t == Next(s, m)
  }

  lemma {:induction false} EveryRunKeepsInv<T(!new)>(states: seq<System<T>>, moves: seq<Move<T>>, k: nat)
    requires IsRun(states, moves) && Inv(states[0]) && k < |states|
    ensures Inv(states[k]) && states[k].budget.total == states[0].budget.total
  {
    hide Inv, Possible, Next;
    if k > 0 {
      EveryRunKeepsInv(states, moves, k - 1);
      assert Follows(states[k - 1], moves[k - 1], states[k]);
      NextKeepsInv(states[k - 1], moves[k - 1]);
    }
  }

  /** Whatever a scheduler does is a run of the system in which it takes part. */
  lemma LeadsIsRun<T(!new)>(s: System<T>, i: nat, t: Share<T>) returns (states: seq<System<T>>, moves: seq<Move<T>>)
    requires i < |s.clients| && Leads(i, Share(s.budget, s.clients[i]), t)
    ensures IsRun(states, moves) && states[0] == s
    ensures states[|moves|] == System(t.budget, s.clients[i := t.client])
  {
    hide Inv, CanAct, Acted, B.Usable;
    var path: seq<Share<T>>, acts: seq<Act<T>> :|
      IsPath(i, path, acts) && path[0] == Share(s.budget, s.clients[i]) && path[|acts|] == t;
    states := seq(|path|, k requires 0 <= k < |path| => System(path[k].budget, s.clients[i := path[k].client]));
    moves := seq(|acts|, k requires 0 <= k < |acts| => Step(i, acts[k]));
    forall k | 0 <= k < |moves|
      ensures Follows(states[k], moves[k], states[k + 1])
    {
      assert Clients.Follows(i, path[k], acts[k], path[k + 1]);
      ActIsMove(states[k], i, acts[k], path[k], path[k + 1]);
    }
    assert s.clients[i := s.clients[i]] == s.clients;
  }

  lemma ActIsMove<T>(s: System<T>, i: nat, a: Act<T>, t: Share<T>, u: Share<T>)
    requires i < |s.clients| && t == Share(s.budget, s.clients[i]) && CanAct(i, t, a) && u == Acted(i, t, a)
    ensures Follows(s, Step(i, a), System(u.budget, s.clients[i := u.client]))
  {
    hide Inv, Acted;
  }

  function Empty<T>(total: nat): System<T> {
    System(B.Fresh(total), [])
  }

  /** A budget without clients is sound, and new schedulers may join at any time. */
  lemma NewSchedulersFit<T>(total: nat, maxRetries: nat, target: nat, maxActive: nat, modulus: nat, window: R.Window)
    requires total > 0 && target > 0 && maxActive > 0 && modulus > 0 && R.ValidWindow(window)
    ensures Inv(Empty<T>(total))
    ensures Fits<T>(Writer(W.Init(maxRetries, total, target, maxActive)), B.NEW_PERMIT, total)
    ensures Fits<T>(Reader(R.Init(maxRetries, total, modulus, window)), B.NEW_PERMIT, total)
  {
    hide W.Inv, R.Inv;
    W.InitInv<T>(maxRetries, total, target, maxActive);
    R.InitInv<T>(maxRetries, total, modulus, window);
  }

  /** A queued writer keeps its place through a poll of its own destinations exactly when the poll
      releases no capacity: returning capacity withdraws the request. */
  lemma QueuePlaceKept<T>(b: B.Budget, w: W.Writer<T>, i: nat, index: nat, answer: S.Response<T>)
    requires B.Inv(b) && B.Usable(b, i) && b.permits[i].waiting && index < |w.files|
    requires W.Enabled(w, W.PollSlot(index, answer))
    ensures var d := B.Returned(b, i, WriterReturns(w, W.PollSlot(index, answer)));
            i < |d.permits| && (d.permits[i].waiting <==> !BW.Releases(w, index, answer))
  {
    ReturnedPermit(b, i, WriterReturns(w, W.PollSlot(index, answer)));
  }

  // --- what that means ------------------------------------------------------------------------------

  /** Frames a client keeps in memory: finished and partial ones of a writer, window cells of a reader. */
  function InMemory<T>(c: Client<T>): nat {
    match c
    case Writer(w) => A.InMemory(w)
    case Reader(r) => |r.frames|
  }

  function AllInMemory<T>(clients: seq<Client<T>>, permits: seq<B.Permit>): nat
    requires |clients| == |permits|
  {
    if clients == [] then 0
    else (if permits[0].live then InMemory(clients[0]) else 0) + AllInMemory(clients[1..], permits[1..])
  }

  lemma ClientWithinGrant<T>(c: Client<T>, p: B.Permit, total: nat)
    requires Fits(c, p, total)
    ensures InMemory(c) <= p.capacity
  {
    if c.Writer? {
      A.MemoryIsGranted(c.w);
    }
  }

  lemma {:induction false} AllWithinHeld<T>(clients: seq<Client<T>>, permits: seq<B.Permit>, total: nat)
    requires |clients| == |permits|
    requires forall j :: 0 <= j < |clients| && permits[j].live ==> Fits(clients[j], permits[j], total)
    ensures AllInMemory(clients, permits) <= B.Held(permits)
  {
    hide Fits, InMemory;
    if clients != [] {
      if permits[0].live {
        ClientWithinGrant(clients[0], permits[0], total);
      }
      AllWithinHeld(clients[1..], permits[1..], total);
    }
  }

  /** Main result. However many read and write schedulers share one budget, and however their
      steps interleave while they join and leave: all of them keep their own guarantees, and
      together they never keep more frames in memory than the budget's total. */
  lemma EveryRunShares<T(!new)>(states: seq<System<T>>, moves: seq<Move<T>>, k: nat)
    requires IsRun(states, moves) && Inv(states[0]) && k < |states|
    ensures var s := states[k];
            && |s.clients| == |s.budget.permits| && AllInMemory(s.clients, s.budget.permits) <= states[0].budget.total
            && (forall i :: 0 <= i < |s.clients| && s.budget.permits[i].live ==>
                  if s.clients[i].Writer? then W.Inv(s.clients[i].w) else R.Inv(s.clients[i].r))
  {
    EveryRunKeepsInv(states, moves, k);
    var s := states[k];
    AllWithinHeld(s.clients, s.budget.permits, s.budget.total);
  }

  ghost predicate RestingReplayer<T>(c: Client<T>) {
    c.Writer? && c.w.maxRetries > 0 && BW.Resting(c.w)
  }

  /** Deadlock freedom in every reachable state: if only resting replay writers are alive and the
      queue is blocked, some other writer has an unclaimed grant to continue with, or a file that
      can finish without any more budget. */
  lemma BlockedSystemCanAdvance<T(!new)>(states: seq<System<T>>, moves: seq<Move<T>>, k: nat)
    returns (i: nat, file: nat)
    requires IsRun(states, moves) && Inv(states[0]) && k < |states| && states[k].budget.queue != []
    requires forall j :: 0 <= j < |states[k].clients| && Alive(states[k], j) ==> RestingReplayer(states[k].clients[j])
    ensures var s := states[k];
            && i < |s.clients| == |s.budget.permits| && i != s.budget.queue[0] && s.clients[i].Writer?
            && var w := s.clients[i].w;
               s.budget.permits[i].granted > 0
               || (file < |w.files| && S.Finishable(w.files[file], w.phase.Draining?))
  {
    EveryRunKeepsInv(states, moves, k);
    var s := states[k];
    i := B.BlockedHeadHasHolder(s.budget);
    file := 0;
    assert s.budget.permits[i].live;
    if s.budget.permits[i].granted == 0 {
      file := BW.HeldByFinishable(s.clients[i].w);
    }
  }
}

/** A scheduler and the budget it draws on: each step of a scheduler comes with one operation of its
    permit, and whatever a scheduler does is a sequence of such steps. */
module Clients {
  import opened Segmentation
  import opened Naturals
  import W = Writers
  import R = Readers
  import BW = BudgetedWriters
  import BR = BudgetedReaders
  import B = Budgets

  datatype Client<T> = Writer(w: W.Writer<T>) | Reader(r: R.Reader<T>)

  /** `Start` reserves and begins a writer's next frame; `Wait` queues the writer for it. */
  datatype Act<T> =
    | Write(write: W.Event<T>)
    | Start(empty: W.Partial<T>)
    | Wait
    | Read(read: R.Event<T>)

  datatype Share<T> = Share(budget: B.Budget, client: Client<T>)

  /** A writer about to reserve its next frame holds exactly what it uses. */
  predicate Reserves<T>(w: W.Writer<T>) {
    && w.phase.Accepting? && w.partial.None? && w.fill < |w.files|
    && W.Fits(w) && W.Needed(w) > 0 && w.capacity == w.used
  }

  function Reservation<T>(b: B.Budget, w: W.Writer<T>, i: nat): (B.Budget, B.GrowResult)
    requires B.Usable(b, i) && Reserves(w)
  {
    B.Grow(b, i, w.used + W.Needed(w), BW.ReserveSize(w))
  }

  predicate WriterMoves<T>(w: W.Writer<T>, e: W.Event<T>) {
    W.Enabled(w, e) && !e.GrowGrant? && (e.ShrinkGrant? ==> e.capacity == w.used)
  }

  /** What a writer's step returns to the budget, if anything. */
  function WriterReturns<T>(w: W.Writer<T>, e: W.Event<T>): Option<nat>
    requires W.Enabled(w, e)
  {
    match e
    case ShrinkGrant(capacity) => Some(capacity)
    case SetWindow(target, _) => Some(Min(w.capacity, Max(target, w.used)))
    case BeginClose => Some(W.CloseStep(w).used)
    case PollSlot(index, answer) =>
      if BW.Releases(w, index, answer) then Some(W.PollStep(w, index, answer).capacity) else None
    case _ => if W.Step(w, e).phase.Broken? then Some(0) else None
  }

  predicate ReaderMoves<T>(r: R.Reader<T>, e: R.Event<T>) {
    R.Enabled(r, e) && (e.GrowGrant? ==> r.capacity < BR.Goal(r))
  }

  function ReaderReturns<T>(r: R.Reader<T>, e: R.Event<T>): Option<nat>
    requires R.Enabled(r, e)
  {
    match e
    case SetWindow(window) => Some(Min(r.capacity, Max(window.target, |r.frames|)))
    case Emit(given) =>
      var q := R.Retire(R.Popped(r, given));
      if R.Excessive(q) then Some(Max(q.window.target, |q.frames|)) else None
    case Finish => if r.capacity > 0 then Some(0) else None
    case PollFile(index, answer, made) => if R.PollStep(r, index, answer, made).0.terminated then Some(0) else None
    case _ => None
  }

  ghost function ReaderBudget<T>(b: B.Budget, r: R.Reader<T>, i: nat, e: R.Event<T>): B.Budget
    requires B.Usable(b, i) && R.Enabled(r, e)
  {
    if e.GrowGrant? then B.Grow(b, i, BR.Batch(r), BR.Goal(r)).0 else B.Returned(b, i, ReaderReturns(r, e))
  }

  /** The reserved frame of a writer is begun on the capacity just granted. */
  ghost function Started<T>(b: B.Budget, w: W.Writer<T>, i: nat, empty: W.Partial<T>): (B.Budget, W.Writer<T>)
    requires B.Usable(b, i) && Reserves(w)
  {
    var c := Reservation(b, w, i).0;
    var v := W.AllocateStep(w.(capacity := c.permits[i].capacity), empty);
    (B.Returned(c, i, if v.phase.Broken? then Some(0) else None), v)
  }

  /** What client `i` may do. */
  ghost predicate CanAct<T>(i: nat, s: Share<T>, a: Act<T>) {
    && B.Usable(s.budget, i)
    && match a
       case Write(e) => s.client.Writer? && WriterMoves(s.client.w, e)
       case Start(_) => s.client.Writer? && Reserves(s.client.w) && Reservation(s.budget, s.client.w, i).1.Ready?
       case Wait => s.client.Writer? && Reserves(s.client.w) && Reservation(s.budget, s.client.w, i).1.Pending?
       case Read(e) =>
         && s.client.Reader? && ReaderMoves(s.client.r, e)
         && (e.GrowGrant? ==>
               var c := ReaderBudget(s.budget, s.client.r, i, e);
               i < |c.permits| && e.capacity == c.permits[i].capacity)
  }

  ghost function Acted<T>(i: nat, s: Share<T>, a: Act<T>): Share<T>
    requires CanAct(i, s, a)
  {
    match a
    case Write(e) => Share(B.Returned(s.budget, i, WriterReturns(s.client.w, e)), Writer(W.Step(s.client.w, e)))
    case Start(empty) =>
      var (c, v) := Started(s.budget, s.client.w, i, empty);
      Share(c, Writer(v))
    case Wait => Share(Reservation(s.budget, s.client.w, i).0, s.client)
    case Read(e) => Share(ReaderBudget(s.budget, s.client.r, i, e), Reader(R.Step(s.client.r, e)))
  }

  // --- sequences of steps ------------------------------------------------------------------------

  ghost predicate IsPath<T(!new)>(i: nat, path: seq<Share<T>>, acts: seq<Act<T>>) {
    && |path| == |acts| + 1
    && forall k :: 0 <= k < |acts| ==> Follows(i, path[k], acts[k], path[k + 1])
  }

  ghost predicate Follows<T>(i: nat, s: Share<T>, a: Act<T>, t: Share<T>) {
    CanAct(i, s, a) && t == Acted(i, s, a)
  }

  /** Some steps of client `i` lead from `s` to `t`. */
  ghost predicate Leads<T(!new)>(i: nat, s: Share<T>, t: Share<T>) {
    exists path, acts :: IsPath(i, path, acts) && path[0] == s && path[|acts|] == t
  }

  lemma LeadsNowhere<T(!new)>(i: nat, s: Share<T>)
    ensures Leads(i, s, s)
  {
    assert IsPath(i, [s], []);
  }

  lemma ActLeads<T(!new)>(i: nat, s: Share<T>, a: Act<T>)
    requires CanAct(i, s, a)
    ensures Leads(i, s, Acted(i, s, a))
  {
    hide CanAct, Acted;
    assert IsPath(i, [s, Acted(i, s, a)], [a]);
  }

  lemma LeadsOn<T(!new)>(i: nat, s: Share<T>, t: Share<T>, u: Share<T>)
    requires Leads(i, s, t) && Leads(i, t, u)
    ensures Leads(i, s, u)
  {
    hide Follows;
    var p, x :| IsPath(i, p, x) && p[0] == s && p[|x|] == t;
    var q, y :| IsPath(i, q, y) && q[0] == t && q[|y|] == u;
    var path, acts := p + q[1..], x + y;
    forall k | 0 <= k < |acts|
      ensures Follows(i, path[k], acts[k], path[k + 1])
    {
      if k < |x| {
        assert path[k] == p[k] && path[k + 1] == p[k + 1];
      } else {
        assert path[k] == q[k - |x|] && path[k + 1] == q[k - |x| + 1];
      }
    }
    assert IsPath(i, path, acts);
  }

  /** A step of a writer other than its reservations. */
  lemma WriteLeads<T(!new)>(i: nat, b: B.Budget, w: W.Writer<T>, e: W.Event<T>, d: B.Budget)
    requires B.Usable(b, i) && WriterMoves(w, e) && d == B.Returned(b, i, WriterReturns(w, e))
    ensures Leads(i, Share(b, Writer(w)), Share(d, Writer(W.Step(w, e))))
  {
    hide WriterMoves, WriterReturns, W.Step, B.Returned;
    ActLeads(i, Share(b, Writer(w)), Write(e));
  }

  lemma ReadLeads<T(!new)>(i: nat, b: B.Budget, r: R.Reader<T>, e: R.Event<T>, d: B.Budget)
    requires B.Usable(b, i) && ReaderMoves(r, e) && d == ReaderBudget(b, r, i, e)
    requires e.GrowGrant? ==> i < |d.permits| && e.capacity == d.permits[i].capacity
    ensures Leads(i, Share(b, Reader(r)), Share(d, Reader(R.Step(r, e))))
  {
    hide ReaderMoves, ReaderBudget, R.Step;
    ActLeads(i, Share(b, Reader(r)), Read(e));
  }

  /** Writer `w` was queued by its reservation. */
  lemma WaitLeads<T(!new)>(i: nat, b: B.Budget, w: W.Writer<T>, d: B.Budget)
    requires B.Usable(b, i) && Reserves(w) && Reservation(b, w, i) == (d, B.Pending)
    ensures Leads(i, Share(b, Writer(w)), Share(d, Writer(w)))
  {
    hide Reserves, Reservation;
    ActLeads(i, Share(b, Writer(w)), Wait);
  }

  /** The budget has just granted the reservation of a writer in state `w`. */
  ghost predicate JustGranted<T>(i: nat, b: B.Budget, w: W.Writer<T>, t: Share<T>) {
    && B.Usable(b, i) && Reserves(w) && Reservation(b, w, i) == (t.budget, B.Ready)
    && i < |t.budget.permits| && t.client == Writer(w.(capacity := t.budget.permits[i].capacity))
  }

  /** From `s` a writer has come to have its next frame covered. */
  ghost predicate Covered<T(!new)>(i: nat, s: Share<T>, t: Share<T>) {
    || Leads(i, s, t)
    || exists b, w :: Leads(i, s, Share(b, Writer(w))) && JustGranted(i, b, w, t)
  }

  lemma CoveredSince<T(!new)>(i: nat, s: Share<T>, t: Share<T>, u: Share<T>)
    requires Leads(i, s, t) && Covered(i, t, u)
    ensures Covered(i, s, u)
  {
    hide Leads, JustGranted;
    if Leads(i, t, u) {
      LeadsOn(i, s, t, u);
    } else {
      var b, w :| Leads(i, t, Share(b, Writer(w))) && JustGranted(i, b, w, u);
      LeadsOn(i, s, t, Share(b, Writer(w)));
    }
  }

  /** A reservation was met, or has queued the writer. */
  lemma ReservationLeads<T(!new)>(i: nat, b: B.Budget, w: W.Writer<T>, d: B.Budget, result: B.GrowResult,
                                  v: W.Writer<T>)
    requires B.Usable(b, i) && i < |d.permits| && Reserves(w) && Reservation(b, w, i) == (d, result)
    requires v == w.(capacity := d.permits[i].capacity)
    ensures result.Ready? ==> Covered(i, Share(b, Writer(w)), Share(d, Writer(v)))
    ensures result.Pending? && v == w ==> Leads(i, Share(b, Writer(w)), Share(d, Writer(v)))
  {
    hide Reserves, Reservation, Leads;
    LeadsNowhere(i, Share(b, Writer(w)));
    if result.Ready? {
      assert JustGranted(i, b, w, Share(d, Writer(v)));
    }
    if result.Pending? && v == w {
      WaitLeads(i, b, w, d);
    }
  }

  /** A covered frame is begun. */
  lemma CoveredStarts<T(!new)>(i: nat, s: Share<T>, t: Share<T>, empty: W.Partial<T>, d: B.Budget, v: W.Writer<T>)
    requires Covered(i, s, t) && t.client.Writer? && B.Usable(t.budget, i) && W.Enabled(t.client.w, W.Allocate(empty))
    requires v == W.AllocateStep(t.client.w, empty)
    requires d == B.Returned(t.budget, i, if v.phase.Broken? then Some(0) else None)
    ensures Leads(i, s, Share(d, Writer(v)))
  {
    hide Leads, B.Returned, W.AllocateStep, Reservation, Reserves;
    if Leads(i, s, t) {
      WriteLeads(i, t.budget, t.client.w, W.Allocate(empty), d);
      LeadsOn(i, s, t, Share(d, Writer(v)));
    } else {
      var b, w :| Leads(i, s, Share(b, Writer(w))) && JustGranted(i, b, w, t);
      ActLeads(i, Share(b, Writer(w)), Start(empty));
      LeadsOn(i, s, Share(b, Writer(w)), Share(d, Writer(v)));
    }
  }

  // --- what a step is to its own permit -----------------------------------------------------------

  lemma WriterCouples<T>(w: W.Writer<T>, p: B.Permit, e: W.Event<T>)
    requires W.Inv(w) && BW.Coupled(w, p) && WriterMoves(w, e)
    ensures var c := WriterReturns(w, e);
            BW.Coupled(W.Step(w, e), if c.Some? then B.Cancelled(p, c.value) else p)
  {
    hide W.Inv, BW.Coupled, W.PollStep, W.CloseStep, W.WindowStep, W.AllocateStep, W.FillStep, BW.Releases;
    match e
    case ShrinkGrant(capacity) => FragmentsCoupled(w, p);
    case SetWindow(target, maxActive) => GrantIsCapacity(w, p); BW.WindowCoupled(w, p, target, maxActive);
    case BeginClose => CloseEnabled(w); BW.CloseCoupled(w, p);
    case PollSlot(index, answer) => BW.PollKeepsCoupled(w, p, index, answer);
    case Allocate(empty) => AllocatingAsksNothing(w, p, empty); BW.AllocateCoupled(w, p, empty);
    case Fill(result) => BW.FillKeepsCoupled(w, p, result);
    case PushFile(file) => BW.AdmitCoupled(w, p, file);
    case PopSwap(file) => PoppingWorks(w); BW.TakeHeadCoupled(w, p); BW.AdmitCoupled(W.TakeHead(w), p, file);
    case PopFile => PoppingWorks(w); BW.TakeHeadCoupled(w, p);
  }

  lemma GrantIsCapacity<T>(w: W.Writer<T>, p: B.Permit)
    requires BW.Coupled(w, p)
    ensures p.capacity == w.capacity
  {
  }

  lemma FragmentsCoupled<T>(w: W.Writer<T>, p: B.Permit)
    requires BW.Coupled(w, p) && w.phase.Accepting?
    ensures BW.Coupled(w.(capacity := Min(w.capacity, w.used)), B.Cancelled(p, w.used))
  {
  }

  lemma CloseEnabled<T>(w: W.Writer<T>)
    ensures W.Enabled(w, W.BeginClose) ==> w.phase.Accepting?
  {
  }

  lemma PoppingWorks<T>(w: W.Writer<T>)
    ensures w.phase.Accepting? || w.phase.Draining? ==> !w.phase.Broken?
  {
  }

  /** A writer whose grant covers its next frame has no request and no unclaimed grant. */
  lemma AllocatingAsksNothing<T>(w: W.Writer<T>, p: B.Permit, empty: W.Partial<T>)
    requires BW.Coupled(w, p) && W.Enabled(w, W.Allocate(empty))
    ensures p.live && p.capacity == w.capacity && !p.waiting && p.granted == 0
    ensures w.capacity <= Max(w.target, w.used + W.Needed(w))
  {
  }

  lemma ReaderCouples<T>(r: R.Reader<T>, p: B.Permit, e: R.Event<T>)
    requires R.Inv(r) && BR.Coupled(r, p) && ReaderMoves(r, e) && !e.GrowGrant?
    ensures var c := ReaderReturns(r, e);
            BR.Coupled(R.Step(r, e), if c.Some? then B.Cancelled(p, c.value) else p)
  {
    hide R.PollStep, R.Retire, R.Inv, R.Layout, R.AuthorizeStep;
    match e
    case PushFile(file) => BR.PushCoupled(r, p, file);
    case CloseFiles => BR.CoupledStays(r, R.Step(r, e), p);
    case SetWindow(window) => BR.WindowCoupled(r, p, window);
    case Unblock => BR.CoupledStays(r, R.Step(r, e), p);
    case Authorize => AuthorizeSame(r); BR.CoupledStays(r, R.Step(r, e), p);
    case PollFile(index, answer, made) => BR.PollCoupled(r, p, index, answer, made);
    case Emit(given) => BR.EmitCoupled(r, p, given); EmitSame(r, given);
    case Finish => BR.FinishCoupled(r, p);
    case TakeError => BR.CoupledStays(r, R.Step(r, e), p);
  }

  lemma AuthorizeSame<T>(r: R.Reader<T>)
    ensures R.AuthorizeStep(r) == r.(frames := R.AuthorizeStep(r).frames)
  {
  }

  lemma EmitSame<T>(r: R.Reader<T>, given: T)
    requires R.Inv(r) && R.Enabled(r, R.Emit(given))
    ensures var q := R.Retire(R.Popped(r, given));
            q.capacity == r.capacity && q.window == r.window && q.total == r.total
  {
    R.NonemptyWindow(r);
    R.EmitChanges(r, given);
    hide R.Retire;
  }

  // --- what a step is to the other permits --------------------------------------------------------

  /** A sound budget stays sound and keeps its size, and permit `j` does nothing. */
  ghost predicate SoundlySpares(b: B.Budget, c: B.Budget, j: nat) {
    B.Inv(c) && c.total == b.total && |c.permits| == |b.permits| && B.Spares(b, c, j)
  }

  lemma GrowSpares(b: B.Budget, i: nat, minimum: nat, desired: nat, j: nat)
    requires B.Inv(b) && B.Usable(b, i) && i != j
    ensures SoundlySpares(b, B.Grow(b, i, minimum, desired).0, j)
  {
    B.GrowKeepsInv(b, i, minimum, desired);
    B.GrowFair(b, i, minimum, desired);
    B.SparesOperation(b, B.PollGrow(i, minimum, desired), j);
    hide B.Grow, B.Core, B.Settled, B.Spares;
  }

  lemma ReturnSpares(b: B.Budget, i: nat, capacity: Option<nat>, j: nat)
    requires B.Inv(b) && i != j
    ensures SoundlySpares(b, B.Returned(b, i, capacity), j)
  {
    B.SparesReturn(b, i, capacity, j);
    if capacity.Some? && B.Usable(b, i) {
      var _ := B.ShrinkOutcome(b, i, capacity.value);
    }
    hide B.Shrink, B.Core, B.Settled, B.Spares;
  }

  lemma SparesBoth(b: B.Budget, c: B.Budget, d: B.Budget, j: nat)
    requires SoundlySpares(b, c, j) && SoundlySpares(c, d, j)
    ensures SoundlySpares(b, d, j)
  {
    B.SparesTwice(b, c, d, j);
  }

  /** A step of client `i` is a sequence of operations of its own permit. */
  lemma ActSpares<T>(i: nat, s: Share<T>, a: Act<T>, j: nat)
    requires CanAct(i, s, a) && i != j && B.Inv(s.budget)
    ensures SoundlySpares(s.budget, Acted(i, s, a).budget, j)
  {
    hide B.Inv, B.Grow, B.Returned, SoundlySpares, W.Step, R.Step, WriterReturns, ReaderReturns, Reserves,
        W.AllocateStep;
    match a
    case Write(e) => ReturnSpares(s.budget, i, WriterReturns(s.client.w, e), j);
    case Start(empty) =>
      ReservationSpares(s.budget, s.client.w, i, j);
      StartSpares(s.budget, s.client.w, i, empty, j);
    case Wait => ReservationSpares(s.budget, s.client.w, i, j);
    case Read(e) =>
      if e.GrowGrant? {
        GrowSpares(s.budget, i, BR.Batch(s.client.r), BR.Goal(s.client.r), j);
      } else {
        ReturnSpares(s.budget, i, ReaderReturns(s.client.r, e), j);
      }
  }

  lemma ReservationSpares<T>(b: B.Budget, w: W.Writer<T>, i: nat, j: nat)
    requires B.Inv(b) && B.Usable(b, i) && Reserves(w) && i != j
    ensures SoundlySpares(b, Reservation(b, w, i).0, j)
  {
    hide B.Inv, B.Grow, SoundlySpares, W.Needed, BW.ReserveSize;
    GrowSpares(b, i, w.used + W.Needed(w), BW.ReserveSize(w), j);
  }

  lemma StartSpares<T>(b: B.Budget, w: W.Writer<T>, i: nat, empty: W.Partial<T>, j: nat)
    requires B.Inv(b) && B.Usable(b, i) && Reserves(w) && i != j && SoundlySpares(b, Reservation(b, w, i).0, j)
    ensures SoundlySpares(b, Started(b, w, i, empty).0, j)
  {
    hide B.Inv, B.Returned, Reservation, W.AllocateStep;
    var c := Reservation(b, w, i).0;
    var v := W.AllocateStep(w.(capacity := c.permits[i].capacity), empty);
    ReturnSpares(c, i, if v.phase.Broken? then Some(0) else None, j);
    SparesBoth(b, c, B.Returned(c, i, if v.phase.Broken? then Some(0) else None), j);
  }

  lemma {:induction false} PathSpares<T(!new)>(i: nat, path: seq<Share<T>>, acts: seq<Act<T>>, n: nat, j: nat)
    requires IsPath(i, path, acts) && n <= |acts| && i != j && B.Inv(path[0].budget)
    ensures SoundlySpares(path[0].budget, path[n].budget, j)
  {
    hide B.Inv, CanAct, Acted;
    if n == 0 {
      B.SparesNothing(path[0].budget, j);
    } else {
      PathSpares(i, path, acts, n - 1, j);
      assert Follows(i, path[n - 1], acts[n - 1], path[n - 1 + 1]);
      ActSpares(i, path[n - 1], acts[n - 1], j);
      SparesBoth(path[0].budget, path[n - 1].budget, path[n].budget, j);
    }
  }

  /** Whatever client `i` does, to the permit of another client it is a run of the budget in which
      that permit does nothing. */
  lemma LeadsSpares<T(!new)>(i: nat, s: Share<T>, t: Share<T>, j: nat)
    requires Leads(i, s, t) && B.Inv(s.budget) && i != j
    ensures SoundlySpares(s.budget, t.budget, j)
  {
    hide B.Inv, SoundlySpares, Follows;
    var path, acts :| IsPath(i, path, acts) && path[0] == s && path[|acts|] == t;
    PathSpares(i, path, acts, |acts|, j);
  }
}

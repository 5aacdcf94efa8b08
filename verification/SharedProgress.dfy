/** Liveness of replay writers on one budget: a blocked queue head is served by backend polls of the
    others alone, as long as these succeed. */
module SharedProgress {
  import opened Segmentation
  import opened Clients
  import opened SharedSystems
  import S = WriteSlots
  import W = Writers
  import E = WriteEnds
  import BW = BudgetedWriters
  import B = Budgets

  /** A successful poll of a destination of writer `m.i`. */
  predicate Succeeded<T>(m: Move<T>) {
    m.Step? && m.act.Write? && m.act.write.PollSlot? && m.act.write.answer.Done?
  }

  /** Only resting replay writers are alive, and none but the head has an unclaimed grant. */
  ghost predicate OnlyHeadWaits<T>(s: System<T>, head: nat) {
    && Inv(s) && s.budget.queue != [] && s.budget.queue[0] == head
    && (forall j :: 0 <= j < |s.clients| && Alive(s, j) ==> RestingReplayer(s.clients[j]))
    && (forall j :: 0 <= j < |s.budget.permits| && j != head ==> s.budget.permits[j].granted == 0)
  }

  /** The head has its grant. */
  predicate HeadServed<T>(s: System<T>, head: nat) {
    head < |s.budget.permits| && s.budget.permits[head].granted > 0 && !s.budget.permits[head].waiting
  }

  /** State changes left to all clients, if no backend fails. */
  function Efforts<T>(clients: seq<Client<T>>): nat {
    if clients == [] then 0
    else (if clients[0].Writer? then E.Effort(clients[0].w) else 0) + Efforts(clients[1..])
  }

  lemma {:induction false} EffortsUpdate<T>(clients: seq<Client<T>>, i: nat, v: W.Writer<T>)
    requires i < |clients| && clients[i].Writer?
    ensures E.Effort(clients[i].w) <= Efforts(clients)
    ensures Efforts(clients[i := Writer(v)]) == Efforts(clients) - E.Effort(clients[i].w) + E.Effort(v)
  {
    if i == 0 {
      assert clients[i := Writer(v)][1..] == clients[1..];
    } else {
      assert clients[i := Writer(v)][1..] == clients[1..][i - 1 := Writer(v)];
      EffortsUpdate(clients[1..], i - 1, v);
    }
  }

  /** A successful poll of a destination that can finish changes it. */
  lemma FinishableMoves<T>(s: S.Slot<T>, closing: bool, maxRetries: nat)
    requires S.SlotInv(s, maxRetries) && S.Finishable(s, closing)
    ensures var r := S.Poll(s, S.Done, closing, maxRetries); r.Polled? && r.changed
  {
  }

  /** It brings the writer closer to its end and leaves it resting. */
  lemma RestingPoll<T>(w: W.Writer<T>, k: nat)
    requires W.Inv(w) && BW.Resting(w) && !w.phase.Broken? && k < |w.files|
    requires S.Finishable(w.files[k], w.phase.Draining?)
    ensures var v := W.PollStep(w, k, S.Done);
            BW.Resting(v) && v.maxRetries == w.maxRetries && E.Effort(v) < E.Effort(w)
  {
    assert W.FileOk(w, k);
    FinishableMoves(w.files[k], w.phase.Draining?, w.maxRetries);
    S.PollKeepsAssigned(w.files[k], S.Done, w.phase.Draining?, w.maxRetries);
    E.DoneLowersEffort(w, k);
  }

  /** Who can do something for the head: a writer that holds capacity, and one of its files. */
  lemma FindFinishable<T>(s: System<T>, head: nat) returns (i: nat, k: nat)
    requires OnlyHeadWaits(s, head)
    ensures i < |s.clients| == |s.budget.permits| && i != head && Alive(s, i) && s.clients[i].Writer?
    ensures var w := s.clients[i].w;
            && W.Inv(w) && BW.Resting(w) && w.maxRetries > 0 && !w.phase.Broken? && k < |w.files|
            && S.Finishable(w.files[k], w.phase.Draining?)
  {
    i := B.BlockedHeadHasHolder(s.budget);
    assert B.PermitOk(s.budget.permits[i], s.budget.total) && Alive(s, i);
    k := BW.HeldByFinishable(s.clients[i].w);
  }

  /** The head is served, or it still waits and nobody else has been granted anything. */
  ghost predicate HeadFirst(b: B.Budget, d: B.Budget, i: nat, head: nat) {
    && |d.permits| == |b.permits|
    && ((head < |d.permits| && d.permits[head].granted > 0 && !d.permits[head].waiting)
        || (d.queue != [] && d.queue[0] == head
            && (forall j :: 0 <= j < |b.permits| && j != i ==> d.permits[j] == b.permits[j])
            && (i < |b.permits| && b.permits[i].granted == 0 ==> d.permits[i].granted == 0)))
  }

  lemma ReturnServes(b: B.Budget, i: nat, capacity: Option<nat>, head: nat)
    requires B.Inv(b) && b.queue != [] && b.queue[0] == head && i != head && B.Usable(b, i)
    ensures HeadFirst(b, B.Returned(b, i, capacity), i, head)
  {
    if capacity.Some? {
      var d := B.Shrink(b, i, capacity.value);
      var m := B.ShrinkOutcome(b, i, capacity.value);
      var q := B.Without(b.queue, i);
      HeadStays(b.queue, i);
      assert B.PermitOk(b.permits[head], b.total) && b.permits[head].waiting;
      assert d.queue == B.Without(d.queue, i) == q[m..];
      if m > 0 {
        assert B.ServedPermit(b.permits[q[0]], d.permits[q[0]]);
      }
    }
  }

  lemma HeadStays(s: seq<nat>, x: nat)
    requires s != [] && s[0] != x
    ensures B.Without(s, x) != [] && B.Without(s, x)[0] == s[0]
  {
  }

  lemma PollIsMove<T>(s: System<T>, i: nat, k: nat)
    requires Inv(s) && Alive(s, i) && s.clients[i].Writer? && !s.clients[i].w.phase.Broken?
    requires k < |s.clients[i].w.files|
    ensures var w, e := s.clients[i].w, W.PollSlot(k, S.Done);
            var m := Step(i, Write(e));
            && Possible(s, m) && WriterMoves(w, e)
            && Next(s, m) == System(B.Returned(s.budget, i, WriterReturns(w, e)),
                                    s.clients[i := Writer(W.PollStep(w, k, S.Done))])
  {
    hide Inv, W.PollStep, B.Returned, WriterReturns;
  }

  lemma StillWaits<T>(s: System<T>, i: nat, v: W.Writer<T>, d: B.Budget, head: nat)
    requires OnlyHeadWaits(s, head) && i < |s.clients| && Inv(System(d, s.clients[i := Writer(v)]))
    requires RestingReplayer(Writer(v)) && HeadFirst(s.budget, d, i, head)
    ensures var t := System(d, s.clients[i := Writer(v)]); HeadServed(t, head) || OnlyHeadWaits(t, head)
  {
    hide Inv, RestingReplayer;
  }

  /** One successful poll: the head is served, or there is less to do and it still waits. */
  lemma OnePoll<T>(s: System<T>, head: nat) returns (m: Move<T>)
    requires OnlyHeadWaits(s, head)
    ensures m.Step? && m.i != head && Succeeded(m) && Inv(s) && Possible(s, m) && Inv(Next(s, m))
    ensures HeadServed(Next(s, m), head) || OnlyHeadWaits(Next(s, m), head)
    ensures Efforts(Next(s, m).clients) < Efforts(s.clients)
  {
    hide OnlyHeadWaits, HeadServed, HeadFirst, Inv, Possible, Next, W.PollStep, W.Inv, B.Inv, B.Returned, BW.Resting,
        WriterReturns, E.Effort, Efforts, S.Finishable;
    HeadSeen(s, head);
    var i, k := FindFinishable(s, head);
    var w := s.clients[i].w;
    m := Step(i, Write(W.PollSlot(k, S.Done)));
    PollIsMove(s, i, k);
    NextKeepsInv(s, m);
    RestingPoll(w, k);
    EffortsUpdate(s.clients, i, W.PollStep(w, k, S.Done));
    ReturnServes(s.budget, i, WriterReturns(w, W.PollSlot(k, S.Done)), head);
    StillWaits(s, i, W.PollStep(w, k, S.Done), Next(s, m).budget, head);
  }

  lemma HeadSeen<T>(s: System<T>, head: nat)
    requires OnlyHeadWaits(s, head)
    ensures Inv(s) && B.Inv(s.budget) && s.budget.queue != [] && s.budget.queue[0] == head
  {
  }

  /** Main result. A blocked head among resting replay writers is served after at most as many
      successful polls of the other writers' destinations as these have state changes left: no
      user has to feed a frame, no backend has to be asked for anything new. */
  lemma {:induction false} HeadIsServed<T(!new)>(s: System<T>, head: nat)
    returns (states: seq<System<T>>, moves: seq<Move<T>>)
    requires OnlyHeadWaits(s, head)
    ensures IsRun(states, moves) && states[0] == s && HeadServed(states[|moves|], head) && Inv(states[|moves|])
    ensures forall j :: 0 <= j < |moves| ==> Succeeded(moves[j]) && moves[j].i != head
    ensures |moves| <= Efforts(s.clients)
    decreases Efforts(s.clients)
  {
    hide OnlyHeadWaits, Inv, Possible, Next, Efforts, HeadServed;
    var m := OnePoll(s, head);
    var t := Next(s, m);
    if HeadServed(t, head) {
      states, moves := [s, t], [m];
      assert SharedSystems.Follows(s, m, t);
    } else {
      var later, rest := HeadIsServed(t, head);
      states, moves := [s] + later, [m] + rest;
      forall j | 0 <= j < |moves|
        ensures SharedSystems.Follows(states[j], moves[j], states[j + 1])
      {
        if j > 0 {
          assert SharedSystems.Follows(later[j - 1], rest[j - 1], later[j - 1 + 1]);
        }
      }
    }
  }
}

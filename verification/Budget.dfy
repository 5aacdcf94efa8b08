/** The shared frame budget as a value: what every permit holds, what each has asked for, and
    the FIFO queue of requests that could not be met at once. Every operation below is one
    critical section of the source, so an interleaving of permits is a sequence of operations. */
module Budgets {
  import opened Naturals
  import opened Segmentation

  /** One permit and its request cell. `granted` is capacity reserved for it but not yet claimed. */
  datatype Permit = Permit(capacity: nat, minimum: nat, desired: nat, granted: nat, waiting: bool, live: bool)

  const NEW_PERMIT := Permit(0, 0, 0, 0, false, true)

  datatype Budget = Budget(total: nat, available: nat, permits: seq<Permit>, queue: seq<nat>)

  datatype GrowResult = Ready | Invalid | Pending

  function Held(permits: seq<Permit>): nat {
    if permits == [] then 0 else permits[0].capacity + permits[0].granted + Held(permits[1..])
  }

  ghost predicate InRange(b: Budget) {
    forall k :: 0 <= k < |b.queue| ==> b.queue[k] < |b.permits|
  }

  // --- operations ------------------------------------------------------------------------

  /** Serve the queue from its head until the head cannot be met; stale entries are discarded. */
  function Dispatch(b: Budget): Budget
    requires InRange(b)
    decreases |b.queue|
  {
    if b.queue == [] then b
    else
      var i := b.queue[0];
      var p := b.permits[i];
      if !p.live || !p.waiting then Dispatch(b.(queue := b.queue[1..]))
      else if b.available < p.minimum then b
      else Dispatch(Serve(b))
  }

  /** The permits woken by dispatch, in the order they are served. */
  function Woken(b: Budget): seq<nat>
    requires InRange(b)
    decreases |b.queue|
  {
    if b.queue == [] then []
    else
      var i := b.queue[0];
      var p := b.permits[i];
      if !p.live || !p.waiting then Woken(b.(queue := b.queue[1..]))
      else if b.available < p.minimum then []
      else [i] + Woken(Serve(b))
  }

  /** The three ways dispatching proceeds from the head of the queue. */
  lemma DispatchUnfolds(b: Budget)
    requires InRange(b) && b.queue != []
    ensures var p, rest := b.permits[b.queue[0]], b.(queue := b.queue[1..]);
            && InRange(rest)
            && (!p.live || !p.waiting ==> Dispatch(b) == Dispatch(rest) && Woken(b) == Woken(rest))
            && (p.live && p.waiting && b.available < p.minimum ==> Dispatch(b) == b && Woken(b) == [])
            && (p.live && p.waiting && p.minimum <= b.available ==>
                  && InRange(Serve(b))
                  && Dispatch(b) == Dispatch(Serve(b)) && Woken(b) == [b.queue[0]] + Woken(Serve(b)))
  {
  }

  lemma DispatchEmpty(b: Budget)
    requires b.queue == []
    ensures Dispatch(b) == b && Woken(b) == []
  {
  }

  function Grant(available: nat, p: Permit): nat {
    if available >= p.desired then p.desired else p.minimum
  }

  /** Reserve the head's grant and remove it from the queue. */
  function Serve(b: Budget): Budget
    requires InRange(b) && b.queue != [] && b.permits[b.queue[0]].minimum <= b.available
  {
    var i := b.queue[0];
    var p := b.permits[i];
    var grant := Grant(b.available, p);
    b.(available := b.available - grant,
       permits := b.permits[i := p.(granted := grant, waiting := false)],
       queue := b.queue[1..])
  }

  /** `retain`: drop every occurrence of `x`, keeping the order of the rest. */
  function Without<X(==)>(s: seq<X>, x: X): (r: seq<X>)
    ensures forall y | y in r :: y in s && y != x
    ensures forall y | y in s :: y != x ==> y in r
    ensures forall k | 0 <= k < |r| :: r[k] in s && r[k] != x
    ensures x !in s ==> r == s
  {
    if s == [] then []
    else if s[0] == x then Without(s[1..], x)
    else [s[0]] + Without(s[1..], x)
  }

  predicate Usable(b: Budget, i: nat) {
    i < |b.permits| && b.permits[i].live
  }

  function Grow(b: Budget, i: nat, minimum: nat, desired: nat): (Budget, GrowResult)
    requires Usable(b, i)
  {
    var p := b.permits[i];
    if minimum > desired || desired > b.total then (b, Invalid)
    else if p.capacity >= minimum then (b, Ready)
    else
      var p := p.(capacity := p.capacity + p.granted, granted := 0);
      if p.capacity >= minimum then (b.(permits := b.permits[i := p]), Ready)
      else if p.waiting then (b.(permits := b.permits[i := p]), Pending)
      else
        var need, want := minimum - p.capacity, desired - p.capacity;
        if b.queue == [] && b.available >= need then
          var grant := if b.available >= want then want else need;
          (b.(available := b.available - grant,
              permits := b.permits[i := p.(capacity := p.capacity + grant)]), Ready)
        else
          (b.(permits := b.permits[i := p.(minimum := need, desired := want, waiting := true)],
              queue := b.queue + [i]), Pending)
  }

  /** Give back everything above `capacity` and cancel any outstanding request, before dispatch. */
  function Release(b: Budget, i: nat, capacity: nat): Budget
    requires Usable(b, i)
  {
    var p := b.permits[i];
    var keep := Min(p.capacity, capacity);
    b.(available := b.available + p.granted + (p.capacity - keep),
       permits := b.permits[i := p.(capacity := keep, granted := 0, waiting := false)],
       queue := Without(b.queue, i))
  }

  function Cancelled(p: Permit, capacity: nat): Permit {
    p.(capacity := Min(p.capacity, capacity), granted := 0, waiting := false)
  }

  function Shrink(b: Budget, i: nat, capacity: nat): Budget
    requires InRange(b) && Usable(b, i)
  {
    Dispatch(Release(b, i, capacity))
  }

  /** A permit gives back what it holds above `capacity`, if told to. */
  ghost function Returned(b: Budget, i: nat, capacity: Option<nat>): Budget {
    if capacity.Some? && InRange(b) && Usable(b, i) then Shrink(b, i, capacity.value) else b
  }

  lemma ReturnedNothing(b: Budget, i: nat)
    ensures Returned(b, i, None) == b
  {
  }

  /** More than is held cannot be kept. */
  lemma ReturnedMin(b: Budget, i: nat, capacity: nat)
    requires Usable(b, i)
    ensures Returned(b, i, Some(capacity)) == Returned(b, i, Some(Min(b.permits[i].capacity, capacity)))
  {
    hide Dispatch;
  }

  function Create(b: Budget): Budget {
    b.(permits := b.permits + [NEW_PERMIT])
  }

  function Retire(b: Budget, i: nat): Budget
    requires InRange(b) && Usable(b, i)
  {
    var b := Shrink(b, i, 0);
    if i < |b.permits| then b.(permits := b.permits[i := b.permits[i].(live := false)]) else b
  }

  // --- invariant -------------------------------------------------------------------------

  ghost predicate Distinct<X>(s: seq<X>) {
    forall j, k :: 0 <= j < k < |s| ==> s[j] != s[k]
  }

  /** A waiting request is satisfiable by the whole budget; an unclaimed grant is one of its two sizes. */
  predicate PermitOk(p: Permit, total: nat) {
    && (p.waiting ==> p.live && p.granted == 0 && 0 < p.minimum <= p.desired && p.capacity + p.desired <= total)
    && (p.granted > 0 ==> p.live && p.granted in {p.minimum, p.desired} && p.minimum <= p.desired
                          && p.capacity + p.desired <= total)
    && (!p.live ==> p.capacity == 0)
  }

  /** Capacity is conserved and the queue holds each waiting request exactly once. */
  ghost predicate Core(b: Budget) {
    && InRange(b)
    && Distinct(b.queue)
    && (forall i :: 0 <= i < |b.permits| ==> (b.permits[i].waiting <==> i in b.queue))
    && (forall i :: 0 <= i < |b.permits| ==> PermitOk(b.permits[i], b.total))
    && b.available + Held(b.permits) == b.total
  }

  /** No grant is left undone: the head of the queue, if any, does not fit. */
  ghost predicate Settled(b: Budget)
    requires InRange(b)
  {
    b.queue == [] || b.available < b.permits[b.queue[0]].minimum
  }

  ghost predicate Inv(b: Budget) {
    Core(b) && Settled(b)
  }

  lemma {:induction false} HeldUpdate(s: seq<Permit>, i: nat, p: Permit)
    requires i < |s|
    ensures Held(s[i := p]) == Held(s) - s[i].capacity - s[i].granted + p.capacity + p.granted
  {
    if i == 0 {
      assert s[i := p][1..] == s[1..];
    } else {
      assert s[i := p][1..] == s[1..][i - 1 := p];
      HeldUpdate(s[1..], i - 1, p);
    }
  }

  lemma {:induction false} HeldAppend(s: seq<Permit>, p: Permit)
    ensures Held(s + [p]) == Held(s) + p.capacity + p.granted
  {
    if s == [] {
      assert s + [p] == [p];
    } else {
      assert (s + [p])[1..] == s[1..] + [p];
      HeldAppend(s[1..], p);
    }
  }

  lemma {:induction false} WithoutDistinct<X>(s: seq<X>, x: X)
    requires Distinct(s)
    ensures Distinct(Without(s, x))
  {
    if s != [] {
      WithoutDistinct(s[1..], x);
      assert s[0] !in s[1..];
    }
  }

  lemma ServeKeepsCore(b: Budget)
    requires Core(b) && b.queue != [] && b.permits[b.queue[0]].minimum <= b.available
    ensures Core(Serve(b))
  {
    var i := b.queue[0];
    var p := b.permits[i];
    HeldUpdate(b.permits, i, p.(granted := Grant(b.available, p), waiting := false));
    assert b.queue == [i] + b.queue[1..];
    assert i !in b.queue[1..];
  }

  /** What dispatch does to `b` by the time it is `c`: it serves the first `m` requests, each for
      exactly its minimum or its desired amount, and touches nothing else. */
  ghost predicate ServedPrefix(b: Budget, c: Budget, m: nat)
    requires InRange(b)
  {
    && m <= |b.queue|
    && c.total == b.total
    && |c.permits| == |b.permits|
    && c.queue == b.queue[m..]
    && (forall k :: 0 <= k < m ==> ServedPermit(b.permits[b.queue[k]], c.permits[b.queue[k]]))
    && (forall i :: 0 <= i < |b.permits| && i !in b.queue[..m] ==> c.permits[i] == b.permits[i])
  }

  predicate ServedPermit(p: Permit, q: Permit) {
    q.granted in {p.minimum, p.desired} && q == p.(granted := q.granted, waiting := false)
  }

  lemma ServedPrefixStep(b: Budget, d: Budget, n: nat)
    requires Core(b) && b.queue != [] && b.permits[b.queue[0]].minimum <= b.available
    requires ServedPrefix(Serve(b), d, n)
    ensures ServedPrefix(b, d, n + 1) && n + 1 <= |b.queue| && |d.permits| == |b.permits|
  {
    var c := Serve(b);
    assert forall k :: 0 < k < |b.queue| ==> b.queue[k] == c.queue[k - 1] && b.queue[k] != b.queue[0];
    forall i | 0 <= i < |b.permits| && i !in b.queue[..n + 1]
      ensures d.permits[i] == b.permits[i]
    {
      assert b.queue[..n + 1] == [b.queue[0]] + c.queue[..n];
    }
    assert b.queue[0] !in c.queue[..n];
  }

  /** What the first `k` requests of `b` have been granted in `c`. */
  function GrantedTo(b: Budget, c: Budget, k: nat): nat
    requires InRange(b) && k <= |b.queue| && |c.permits| == |b.permits|
  {
    if k == 0 then 0 else GrantedTo(b, c, k - 1) + c.permits[b.queue[k - 1]].granted
  }

  /** Each of the first `m` requests, in its turn, got its desired size exactly when what those before
      it left covers that size, and its minimum otherwise. */
  ghost predicate GrantedInTurn(b: Budget, c: Budget, m: nat)
    requires InRange(b) && m <= |b.queue| && |c.permits| == |b.permits|
  {
    && b.available == c.available + GrantedTo(b, c, m)
    && forall k :: 0 <= k < m ==>
         var p, left := b.permits[b.queue[k]], b.available - GrantedTo(b, c, k);
         c.permits[b.queue[k]].granted == if p.desired <= left then p.desired else p.minimum
  }

  lemma {:induction false} DispatchServesPrefix(b: Budget) returns (m: nat)
    requires Core(b)
    ensures Core(Dispatch(b)) && Settled(Dispatch(b))
    ensures ServedPrefix(b, Dispatch(b), m) && GrantedInTurn(b, Dispatch(b), m)
    decreases |b.queue|
  {
    hide ServedPrefix, GrantedInTurn, GrantedTo, Held;
    if b.queue == [] || b.available < b.permits[b.queue[0]].minimum {
      m := 0;
      NoneServed(b);
    } else {
      ServeKeepsCore(b);
      var n := DispatchServesPrefix(Serve(b));
      ServedPrefixStep(b, Dispatch(b), n);
      GrantsStep(b, Dispatch(b), n);
      m := n + 1;
    }
  }

  lemma NoneServed(b: Budget)
    requires InRange(b)
    ensures ServedPrefix(b, b, 0) && GrantedInTurn(b, b, 0)
  {
  }

  lemma GrantsStep(b: Budget, d: Budget, n: nat)
    requires Core(b) && b.queue != [] && b.permits[b.queue[0]].minimum <= b.available
    requires ServedPrefix(Serve(b), d, n) && GrantedInTurn(Serve(b), d, n)
    ensures n + 1 <= |b.queue| && |d.permits| == |b.permits| && GrantedInTurn(b, d, n + 1)
  {
    var c, i := Serve(b), b.queue[0];
    assert i !in c.queue[..n] && d.permits[i] == c.permits[i];
    forall k | 0 <= k <= n
      ensures GrantedTo(b, d, k + 1) == c.permits[i].granted + GrantedTo(c, d, k)
    {
      GrantsShift(b, c, d, k);
    }
    forall k | 0 <= k < n + 1
      ensures var p, left := b.permits[b.queue[k]], b.available - GrantedTo(b, d, k);
              d.permits[b.queue[k]].granted == if p.desired <= left then p.desired else p.minimum
    {
      if k > 0 {
        assert b.queue[k] == c.queue[k - 1] != i;
      }
    }
  }

  lemma {:induction false} GrantsShift(b: Budget, c: Budget, d: Budget, k: nat)
    requires InRange(b) && InRange(c) && b.queue != [] && c.queue == b.queue[1..] && k < |b.queue|
    requires |d.permits| == |c.permits| == |b.permits| && d.permits[b.queue[0]] == c.permits[b.queue[0]]
    ensures GrantedTo(b, d, k + 1) == c.permits[b.queue[0]].granted + GrantedTo(c, d, k)
  {
    if k > 0 {
      GrantsShift(b, c, d, k - 1);
    }
  }

  /** Exactly the served requests are woken, in queue order: nobody is woken without a grant. */
  lemma {:induction false} WokenAreServed(b: Budget)
    requires Core(b)
    ensures |Dispatch(b).queue| <= |b.queue| && Woken(b) == b.queue[..|b.queue| - |Dispatch(b).queue|]
    decreases |b.queue|
  {
    if b.queue != [] && b.permits[b.queue[0]].minimum <= b.available {
      ServeKeepsCore(b);
      var c := Serve(b);
      WokenAreServed(c);
      assert b.queue == [b.queue[0]] + c.queue;
    }
  }

  lemma ReleaseKeepsCore(b: Budget, i: nat, capacity: nat)
    requires Core(b) && Usable(b, i)
    ensures Core(Release(b, i, capacity))
  {
    var p := b.permits[i];
    HeldUpdate(b.permits, i, p.(capacity := Min(p.capacity, capacity), granted := 0, waiting := false));
    WithoutDistinct(b.queue, i);
  }

  /** What an operation of permit `actor` does to everyone else: it serves a prefix of the other
      waiting requests, in queue order, each for exactly its minimum or its desired amount. */
  ghost predicate Fair(b: Budget, c: Budget, actor: nat, m: nat) {
    var q := Without(b.queue, actor);
    && InRange(b)
    && m <= |q|
    && c.total == b.total
    && |b.permits| <= |c.permits|
    && Without(c.queue, actor) == q[m..]
    && (forall k :: 0 <= k < m ==> ServedPermit(b.permits[q[k]], c.permits[q[k]]))
    && (forall i :: 0 <= i < |b.permits| && i != actor && i !in q[..m] ==> c.permits[i] == b.permits[i])
  }

  lemma {:induction false} WithoutAppend<X>(s: seq<X>, x: X)
    ensures Without(s + [x], x) == Without(s, x)
  {
    if s == [] {
      assert s + [x] == [x];
    } else {
      assert (s + [x])[1..] == s[1..] + [x];
      WithoutAppend(s[1..], x);
    }
  }

  lemma ShrinkOutcome(b: Budget, i: nat, capacity: nat) returns (m: nat)
    requires Inv(b) && Usable(b, i)
    ensures Inv(Shrink(b, i, capacity))
    ensures Fair(b, Shrink(b, i, capacity), i, m)
    ensures |Shrink(b, i, capacity).permits| == |b.permits|
    ensures Shrink(b, i, capacity).permits[i] == Cancelled(b.permits[i], capacity)
    ensures i !in Shrink(b, i, capacity).queue
  {
    hide Dispatch, Held, Release, Settled, Distinct;
    ReleaseKeepsCore(b, i, capacity);
    m := DispatchServesPrefix(Release(b, i, capacity));
    ServedAfterRelease(b, i, capacity, Dispatch(Release(b, i, capacity)), m);
  }

  lemma ServedAfterRelease(b: Budget, i: nat, capacity: nat, c: Budget, m: nat)
    requires InRange(b) && Usable(b, i)
    requires InRange(Release(b, i, capacity)) && ServedPrefix(Release(b, i, capacity), c, m)
    ensures Fair(b, c, i, m) && |c.permits| == |b.permits|
    ensures c.permits[i] == Cancelled(b.permits[i], capacity) && i !in c.queue
  {
    var r := Release(b, i, capacity);
    assert i !in r.queue[..m] && i !in c.queue;
    forall k | 0 <= k < m
      ensures ServedPermit(b.permits[r.queue[k]], c.permits[r.queue[k]])
    {
      assert r.permits[r.queue[k]] == b.permits[r.queue[k]];
    }
  }

  /** Moving capacity between `available` and one permit, without touching the queue. */
  lemma MoveKeepsCore(b: Budget, c: Budget, i: nat)
    requires Core(b) && i < |b.permits|
    requires |c.permits| == |b.permits|
    requires c == b.(available := c.available, permits := b.permits[i := c.permits[i]])
    requires PermitOk(c.permits[i], b.total) && c.permits[i].waiting == b.permits[i].waiting
    requires c.available + c.permits[i].capacity + c.permits[i].granted
             == b.available + b.permits[i].capacity + b.permits[i].granted
    ensures Core(c)
  {
    HeldUpdate(b.permits, i, c.permits[i]);
  }

  lemma EnqueueKeepsCore(b: Budget, c: Budget, i: nat)
    requires Core(b) && i < |b.permits| && !b.permits[i].waiting
    requires |c.permits| == |b.permits|
    requires c == b.(permits := b.permits[i := c.permits[i]], queue := b.queue + [i])
    requires PermitOk(c.permits[i], b.total) && c.permits[i].waiting
    requires c.permits[i].capacity + c.permits[i].granted == b.permits[i].capacity + b.permits[i].granted
    ensures Core(c)
  {
    HeldUpdate(b.permits, i, c.permits[i]);
  }

  lemma OwnStepIsFair(b: Budget, c: Budget, i: nat)
    requires InRange(b) && i < |b.permits| == |c.permits| && c.total == b.total
    requires c.permits == b.permits[i := c.permits[i]]
    requires c.queue == b.queue || c.queue == b.queue + [i]
    ensures Fair(b, c, i, 0)
  {
    WithoutAppend(b.queue, i);
    var q := Without(b.queue, i);
    assert q[..0] == [] && q[0..] == q;
  }

  lemma GrowKeepsInv(b: Budget, i: nat, minimum: nat, desired: nat)
    requires Inv(b) && Usable(b, i)
    ensures Inv(Grow(b, i, minimum, desired).0)
    ensures |Grow(b, i, minimum, desired).0.permits| == |b.permits|
  {
    var c := Grow(b, i, minimum, desired).0;
    GrowChanges(b, i, minimum, desired);
    hide Grow, Settled;
    if c.queue == b.queue {
      MoveKeepsCore(b, c, i);
    } else {
      EnqueueKeepsCore(b, c, i);
    }
    GrowSettles(b, i, minimum, desired);
  }

  /** Growing moves capacity to the permit or enqueues its request, never both. */
  lemma GrowChanges(b: Budget, i: nat, minimum: nat, desired: nat)
    requires Usable(b, i) && PermitOk(b.permits[i], b.total)
    ensures var c := Grow(b, i, minimum, desired).0;
            && |c.permits| == |b.permits| && PermitOk(c.permits[i], b.total)
            && c.permits[i].capacity + c.permits[i].granted + c.available
               == b.permits[i].capacity + b.permits[i].granted + b.available
            && c == b.(available := c.available, permits := b.permits[i := c.permits[i]], queue := c.queue)
            && if c.queue == b.queue then c.permits[i].waiting == b.permits[i].waiting
               else
                 && c.queue == b.queue + [i] && !b.permits[i].waiting && c.permits[i].waiting
                 && c.available == b.available
  {
    assert b.permits[i := b.permits[i]] == b.permits;
  }

  lemma GrowSettles(b: Budget, i: nat, minimum: nat, desired: nat)
    requires Inv(b) && Usable(b, i)
    ensures Core(Grow(b, i, minimum, desired).0) ==> Settled(Grow(b, i, minimum, desired).0)
  {
    hide Distinct, Held;
  }

  lemma GrowFair(b: Budget, i: nat, minimum: nat, desired: nat)
    requires InRange(b) && Usable(b, i)
    ensures Fair(b, Grow(b, i, minimum, desired).0, i, 0)
  {
    var (c, _) := Grow(b, i, minimum, desired);
    assert c.permits == b.permits[i := c.permits[i]];
    OwnStepIsFair(b, c, i);
  }

  /** What its owner sees of a growth request: claimed grants first, then an immediate grant of
      exactly the minimum or exactly the desired size, or a place in the queue. */
  ghost predicate GrowSeen(p: Permit, q: Permit, result: GrowResult, minimum: nat, desired: nat, total: nat) {
    var claimed := p.capacity + p.granted;
    && q.live == p.live && (p.waiting ==> p.granted == 0)
    && match result
       case Invalid => q == p && !(minimum <= desired <= total)
       case Ready =>
         && minimum <= desired <= total && minimum <= q.capacity <= total
         && if p.capacity >= minimum then q == p
            else if claimed >= minimum then q == p.(capacity := claimed, granted := 0)
            else q.capacity in {minimum, desired} && q.granted == 0 && !q.waiting
       case Pending =>
         && minimum <= desired <= total && q.capacity == claimed < minimum
         && q.waiting && q.granted == 0
         && if p.waiting then q == p else claimed + q.minimum == minimum && claimed + q.desired == desired
  }

  lemma GrowAnswer(b: Budget, i: nat, minimum: nat, desired: nat)
    requires Inv(b) && Usable(b, i)
    ensures var (c, result) := Grow(b, i, minimum, desired);
            && GrowSeen(b.permits[i], c.permits[i], result, minimum, desired, b.total)
            && (result == Pending ==> i in c.queue && c.available == b.available)
            && (result == Invalid ==> c == b)
  {
    HeldAtLeast(b.permits, i);
    var c := Grow(b, i, minimum, desired).0;
    if c.queue != b.queue {
      assert c.queue[|b.queue|] == i;
    }
  }

  lemma {:induction false} HeldAtLeast(s: seq<Permit>, i: nat)
    requires i < |s|
    ensures s[i].capacity + s[i].granted <= Held(s)
  {
    if i > 0 {
      HeldAtLeast(s[1..], i - 1);
    }
  }

  /** No barging: free capacity is taken at once only when nobody waits, and then a request waits
      only if not even its minimum is free, and gets its desired size if that is free. */
  lemma GrowNeverBarges(b: Budget, i: nat, minimum: nat, desired: nat)
    requires Inv(b) && Usable(b, i) && minimum <= desired <= b.total
    ensures var (c, result) := Grow(b, i, minimum, desired);
            var claimed := b.permits[i].capacity + b.permits[i].granted;
            && (b.queue != [] ==> c.available == b.available && (result == Ready <==> minimum <= claimed))
            && (b.queue == [] ==> (result == Ready <==> minimum <= claimed + b.available))
            && (b.queue == [] && result == Ready && claimed < minimum && b.permits[i].capacity < minimum ==>
                  c.permits[i].capacity == if desired <= claimed + b.available then desired else minimum)
  {
    if b.permits[i].waiting {
      assert i in b.queue;
    }
  }

  // --- every interleaving ------------------------------------------------------------------

  datatype Op =
    | NewPermit
    | PollGrow(id: nat, minimum: nat, desired: nat)
    | ShrinkTo(id: nat, capacity: nat)
    | DropPermit(id: nat)

  predicate Enabled(b: Budget, op: Op) {
    op.NewPermit? || Usable(b, op.id)
  }

  function Apply(b: Budget, op: Op): Budget
    requires InRange(b) && Enabled(b, op)
  {
    match op
    case NewPermit => Create(b)
    case PollGrow(i, minimum, desired) => Grow(b, i, minimum, desired).0
    case ShrinkTo(i, capacity) => Shrink(b, i, capacity)
    case DropPermit(i) => Retire(b, i)
  }

  function Actor(b: Budget, op: Op): nat {
    if op.NewPermit? then |b.permits| else op.id
  }

  function Fresh(total: nat): Budget {
    Budget(total, total, [], [])
  }

  lemma RetireOutcome(b: Budget, i: nat) returns (m: nat)
    requires Inv(b) && Usable(b, i)
    ensures Inv(Retire(b, i))
    ensures Fair(b, Retire(b, i), i, m)
  {
    m := ShrinkOutcome(b, i, 0);
    var c := Shrink(b, i, 0);
    MoveKeepsCore(c, Retire(b, i), i);
    FairUpToActor(b, c, Retire(b, i), i, m);
  }

  lemma FairUpToActor(b: Budget, c: Budget, d: Budget, i: nat, m: nat)
    requires Fair(b, c, i, m)
    requires i < |c.permits| == |d.permits| && d == c.(permits := c.permits[i := d.permits[i]])
    ensures Fair(b, d, i, m)
  {
  }

  lemma CreateOutcome(b: Budget)
    requires Inv(b)
    ensures Inv(Create(b))
    ensures Fair(b, Create(b), |b.permits|, 0)
  {
    HeldAppend(b.permits, NEW_PERMIT);
    assert |b.permits| !in b.queue;
    var q := Without(b.queue, |b.permits|);
    assert q == b.queue && q[..0] == [] && q[0..] == q;
  }

  lemma ApplyOutcome(b: Budget, op: Op) returns (m: nat)
    requires Inv(b) && Enabled(b, op)
    ensures Inv(Apply(b, op))
    ensures Fair(b, Apply(b, op), Actor(b, op), m)
  {
    match op
    case NewPermit => CreateOutcome(b); m := 0;
    case PollGrow(i, minimum, desired) =>
      GrowKeepsInv(b, i, minimum, desired);
      GrowFair(b, i, minimum, desired);
      m := 0;
    case ShrinkTo(i, capacity) => m := ShrinkOutcome(b, i, capacity);
    case DropPermit(i) => m := RetireOutcome(b, i);
  }

  /** The states a run goes through; a run is any sequence of enabled operations of any permits. */
  ghost predicate IsRun(states: seq<Budget>, ops: seq<Op>) {
    && |states| == |ops| + 1
    && (forall k :: 0 <= k < |ops| ==> InRange(states[k]) && Enabled(states[k], ops[k]))
    && (forall k :: 0 <= k < |ops| ==> states[k + 1] == Apply(states[k], ops[k]))
  }

  /** Conservation, queue well-formedness and "no grant left undone" in every reachable state. */
  lemma {:induction false} EveryRunConserves(states: seq<Budget>, ops: seq<Op>, k: nat)
    requires IsRun(states, ops) && Inv(states[0])
    requires k < |states|
    ensures Inv(states[k]) && states[k].total == states[0].total
  {
    if k > 0 {
      EveryRunConserves(states, ops, k - 1);
      var _ := ApplyOutcome(states[k - 1], ops[k - 1]);
    }
  }

  // --- first come, first served ------------------------------------------------------------

  ghost predicate Ahead<X>(s: seq<X>, x: X, y: X) {
    exists i, j :: 0 <= i < j < |s| && s[i] == x && s[j] == y
  }

  lemma {:induction false} AheadWithout<X>(s: seq<X>, x: X, y: X, z: X)
    requires z != x && z != y
    ensures Ahead(s, x, y) <==> Ahead(Without(s, z), x, y)
  {
    if s != [] {
      AheadWithout(s[1..], x, y, z);
      AheadCons(s[0], s[1..], x, y);
      AheadCons(s[0], Without(s[1..], z), x, y);
      assert s == [s[0]] + s[1..];
    }
  }

  lemma AheadCons<X>(a: X, s: seq<X>, x: X, y: X)
    ensures Ahead([a] + s, x, y) <==> (a == x && y in s) || Ahead(s, x, y)
  {
    var t := [a] + s;
    assert t[1..] == s;
    if a == x && y in s {
      var j :| 0 <= j < |s| && s[j] == y;
      assert t[0] == x && t[j + 1] == y;
    }
    if Ahead(s, x, y) {
      var i, j :| 0 <= i < j < |s| && s[i] == x && s[j] == y;
      assert t[i + 1] == x && t[j + 1] == y;
    }
    if Ahead(t, x, y) {
      var i, j :| 0 <= i < j < |t| && t[i] == x && t[j] == y;
      assert s[j - 1] == y;
    }
  }

  /** Only `shrink_to` and dropping the permit withdraw a request. */
  predicate Cancels(op: Op, id: nat) {
    (op.ShrinkTo? || op.DropPermit?) && op.id == id
  }

  /** While an earlier request waits, no operation can serve or reorder a later one. */
  lemma StepKeepsOrder(b: Budget, op: Op, x: nat, y: nat)
    requires Inv(b) && Enabled(b, op) && Ahead(b.queue, x, y)
    requires !Cancels(op, x) && !Cancels(op, y)
    requires x < |Apply(b, op).permits| && Apply(b, op).permits[x].waiting
    ensures Ahead(Apply(b, op).queue, x, y)
  {
    if Actor(b, op) == x || Actor(b, op) == y {
      assert b.permits[Actor(b, op)].waiting;
      assert op.PollGrow?;
      QueuedGrowChangesNothing(b, op.id, op.minimum, op.desired);
    } else {
      hide Apply, Inv;
      var m := ApplyOutcome(b, op);
      FairKeepsOrder(b, Apply(b, op), Actor(b, op), m, x, y);
    }
  }

  lemma QueuedGrowChangesNothing(b: Budget, i: nat, minimum: nat, desired: nat)
    requires Usable(b, i) && b.permits[i].waiting
    ensures Grow(b, i, minimum, desired).0.queue == b.queue
  {
  }

  lemma FairKeepsOrder(b: Budget, c: Budget, actor: nat, m: nat, x: nat, y: nat)
    requires Fair(b, c, actor, m) && actor != x && actor != y && Ahead(b.queue, x, y)
    requires x < |c.permits| && c.permits[x].waiting
    ensures Ahead(c.queue, x, y)
  {
    AheadWithout(b.queue, x, y, actor);
    AheadWithout(c.queue, x, y, actor);
    var q := Without(b.queue, actor);
    var i, j :| 0 <= i < j < |q| && q[i] == x && q[j] == y;
    assert m <= i;
    assert q[m..][i - m] == x && q[m..][j - m] == y;
  }

  /** FIFO over whole runs: as long as request `x` stays queued, a request `y` that was queued
      behind it is still queued behind it, whatever all the other permits do. */
  lemma {:induction false} NeverOvertaken(states: seq<Budget>, ops: seq<Op>, x: nat, y: nat, n: nat)
    requires IsRun(states, ops) && Inv(states[0]) && n < |states|
    requires Ahead(states[0].queue, x, y)
    requires forall k :: 0 <= k < n ==> !Cancels(ops[k], x) && !Cancels(ops[k], y)
    requires forall k :: 0 <= k <= n ==> x < |states[k].permits| && states[k].permits[x].waiting
    ensures Ahead(states[n].queue, x, y)
  {
    if n > 0 {
      NeverOvertaken(states, ops, x, y, n - 1);
      EveryRunConserves(states, ops, n - 1);
      assert states[n - 1 + 1] == Apply(states[n - 1], ops[n - 1]);
      StepKeepsOrder(states[n - 1], ops[n - 1], x, y);
    }
  }

  lemma {:induction false} SomeoneHolds(s: seq<Permit>) returns (i: nat)
    requires Held(s) > 0
    ensures i < |s| && s[i].capacity + s[i].granted > 0
  {
    if s[0].capacity + s[0].granted > 0 {
      i := 0;
    } else {
      var j := SomeoneHolds(s[1..]);
      i := j + 1;
    }
  }

  /** A request can only be blocked by capacity that some other permit holds or has been granted. */
  lemma BlockedHeadHasHolder(b: Budget) returns (i: nat)
    requires Inv(b) && b.queue != []
    ensures i < |b.permits| && i != b.queue[0] && b.permits[i].capacity + b.permits[i].granted > 0
  {
    var h := b.queue[0];
    var others := b.permits[h := NEW_PERMIT];
    HeldUpdate(b.permits, h, NEW_PERMIT);
    assert b.permits[h].waiting;
    i := SomeoneHolds(others);
  }

  // --- seen from one permit ------------------------------------------------------------------

  /** A run from `b` to `c` in which permit `i` does nothing. */
  ghost predicate SparingRun(states: seq<Budget>, ops: seq<Op>, i: nat) {
    IsRun(states, ops) && forall k :: 0 <= k < |ops| ==> Actor(states[k], ops[k]) != i
  }

  ghost predicate Spares(b: Budget, c: Budget, i: nat) {
    exists states, ops :: SparingRun(states, ops, i) && states[0] == b && states[|ops|] == c
  }

  lemma SparesNothing(b: Budget, i: nat)
    ensures Spares(b, b, i)
  {
    assert SparingRun([b], [], i);
  }

  lemma SparesOperation(b: Budget, op: Op, i: nat)
    requires InRange(b) && Enabled(b, op) && Actor(b, op) != i
    ensures Spares(b, Apply(b, op), i)
  {
    assert SparingRun([b, Apply(b, op)], [op], i);
  }

  lemma SparesTwice(b: Budget, c: Budget, d: Budget, i: nat)
    requires Spares(b, c, i) && Spares(c, d, i)
    ensures Spares(b, d, i)
  {
    hide Apply, InRange, Enabled, Actor;
    var s, x :| SparingRun(s, x, i) && s[0] == b && s[|x|] == c;
    var t, y :| SparingRun(t, y, i) && t[0] == c && t[|y|] == d;
    var states, ops := s + t[1..], x + y;
    forall k | 0 <= k < |ops|
      ensures InRange(states[k]) && Enabled(states[k], ops[k]) && states[k + 1] == Apply(states[k], ops[k])
      ensures Actor(states[k], ops[k]) != i
    {
      if k < |x| {
        assert states[k] == s[k] && states[k + 1] == s[k + 1];
      } else {
        assert states[k] == t[k - |x|] && states[k + 1] == t[k - |x| + 1];
      }
    }
    assert SparingRun(states, ops, i);
  }

  lemma SparesReturn(b: Budget, i: nat, capacity: Option<nat>, j: nat)
    requires i != j
    ensures Spares(b, Returned(b, i, capacity), j)
  {
    if capacity.Some? && InRange(b) && Usable(b, i) {
      SparesOperation(b, ShrinkTo(i, capacity.value), j);
    } else {
      SparesNothing(b, j);
    }
  }

  /** What a permit that does nothing may find: its request served, or nothing new. */
  predicate OnlyServed(p: Permit, q: Permit) {
    q == p || (p.waiting && ServedPermit(p, q))
  }

  lemma OneOnlyServes(b: Budget, op: Op, i: nat)
    requires Inv(b) && Enabled(b, op) && i < |b.permits| && i != Actor(b, op)
    ensures var c := Apply(b, op);
            && i < |c.permits|
            && OnlyServed(b.permits[i], c.permits[i])
  {
    var m := ApplyOutcome(b, op);
    var q := Without(b.queue, Actor(b, op));
    if i in q[..m] {
      var k :| 0 <= k < m && q[k] == i;
      assert q[k] in b.queue;
    }
  }

  lemma {:induction false} RunOnlyServes(states: seq<Budget>, ops: seq<Op>, i: nat, n: nat)
    requires SparingRun(states, ops, i) && Inv(states[0]) && n < |states| && i < |states[0].permits|
    ensures Inv(states[n]) && i < |states[n].permits| && OnlyServed(states[0].permits[i], states[n].permits[i])
    ensures states[n].total == states[0].total
  {
    hide Inv, Apply, ServedPermit;
    if n > 0 {
      RunOnlyServes(states, ops, i, n - 1);
      EveryRunConserves(states, ops, n);
      assert states[n - 1 + 1] == Apply(states[n - 1], ops[n - 1]);
      OneOnlyServes(states[n - 1], ops[n - 1], i);
      ServedOnce(states[0].permits[i], states[n - 1].permits[i], states[n].permits[i]);
    }
  }

  lemma ServedOnce(p: Permit, q: Permit, r: Permit)
    requires OnlyServed(p, q) && OnlyServed(q, r)
    ensures OnlyServed(p, r)
  {
  }

  /** Seen from permit `i`, everything the others ever do can only serve its pending request. */
  lemma OthersOnlyServe(b: Budget, c: Budget, i: nat)
    requires Inv(b) && Spares(b, c, i) && i < |b.permits|
    ensures Inv(c) && c.total == b.total && i < |c.permits| && OnlyServed(b.permits[i], c.permits[i])
  {
    hide Inv, OnlyServed, Apply, Actor, InRange, Enabled;
    var states, ops :| SparingRun(states, ops, i) && states[0] == b && states[|ops|] == c;
    RunOnlyServes(states, ops, i, |ops|);
  }
}

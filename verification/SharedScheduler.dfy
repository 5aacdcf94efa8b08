/** Any number of scheduler objects on one budget object. A call of one of them is seen by the others
    only through the budget, and leaves all of them valid; together they stay within the total. */
module SharedSchedulers {
  import opened Segmentation
  import opened Clients
  import opened FrameBudgets
  import opened WriteSchedulers
  import opened ReadSchedulers
  import SharedSystems
  import W = Writers
  import R = Readers
  import B = Budgets
  import opened Wrapping

  datatype Member<!T(0,!new)> = WriteMember(writer: WriteScheduler<T>) | ReadMember(reader: ReadScheduler<T>)

  function PermitOf<T(0,!new)>(m: Member<T>): FramePermit {
    if m.WriteMember? then m.writer.permit else m.reader.permit
  }

  function ObjectOf<T(0,!new)>(m: Member<T>): object {
    if m.WriteMember? then m.writer else m.reader
  }

  function SlotsOf<T(0,!new)>(m: Member<T>): set<FileSlot<T>>
    reads ObjectOf(m)
  {
    if m.WriteMember? then set f | f in m.writer.files else {}
  }

  function BudgetOf<T(0,!new)>(m: Member<T>): FrameBudget {
    PermitOf(m).budget
  }

  ghost predicate MemberValid<T(0,!new)>(m: Member<T>)
    reads ObjectOf(m), SlotsOf(m), PermitOf(m), PermitOf(m).request
    reads BudgetOf(m), BudgetOf(m).permits, BudgetOf(m).Cells()
  {
    if m.WriteMember? then m.writer.Valid() else m.reader.Valid()
  }

  ghost function ClientOf<T(0,!new)>(m: Member<T>): Client<T>
    reads ObjectOf(m), SlotsOf(m), PermitOf(m)
  {
    if m.WriteMember? then Writer(m.writer.View()) else Reader(m.reader.View())
  }

  /** Two members share nothing but the budget. */
  ghost predicate Apart<T(0,!new)>(m: Member<T>, n: Member<T>)
    reads ObjectOf(m), ObjectOf(n)
  {
    && ObjectOf(m) != ObjectOf(n) && SlotsOf(m) !! SlotsOf(n)
    && PermitOf(m).request.id != PermitOf(n).request.id
  }

  /** A member that was not called stays valid and as it was. */
  twostate lemma MemberKept<T(0,!new)>(m: Member<T>)
    requires old(MemberValid(m)) && unchanged(ObjectOf(m)) && unchanged(old(SlotsOf(m))) && unchanged(PermitOf(m))
    requires BudgetOf(m).Wired() && old(BudgetOf(m).permits) <= BudgetOf(m).permits
    requires B.Spares(old(BudgetOf(m).View()), BudgetOf(m).View(), PermitOf(m).request.id)
    ensures MemberValid(m) && ClientOf(m) == old(ClientOf(m))
  {
    match m
    case WriteMember(writer) => writer.OthersKeepValid();
    case ReadMember(reader) => reader.OthersKeepValid();
  }

  /** Member `n` was called, and member `m` was not. */
  twostate lemma OtherKept<T(0,!new)>(m: Member<T>, new n: Member<T>)
    requires old(allocated(n)) && old(MemberValid(m)) && old(MemberValid(n)) && old(Apart(m, n))
    requires unchanged(ObjectOf(m)) && unchanged(old(SlotsOf(m))) && unchanged(PermitOf(m))
    requires BudgetOf(m) == BudgetOf(n) && MemberValid(n) && BudgetOf(n).permits == old(BudgetOf(n).permits)
    requires forall f :: f in SlotsOf(n) ==> f in old(SlotsOf(n)) || fresh(f)
    requires Leads(PermitOf(n).request.id, Share(old(BudgetOf(n).View()), old(ClientOf(n))),
                   Share(BudgetOf(n).View(), ClientOf(n)))
    ensures MemberValid(m) && ClientOf(m) == old(ClientOf(m)) && Apart(m, n) && Apart(n, m)
  {
    hide Leads, B.Spares, B.Inv, FrameBudget.View, ClientOf;
    BudgetSeen(n);
    LeadsSpares(PermitOf(n).request.id, Share(old(BudgetOf(n).View()), old(ClientOf(n))),
        Share(BudgetOf(n).View(), ClientOf(n)), PermitOf(m).request.id);
    MemberKept(m);
  }

  lemma BudgetSeen<T(0,!new)>(m: Member<T>)
    requires MemberValid(m)
    ensures BudgetOf(m).Valid()
  {
  }

  lemma PlaceSeen<T(0,!new)>(m: Member<T>, before: seq<FramePermit>)
    requires MemberValid(m) && BudgetOf(m).permits == before + [PermitOf(m)] && PermitOf(m) !in before
    ensures PermitOf(m).request.id == |before|
  {
  }

  /** What the members are made of. */
  ghost function Objects<T(0,!new)>(members: seq<Member<T>>): set<object> {
    set m | m in members :: ObjectOf(m)
  }

  ghost function Slots<T(0,!new)>(members: seq<Member<T>>): set<FileSlot<T>>
    reads Objects(members)
  {
    set m, f | m in members && f in SlotsOf(m) :: f
  }

  ghost function Permits<T(0,!new)>(members: seq<Member<T>>): set<FramePermit> {
    set m | m in members :: PermitOf(m)
  }

  ghost function Requests<T(0,!new)>(members: seq<Member<T>>): set<Request> {
    set m | m in members :: PermitOf(m).request
  }

  /** All members are valid schedulers on `budget`, and share nothing else. */
  ghost predicate Together<T(0,!new)>(members: seq<Member<T>>, budget: FrameBudget)
    reads Objects(members), Slots(members), Permits(members), Requests(members)
    reads budget, budget.permits, budget.Cells()
  {
    && budget.Valid()
    && (forall k :: 0 <= k < |members| ==> BudgetOf(members[k]) == budget && MemberValid(members[k]))
    && (forall j, k :: 0 <= j < |members| && 0 <= k < |members| && j != k ==> Apart(members[j], members[k]))
  }

  /** The members as values. */
  ghost function ClientsOf<T(0,!new)>(members: seq<Member<T>>): (c: seq<Client<T>>)
    reads Objects(members), Slots(members), Permits(members)
    ensures |c| == |members|
  {
    seq(|members|, k requires 0 <= k < |members| reads Objects(members), Slots(members), Permits(members) =>
      ClientOf(members[k]))
  }

  lemma MemberSeen<T(0,!new)>(members: seq<Member<T>>, budget: FrameBudget, k: nat)
    requires Together(members, budget) && k < |members|
    ensures BudgetOf(members[k]) == budget && MemberValid(members[k])
    ensures if members[k].WriteMember? then members[k].writer.Valid() else members[k].reader.Valid()
  {
  }

  lemma MemberIs<T(0,!new)>(m: Member<T>)
    requires if m.WriteMember? then m.writer.Valid() else m.reader.Valid()
    ensures MemberValid(m)
    ensures Share(BudgetOf(m).View(), ClientOf(m)) == if m.WriteMember? then m.writer.Here() else m.reader.Here()
  {
  }

  lemma BudgetValid<T(0,!new)>(members: seq<Member<T>>, budget: FrameBudget)
    requires Together(members, budget)
    ensures budget.Valid()
  {
  }

  /** What the others need to know of a call. */
  method PollAlone<T(!new)>(writer: WriteScheduler<T>, empty: W.Partial<T>, input: W.Partial<T> -> W.FillResult<T>)
    returns (r: WritePoll, selfWoke: bool)
    requires writer.Valid()
    modifies writer, writer.files, writer.permit`capacity
    modifies writer.permit.budget`available, writer.permit.budget`waiters, writer.permit.budget.Cells()
    ensures writer.Valid() && Leads(writer.permit.request.id, old(writer.Here()), writer.Here())
    ensures forall k :: 0 <= k < |writer.files| ==> writer.files[k] in old(writer.files)
  {
    hide *;
    r, selfWoke := writer.PollWrite(empty, input);
  }

  method CloseAlone<T(!new)>(writer: WriteScheduler<T>) returns (r: ClosePoll, selfWoke: bool)
    requires writer.Valid()
    modifies writer, writer.files, writer.permit`capacity
    modifies writer.permit.budget`available, writer.permit.budget`waiters, writer.permit.budget.Cells()
    ensures writer.Valid() && Leads(writer.permit.request.id, old(writer.Here()), writer.Here())
    ensures forall k :: 0 <= k < |writer.files| ==> writer.files[k] in old(writer.files)
  {
    hide *;
    r, selfWoke := writer.PollClose();
  }

  method ReadAlone<T(0,!new)>(reader: ReadScheduler<T>, output: T) returns (r: ReadPoll<T>, selfWoke: bool)
    requires reader.Valid()
    modifies reader, reader.permit`capacity
    modifies reader.permit.budget`available, reader.permit.budget`waiters, reader.permit.budget.Cells()
    ensures reader.Valid() && Leads(reader.permit.request.id, old(reader.Here()), reader.Here())
  {
    hide *;
    r, selfWoke := reader.PollRead(output);
  }

  /** Poll one of the writers. All members are still valid, and the others are as they were. */
  method PollWriter<T(0,!new)>(members: seq<Member<T>>, budget: FrameBudget, k: nat, empty: W.Partial<T>,
      input: W.Partial<T> -> W.FillResult<T>)
    returns (r: WritePoll, selfWoke: bool)
    requires Together(members, budget) && k < |members| && members[k].WriteMember?
    modifies members[k].writer, members[k].writer.files, members[k].writer.permit`capacity
    modifies budget`available, budget`waiters, budget.Cells()
    ensures Together(members, budget)
    ensures forall j :: 0 <= j < |members| && j != k ==> ClientOf(members[j]) == old(ClientOf(members[j]))
    ensures Leads(PermitOf(members[k]).request.id, Share(old(budget.View()), old(ClientOf(members[k]))),
                  Share(budget.View(), ClientOf(members[k])))
  {
    hide WriteScheduler.Valid, ReadScheduler.Valid, WriteScheduler.View, ReadScheduler.View, WriteScheduler.Here,
        ReadScheduler.Here, Leads, FrameBudget.View, FrameBudget.Valid, FramePermit.Valid, MemberValid, ClientOf;
    label before:
    MemberSeen(members, budget, k);
    MemberIs(members[k]);
    r, selfWoke := PollAlone(members[k].writer, empty, input);
    MemberIs(members[k]);
    BudgetSeen(members[k]);
    forall j | 0 <= j < |members| && j != k
      ensures MemberValid(members[j]) && ClientOf(members[j]) == old(ClientOf(members[j]))
      ensures Apart(members[j], members[k]) && Apart(members[k], members[j])
    {
      OtherKept@before(members[j], members[k]);
    }
  }

  /** Poll the closing of one of the writers. */
  method CloseWriter<T(0,!new)>(members: seq<Member<T>>, budget: FrameBudget, k: nat)
    returns (r: ClosePoll, selfWoke: bool)
    requires Together(members, budget) && k < |members| && members[k].WriteMember?
    modifies members[k].writer, members[k].writer.files, members[k].writer.permit`capacity
    modifies budget`available, budget`waiters, budget.Cells()
    ensures Together(members, budget)
    ensures forall j :: 0 <= j < |members| && j != k ==> ClientOf(members[j]) == old(ClientOf(members[j]))
    ensures Leads(PermitOf(members[k]).request.id, Share(old(budget.View()), old(ClientOf(members[k]))),
                  Share(budget.View(), ClientOf(members[k])))
  {
    hide WriteScheduler.Valid, ReadScheduler.Valid, WriteScheduler.View, ReadScheduler.View, WriteScheduler.Here,
        ReadScheduler.Here, Leads, FrameBudget.View, FrameBudget.Valid, FramePermit.Valid, MemberValid, ClientOf;
    label before:
    MemberSeen(members, budget, k);
    MemberIs(members[k]);
    r, selfWoke := CloseAlone(members[k].writer);
    MemberIs(members[k]);
    BudgetSeen(members[k]);
    forall j | 0 <= j < |members| && j != k
      ensures MemberValid(members[j]) && ClientOf(members[j]) == old(ClientOf(members[j]))
      ensures Apart(members[j], members[k]) && Apart(members[k], members[j])
    {
      OtherKept@before(members[j], members[k]);
    }
  }

  /** Poll one of the readers. */
  method PollReader<T(0,!new)>(members: seq<Member<T>>, budget: FrameBudget, k: nat, output: T)
    returns (r: ReadPoll<T>, selfWoke: bool)
    requires Together(members, budget) && k < |members| && members[k].ReadMember?
    modifies members[k].reader, members[k].reader.permit`capacity
    modifies budget`available, budget`waiters, budget.Cells()
    ensures Together(members, budget)
    ensures forall j :: 0 <= j < |members| && j != k ==> ClientOf(members[j]) == old(ClientOf(members[j]))
    ensures Leads(PermitOf(members[k]).request.id, Share(old(budget.View()), old(ClientOf(members[k]))),
                  Share(budget.View(), ClientOf(members[k])))
  {
    hide WriteScheduler.Valid, ReadScheduler.Valid, WriteScheduler.View, ReadScheduler.View, WriteScheduler.Here,
        ReadScheduler.Here, Leads, FrameBudget.View, FrameBudget.Valid, FramePermit.Valid, MemberValid, ClientOf;
    label before:
    MemberSeen(members, budget, k);
    MemberIs(members[k]);
    r, selfWoke := ReadAlone(members[k].reader, output);
    MemberIs(members[k]);
    BudgetSeen(members[k]);
    forall j | 0 <= j < |members| && j != k
      ensures MemberValid(members[j]) && ClientOf(members[j]) == old(ClientOf(members[j]))
      ensures Apart(members[j], members[k]) && Apart(members[k], members[j])
    {
      OtherKept@before(members[j], members[k]);
    }
  }

  /** Another permit was created on the budget. */
  twostate lemma NewcomerKept<T(0,!new)>(m: Member<T>)
    requires old(MemberValid(m)) && old(BudgetOf(m).Valid()) && BudgetOf(m).Valid()
    requires unchanged(ObjectOf(m)) && unchanged(old(SlotsOf(m))) && unchanged(PermitOf(m))
    requires old(BudgetOf(m).permits) <= BudgetOf(m).permits
    requires BudgetOf(m).View() == B.Create(old(BudgetOf(m).View()))
    ensures MemberValid(m) && ClientOf(m) == old(ClientOf(m)) && PermitOf(m).request.id < |old(BudgetOf(m).permits)|
  {
    B.SparesOperation(old(BudgetOf(m).View()), B.NewPermit, PermitOf(m).request.id);
    MemberKept(m);
  }

  /** A new writer joins. */
  method AddWriter<T(0,!new)>(members: seq<Member<T>>, budget: FrameBudget, maxRetries: nat, target: nat,
                              maxActive: nat)
    returns (all: seq<Member<T>>)
    requires Together(members, budget)
    modifies budget`permits
    ensures Together(all, budget)
    ensures if target > 0 && maxActive > 0 && budget.total > 0
            then |all| == |members| + 1 && all[..|members|] == members
                 && ClientsOf(all)
                    == old(ClientsOf(members)) + [Writer(W.Init(maxRetries, budget.total, target, maxActive))]
            else all == members && ClientsOf(members) == old(ClientsOf(members))
  {
    hide WriteScheduler.Valid, ReadScheduler.Valid, WriteScheduler.View, ReadScheduler.View, FrameBudget.View,
        FramePermit.Valid, FrameBudget.Valid, B.Inv, B.Spares, B.Create;
    if !(target > 0 && maxActive > 0 && budget.total > 0) {
      return members;
    }
    label before:
    BudgetValid(members, budget);
    var writer := WriteScheduler.New(budget, maxRetries, target, maxActive);
    var m := WriteMember(writer.value);
    BudgetSeen(m);
    PlaceSeen(m, old(budget.permits));
    forall j | 0 <= j < |members|
      ensures MemberValid(members[j]) && ClientOf(members[j]) == old(ClientOf(members[j])) && Apart(members[j], m)
    {
      NewcomerKept@before(members[j]);
    }
    all := members + [m];
  }

  /** A new reader joins. */
  method AddReader<T(0,!new)>(members: seq<Member<T>>, budget: FrameBudget, maxRetries: nat, modulus: Modulus,
                              window: R.Window)
    returns (all: seq<Member<T>>)
    requires Together(members, budget)
    modifies budget`permits
    ensures Together(all, budget)
    ensures if R.ValidWindow(window) && budget.total > 0
            then |all| == |members| + 1 && all[..|members|] == members
                 && ClientsOf(all)
                    == old(ClientsOf(members)) + [Reader(R.Init(maxRetries, budget.total, modulus, window))]
            else all == members && ClientsOf(members) == old(ClientsOf(members))
  {
    hide WriteScheduler.Valid, ReadScheduler.Valid, WriteScheduler.View, ReadScheduler.View, FrameBudget.View,
        FramePermit.Valid, FrameBudget.Valid, B.Inv, B.Spares, B.Create;
    if !(R.ValidWindow(window) && budget.total > 0) {
      return members;
    }
    label before:
    BudgetValid(members, budget);
    var reader := ReadScheduler.New(budget, maxRetries, modulus, window);
    var m := ReadMember(reader.value);
    BudgetSeen(m);
    PlaceSeen(m, old(budget.permits));
    forall j | 0 <= j < |members|
      ensures MemberValid(members[j]) && ClientOf(members[j]) == old(ClientOf(members[j])) && Apart(members[j], m)
    {
      NewcomerKept@before(members[j]);
    }
    all := members + [m];
  }

  // --- memory --------------------------------------------------------------------------------------

  function InMemory<T>(clients: seq<Client<T>>): nat {
    if clients == [] then 0 else SharedSystems.InMemory(clients[0]) + InMemory(clients[1..])
  }

  ghost predicate Owners<T>(clients: seq<Client<T>>, ids: seq<nat>, permits: seq<B.Permit>, total: nat) {
    && |ids| == |clients| && B.Distinct(ids)
    && forall k :: 0 <= k < |ids| ==> ids[k] < |permits| && SharedSystems.Fits(clients[k], permits[ids[k]], total)
  }

  /** Clients with different permits keep no more in memory than all permits hold. */
  lemma {:induction false} OwnersWithinHeld<T>(clients: seq<Client<T>>, ids: seq<nat>, permits: seq<B.Permit>,
                                               total: nat)
    requires Owners(clients, ids, permits, total)
    ensures InMemory(clients) <= B.Held(permits)
  {
    hide SharedSystems.Fits, SharedSystems.InMemory;
    if clients != [] {
      var p := permits[ids[0]];
      SharedSystems.ClientWithinGrant(clients[0], p, total);
      var rest := permits[ids[0] := p.(capacity := 0, granted := 0)];
      B.HeldUpdate(permits, ids[0], rest[ids[0]]);
      assert forall k :: 0 < k < |ids| ==> ids[k] != ids[0];
      OwnersWithinHeld(clients[1..], ids[1..], rest, total);
    }
  }

  lemma MemberFits<T(0,!new)>(m: Member<T>)
    requires MemberValid(m)
    ensures var b, i := BudgetOf(m).View(), PermitOf(m).request.id;
            i < |b.permits| && SharedSystems.Fits(ClientOf(m), b.permits[i], b.total)
  {
    match m
    case WriteMember(writer) => writer.Reachable(); writer.HeldSeen();
    case ReadMember(reader) => reader.Reachable(); reader.HeldSeen();
  }

  /** Main result, for the objects: whatever has been called in whatever order, the schedulers
      together never keep more frames in memory than the total of their budget. */
  lemma MemoryIsShared<T(0,!new)>(members: seq<Member<T>>, budget: FrameBudget)
    requires Together(members, budget)
    ensures InMemory(ClientsOf(members)) <= budget.total
  {
    hide WriteScheduler.Valid, ReadScheduler.Valid, WriteScheduler.View, ReadScheduler.View, SharedSystems.Fits;
    var ids := seq(|members|, k requires 0 <= k < |members| => PermitOf(members[k]).request.id);
    forall k | 0 <= k < |members|
      ensures ids[k] < |budget.View().permits|
      ensures SharedSystems.Fits(ClientsOf(members)[k], budget.View().permits[ids[k]], budget.total)
    {
      MemberFits(members[k]);
    }
    OwnersWithinHeld(ClientsOf(members), ids, budget.View().permits, budget.total);
  }
}

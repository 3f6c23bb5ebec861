/**
 The descriptor pool of the mSGDMA driver as a state machine.

 Every region the driver runs under its spinlock is one step (the completion tasklet, which
 holds the lock over several operations, takes several steps during which nobody else moves).
 The lock is free while a completion callback runs.
 */
module DescriptorPool {
  import opened Results

  /** Software descriptors are named by their position in the descriptor array. */
  type Id = nat

  /** A transaction: the head descriptor, the rest of its chain, and its cookie once submitted. */
  datatype Tx = Tx(head: Id, children: seq<Id>, cookie: nat)

  /** The driver's own state: four lists, the counter, the idle flag, and what the hardware was given. */
  datatype Device = Device(
    free: seq<Id>, freeCnt: int, pending: seq<Tx>, active: seq<Tx>, done: seq<Tx>,
    idle: bool, cookie: nat, completed: nat, hw: seq<Id>)

  function Chain(t: Tx): seq<Id> { [t.head] + t.children }

  function Chains(ts: seq<Tx>): seq<Id>
  {
    if ts == [] then [] else Chain(ts[0]) + Chains(ts[1..])
  }

  // ---------------------------------------------------------------------------------------
  // Operations on the device
  // ---------------------------------------------------------------------------------------

  function DoReserve(d: Device, n: nat): Device { if n > d.freeCnt then d else d.(freeCnt := d.freeCnt - n) }

  function DoTake(d: Device): Device
    requires d.free != []
  {
    d.(free := d.free[1..])
  }

  function DoSubmit(d: Device, t: Tx): Device
  {
    d.(cookie := d.cookie + 1, pending := d.pending + [t.(cookie := d.cookie + 1)])
  }

  /** Moves all pending transactions to the active list but copies only the first one's chain. */
  function DoStart(d: Device): Device
  {
    if !d.idle || d.pending == [] then d
    else d.(active := d.active + d.pending, pending := [], hw := d.hw + Chain(d.pending[0]), idle := false)
  }

  function DoComplete(d: Device): Device
  {
    if d.active == [] then d
    else d.(active := d.active[1..], completed := d.active[0].cookie, done := d.done + [d.active[0]])
  }

  function DoUnlink(d: Device): Device
    requires d.done != []
  {
    d.(done := d.done[1..])
  }

  function DoFree(d: Device, t: Tx): Device
  {
    d.(free := d.free + Chain(t), freeCnt := d.freeCnt + |Chain(t)|)
  }

  /** The device object, with the driver's functions on it. */
  class Msgdma {
    var freeList: seq<Id>
    var descFreeCnt: int
    var pendingList: seq<Tx>
    var activeList: seq<Tx>
    var doneList: seq<Tx>
    var idle: bool
    var cookie: nat
    var completedCookie: nat
    var hwFifo: seq<Id>

    function Snapshot(): Device
      reads this
    {
      Device(freeList, descFreeCnt, pendingList, activeList, doneList, idle, cookie, completedCookie, hwFifo)
    }

    constructor (n: nat)
      ensures Snapshot() == Fresh(n)
    {
      idle, descFreeCnt, freeList := true, n, [];
      pendingList, activeList, doneList, hwFifo, cookie, completedCookie := [], [], [], [], 0, 0;
      new;
      for i := 0 to n
        invariant freeList == seq(i, k => k)
        invariant Snapshot() == Fresh(n).(free := freeList)
      {
        freeList := freeList + [i];
      }
    }

    /** The reservation made at the start of both prep functions. */
    method Reserve(n: nat) returns (ok: bool)
      modifies this
      ensures ok <==> n <= old(descFreeCnt)
      ensures Snapshot() == DoReserve(old(Snapshot()), n)
    {
      if n > descFreeCnt {
        return false;
      }
      descFreeCnt := descFreeCnt - n;
      return true;
    }

    /** Takes the first free descriptor; the pool invariant shows that there is one. */
    method GetDescriptor() returns (desc: Id)
      requires freeList != []
      modifies this
      ensures desc == old(freeList[0]) && Snapshot() == DoTake(old(Snapshot()))
    {
      desc := freeList[0];
      freeList := freeList[1..];
    }

    method FreeDescriptor(desc: Tx)
      modifies this
      ensures Snapshot() == DoFree(old(Snapshot()), desc)
    {
      descFreeCnt := descFreeCnt + 1;
      freeList := freeList + [desc.head];
      for i := 0 to |desc.children|
        invariant Snapshot() == old(Snapshot()).(free := freeList, freeCnt := descFreeCnt)
        invariant descFreeCnt == old(descFreeCnt) + 1 + i
        invariant freeList == old(freeList) + [desc.head] + desc.children[..i]
      {
        descFreeCnt := descFreeCnt + 1;
        freeList := freeList + [desc.children[i]];
      }
      assert freeList == old(freeList) + Chain(desc);
    }

    method TxSubmit(t: Tx) returns (c: nat)
      modifies this
      ensures Snapshot() == DoSubmit(old(Snapshot()), t) && c == cookie
    {
      cookie := cookie + 1;
      c := cookie;
      pendingList := pendingList + [t.(cookie := c)];
    }

    method CopyOne(desc: Id)
      modifies this
      ensures Snapshot() == old(Snapshot()).(hw := old(hwFifo) + [desc], idle := false)
    {
      hwFifo := hwFifo + [desc];
      idle := false;
    }

    method CopyDescToFifo(t: Tx)
      modifies this
      ensures Snapshot() == old(Snapshot()).(hw := old(hwFifo) + Chain(t), idle := false)
    {
      CopyOne(t.head);
      for i := 0 to |t.children|
        invariant Snapshot() == old(Snapshot()).(hw := hwFifo, idle := false)
        invariant hwFifo == old(hwFifo) + [t.head] + t.children[..i]
      {
        CopyOne(t.children[i]);
      }
      assert hwFifo == old(hwFifo) + Chain(t);
    }

    method StartTransfer()
      modifies this
      ensures Snapshot() == DoStart(old(Snapshot()))
    {
      if !idle {
        return;
      }
      if pendingList == [] {
        return;
      }
      var desc := pendingList[0];
      activeList := activeList + pendingList;
      pendingList := [];
      CopyDescToFifo(desc);
    }

    method CompleteDescriptor()
      modifies this
      ensures Snapshot() == DoComplete(old(Snapshot()))
    {
      if activeList == [] {
        return;
      }
      var desc := activeList[0];
      activeList := activeList[1..];
      completedCookie := desc.cookie;
      doneList := doneList + [desc];
    }

    /** The locked part of the interrupt handler. */
    method IrqHandler(busy: bool)
      modifies this
      ensures Snapshot() == if busy then old(Snapshot()) else DoStart(old(Snapshot()).(idle := true))
    {
      if !busy {
        idle := true;
        StartTransfer();
      }
    }
  }

  function Fresh(n: nat): Device
  {
    Device(seq(n, i => i), n, [], [], [], true, 0, 0, [])
  }

  // ---------------------------------------------------------------------------------------
  // The interleaved machine
  // ---------------------------------------------------------------------------------------

  /** A caller of the driver: `left` descriptors are reserved for it but not yet taken. */
  datatype Client = Out | Preparing(left: nat, taken: seq<Id>) | Prepared(tx: Tx)

  /** The completion tasklet; `next` is the list cursor it saved before dropping the lock. */
  datatype Tasklet =
    | Sleeping
    | Counting(count: nat)
    | Walking(count: nat, next: Option<Id>)
    | InCallback(count: nat, cur: Tx, next: Option<Id>)

  datatype State = State(
    dev: Device, clients: seq<Client>, tasklet: Tasklet,
    submitted: seq<Tx>,         // every transaction ever submitted, in order
    retired: seq<Tx>,           // those whose descriptors were returned to the pool
    fault: bool)                // an empty free list or a stale cursor was dereferenced

  datatype Event =
    | Reserve(k: nat, n: nat)   // client k starts a prep that needs n descriptors
    | Take(k: nat)
    | Finish(k: nat)
    | Submit(k: nat)
    | Issue
    | Irq(busy: bool)
    | TaskletStart(count: nat)  // the response count read from the hardware
    | TaskletComplete
    | TaskletWalk(callback: bool)
    | CallbackReturn

  predicate LockFree(s: State) { s.tasklet.Sleeping? || s.tasklet.InCallback? }

  predicate Enabled(s: State, e: Event)
  {
    match e
    case Reserve(k, n) => LockFree(s) && k < |s.clients| && s.clients[k].Out? && 0 < n
    case Take(k) => LockFree(s) && k < |s.clients| && s.clients[k].Preparing? && 0 < s.clients[k].left
    case Finish(k) => k < |s.clients| && s.clients[k].Preparing? && s.clients[k].left == 0 && s.clients[k].taken != []
    case Submit(k) => LockFree(s) && k < |s.clients| && s.clients[k].Prepared?
    case Issue => LockFree(s)
    case Irq(_) => LockFree(s)
    case TaskletStart(_) => s.tasklet.Sleeping?
    case TaskletComplete => s.tasklet.Counting?
    case TaskletWalk(_) => s.tasklet.Walking?
    case CallbackReturn => s.tasklet.InCallback?
  }

  function FirstHead(ts: seq<Tx>): Option<Id> { if ts == [] then None else Some(ts[0].head) }

  function Step(s: State, e: Event): State
    requires Enabled(s, e)
  {
    match e
    case Reserve(k, n) =>
      if n > s.dev.freeCnt then s
      else s.(dev := DoReserve(s.dev, n), clients := s.clients[k := Preparing(n, [])])
    case Take(k) =>
      var c := s.clients[k];
      if s.dev.free == [] then s.(fault := true)
      else s.(dev := DoTake(s.dev), clients := s.clients[k := Preparing(c.left - 1, c.taken + [s.dev.free[0]])])
    case Finish(k) =>
      var c := s.clients[k];
      s.(clients := s.clients[k := Prepared(Tx(c.taken[0], c.taken[1..], 0))])
    case Submit(k) =>
      var d := DoSubmit(s.dev, s.clients[k].tx);
      s.(dev := d, clients := s.clients[k := Out], submitted := s.submitted + [d.pending[|d.pending| - 1]])
    case Issue => s.(dev := DoStart(s.dev))
    case Irq(busy) => if busy then s else s.(dev := DoStart(s.dev.(idle := true)))
    case TaskletStart(count) => s.(tasklet := Counting(count))
    case TaskletComplete =>
      if s.tasklet.count == 0 then s.(tasklet := Sleeping)
      else
        var d := DoComplete(s.dev);
        s.(dev := d, tasklet := Walking(s.tasklet.count - 1, FirstHead(d.done)))
    case TaskletWalk(callback) =>
      if s.tasklet.next.None? then s.(tasklet := Counting(s.tasklet.count))
      else if s.dev.done == [] || s.dev.done[0].head != s.tasklet.next.value then s.(fault := true)
      else
        var cur := s.dev.done[0];
        var d := DoUnlink(s.dev);
        if callback then s.(dev := d, tasklet := InCallback(s.tasklet.count, cur, FirstHead(d.done)))
        else s.(dev := DoFree(d, cur), tasklet := Walking(s.tasklet.count, FirstHead(d.done)), retired := s.retired + [cur])
    case CallbackReturn =>
      s.(dev := DoFree(s.dev, s.tasklet.cur), tasklet := Walking(s.tasklet.count, s.tasklet.next),
         retired := s.retired + [s.tasklet.cur])
  }

  function Init(n: nat, clients: nat): State
  {
    State(Fresh(n), seq(clients, _ => Out), Sleeping, [], [], false)
  }

  /** Events that are enabled one after the other, and the state they lead to. */
  ghost predicate IsRun(s: State, es: seq<Event>)
    decreases |es|
  {
    es == [] || (Enabled(s, es[0]) && IsRun(Step(s, es[0]), es[1..]))
  }

  ghost function After(s: State, es: seq<Event>): State
    requires IsRun(s, es)
    decreases |es|
  {
    if es == [] then s else After(Step(s, es[0]), es[1..])
  }

  // ---------------------------------------------------------------------------------------
  // Invariant
  // ---------------------------------------------------------------------------------------

  function Held(c: Client): seq<Id>
  {
    match c
    case Out => []
    case Preparing(_, taken) => taken
    case Prepared(tx) => Chain(tx)
  }

  /** How often descriptor i occurs in a list. */
  function Occ(xs: seq<Id>, i: Id): nat
  {
    if xs == [] then 0 else (if xs[0] == i then 1 else 0) + Occ(xs[1..], i)
  }

  function HeldByAll(cs: seq<Client>, i: Id): nat
  {
    if cs == [] then 0 else Occ(Held(cs[0]), i) + HeldByAll(cs[1..], i)
  }

  function Owed(c: Client): nat { if c.Preparing? then c.left else 0 }

  /** Descriptors reserved by some prep but not yet taken off the free list. */
  function OwedToAll(cs: seq<Client>): nat
  {
    if cs == [] then 0 else Owed(cs[0]) + OwedToAll(cs[1..])
  }

  function CallbackTx(s: State): seq<Tx> { if s.tasklet.InCallback? then [s.tasklet.cur] else [] }

  /** The number of places descriptor i is in. */
  function Places(s: State, i: Id): nat
  {
    Occ(s.dev.free, i) + HeldByAll(s.clients, i) + Occ(Chains(s.dev.pending), i) + Occ(Chains(s.dev.active), i)
    + Occ(Chains(s.dev.done), i) + Occ(Chains(CallbackTx(s)), i)
  }

  /** Every one of the n descriptors is in exactly one place. */
  ghost predicate Conserved(s: State, n: nat)
  {
    forall i: Id :: Places(s, i) == if i < n then 1 else 0
  }

  ghost predicate Counted(s: State)
  {
    0 <= s.dev.freeCnt && |s.dev.free| == s.dev.freeCnt + OwedToAll(s.clients)
  }

  ghost predicate Ordered(s: State)
  {
    && s.submitted == s.retired + CallbackTx(s) + s.dev.done + s.dev.active + s.dev.pending
    && (forall i :: 0 <= i < |s.submitted| ==> s.submitted[i].cookie == i + 1)
    && s.dev.cookie == |s.submitted|
    && s.dev.completed == |s.retired| + |CallbackTx(s)| + |s.dev.done|
  }

  ghost predicate CursorValid(s: State)
  {
    (s.tasklet.Walking? || s.tasklet.InCallback?) ==> s.tasklet.next == FirstHead(s.dev.done)
  }

  /** Between responses no completed transaction is left over. */
  ghost predicate Drained(s: State)
  {
    (s.tasklet.Sleeping? || s.tasklet.Counting?) ==> s.dev.done == []
  }

  ghost predicate Inv(s: State, n: nat)
  {
    Conserved(s, n) && Counted(s) && Ordered(s) && CursorValid(s) && Drained(s) && !s.fault
  }

  lemma {:induction false} ChainsAppend(a: seq<Tx>, b: seq<Tx>)
    ensures Chains(a + b) == Chains(a) + Chains(b)
  {
    if a == [] {
      assert a + b == b;
    } else {
      assert (a + b)[1..] == a[1..] + b;
      ChainsAppend(a[1..], b);
    }
  }

  lemma ChainsFirst(ts: seq<Tx>)
    requires ts != []
    ensures Chains(ts) == Chain(ts[0]) + Chains(ts[1..])
  {
  }

  lemma ChainsOne(t: Tx)
    ensures Chains([t]) == Chain(t)
  {
    assert [t][1..] == [];
  }

  lemma {:induction false} HeldUpdate(cs: seq<Client>, k: nat, c: Client, i: Id)
    requires k < |cs|
    ensures HeldByAll(cs[k := c], i) + Occ(Held(cs[k]), i) == HeldByAll(cs, i) + Occ(Held(c), i)
  {
    if k > 0 {
      assert cs[k := c][1..] == cs[1..][k - 1 := c];
      HeldUpdate(cs[1..], k - 1, c, i);
    } else {
      assert cs[k := c][1..] == cs[1..];
    }
  }

  lemma {:induction false} OwedUpdate(cs: seq<Client>, k: nat, c: Client)
    requires k < |cs|
    ensures OwedToAll(cs[k := c]) + Owed(cs[k]) == OwedToAll(cs) + Owed(c)
  {
    if k > 0 {
      assert cs[k := c][1..] == cs[1..][k - 1 := c];
      OwedUpdate(cs[1..], k - 1, c);
    } else {
      assert cs[k := c][1..] == cs[1..];
    }
  }

  lemma {:induction false} OwedIsSum(cs: seq<Client>, k: nat)
    requires k < |cs|
    ensures Owed(cs[k]) <= OwedToAll(cs)
  {
    if k > 0 {
      OwedIsSum(cs[1..], k - 1);
    }
  }

  /** The reservation guarantees a descriptor to whoever still has one to take. */
  lemma TakeNeverFails(s: State, n: nat, k: nat)
    requires Inv(s, n) && Enabled(s, Take(k))
    ensures s.dev.free != []
  {
    OwedIsSum(s.clients, k);
  }

  lemma {:induction false} OccAppend(a: seq<Id>, b: seq<Id>, i: Id)
    ensures Occ(a + b, i) == Occ(a, i) + Occ(b, i)
  {
    if a == [] {
      assert a + b == b;
    } else {
      assert (a + b)[1..] == a[1..] + b;
      OccAppend(a[1..], b, i);
    }
  }

  lemma OccFirst(a: seq<Id>, i: Id)
    requires a != []
    ensures Occ(a, i) == Occ([a[0]], i) + Occ(a[1..], i)
  {
    assert a == [a[0]] + a[1..];
    OccAppend([a[0]], a[1..], i);
  }

  /** Starting moves chains from pending to active. */
  lemma StartMoves(d: Device, i: Id)
    ensures Occ(Chains(DoStart(d).active), i) + Occ(Chains(DoStart(d).pending), i)
         == Occ(Chains(d.active), i) + Occ(Chains(d.pending), i)
  {
    ChainsAppend(d.active, d.pending);
    OccAppend(Chains(d.active), Chains(d.pending), i);
  }

  /** Completing moves a chain from active to done. */
  lemma CompleteMoves(d: Device, i: Id)
    ensures Occ(Chains(DoComplete(d).active), i) + Occ(Chains(DoComplete(d).done), i)
         == Occ(Chains(d.active), i) + Occ(Chains(d.done), i)
  {
    if d.active != [] {
      ChainsAppend(d.done, [d.active[0]]);
      ChainsOne(d.active[0]);
      OccAppend(Chains(d.done), Chain(d.active[0]), i);
      OccAppend(Chain(d.active[0]), Chains(d.active[1..]), i);
    }
  }

  lemma TakeConserves(s: State, k: nat, n: nat, i: Id)
    requires Inv(s, n) && Enabled(s, Take(k))
    ensures Places(Step(s, Take(k)), i) == Places(s, i)
  {
    TakeNeverFails(s, n, k);
    var c, x := s.clients[k], s.dev.free[0];
    HeldUpdate(s.clients, k, Preparing(c.left - 1, c.taken + [x]), i);
    OccAppend(c.taken, [x], i);
    OccFirst(s.dev.free, i);
  }

  lemma SubmitConserves(s: State, k: nat, n: nat, i: Id)
    requires Inv(s, n) && Enabled(s, Submit(k))
    ensures Places(Step(s, Submit(k)), i) == Places(s, i)
  {
    var t := s.clients[k].tx.(cookie := s.dev.cookie + 1);
    HeldUpdate(s.clients, k, Out, i);
    ChainsAppend(s.dev.pending, [t]);
    ChainsOne(t);
    OccAppend(Chains(s.dev.pending), Chain(t), i);
    assert Chain(t) == Held(s.clients[k]);
  }

  lemma WalkConserves(s: State, callback: bool, n: nat, i: Id)
    requires Inv(s, n) && Enabled(s, TaskletWalk(callback))
    ensures Places(Step(s, TaskletWalk(callback)), i) == Places(s, i)
  {
    if s.tasklet.next.Some? {
      var cur := s.dev.done[0];
      ChainsOne(cur);
      OccAppend(Chain(cur), Chains(s.dev.done[1..]), i);
      OccAppend(s.dev.free, Chain(cur), i);
    }
  }

  lemma FinishConserves(s: State, k: nat, n: nat, i: Id)
    requires Inv(s, n) && Enabled(s, Finish(k))
    ensures Places(Step(s, Finish(k)), i) == Places(s, i)
  {
    var c := s.clients[k];
    HeldUpdate(s.clients, k, Prepared(Tx(c.taken[0], c.taken[1..], 0)), i);
    assert c.taken == [c.taken[0]] + c.taken[1..];
  }

  lemma CallbackConserves(s: State, n: nat, i: Id)
    requires Inv(s, n) && Enabled(s, CallbackReturn)
    ensures Places(Step(s, CallbackReturn), i) == Places(s, i)
  {
    ChainsOne(s.tasklet.cur);
    OccAppend(s.dev.free, Chain(s.tasklet.cur), i);
  }

  /** No step creates or loses a descriptor. */
  lemma StepConserves(s: State, e: Event, n: nat, i: Id)
    requires Inv(s, n) && Enabled(s, e)
    ensures Places(Step(s, e), i) == Places(s, i)
  {
    match e
    case Reserve(k, m) => HeldUpdate(s.clients, k, Preparing(m, []), i);
    case Take(k) => TakeConserves(s, k, n, i);
    case Finish(k) => FinishConserves(s, k, n, i);
    case Submit(k) => SubmitConserves(s, k, n, i);
    case Issue => StartMoves(s.dev, i);
    case Irq(busy) => StartMoves(s.dev.(idle := true), i);
    case TaskletStart(_) =>
    case TaskletComplete => CompleteMoves(s.dev, i);
    case TaskletWalk(callback) => WalkConserves(s, callback, n, i);
    case CallbackReturn => CallbackConserves(s, n, i);
  }

  lemma StepCounts(s: State, e: Event, n: nat)
    requires Inv(s, n) && Enabled(s, e)
    ensures Counted(Step(s, e))
  {
    match e
    case Reserve(k, m) => OwedUpdate(s.clients, k, Preparing(m, []));
    case Take(k) =>
      TakeNeverFails(s, n, k);
      var c := s.clients[k];
      OwedUpdate(s.clients, k, Preparing(c.left - 1, c.taken + [s.dev.free[0]]));
    case Finish(k) =>
      var c := s.clients[k];
      OwedUpdate(s.clients, k, Prepared(Tx(c.taken[0], c.taken[1..], 0)));
    case Submit(k) => OwedUpdate(s.clients, k, Out);
    case _ =>
  }

  lemma CompleteOrders(s: State, n: nat)
    requires Inv(s, n) && Enabled(s, TaskletComplete)
    ensures Ordered(Step(s, TaskletComplete)) && CursorValid(Step(s, TaskletComplete))
  {
    if s.tasklet.count != 0 && s.dev.active != [] {
      var j := |s.retired| + |s.dev.done|;
      assert s.submitted[j] == s.dev.active[0];
      var d := DoComplete(s.dev);
      assert d.done + d.active == s.dev.done + s.dev.active;
    }
  }

  lemma SubmitOrders(s: State, k: nat, n: nat)
    requires Inv(s, n) && Enabled(s, Submit(k))
    ensures Ordered(Step(s, Submit(k)))
  {
    var t := s.clients[k].tx.(cookie := s.dev.cookie + 1);
    assert DoSubmit(s.dev, s.clients[k].tx).pending == s.dev.pending + [t];
    assert s.submitted + [t] == s.retired + CallbackTx(s) + s.dev.done + s.dev.active + (s.dev.pending + [t]);
  }

  lemma WalkOrders(s: State, callback: bool, n: nat)
    requires Inv(s, n) && Enabled(s, TaskletWalk(callback))
    ensures Ordered(Step(s, TaskletWalk(callback))) && CursorValid(Step(s, TaskletWalk(callback)))
    ensures !Step(s, TaskletWalk(callback)).fault
  {
    if s.dev.done != [] {
      assert s.retired + [] + s.dev.done == s.retired + [s.dev.done[0]] + s.dev.done[1..];
      assert s.retired + [s.dev.done[0]] + [] + s.dev.done[1..] == s.retired + [] + s.dev.done;
    }
  }

  lemma ReturnOrders(s: State, n: nat)
    requires Inv(s, n) && Enabled(s, CallbackReturn)
    ensures Ordered(Step(s, CallbackReturn)) && CursorValid(Step(s, CallbackReturn))
  {
    assert s.retired + [s.tasklet.cur] + [] + s.dev.done == s.retired + [s.tasklet.cur] + s.dev.done;
  }

  lemma StartOrders(s: State, d: Device)
    requires Ordered(s) && d == s.dev.(idle := d.idle)
    ensures Ordered(s.(dev := DoStart(d)))
  {
    assert d.active + d.pending + [] == d.active + d.pending;
    assert s.retired + CallbackTx(s) + s.dev.done + (s.dev.active + s.dev.pending) + []
        == s.retired + CallbackTx(s) + s.dev.done + s.dev.active + s.dev.pending;
  }

  /** Every step keeps the order of transactions and the cursor, and faults nowhere. */
  lemma StepOrders(s: State, e: Event, n: nat)
    requires Inv(s, n) && Enabled(s, e)
    ensures Ordered(Step(s, e)) && CursorValid(Step(s, e)) && Drained(Step(s, e)) && !Step(s, e).fault
  {
    match e
    case Take(k) => TakeNeverFails(s, n, k);
    case Submit(k) => SubmitOrders(s, k, n);
    case Issue => StartOrders(s, s.dev);
    case Irq(busy) => StartOrders(s, s.dev.(idle := true));
    case TaskletComplete => CompleteOrders(s, n);
    case TaskletWalk(callback) => WalkOrders(s, callback, n);
    case CallbackReturn => ReturnOrders(s, n);
    case _ =>
  }

  lemma StepKeepsInv(s: State, e: Event, n: nat)
    requires Inv(s, n) && Enabled(s, e)
    ensures Inv(Step(s, e), n)
  {
    StepCounts(s, e, n);
    StepOrders(s, e, n);
    forall i: Id ensures Places(Step(s, e), i) == if i < n then 1 else 0 {
      StepConserves(s, e, n, i);
    }
  }

  // ---------------------------------------------------------------------------------------
  // Whole runs
  // ---------------------------------------------------------------------------------------

  lemma {:induction false} FreshOcc(n: nat, i: Id)
    ensures Occ(seq(n, k => k), i) == if i < n then 1 else 0
  {
    if n > 0 {
      assert seq(n, k => k) == seq(n - 1, k => k) + [n - 1];
      FreshOcc(n - 1, i);
      OccAppend(seq(n - 1, k => k), [n - 1], i);
    }
  }

  lemma {:induction false} NobodyHolds(c: nat, i: Id)
    ensures HeldByAll(seq(c, _ => Out), i) == 0 && OwedToAll(seq(c, _ => Out)) == 0
  {
    if c > 0 {
      assert seq<Client>(c, _ => Out)[1..] == seq<Client>(c - 1, _ => Out);
      NobodyHolds(c - 1, i);
    }
  }

  lemma InitInv(n: nat, c: nat)
    ensures Inv(Init(n, c), n)
  {
    NobodyHolds(c, 0);
    forall i: Id ensures Places(Init(n, c), i) == if i < n then 1 else 0 {
      FreshOcc(n, i);
      NobodyHolds(c, i);
    }
  }

  /** The invariant holds after every run, however preps, submits, interrupts and the tasklet interleave. */
  lemma {:induction false} RunKeepsInv(s: State, es: seq<Event>, n: nat)
    requires Inv(s, n) && IsRun(s, es)
    ensures Inv(After(s, es), n)
    decreases |es|
  {
    if es != [] {
      StepKeepsInv(s, es[0], n);
      RunKeepsInv(Step(s, es[0]), es[1..], n);
    }
  }

  /** One step never takes back a completion, a retirement or a submission. */
  lemma StepAdvances(s: State, e: Event, n: nat)
    requires Inv(s, n) && Enabled(s, e)
    ensures s.dev.completed <= Step(s, e).dev.completed <= s.dev.completed + 1
    ensures s.retired <= Step(s, e).retired && s.submitted <= Step(s, e).submitted
  {
    StepOrders(s, e, n);
  }

  /**
   Transactions are retired in the order they were submitted, each at most once: after any run
   from boot the retired ones are a prefix of the submitted ones, and the completed cookie is
   the cookie of the last transaction taken off the active list.
   */
  lemma CompletionInOrder(n: nat, c: nat, es: seq<Event>)
    requires IsRun(Init(n, c), es)
    ensures var s := After(Init(n, c), es);
      && s.retired <= s.submitted
      && s.dev.completed <= |s.submitted|
      && (s.dev.completed > 0 ==> s.submitted[s.dev.completed - 1].cookie == s.dev.completed)
      && (forall i, j :: 0 <= i < j < |s.submitted| ==> s.submitted[i].cookie != s.submitted[j].cookie)
  {
    InitInv(n, c);
    RunKeepsInv(Init(n, c), es, n);
  }

  // ---------------------------------------------------------------------------------------
  // What the hardware is given
  // ---------------------------------------------------------------------------------------

  /** Transactions that have left the pending list. */
  function Moved(s: State): seq<Tx> { s.retired + CallbackTx(s) + s.dev.done + s.dev.active }

  predicate Starting(s: State, e: Event)
  {
    s.dev.pending != [] && ((e.Issue? && s.dev.idle) || (e.Irq? && !e.busy))
  }

  /** The event does not start more than one transaction at a time. */
  predicate Solo(s: State, e: Event) { Starting(s, e) ==> |s.dev.pending| == 1 }

  ghost predicate AllSolo(s: State, es: seq<Event>)
    requires IsRun(s, es)
    decreases |es|
  {
    es == [] || (Solo(s, es[0]) && AllSolo(Step(s, es[0]), es[1..]))
  }

  /** Which events change the idle flag and the lists of transactions, and how. */
  lemma WhoChangesWhat(s: State, e: Event)
    requires Enabled(s, e)
    ensures Step(s, e).dev.idle == if Starting(s, e) then false else s.dev.idle || e == Irq(false)
    ensures Step(s, e).dev.hw == if Starting(s, e) then s.dev.hw + Chain(s.dev.pending[0]) else s.dev.hw
    ensures !Starting(s, e) && !e.Submit? ==> Step(s, e).dev.pending == s.dev.pending
    ensures e.Submit? ==> |Step(s, e).dev.pending| == |s.dev.pending| + 1 && s.dev.pending <= Step(s, e).dev.pending
    ensures Starting(s, e) ==> Step(s, e).dev.pending == [] && Step(s, e).dev.active == s.dev.active + s.dev.pending
    ensures !Starting(s, e) && !e.TaskletComplete? ==> Step(s, e).dev.active == s.dev.active
    ensures e.TaskletComplete? ==> Step(s, e).dev.active == s.dev.active || (s.dev.active != [] && Step(s, e).dev.active == s.dev.active[1..])
  {
  }

  /** A busy device is not started: only an interrupt that finds it idle does so, and that reports it. */
  lemma {:induction false} BusyIsNotStarted(s: State, es: seq<Event>, j: nat)
    requires IsRun(s, es) && j < |es| && !s.dev.idle && forall k :: 0 <= k <= j ==> es[k] != Irq(false)
    ensures IsRun(s, es[..j]) && !After(s, es[..j]).dev.idle && After(s, es[..j]).dev.hw == s.dev.hw && !Starting(After(s, es[..j]), es[j])
    decreases |es|
  {
    if j == 0 {
      assert es[..0] == [];
    } else {
      WhoChangesWhat(s, es[0]);
      BusyIsNotStarted(Step(s, es[0]), es[1..], j - 1);
      assert es[..j][1..] == es[1..][..j - 1];
    }
  }

  /** Between any two starts there is an interrupt that finds the device idle. */
  lemma {:induction false} StartsAlternate(s: State, es: seq<Event>, i: nat, j: nat)
    requires IsRun(s, es) && i < j < |es| && IsRun(s, es[..i]) && IsRun(s, es[..j])
    requires Starting(After(s, es[..i]), es[i]) && Starting(After(s, es[..j]), es[j])
    ensures exists k :: i < k <= j && es[k] == Irq(false)
    decreases |es|
  {
    if 0 < i {
      assert es[..i][1..] == es[1..][..i - 1] && es[..j][1..] == es[1..][..j - 1];
      StartsAlternate(Step(s, es[0]), es[1..], i - 1, j - 1);
    } else {
      assert es[..0] == [];
      WhoChangesWhat(s, es[0]);
      assert es[..j][1..] == es[1..][..j - 1];
      if forall k :: 0 < k <= j ==> es[k] != Irq(false) {
        BusyIsNotStarted(Step(s, es[0]), es[1..], j - 1);
      }
    }
  }

  /** Responses still to be handled. */
  function Responses(t: Tasklet): nat { if t.Sleeping? then 0 else t.count }

  /** One response completes one transaction, if there is an active one; nothing else completes any. */
  lemma ResponsesComplete(s: State, e: Event)
    requires Enabled(s, e)
    ensures var s' := Step(s, e);
      match e
      case TaskletStart(count) => Responses(s'.tasklet) == count && s'.dev.active == s.dev.active && s'.dev.done == s.dev.done
      case TaskletComplete =>
        if Responses(s.tasklet) == 0 then s'.tasklet.Sleeping? && s'.dev == s.dev
        else
          && Responses(s'.tasklet) == Responses(s.tasklet) - 1 && s'.dev.done + s'.dev.active == s.dev.done + s.dev.active
          && |s'.dev.done| == |s.dev.done| + if s.dev.active == [] then 0 else 1
      case _ => Responses(s'.tasklet) == Responses(s.tasklet) && |s'.dev.done| <= |s.dev.done|
  {
    if e.TaskletComplete? && s.dev.active != [] {
      assert s.dev.active == [s.dev.active[0]] + s.dev.active[1..];
    }
  }

  /** Responses the hardware counted over a run. */
  function ResponsesIn(es: seq<Event>): nat
    decreases |es|
  {
    if es == [] then 0 else (if es[0].TaskletStart? then es[0].count else 0) + ResponsesIn(es[1..])
  }

  /** No more transactions are completed than there were responses. */
  lemma {:induction false} NoMoreThanResponses(s: State, es: seq<Event>, n: nat)
    requires Inv(s, n) && IsRun(s, es)
    ensures After(s, es).dev.completed + Responses(After(s, es).tasklet) <= s.dev.completed + Responses(s.tasklet) + ResponsesIn(es)
    decreases |es|
  {
    if es != [] {
      StepKeepsInv(s, es[0], n);
      ResponsesComplete(s, es[0]);
      OneCompletes(s, es[0], n);
      NoMoreThanResponses(Step(s, es[0]), es[1..], n);
    }
  }

  lemma OneCompletes(s: State, e: Event, n: nat)
    requires Inv(s, n) && Enabled(s, e)
    ensures Step(s, e).dev.completed == s.dev.completed + if e.TaskletComplete? && 0 < Responses(s.tasklet) && s.dev.active != [] then 1 else 0
  {
    hide Conserved, Counted;
    StepOrders(s, e, n);
  }

  /** A client is refused exactly if the counter is too small, and the free list is a queue. */
  lemma FreeIsQueue(s: State, e: Event)
    requires Enabled(s, e)
    ensures e.Reserve? ==> (Step(s, e).clients[e.k] == Preparing(e.n, []) <==> e.n <= s.dev.freeCnt)
    ensures e.Reserve? && s.dev.freeCnt < e.n ==> Step(s, e) == s
    ensures e.Take? && s.dev.free != [] ==>
      Step(s, e).dev.free == s.dev.free[1..] && Step(s, e).clients[e.k].taken == s.clients[e.k].taken + [s.dev.free[0]]
    ensures !e.Take? ==> s.dev.free <= Step(s, e).dev.free
    ensures Step(s, e).retired == s.retired ==> |Step(s, e).dev.free| <= |s.dev.free|
  {
  }

  /** The client an event is of. */
  function ClientOf(e: Event): Option<nat> { if e.Reserve? || e.Take? || e.Finish? || e.Submit? then Some(e.k) else None }

  /** A transaction is made of the descriptors its client took, in that order, and submitted as it is; nobody else's change. */
  lemma ClientsKeepTheirs(s: State, e: Event)
    requires Enabled(s, e)
    ensures e.Finish? ==> Step(s, e).clients[e.k].Prepared? && Chain(Step(s, e).clients[e.k].tx) == s.clients[e.k].taken
    ensures e.Submit? ==> Step(s, e).clients[e.k].Out? && |Step(s, e).submitted| == |s.submitted| + 1
                          && Chain(Step(s, e).submitted[|s.submitted|]) == Chain(s.clients[e.k].tx)
    ensures |Step(s, e).clients| == |s.clients| && (!e.Submit? ==> Step(s, e).submitted == s.submitted)
    ensures forall i :: 0 <= i < |s.clients| && ClientOf(e) != Some(i) ==> Step(s, e).clients[i] == s.clients[i]
  {
    if e.Finish? { assert s.clients[e.k].taken == [s.clients[e.k].taken[0]] + s.clients[e.k].taken[1..]; }
  }

  lemma MovedIsPrefix(s: State)
    requires Ordered(s)
    ensures |s.dev.pending| <= |s.submitted| && Moved(s) == s.submitted[..|s.submitted| - |s.dev.pending|]
  {
  }

  lemma {:induction false} ChainsNonEmpty(ts: seq<Tx>)
    ensures |ts| <= |Chains(ts)|
  {
    if ts != [] {
      ChainsNonEmpty(ts[1..]);
    }
  }

  /** One step: the hardware is given exactly what moved, or falls behind if the start was not solo. */
  lemma StepFeedsHardware(s: State, e: Event, n: nat)
    requires Inv(s, n) && Enabled(s, e)
    ensures Solo(s, e) && s.dev.hw == Chains(Moved(s)) ==> Step(s, e).dev.hw == Chains(Moved(Step(s, e)))
    ensures var before, after := |Chains(Moved(s))| - |s.dev.hw|, |Chains(Moved(Step(s, e)))| - |Step(s, e).dev.hw|;
      before <= after && (!Solo(s, e) ==> before < after)
  {
    hide Step, Inv, Enabled, Moved, Occ;
    if Starting(s, e) {
      var p := s.dev.pending;
      StartMovesPending(s, e, n);
      ChainsAppend(Moved(s), p);
      ChainsFirst(p);
      ChainsNonEmpty(p[1..]);
      if |p| == 1 {
        assert p[1..] == [];
      }
    } else {
      NotStartingMovesNothing(s, e, n);
    }
  }

  /** A start moves all that is pending and writes the first chain of it to the hardware. */
  lemma StartMovesPending(s: State, e: Event, n: nat)
    requires Inv(s, n) && Enabled(s, e) && Starting(s, e)
    ensures Moved(Step(s, e)) == Moved(s) + s.dev.pending
    ensures Step(s, e).dev.hw == s.dev.hw + Chain(s.dev.pending[0])
  {
  }

  lemma NotStartingMovesNothing(s: State, e: Event, n: nat)
    requires Inv(s, n) && Enabled(s, e) && !Starting(s, e)
    ensures Moved(Step(s, e)) == Moved(s) && Step(s, e).dev.hw == s.dev.hw
  {
    StepOrders(s, e, n);
    MovedIsPrefix(s);
    MovedIsPrefix(Step(s, e));
    var s' := Step(s, e);
    assert |s'.submitted| - |s'.dev.pending| == |s.submitted| - |s.dev.pending|;
  }

  /**
   The descriptors written to the hardware are exactly the chains of all transactions that were
   made active iff every start found a single pending transaction.
   */
  lemma {:induction false} HardwareGetsEverythingIff(s: State, es: seq<Event>, n: nat)
    requires Inv(s, n) && IsRun(s, es) && |s.dev.hw| <= |Chains(Moved(s))|
    ensures s.dev.hw == Chains(Moved(s)) ==>
      (After(s, es).dev.hw == Chains(Moved(After(s, es))) <==> AllSolo(s, es))
    ensures |s.dev.hw| < |Chains(Moved(s))| ==> |After(s, es).dev.hw| < |Chains(Moved(After(s, es)))|
    decreases |es|
  {
    if es != [] {
      StepKeepsInv(s, es[0], n);
      StepFeedsHardware(s, es[0], n);
      HardwareGetsEverythingIff(Step(s, es[0]), es[1..], n);
    }
  }

  ghost predicate Leads(s: State, es: seq<Event>, t: State)
  {
    IsRun(s, es) && After(s, es) == t
  }

  lemma LeadsOne(s: State, e: Event)
    requires Enabled(s, e)
    ensures Leads(s, [e], Step(s, e))
  {
    assert [e][1..] == [];
  }

  lemma {:induction false} LeadsThrough(s: State, a: seq<Event>, t: State, b: seq<Event>, u: State)
    requires Leads(s, a, t) && Leads(t, b, u)
    ensures Leads(s, a + b, u)
    decreases |a|
  {
    if a == [] {
      assert a + b == b;
    } else {
      assert (a + b)[1..] == a[1..] + b;
      LeadsThrough(Step(s, a[0]), a[1..], t, b, u);
    }
  }

  /** Client k prepares and submits a transaction of one descriptor. */
  function SubmitOne(k: nat): seq<Event> { [Reserve(k, 1), Take(k)] + [Finish(k), Submit(k)] }

  lemma SubmitOneLeads(s: State, k: nat) returns (t: State)
    requires s.tasklet.Sleeping? && k < |s.clients| && s.clients[k].Out? && 0 < s.dev.freeCnt && s.dev.free != []
    ensures Leads(s, SubmitOne(k), t)
    ensures t.tasklet.Sleeping? && t.clients == s.clients && t.retired == s.retired && t.fault == s.fault
    ensures var tx := Tx(s.dev.free[0], [], s.dev.cookie + 1);
      && t.submitted == s.submitted + [tx]
      && t.dev == s.dev.(free := s.dev.free[1..], freeCnt := s.dev.freeCnt - 1, cookie := s.dev.cookie + 1, pending := s.dev.pending + [tx])
  {
    var s1 := Step(s, Reserve(k, 1));
    var s2 := Step(s1, Take(k));
    assert s2.clients[k] == Preparing(0, [s.dev.free[0]]);
    var s3 := Step(s2, Finish(k));
    assert s3.clients[k] == Prepared(Tx(s.dev.free[0], [], 0));
    t := Step(s3, Submit(k));
    assert t.clients == s.clients;
    LeadsOne(s, Reserve(k, 1));
    LeadsOne(s1, Take(k));
    LeadsThrough(s, [Reserve(k, 1)], s1, [Take(k)], s2);
    LeadsOne(s2, Finish(k));
    LeadsOne(s3, Submit(k));
    LeadsThrough(s2, [Finish(k)], s3, [Submit(k)], t);
    assert [Reserve(k, 1)] + [Take(k)] == [Reserve(k, 1), Take(k)] && [Finish(k)] + [Submit(k)] == [Finish(k), Submit(k)];
    LeadsThrough(s, [Reserve(k, 1), Take(k)], s2, [Finish(k), Submit(k)], t);
  }

  /** One response: the oldest active transaction is completed and retired. */
  function RetireOne(): seq<Event> { [TaskletComplete, TaskletWalk(false)] + [TaskletWalk(false)] }

  lemma RetireOneLeads(s: State) returns (t: State)
    requires s.tasklet.Counting? && 0 < s.tasklet.count && s.dev.done == [] && s.dev.active != []
    ensures Leads(s, RetireOne(), t)
    ensures t.tasklet == Counting(s.tasklet.count - 1) && t.retired == s.retired + [s.dev.active[0]]
    ensures t.dev.done == [] && t.dev.active == s.dev.active[1..] && t.dev.hw == s.dev.hw
  {
    var s1 := Step(s, TaskletComplete);
    assert s1.dev.done == [s.dev.active[0]];
    var s2 := Step(s1, TaskletWalk(false));
    t := Step(s2, TaskletWalk(false));
    LeadsOne(s, TaskletComplete);
    LeadsOne(s1, TaskletWalk(false));
    LeadsThrough(s, [TaskletComplete], s1, [TaskletWalk(false)], s2);
    assert [TaskletComplete] + [TaskletWalk(false)] == [TaskletComplete, TaskletWalk(false)];
    LeadsOne(s2, TaskletWalk(false));
    LeadsThrough(s, [TaskletComplete, TaskletWalk(false)], s2, [TaskletWalk(false)], t);
  }

  /** Two submissions, one issue, and a tasklet that is to handle two responses. */
  lemma TwoIssuedTogether() returns (es: seq<Event>, t: State)
    ensures Leads(Init(2, 2), es, t) && t.tasklet == Counting(2) && t.retired == [] && t.dev.done == []
    ensures t.dev.hw == [0] && t.dev.active == [Tx(0, [], 1), Tx(1, [], 2)]
  {
    var s := Init(2, 2);
    var s1 := SubmitOneLeads(s, 0);
    var s2 := SubmitOneLeads(s1, 1);
    LeadsThrough(s, SubmitOne(0), s1, SubmitOne(1), s2);
    var s3 := Step(s2, Issue);
    LeadsOne(s2, Issue);
    t := Step(s3, TaskletStart(2));
    LeadsOne(s3, TaskletStart(2));
    es := SubmitOne(0) + SubmitOne(1);
    LeadsThrough(s, es, s2, [Issue], s3);
    LeadsThrough(s, es + [Issue], s3, [TaskletStart(2)], t);
    es := es + [Issue] + [TaskletStart(2)];
  }

  /**
   A transaction can be completed and retired although the hardware never saw its descriptor:
   two submissions before one issue, then a response count of two.
   */
  lemma RetiredWithoutTransfer() returns (es: seq<Event>, t: State)
    ensures Leads(Init(2, 2), es, t) && |t.retired| == 2 && t.retired[1].head == 1 && 1 !in t.dev.hw
  {
    var es0, s0 := TwoIssuedTogether();
    var s1 := RetireOneLeads(s0);
    t := RetireOneLeads(s1);
    LeadsThrough(Init(2, 2), es0, s0, RetireOne(), s1);
    LeadsThrough(Init(2, 2), es0 + RetireOne(), s1, RetireOne(), t);
    es := es0 + RetireOne() + RetireOne();
  }

  // ---------------------------------------------------------------------------------------
  // Preps that take more than they reserved
  // ---------------------------------------------------------------------------------------

  /** The counter and the reservations together promise m descriptors more than the free list holds. */
  ghost predicate Overpromised(s: State, m: int)
  {
    |s.dev.free| + m == s.dev.freeCnt + OwedToAll(s.clients)
  }

  /** Client k takes one descriptor beyond its reservation. */
  function Overtake(s: State, k: nat): State
    requires k < |s.clients| && s.clients[k].Preparing? && s.clients[k].left == 0
  {
    var c := s.clients[k];
    if s.dev.free == [] then s.(fault := true)
    else s.(dev := DoTake(s.dev), clients := s.clients[k := Preparing(0, c.taken + [s.dev.free[0]])])
  }

  /** Each such descriptor is one more that is promised and not there. */
  lemma OvertakeOverpromises(s: State, k: nat, m: int)
    requires k < |s.clients| && s.clients[k].Preparing? && s.clients[k].left == 0 && Overpromised(s, m) && !s.fault
    ensures Overtake(s, k).fault <==> s.dev.free == []
    ensures !Overtake(s, k).fault ==> Overpromised(Overtake(s, k), m + 1)
  {
    if s.dev.free != [] {
      OwedUpdate(s.clients, k, Preparing(0, s.clients[k].taken + [s.dev.free[0]]));
    }
  }

  /** No event makes good for it, not even the return of the descriptors. */
  lemma PromiseStays(s: State, e: Event, m: int)
    requires Enabled(s, e) && Overpromised(s, m)
    ensures Overpromised(Step(s, e), m)
  {
    match e
    case Reserve(k, n) => OwedUpdate(s.clients, k, Preparing(n, []));
    case Take(k) =>
      if s.dev.free != [] {
        var c := s.clients[k];
        OwedUpdate(s.clients, k, Preparing(c.left - 1, c.taken + [s.dev.free[0]]));
      }
    case Finish(k) =>
      var c := s.clients[k];
      OwedUpdate(s.clients, k, Prepared(Tx(c.taken[0], c.taken[1..], 0)));
    case Submit(k) => OwedUpdate(s.clients, k, Out);
    case _ =>
  }

  /** After any run the pool promises as many descriptors too many as before it. */
  lemma {:induction false} PromiseStaysOverRuns(s: State, es: seq<Event>, m: int)
    requires IsRun(s, es) && Overpromised(s, m)
    ensures Overpromised(After(s, es), m)
    decreases |es|
  {
    if es != [] {
      PromiseStays(s, es[0], m);
      PromiseStaysOverRuns(Step(s, es[0]), es[1..], m);
    }
  }

  /** A client that takes what it reserved meets the empty list exactly if all that is promised is what is not there. */
  lemma TakeFaultsIff(s: State, k: nat, m: int)
    requires Enabled(s, Take(k)) && Overpromised(s, m) && !s.fault
    ensures Step(s, Take(k)).fault <==> s.dev.freeCnt + OwedToAll(s.clients) == m
  {
  }

  /** With nothing overpromised that cannot happen; one descriptor too many is enough for another client to meet the empty list. */
  lemma OvertakingFaultsAnother() returns (s: State, es: seq<Event>)
    ensures Leads(Init(2, 2), [Reserve(0, 1), Take(0)], s) && s.clients[0] == Preparing(0, [0])
    ensures IsRun(Overtake(s, 0), es) && es == [Reserve(1, 1), Take(1)] && !Overtake(s, 0).fault && After(Overtake(s, 0), es).fault
  {
    var s0 := Init(2, 2);
    var s1 := Step(s0, Reserve(0, 1));
    s := Step(s1, Take(0));
    LeadsOne(s0, Reserve(0, 1));
    LeadsOne(s1, Take(0));
    LeadsThrough(s0, [Reserve(0, 1)], s1, [Take(0)], s);
    assert [Reserve(0, 1)] + [Take(0)] == [Reserve(0, 1), Take(0)];
    var t0 := Overtake(s, 0);
    var t1 := Step(t0, Reserve(1, 1));
    LeadsOne(t0, Reserve(1, 1));
    LeadsOne(t1, Take(1));
    LeadsThrough(t0, [Reserve(1, 1)], t1, [Take(1)], Step(t1, Take(1)));
    es := [Reserve(1, 1), Take(1)];
    assert [Reserve(1, 1)] + [Take(1)] == es;
  }
}

/** What a pool of slots holds, seen from outside, and the object that holds it: an id pool, the
    slots themselves and the timer list threaded through them (members idPool and root of
    RequestPool and ReplyPool in server.h). */
module SlotPools {
  import opened Sequences
  import opened IdPools
  import opened Timers

  /** The slots in use with their contents, the free slots in the order they will be handed out,
      the slots on the timer list in the order they are due, and when each slot is due. */
  datatype Pool<T> = Pool(slots: map<nat, T>, free: seq<nat>, order: seq<nat>, due: seq<int>)

  /** What there is to say of a pool: about its free slots, what is in use, and its timer list. */
  datatype PoolFact = Line | Slots | Order

  ghost predicate Says<T>(f: PoolFact, p: Pool<T>, size: nat) {
    match f
    case Line => Distinct(p.free) && forall k {:trigger p.free[k]} :: 0 <= k < |p.free| ==> p.free[k] < size
    case Slots => forall i: nat {:trigger i in p.free} :: i in p.slots <==> i < size && i !in p.free
    case Order =>
      && |p.due| == size && Distinct(p.order) && Ascending(p.order, p.due)
      && (forall i {:trigger i in p.order} :: i in p.order ==> i in p.slots)
  }

  ghost predicate PoolOk<T>(p: Pool<T>, size: nat) {
    forall f: PoolFact {:trigger Says(f, p, size)} :: Says(f, p, size)
  }

  lemma PoolParts<T>(p: Pool<T>, size: nat)
    requires PoolOk(p, size)
    ensures Says(Line, p, size) && Says(Slots, p, size) && Says(Order, p, size)
  {}

  lemma PoolWhole<T>(p: Pool<T>, size: nat)
    requires Says(Line, p, size) && Says(Slots, p, size) && Says(Order, p, size)
    ensures PoolOk(p, size)
  {}

  /** A slot in use exists and is not free. */
  lemma InUse<T>(p: Pool<T>, size: nat, i: nat)
    requires PoolOk(p, size)
    ensures |p.due| == size && (i in p.slots <==> i < size && i !in p.free)
  {
    PoolParts(p, size);
  }

  lemma FirstIsFree<T>(p: Pool<T>, size: nat)
    requires PoolOk(p, size) && p.free != []
    ensures p.free[0] !in p.slots && p.free[0] < size
  {
    PoolParts(p, size);
    assert p.free[0] in p.free;
  }

  lemma ListedInUse<T>(p: Pool<T>, size: nat, i: nat)
    requires PoolOk(p, size) && i in p.order
    ensures i in p.slots
  {
    PoolParts(p, size);
  }

  lemma AllInUse<T>(p: Pool<T>, size: nat)
    requires PoolOk(p, size)
    ensures |p.due| == size && forall i: nat {:trigger i in p.slots} :: i in p.slots <==> i < size && i !in p.free
  {
    PoolParts(p, size);
    forall i: nat {:trigger i in p.slots}
      ensures i in p.slots <==> i < size && i !in p.free
    {
      InUse(p, size, i);
    }
  }

  /** A pool with every slot free. */
  function NewPool<T>(size: nat): Pool<T> {
    Pool(map[], seq(size, i => i), [], seq(size, _ => 0))
  }

  lemma NewPoolOk<T>(size: nat)
    ensures PoolOk<T>(NewPool(size), size)
  {
    var free := NewPool<T>(size).free;
    forall i: nat | i < size ensures i in free {
      assert free[i] == i;
    }
    PoolWhole(NewPool<T>(size), size);
  }

  /** The next free slot is taken and filled. */
  function Taken<T>(p: Pool<T>, v: T): Pool<T>
    requires p.free != []
  {
    p.(slots := p.slots[p.free[0] := v], free := p.free[1..])
  }

  /** Slot i leaves the timer list and goes to the end of the free line. */
  function Given<T>(p: Pool<T>, i: nat): Pool<T> {
    p.(slots := p.slots - {i}, free := p.free + [i], order := Without(p.order, i))
  }

  /** Slot i is put on the timer list, due at t. */
  function Touched<T>(p: Pool<T>, i: nat, t: int): Pool<T> {
    var due := if i < |p.due| then p.due[i := t] else p.due;
    p.(order := Inserted(Without(p.order, i), due, i, t), due := due)
  }

  /** Slot i gets new contents. */
  function Filled<T>(p: Pool<T>, i: nat, v: T): Pool<T> {
    p.(slots := p.slots[i := v])
  }

  lemma TakenOk<T>(p: Pool<T>, size: nat, v: T)
    requires PoolOk(p, size) && p.free != []
    ensures PoolOk(Taken(p, v), size) && p.free[0] !in p.slots && p.free[0] < size
  {
    var q := Taken(p, v);
    PoolParts(p, size);
    FirstIsFree(p, size);
    assert forall k :: 0 <= k < |q.free| ==> q.free[k] == p.free[k + 1];
    forall i: nat ensures i in q.slots <==> i < size && i !in q.free {
      InUse(p, size, i);
      TailMembers(p.free, i);
    }
    PoolWhole(q, size);
  }

  lemma TailMembers(xs: seq<nat>, x: nat)
    requires Distinct(xs) && xs != []
    ensures x in xs[1..] <==> x in xs && x != xs[0]
  {
    assert xs == [xs[0]] + xs[1..];
    if x in xs[1..] {
      var k :| 0 <= k < |xs| - 1 && xs[1..][k] == x;
      assert xs[k + 1] == x;
    }
  }

  lemma GivenOk<T>(p: Pool<T>, size: nat, i: nat)
    requires PoolOk(p, size) && i in p.slots
    ensures PoolOk(Given(p, i), size)
    ensures forall x :: x in Given(p, i).order <==> x in p.order && x != i
  {
    PoolParts(p, size);
    InUse(p, size, i);
    WithoutMembers(p.order, i);
    WithoutDistinct(p.order, i);
    WithoutAscends(p.order, p.due, i);
    var q := Given(p, i);
    forall j: nat ensures j in q.slots <==> j < size && j !in q.free { InUse(p, size, j); }
    PoolWhole(q, size);
  }

  lemma TouchedOk<T>(p: Pool<T>, size: nat, i: nat, t: int)
    requires PoolOk(p, size) && i in p.slots
    ensures i < |p.due| && PoolOk(Touched(p, i, t), size)
    ensures forall x :: x in Touched(p, i, t).order <==> x in p.order || x == i
  {
    PoolParts(p, size);
    InUse(p, size, i);
    var rest := Without(p.order, i);
    WithoutMembers(p.order, i);
    WithoutDistinct(p.order, i);
    WithoutAscends(p.order, p.due, i);
    DueElsewhere(rest, p.due, i, t);
    InsertedAscends(rest, p.due[i := t], i, t);
    InsertedDistinct(rest, p.due[i := t], i, t);
    InsertedMembers(rest, p.due[i := t], i, t);
    assert p.due[i := t][i := t] == p.due[i := t];
    var q := Touched(p, i, t);
    forall j: nat ensures j in q.slots <==> j < size && j !in q.free { InUse(p, size, j); }
    PoolWhole(q, size);
  }

  lemma DueElsewhere(order: seq<nat>, due: seq<int>, i: nat, t: int)
    requires Ascending(order, due) && i < |due| && i !in order
    ensures Ascending(order, due[i := t])
  {
    assert forall k :: 0 <= k < |order| ==> order[k] in order;
  }

  lemma FilledOk<T>(p: Pool<T>, size: nat, i: nat, v: T)
    requires PoolOk(p, size) && i in p.slots
    ensures PoolOk(Filled(p, i, v), size)
  {
    var q := Filled(p, i, v);
    PoolParts(p, size);
    InUse(p, size, i);
    forall j: nat ensures j in q.slots <==> j < size && j !in q.free { InUse(p, size, j); }
    PoolWhole(q, size);
  }

  /** What there is to say of a pool object. */
  datatype Aspect = Composed | Agreeing | Meaningful

  class SlotPool<T(0)> {
    const size: nat
    const bank: nat
    const ids: IdPool
    const timers: TimerList
    const data: array<T>
    ghost var view: Pool<T>
    ghost const Repr: set<object>

    ghost predicate Parts()
      reads this
    {
      && Repr == {this, data} + ids.Repr + timers.Repr
      && ids in ids.Repr && timers in timers.Repr
      && this !in ids.Repr && this !in timers.Repr
      && data !in ids.Repr && data !in timers.Repr && ids.Repr !! timers.Repr
      && ids.size == size && ids.bank == bank && data.Length == size && |timers.nodes| == size
    }

    /** The array has what the slots in use hold. */
    ghost predicate Stores(slots: map<nat, T>)
      reads data
    {
      forall i {:trigger data[i]} :: 0 <= i < data.Length && i in slots ==> data[i] == slots[i]
    }

    ghost predicate Holds(a: Aspect)
      reads this, Repr
    {
      Parts()
      && match a
         case Composed => ids.Valid() && timers.Repr == timers.Nodes + {timers} && timers.Valid()
         case Agreeing =>
           view.free == ids.free && view.order == timers.order && view.due == timers.due && Stores(view.slots)
         case Meaningful => PoolOk(view, size)
    }

    ghost predicate Valid()
      reads this, Repr
      ensures Valid() ==> this in Repr
    {
      assert Holds(Composed) ==> this in Repr;
      forall a: Aspect {:trigger Holds(a)} :: Holds(a)
    }

    /** A pool whose slots are all free; `random` is what random() gave for the bank. */
    constructor (ghost k: nat, size: nat, random: nat)
      requires k < 16 && size == Bits.Pow2(k) && size > 0
      ensures Valid() && fresh(Repr)
      ensures this.size == size && bank == BankGen(random, size) && IsBank(bank, k)
      ensures view == NewPool(size)
    {
      var pool := new IdPool(k, size, random);
      var list := new TimerList(size);
      var slots := new T[size];
      this.size, bank, ids, timers, data := size, pool.bank, pool, list, slots;
      Repr := {this, slots} + pool.Repr + list.Repr;
      view := NewPool(size);
      NewPoolOk<T>(size);
      assert pool.free == NewPool<T>(size).free;
    }

    lemma Open()
      requires Valid()
      ensures Parts() && ids.Valid() && timers.Repr == timers.Nodes + {timers} && timers.Valid()
      ensures view.free == ids.free && view.order == timers.order && view.due == timers.due
      ensures Stores(view.slots) && PoolOk(view, size)
    {
      assert Holds(Composed) && Holds(Agreeing) && Holds(Meaningful);
    }

    lemma Close()
      requires Parts() && ids.Valid() && timers.Repr == timers.Nodes + {timers} && timers.Valid()
      requires view.free == ids.free && view.order == timers.order && view.due == timers.due
      requires Stores(view.slots) && PoolOk(view, size)
      ensures Valid()
    {}

    /** IdPool::alloc, and the caller filling the slot. */
    method Alloc(v: T) returns (r: Option<nat>)
      requires Valid()
      modifies Repr
      ensures Valid()
      ensures r == if old(view).free == [] then None else Some(old(view).free[0])
      ensures view == if old(view).free == [] then old(view) else Taken(old(view), v)
    {
      Open();
      if view.free != [] { TakenOk(view, size, v); }
      r := ids.Alloc();
      if r.Some? {
        data[r.value] := v;
        view := Taken(view, v);
      }
      Close();
    }

    /** RequestPool::release and ReplyPool::release, as far as the slot is concerned. */
    method Release(i: nat)
      requires Valid() && i in view.slots
      modifies Repr
      ensures Valid() && view == Given(old(view), i)
    {
      Open();
      InUse(view, size, i);
      GivenOk(view, size, i);
      timers.Detach(i);
      ids.Release(i);
      view := Given(view, i);
      Close();
    }

    /** TimeSensitive::update with this pool's root. */
    method Touch(i: nat, now: int, delay: int)
      requires Valid() && i in view.slots
      modifies Repr
      ensures Valid() && view == Touched(old(view), i, now + delay)
    {
      Open();
      InUse(view, size, i);
      TouchedOk(view, size, i, now + delay);
      timers.Update(i, now, delay);
      view := Touched(view, i, now + delay);
      Close();
    }

    method Write(i: nat, v: T)
      requires Valid() && i in view.slots
      modifies Repr
      ensures Valid() && view == Filled(old(view), i, v)
    {
      Open();
      InUse(view, size, i);
      FilledOk(view, size, i, v);
      data[i] := v;
      view := Filled(view, i, v);
      Close();
    }

    method Read(i: nat) returns (v: T)
      requires Valid() && i in view.slots
      ensures v == view.slots[i]
    {
      Open();
      InUse(view, size, i);
      v := data[i];
    }

    /** The slot due first and the time it is due, if any slot is on the list. */
    method Oldest() returns (r: Option<nat>, expiration: int)
      requires Valid()
      ensures r == if view.order == [] then None else Some(view.order[0])
      ensures r.Some? ==> r.value in view.slots && expiration == Due(view.due, r.value)
    {
      Open();
      r := timers.Oldest();
      expiration := 0;
      if r.Some? {
        assert timers.Holds(Times);
        ListedInUse(view, size, r.value);
        expiration := timers.nodes[r.value].Expiration();
      }
    }

    method Entry(id: nat) returns (r: Option<nat>)
      requires Valid()
      ensures r == if id >= bank && id - bank in view.slots then Some(id - bank) else None
    {
      Open();
      AllInUse(view, size);
      r := ids.Entry(id);
    }

    method Id(i: nat) returns (id: nat)
      requires Valid() && i in view.slots
      ensures id == bank + i
    {
      Open();
      InUse(view, size, i);
      id := ids.Id(i);
    }

    /** The first slot in use, from slot `from` on. */
    method Next(from: nat) returns (r: Option<nat>)
      requires Valid()
      ensures r.Some? ==> from <= r.value && r.value in view.slots
                          && forall i :: from <= i < r.value ==> i !in view.slots
      ensures r.None? ==> forall i :: from <= i ==> i !in view.slots
    {
      Open();
      AllInUse(view, size);
      r := ids.Next(from);
    }
  }
}

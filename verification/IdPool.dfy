/** Bitwise operators of C++ unsigned integers, on natural numbers. */
module Bits {

  function And(a: nat, b: nat): nat {
    if a == 0 then 0 else 2 * And(a / 2, b / 2) + (if a % 2 == 1 && b % 2 == 1 then 1 else 0)
  }

  function Or(a: nat, b: nat): nat
    decreases a + b
  {
    if a == 0 && b == 0 then 0
    else 2 * Or(a / 2, b / 2) + (if a % 2 == 1 || b % 2 == 1 then 1 else 0)
  }

  /** a << k */
  function Shl(a: nat, k: nat): nat {
    if k == 0 then a else 2 * Shl(a, k - 1)
  }

  /** a >> k */
  function Shr(a: nat, k: nat): nat {
    if k == 0 then a else Shr(a / 2, k - 1)
  }

  /** The k low bits of a; the conversion to uint16_t keeps 16. */
  function Low(a: nat, k: nat): nat {
    if k == 0 then 0 else 2 * Low(a / 2, k - 1) + a % 2
  }

  function Pow2(k: nat): nat { Shl(1, k) }

  lemma LowOdd(a: nat, k: nat)
    requires a % 2 == 1 && k > 0
    ensures Low(a, k) % 2 == 1
  {
    assert Low(a, k) == 2 * Low(a / 2, k - 1) + 1;
  }

  lemma {:induction false} AndZero(a: nat)
    ensures And(a, 0) == 0
  {
    if a != 0 { AndZero(a / 2); }
  }

  lemma {:induction false} AndBelow(a: nat, b: nat)
    ensures And(a, b) <= a
  {
    if a != 0 { AndBelow(a / 2, b / 2); }
  }

  lemma {:induction false} OrZero(a: nat)
    ensures Or(0, a) == a && Or(a, 0) == a
  {
    if a != 0 { OrZero(a / 2); }
  }

  lemma {:induction false} ShlMonotone(a: nat, b: nat, k: nat)
    requires a < b
    ensures Shl(a, k) + Pow2(k) <= Shl(b, k) && 0 < Pow2(k)
  {
    if k != 0 { ShlMonotone(a, b, k - 1); }
  }

  /** High and low bits make up the number. */
  lemma {:induction false} Split(x: nat, k: nat)
    ensures x == Shl(Shr(x, k), k) + Low(x, k) && Low(x, k) < Pow2(k)
  {
    if k != 0 { Split(x / 2, k - 1); }
  }

  lemma {:induction false} SplitUnique(m: nat, i: nat, k: nat)
    requires i < Pow2(k)
    ensures Shr(Shl(m, k) + i, k) == m && Low(Shl(m, k) + i, k) == i
  {
    if k != 0 {
      var x := Shl(m, k) + i;
      assert x / 2 == Shl(m, k - 1) + i / 2;
      SplitUnique(m, i / 2, k - 1);
    }
  }

  /** Masking with 2^k - 1 keeps the k low bits. */
  lemma {:induction false} MaskIsLow(x: nat, k: nat)
    requires Pow2(k) > 0
    ensures And(x, Pow2(k) - 1) == Low(x, k)
  {
    if k == 0 {
      AndZero(x);
    } else {
      MaskIsLow(x / 2, k - 1);
      var p := Pow2(k - 1);
      assert (2 * p - 1) / 2 == p - 1 && (2 * p - 1) % 2 == 1;
      if x == 0 { AndZero(0); }
    }
  }

  /** Joining k low bits with a number that has none of them adds the two. */
  lemma {:induction false} OrIsAdd(i: nat, m: nat, k: nat)
    requires i < Pow2(k)
    ensures Or(i, Shl(m, k)) == i + Shl(m, k)
  {
    if k == 0 {
      OrZero(m);
    } else {
      OrIsAdd(i / 2, m, k - 1);
    }
  }

  lemma {:induction false} OrPow2(m: nat, k: nat)
    ensures Or(Shl(m, k), Pow2(k)) == Shl(if m % 2 == 1 then m else m + 1, k)
  {
    if k == 0 {
      OrZero(m / 2);
    } else {
      ShlMonotone(0, 1, k - 1);
      OrPow2(m, k - 1);
    }
  }

  lemma {:induction false} LowOfShl(m: nat, k: nat, n: nat)
    requires k <= n
    ensures Low(Shl(m, k), n) == Shl(Low(m, n - k), k)
  {
    if k != 0 { LowOfShl(m, k - 1, n - 1); }
  }

  lemma {:induction false} ShlAdd(a: nat, j: nat, k: nat)
    ensures Shl(Shl(a, j), k) == Shl(a, j + k)
  {
    if k != 0 { ShlAdd(a, j, k - 1); }
  }
}

/** idpool.h: a pool of slots named by 16-bit ids. Entries are slot numbers. */
module IdPools {
  import opened Sequences
  import opened Bits

  /** random() & ~(SIZE - 1), for SIZE a power of two. */
  function ClearLow(random: nat, size: nat): nat
    requires size > 0
  {
    AndBelow(random, size - 1);
    random - And(random, size - 1)
  }

  /** A bank kept to `width` bits; `random` is what random() gave. */
  function BankOf(random: nat, size: nat, width: nat): (bank: nat)
    requires size > 0
  {
    Low(Or(ClearLow(random, size), size), width)
  }

  /** The bank a pool draws at construction; its type has 16 bits. */
  function BankGen(random: nat, size: nat): (bank: nat)
    requires size > 0
  {
    BankOf(random, size, 16)
  }

  /** A bank is a non-zero multiple of the pool size that leaves room for every slot. */
  ghost predicate IsBank(bank: nat, k: nat) {
    && k < 16
    && bank == Shl(Shr(bank, k), k)
    && 0 < Pow2(k) <= bank && bank + Pow2(k) <= 0x1_0000
  }

  /** The bank is an odd multiple of the pool size. */
  lemma BankGenShape(random: nat, k: nat, width: nat) returns (r: nat)
    requires k < width
    ensures Pow2(k) > 0 && BankOf(random, Pow2(k), width) == Shl(r, k)
    ensures r % 2 == 1 && r < Pow2(width - k)
    ensures var m := Shr(random, k); r == Low(if m % 2 == 1 then m else m + 1, width - k)
  {
    var m := Shr(random, k);
    ShlMonotone(0, 1, k);
    ClearLowIsShift(random, k);
    OrPow2(m, k);
    var odd := if m % 2 == 1 then m else m + 1;
    LowOfShl(odd, k, width);
    Split(odd, width - k);
    LowOdd(odd, width - k);
    r := Low(odd, width - k);
  }

  lemma ClearLowIsShift(random: nat, k: nat)
    requires Pow2(k) > 0
    ensures ClearLow(random, Pow2(k)) == Shl(Shr(random, k), k)
  {
    MaskIsLow(random, k);
    Split(random, k);
  }

  lemma ShlRange(r: nat, k: nat, width: nat)
    requires k < width && 0 < r < Pow2(width - k)
    ensures 0 < Pow2(k) <= Shl(r, k) && Shl(r, k) + Pow2(k) <= Pow2(width)
    ensures Shr(Shl(r, k), k) == r
  {
    ShlMonotone(0, r, k);
    ShlMonotone(r, Pow2(width - k), k);
    ShlAdd(1, width - k, k);
    ShlZero(k);
    SplitUnique(r, 0, k);
  }

  /** Any number drawn gives a usable bank: its quotient by the pool size, made odd and cut to what is left of
      16 bits, times the pool size. */
  lemma BankGenOk(random: nat, k: nat)
    requires k < 16
    ensures Pow2(k) > 0 && IsBank(BankGen(random, Pow2(k)), k)
    ensures var m := Shr(random, k);
            BankGen(random, Pow2(k)) == Shl(Low(if m % 2 == 1 then m else m + 1, 16 - k), k)
  {
    var r := BankGenShape(random, k, 16);
    ShlRange(r, k, 16);
    Pow16();
  }

  lemma {:induction false} ShlZero(k: nat)
    ensures Shl(0, k) == 0
  {
    if k != 0 { ShlZero(k - 1); }
  }

  lemma Pow16()
    ensures Pow2(16) == 0x1_0000
  {
    assert Shl(1, 4) == 16;
    assert Shl(16, 4) == 256;
    assert Shl(256, 4) == 4096;
    assert Shl(4096, 4) == 0x1_0000;
    ShlAdd(1, 4, 4);
    ShlAdd(1, 8, 4);
    ShlAdd(1, 12, 4);
  }

  function IdOf(entry: nat, bank: nat): nat { Or(entry, bank) }

  function IndexOf(raw: nat, size: nat): nat
    requires size > 0
  {
    And(raw, size - 1)
  }

  /** Ids of the slots are exactly the numbers of the bank: bank, bank + 1, ... */
  lemma IdArithmetic(entry: nat, bank: nat, k: nat)
    requires IsBank(bank, k) && entry < Pow2(k)
    ensures IdOf(entry, bank) == bank + entry
    ensures IndexOf(bank + entry, Pow2(k)) == entry
  {
    OrIsAdd(entry, Shr(bank, k), k);
    MaskIsLow(bank + entry, k);
    SplitUnique(Shr(bank, k), entry, k);
  }

  lemma IndexArithmetic(raw: nat, bank: nat, k: nat)
    requires IsBank(bank, k)
    ensures IndexOf(raw, Pow2(k)) < Pow2(k)
    ensures IdOf(IndexOf(raw, Pow2(k)), bank) == raw <==> bank <= raw < bank + Pow2(k)
    ensures bank <= raw < bank + Pow2(k) ==> IndexOf(raw, Pow2(k)) == raw - bank
  {
    MaskIsLow(raw, k);
    Split(raw, k);
    IdArithmetic(IndexOf(raw, Pow2(k)), bank, k);
    if bank <= raw < bank + Pow2(k) {
      IdArithmetic(raw - bank, bank, k);
    }
  }

  class IdPool {
    ghost const k: nat
    const size: nat
    const bank: nat
    const item: array<nat>
    const inUse: array<bool>
    var nItems: nat
    var head: nat
    var maxActiveIdCount: nat

    /** The free slots, the next one to be handed out first. */
    ghost var free: seq<nat>
    ghost const Repr: set<object>

    /** Where the ring buffer keeps its n-th item. */
    ghost function Pos(n: nat): nat
      reads this
    {
      if head + n < size then head + n else head + n - size
    }

    ghost predicate Valid()
      reads this, Repr
      ensures Valid() ==> this in Repr
    {
      && Repr == {this, item, inUse}
      && size == Pow2(k) && IsBank(bank, k)
      && item.Length == size && inUse.Length == size
      && head < size && nItems == |free| && |free| <= size
      && Distinct(free) && Below(free, size)
      && (forall n :: 0 <= n < |free| ==> 0 <= Pos(n) < size && item[Pos(n)] == free[n])
      && (forall i :: 0 <= i < size ==> inUse[i] == (i !in free))
      && size - nItems <= maxActiveIdCount
    }

    constructor (ghost k: nat, size: nat, random: nat)
      requires k < 16 && size == Pow2(k) && size > 0
      ensures Valid() && fresh(Repr)
      ensures this.k == k && this.size == size && bank == BankGen(random, size)
      ensures |free| == size && forall i :: 0 <= i < size ==> free[i] == i
    {
      this.k := k;
      this.size := size;
      bank := BankGen(random, size);
      var ring, bits := new nat[size], new bool[size](_ => false);
      item, inUse := ring, bits;
      Repr := {this, ring, bits};
      nItems, head, maxActiveIdCount := 0, 0, 0;
      free := [];
      new;
      BankGenOk(random, k);
      var ii := 0;
      while ii < size
        invariant 0 <= ii <= size && head == 0 && nItems == ii == |free| && maxActiveIdCount == 0
        invariant forall i :: 0 <= i < ii ==> free[i] == i
        invariant forall n :: 0 <= n < |free| ==> 0 <= Pos(n) < size && item[Pos(n)] == free[n]
        invariant forall i :: 0 <= i < size ==> !inUse[i]
        modifies this`nItems, this`free, item
      {
        Push(ii);
        ii := ii + 1;
      }
      forall i | 0 <= i < size ensures i in free { assert free[i] == i; }
    }

    method Push(id: nat)
      requires Repr == {this, item, inUse} && item.Length == size && head < size
      requires nItems == |free| < size
      requires forall n :: 0 <= n < |free| ==> 0 <= Pos(n) < size && item[Pos(n)] == free[n]
      modifies this`nItems, this`free, item
      ensures free == old(free) + [id] && nItems == |free|
      ensures forall n :: 0 <= n < |free| ==> 0 <= Pos(n) < size && item[Pos(n)] == free[n]
    {
      WrapIsMod(head + nItems, size);
      item[(head + nItems) % size] := id;
      nItems := nItems + 1;
      free := free + [id];
    }

    method Pop() returns (id: nat)
      requires Repr == {this, item, inUse} && item.Length == size && head < size
      requires nItems == |free| && 0 < |free| <= size
      requires forall n :: 0 <= n < |free| ==> 0 <= Pos(n) < size && item[Pos(n)] == free[n]
      modifies this`nItems, this`free, this`head
      ensures id == old(free)[0] && free == old(free)[1..] && nItems == |free| && head < size
      ensures forall n :: 0 <= n < |free| ==> 0 <= Pos(n) < size && item[Pos(n)] == free[n]
    {
      assert Pos(0) == head;
      id := item[head];
      WrapIsMod(head + 1, size);
      ghost var was := head;
      head := (head + 1) % size;
      nItems := nItems - 1;
      free := free[1..];
      assert forall n :: 0 <= n < |free| ==> Pos(n) == old(Pos(n + 1));
    }

    /** Hands out the slot that has been free the longest, or reports that there is none. */
    method Alloc() returns (r: Option<nat>)
      requires Valid()
      modifies this`nItems, this`free, this`head, this`maxActiveIdCount, inUse
      ensures Valid()
      ensures r.None? <==> old(free) == []
      ensures r.None? ==> free == old(free)
      ensures r.Some? ==> r.value == old(free)[0] && free == old(free)[1..]
    {
      if nItems > 0 {
        assert free[0] in free;
        var idx := Pop();
        inUse[idx] := true;
        if maxActiveIdCount < size - nItems { maxActiveIdCount := size - nItems; }
        assert forall i :: i in free <==> i in old(free) && i != idx by {
          assert old(free) == [idx] + free;
        }
        r := Some(idx);
      } else {
        r := None;
      }
    }

    /** Puts a slot at the end of the line. */
    method Release(entry: nat)
      requires Valid() && entry < size && entry !in free
      modifies this`nItems, this`free, item, inUse
      ensures Valid()
      ensures free == old(free) + [entry]
    {
      MissingShortens(free, size, entry);
      Push(entry);
      inUse[entry] := false;
    }

    /** Looks an id up: the slot it names, if that slot is handed out. */
    method Entry(id: nat) returns (r: Option<nat>)
      requires Valid()
      ensures r.Some? <==> bank <= id < bank + size && id - bank !in free
      ensures r.Some? ==> r.value == id - bank
    {
      var ii := IndexOf(id, size);
      IndexArithmetic(id, bank, k);
      r := if Or(ii, bank) == id && inUse[ii] then Some(ii) else None;
    }

    method Id(entry: nat) returns (id: nat)
      requires Valid() && entry < size
      ensures id == bank + entry
    {
      IdArithmetic(entry, bank, k);
      id := Or(entry, bank);
    }

    /** The next slot in use, from slot `from` on. */
    method Next(from: nat) returns (r: Option<nat>)
      requires Valid()
      ensures r.Some? ==> from <= r.value < size && r.value !in free
                          && forall i :: from <= i < r.value ==> i in free
      ensures r.None? ==> forall i :: from <= i < size ==> i in free
    {
      var index := from;
      while index < size
        invariant from <= index
        invariant forall i :: from <= i < index && i < size ==> i in free
      {
        if inUse[index] { return Some(index); }
        index := index + 1;
      }
      return None;
    }

    /** The count of slots in use. */
    method ActiveIdCount() returns (n: nat)
      requires Valid()
      ensures n == |set i | i in Range(size) && inUse[i]|
    {
      n := size - nItems;
      ComplementSize(free, size);
      assert (set i | i in Range(size) && inUse[i]) == Range(size) - Elements(free);
    }
  }

  lemma WrapIsMod(x: nat, n: nat)
    requires 0 < n && x < 2 * n
    ensures x % n == if x < n then x else x - n
  {}

  /** Banked ids round trip; distinct slots have distinct, non-zero ids. */
  lemma BankedIdsRoundTrip(entry: nat, bank: nat, k: nat)
    requires IsBank(bank, k) && entry < Pow2(k)
    ensures IndexOf(IdOf(entry, bank), Pow2(k)) == entry
    ensures 0 < IdOf(entry, bank) < 0x1_0000
    ensures forall other: nat :: other < Pow2(k) && IdOf(other, bank) == IdOf(entry, bank) ==> other == entry
  {
    IdArithmetic(entry, bank, k);
    forall other: nat | other < Pow2(k) && IdOf(other, bank) == IdOf(entry, bank)
      ensures other == entry
    {
      IdArithmetic(other, bank, k);
    }
  }

  lemma LookupRoundTrip(raw: nat, bank: nat, k: nat)
    requires IsBank(bank, k)
    requires IdOf(IndexOf(raw, Pow2(k)), bank) == raw
    ensures IndexOf(raw, Pow2(k)) < Pow2(k)
    ensures raw == bank + IndexOf(raw, Pow2(k))
  {
    IndexArithmetic(raw, bank, k);
  }

  /** One use of the free list: hand out the first free slot, or put a slot back. */
  datatype Use = Take | Give(slot: nat)

  function After(free: seq<nat>, u: Use): seq<nat> {
    match u
    case Take => if free == [] then free else free[1..]
    case Give(s) => free + [s]
  }

  /** The slots handed out, in order, by a run of uses of the free list. */
  function Handed(free: seq<nat>, us: seq<Use>): seq<nat>
    decreases |us|
  {
    if us == [] then []
    else
      (if us[0].Take? && free != [] then [free[0]] else []) + Handed(After(free, us[0]), us[1..])
  }

  /** Whatever is released meanwhile, what is handed out first is what was free first. */
  lemma {:induction false} FirstFreeFirstOut(free: seq<nat>, us: seq<Use>)
    ensures var h := Handed(free, us);
            if |h| <= |free| then h == free[..|h|] else h[..|free|] == free
    decreases |us|
  {
    if us != [] {
      FirstFreeFirstOut(After(free, us[0]), us[1..]);
    }
  }

  /** After slot `s` is released it comes out again only when all that were free before it are gone. */
  lemma ReleasedSlotWaitsItsTurn(free: seq<nat>, s: nat, us: seq<Use>, n: nat)
    requires s !in free
    requires n < |Handed(free + [s], us)| && Handed(free + [s], us)[n] == s
    ensures n >= |free| && Handed(free + [s], us)[..|free|] == free
  {
    FirstFreeFirstOut(free + [s], us);
    var h := Handed(free + [s], us);
    assert forall i :: 0 <= i < |free| && i < |h| ==> h[i] == free[i];
    assert |h| > |free|;
    assert h[..|free|] == (free + [s])[..|free|];
  }
}

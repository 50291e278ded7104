/** node.cpp and timesensitive.cpp: the intrusive circular list that keeps timers in the order
    in which they expire. Every node is embedded in a pool slot, so a node is known by its slot. */
module Timers {
  import opened Sequences

  class Node {
    var next: Node
    var prev: Node
    var lastUpdate: int
    /** What expiration() adds to lastUpdate: a request's time-out or the reply delay. */
    var delay: int
    const slot: nat

    constructor (slot: nat)
      ensures next == this && prev == this && lastUpdate == 0 && delay == 0 && this.slot == slot
    {
      next, prev, lastUpdate, delay := this, this, 0, 0;
      this.slot := slot;
    }

    function Expiration(): int
      reads this
    {
      lastUpdate + delay
    }

    method Detach()
      modifies this`next, this`prev, prev`next, next`prev
      ensures next == this && prev == this
      ensures old(prev) != this ==> old(prev).next == old(next)
      ensures old(next) != this ==> old(next).prev == old(prev)
    {
      prev.next := next;
      next.prev := prev;
      next, prev := this, this;
    }

    method InsertBefore(node: Node)
      requires node != this && node.prev != this
      modifies this`next, this`prev, node`prev, node.prev`next
      ensures next == node && prev == old(node.prev)
      ensures node.prev == this && old(node.prev).next == this
    {
      next := node;
      prev := node.prev;
      next.prev := this;
      prev.next := this;
    }
  }

  /** The time slot x is due. */
  function Due(due: seq<int>, x: nat): int {
    if x < |due| then due[x] else 0
  }

  /** `order` ascends by due time. */
  ghost predicate Ascending(order: seq<nat>, due: seq<int>) {
    forall a, b :: 0 <= a < b < |order| ==> Due(due, order[a]) <= Due(due, order[b])
  }

  /** Where a walk from the tail comes to rest: after the last entry due no later than `t`. */
  function Place(order: seq<nat>, due: seq<int>, t: int): (k: nat)
    ensures k <= |order|
  {
    if order == [] || Due(due, order[|order| - 1]) <= t then |order|
    else Place(order[..|order| - 1], due, t)
  }

  lemma {:induction false} PlaceOk(order: seq<nat>, due: seq<int>, t: int)
    ensures var k := Place(order, due, t);
            && (k == 0 || Due(due, order[k - 1]) <= t)
            && (forall i :: k <= i < |order| ==> t < Due(due, order[i]))
  {
    if order != [] && Due(due, order[|order| - 1]) > t {
      var init := order[..|order| - 1];
      PlaceOk(init, due, t);
      assert forall i :: 0 <= i < |init| ==> init[i] == order[i];
    }
  }

  lemma PlaceUnique(order: seq<nat>, due: seq<int>, t: int, k: nat)
    requires k <= |order|
    requires k == 0 || Due(due, order[k - 1]) <= t
    requires forall i :: k <= i < |order| ==> t < Due(due, order[i])
    ensures Place(order, due, t) == k
  {
    PlaceOk(order, due, t);
  }

  /** `order` with `x`, due at `t`, put in its place. */
  function Inserted(order: seq<nat>, due: seq<int>, x: nat, t: int): seq<nat> {
    var k := Place(order, due, t);
    order[..k] + [x] + order[k..]
  }

  /** Re-timing `x` keeps the order ascending, provided the others ascend. */
  lemma InsertedAscends(order: seq<nat>, due: seq<int>, x: nat, t: int)
    requires Ascending(order, due) && x !in order && x < |due|
    ensures Ascending(Inserted(order, due, x, t), due[x := t])
  {
    var k := Place(order, due, t);
    PlaceOk(order, due, t);
    assert forall i :: 0 <= i < |order| ==> order[i] in order;
    SplicedAscends(order, due, k, x, t, Spliced(order, k, x));
  }

  lemma SplicedAscends(order: seq<nat>, due: seq<int>, k: nat, x: nat, t: int, c: seq<nat>)
    requires Ascending(order, due) && x < |due| && k <= |order|
    requires forall i :: 0 <= i < |order| ==> order[i] != x
    requires k == 0 || Due(due, order[k - 1]) <= t
    requires forall i :: k <= i < |order| ==> t < Due(due, order[i])
    requires |c| == |order| + 1
    requires forall i {:trigger c[i]} :: 0 <= i < |c| ==>
               c[i] == if i < k then order[i] else if i == k then x else order[i - 1]
    ensures Ascending(c, due[x := t])
  {
    assert forall i :: 0 <= i < k ==> Due(due, order[i]) <= t;
  }

  lemma WithoutAscends(order: seq<nat>, due: seq<int>, x: nat)
    requires Ascending(order, due) && Distinct(order)
    ensures Ascending(Without(order, x), due)
  {
    if x in order {
      var k :| 0 <= k < |order| && order[k] == x;
      WithoutAt(order, k);
    } else {
      WithoutMembers(order, x);
    }
  }

  lemma InsertedMembers(order: seq<nat>, due: seq<int>, x: nat, t: int)
    ensures forall y :: y in Inserted(order, due, x, t) <==> y == x || y in order
  {
    var k := Place(order, due, t);
    assert order == order[..k] + order[k..];
  }

  lemma InsertedDistinct(order: seq<nat>, due: seq<int>, x: nat, t: int)
    requires Distinct(order) && x !in order
    ensures Distinct(Inserted(order, due, x, t))
  {
    assert forall i :: 0 <= i < |order| ==> order[i] in order;
  }

  /** Where a link of each node leads. */
  type LinkMap = Node -> Node

  ghost function Relinked(links: LinkMap, node: Node, target: Node): LinkMap {
    n => if n == node then target else links(n)
  }

  /** Going `next` leads once round the ring and back; whoever is not on it leads to itself. */
  ghost predicate Forward(ring: seq<Node>, on: set<Node>, all: set<Node>, next: LinkMap) {
    && |ring| > 0
    && (forall j, k :: 0 <= j < k < |ring| ==> ring[j] != ring[k])
    && (forall k :: 0 <= k < |ring| ==> ring[k] in on)
    && (forall k :: 0 <= k < |ring| - 1 ==> next(ring[k]) == ring[k + 1])
    && next(ring[|ring| - 1]) == ring[0]
    && (forall n {:trigger next(n)} :: n in all && n !in on ==> next(n) == n)
  }

  ghost predicate Backward(ring: seq<Node>, on: set<Node>, all: set<Node>, prev: LinkMap) {
    && |ring| > 0
    && (forall j, k :: 0 <= j < k < |ring| ==> ring[j] != ring[k])
    && (forall k :: 0 <= k < |ring| ==> ring[k] in on)
    && (forall k :: 0 < k < |ring| ==> prev(ring[k]) == ring[k - 1])
    && prev(ring[0]) == ring[|ring| - 1]
    && (forall n {:trigger prev(n)} :: n in all && n !in on ==> prev(n) == n)
  }

  lemma CutForward(ring: seq<Node>, on: set<Node>, all: set<Node>, next: LinkMap, k: nat, c: seq<Node>)
    requires Forward(ring, on, all, next) && 0 < k < |ring|
    requires |c| == |ring| - 1 && forall i {:trigger c[i]} :: 0 <= i < |c| ==> c[i] == ring[if i < k then i else i + 1]
    ensures Forward(c, on - {ring[k]}, all, Relinked(Relinked(next, ring[k - 1], next(ring[k])), ring[k], ring[k]))
  {
  }

  lemma CutBackward(ring: seq<Node>, on: set<Node>, all: set<Node>, prev: LinkMap, k: nat, after: Node, c: seq<Node>)
    requires Backward(ring, on, all, prev) && 0 < k < |ring|
    requires after == if k + 1 < |ring| then ring[k + 1] else ring[0]
    requires |c| == |ring| - 1 && forall i {:trigger c[i]} :: 0 <= i < |c| ==> c[i] == ring[if i < k then i else i + 1]
    ensures Backward(c, on - {ring[k]}, all, Relinked(Relinked(prev, after, prev(ring[k])), ring[k], ring[k]))
  {
  }

  lemma SpliceForward(ring: seq<Node>, on: set<Node>, all: set<Node>, next: LinkMap,
                      k: nat, node: Node, after: Node, c: seq<Node>)
    requires Forward(ring, on, all, next) && node in all && node !in on && 0 < k <= |ring|
    requires after == if k < |ring| then ring[k] else ring[0]
    requires |c| == |ring| + 1
    requires forall i {:trigger c[i]} :: 0 <= i < |c| ==>
               c[i] == if i < k then ring[i] else if i == k then node else ring[i - 1]
    ensures Forward(c, on + {node}, all, Relinked(Relinked(next, node, after), ring[k - 1], node))
  {
  }

  lemma SpliceBackward(ring: seq<Node>, on: set<Node>, all: set<Node>, prev: LinkMap,
                       k: nat, node: Node, after: Node, c: seq<Node>)
    requires Backward(ring, on, all, prev) && node in all && node !in on && 0 < k <= |ring|
    requires after == if k < |ring| then ring[k] else ring[0]
    requires |c| == |ring| + 1
    requires forall i {:trigger c[i]} :: 0 <= i < |c| ==>
               c[i] == if i < k then ring[i] else if i == k then node else ring[i - 1]
    ensures Backward(c, on + {node}, all, Relinked(Relinked(prev, node, ring[k - 1]), after, node))
  {
  }

  /** Behind the root, the ring holds the nodes of the slots in `order`. */
  ghost predicate Shape(order: seq<nat>, ring: seq<Node>, nodes: seq<Node>) {
    && |ring| == |order| + 1
    && (forall k {:trigger order[k]} :: 0 <= k < |order| ==> order[k] < |nodes| && ring[k + 1] == nodes[order[k]])
  }

  lemma ShapeCut(order: seq<nat>, ring: seq<Node>, nodes: seq<Node>, j: nat)
    requires Shape(order, ring, nodes) && j < |order|
    ensures Shape(Cut(order, j), Cut(ring, j + 1), nodes)
  {}

  lemma ShapeSpliced(order: seq<nat>, ring: seq<Node>, nodes: seq<Node>, x: nat, k: nat)
    requires Shape(order, ring, nodes) && k <= |order| && x < |nodes|
    ensures Shape(Spliced(order, k, x), Spliced(ring, k + 1, nodes[x]), nodes)
  {}

  /** Updating a timer leaves the others in the order they had. */
  lemma UpdateKeepsOthers(order: seq<nat>, due: seq<int>, x: nat, t: int)
    requires x !in order
    ensures Without(Inserted(order, due, x, t), x) == order
  {
    SplitWithout(order, Place(order, due, t), x);
  }

  lemma SplitWithout(order: seq<nat>, k: nat, x: nat)
    requires x !in order && k <= |order|
    ensures Without(order[..k] + [x] + order[k..], x) == order
  {
    WithoutConcat(order[..k] + [x], order[k..], x);
    WithoutConcat(order[..k], [x], x);
    WithoutMembers(order[..k], x);
    WithoutMembers(order[k..], x);
    assert order[..k] + order[k..] == order;
  }

  /** The slot found first is due no later than any other on the list. */
  lemma OldestIsMinimum(order: seq<nat>, due: seq<int>, x: nat)
    requires Ascending(order, due) && x in order
    ensures Due(due, order[0]) <= Due(due, x)
  {
    var k :| 0 <= k < |order| && order[k] == x;
    if k > 0 { assert Due(due, order[0]) <= Due(due, order[k]); }
  }

  /** What there is to say of a timer list: how its nodes are linked, and what their times are. */
  datatype Aspect = Links | Times

  class TimerList {
    const root: Node
    const nodes: seq<Node>
    /** The slots on the list, from the root on, and when every slot is due. */
    ghost var order: seq<nat>
    ghost var due: seq<int>
    /** The nodes met on one way round from the root; where all links lead. */
    ghost var ring: seq<Node>
    ghost var on: set<Node>
    ghost var next: LinkMap
    ghost var prev: LinkMap
    ghost const Nodes: set<Node>
    ghost const Repr: set<object>

    /** `next` and `prev` say where the links of the nodes lead. */
    ghost predicate Mirrored()
      reads this, Nodes
    {
      && (forall n {:trigger n.next} :: n in Nodes ==> n.next == next(n))
      && (forall n {:trigger n.prev} :: n in Nodes ==> n.prev == prev(n))
    }

    ghost predicate Linked()
      reads this, Nodes
    {
      && Mirrored() && on <= Nodes
      && Forward(ring, on, Nodes, next) && Backward(ring, on, Nodes, prev) && ring[0] == root
    }

    ghost predicate Timed()
      reads this, Nodes
    {
      && Repr == Nodes + {this}
      && (forall i :: 0 <= i < |nodes| ==> nodes[i] in Nodes && nodes[i].slot == i)
      && (forall i :: 0 <= i < |nodes| && nodes[i] in on ==> i in order)
      && |due| == |nodes|
      && (forall i :: 0 <= i < |nodes| ==> due[i] == nodes[i].lastUpdate + nodes[i].delay)
      && Distinct(order) && Shape(order, ring, nodes) && Ascending(order, due)
    }

    ghost predicate Holds(a: Aspect)
      reads this, Nodes
    {
      match a
      case Links => Linked()
      case Times => Timed()
    }

    ghost predicate Valid()
      reads this, Nodes
      ensures Valid() ==> Repr == Nodes + {this} && |due| == |nodes| && |ring| == |order| + 1
      ensures Valid() ==> forall i {:trigger nodes[i]} :: 0 <= i < |nodes| ==> nodes[i] in Nodes
    {
      assert Holds(Times) ==> Timed();
      forall a: Aspect {:trigger Holds(a)} :: Holds(a)
    }

    constructor (size: nat)
      ensures Valid() && fresh(Repr)
      ensures |nodes| == size && order == [] && due == seq(size, _ => 0)
    {
      var r := new Node(size);
      var ns: seq<Node> := [];
      while |ns| < size
        invariant |ns| <= size
        invariant fresh(r) && r.next == r && r.prev == r
        invariant forall i :: 0 <= i < |ns| ==> fresh(ns[i]) && ns[i] != r && ns[i].slot == i
        invariant forall i :: 0 <= i < |ns| ==> ns[i].next == ns[i] && ns[i].prev == ns[i]
        invariant forall i :: 0 <= i < |ns| ==> ns[i].lastUpdate == 0 && ns[i].delay == 0
      {
        var n := new Node(|ns|);
        ns := ns + [n];
      }
      ghost var all := {r} + set i | 0 <= i < |ns| :: ns[i];
      root, nodes, ring, on, order, due := r, ns, [r], {r}, [], seq(size, _ => 0);
      next, prev := n => n, n => n;
      Nodes := all;
      Repr := all + {this};
    }

    lemma Neighbours(k: nat)
      requires Linked() && k < |ring|
      ensures next(ring[k]) == if k + 1 < |ring| then ring[k + 1] else ring[0]
      ensures prev(ring[k]) == if k > 0 then ring[k - 1] else ring[|ring| - 1]
      ensures next(ring[k]) in Nodes && prev(ring[k]) in Nodes && prev(next(ring[k])) == ring[k]
    {
      var after := if k + 1 < |ring| then ring[k + 1] else ring[0];
      var before := if k > 0 then ring[k - 1] else ring[|ring| - 1];
      assert next(ring[k]) == after && prev(ring[k]) == before;
      assert after in on && before in on;
    }

    /** Where slot `i` stands on the ring, and the order without it. */
    lemma Find(i: nat) returns (k: nat)
      requires Timed() && |ring| > 0 && i < |nodes|
      ensures k < |ring| && if k == 0 then nodes[i] !in on && i !in order else ring[k] == nodes[i]
      ensures Distinct(Without(order, i)) && Ascending(Without(order, i), due)
      ensures Without(order, i) == if k == 0 then order else Cut(order, k - 1)
      ensures Shape(Without(order, i), if k == 0 then ring else Cut(ring, k), nodes)
      ensures forall x :: x in Without(order, i) <==> x in order && x != i
    {
      WithoutMembers(order, i);
      WithoutDistinct(order, i);
      WithoutAscends(order, due, i);
      if i in order {
        var j :| 0 <= j < |order| && order[j] == i;
        WithoutAt(order, j);
        ShapeCut(order, ring, nodes, j);
        k := j + 1;
      } else {
        k := 0;
      }
    }

    method DetachNode(node: Node)
      requires Mirrored() && node in Nodes && prev(node) in Nodes && next(node) in Nodes
      modifies this`next, this`prev, Nodes`next, Nodes`prev
      ensures Mirrored()
      ensures next == Relinked(Relinked(old(next), old(prev)(node), old(next)(node)), node, node)
      ensures prev == Relinked(Relinked(old(prev), old(next)(node), old(prev)(node)), node, node)
    {
      ghost var before, after := prev(node), next(node);
      node.Detach();
      next := Relinked(Relinked(next, before, after), node, node);
      prev := Relinked(Relinked(prev, after, before), node, node);
    }

    method InsertNode(node: Node, after: Node)
      requires Mirrored() && node in Nodes && after in Nodes && prev(after) in Nodes
      requires after != node && prev(after) != node
      modifies this`next, this`prev, Nodes`next, Nodes`prev
      ensures Mirrored()
      ensures next == Relinked(Relinked(old(next), node, after), old(prev)(after), node)
      ensures prev == Relinked(Relinked(old(prev), node, old(prev)(after)), after, node)
    {
      ghost var before := prev(after);
      node.InsertBefore(after);
      next := Relinked(Relinked(next, node, after), before, node);
      prev := Relinked(Relinked(prev, node, before), after, node);
    }

    /** The links once `node` is taken off the ring, which then is c. */
    lemma Unlinkable(node: Node, k: nat, c: seq<Node>)
      requires Linked() && node in Nodes && k < |ring|
      requires if k == 0 then node !in on && c == ring else ring[k] == node && c == Cut(ring, k)
      ensures next(node) in Nodes && prev(node) in Nodes && c[0] == root
      ensures Forward(c, on - {node}, Nodes, Relinked(Relinked(next, prev(node), next(node)), node, node))
      ensures Backward(c, on - {node}, Nodes, Relinked(Relinked(prev, next(node), prev(node)), node, node))
    {
      if k == 0 {
        assert next(node) == node && prev(node) == node;
      } else {
        Neighbours(k);
        CutForward(ring, on, Nodes, next, k, c);
        CutBackward(ring, on, Nodes, prev, k, next(node), c);
      }
    }

    /** Takes a node off the ring, at position k; k is 0 when it is on no ring. */
    method Unlink(node: Node, ghost k: nat)
      requires Linked() && node in Nodes && k < |ring|
      requires if k == 0 then node !in on else ring[k] == node
      modifies this`ring, this`on, this`next, this`prev, Nodes`next, Nodes`prev
      ensures Linked() && on == old(on) - {node}
      ensures ring == if k == 0 then old(ring) else Cut(old(ring), k)
    {
      ghost var c := if k == 0 then ring else Cut(ring, k);
      Unlinkable(node, k, c);
      DetachNode(node);
      ring, on := c, on - {node};
    }

    /** Puts a lone node on the ring, behind position k. */
    method Link(node: Node, after: Node, ghost k: nat)
      requires Linked() && node in Nodes && node !in on && k < |ring| && after == next(ring[k])
      modifies this`ring, this`on, this`next, this`prev, Nodes`next, Nodes`prev
      ensures Linked() && on == old(on) + {node}
      ensures ring == Spliced(old(ring), k + 1, node)
    {
      ghost var c := Spliced(ring, k + 1, node);
      Neighbours(k);
      SpliceForward(ring, on, Nodes, next, k + 1, node, after, c);
      SpliceBackward(ring, on, Nodes, prev, k + 1, node, after, c);
      InsertNode(node, after);
      ring, on := c, on + {node};
    }

    /** Takes slot `i` off the list, if it is on it. */
    method Detach(i: nat)
      requires Valid() && i < |nodes|
      modifies this`order, this`ring, this`on, this`next, this`prev, Nodes`next, Nodes`prev
      ensures Valid()
      ensures order == Without(old(order), i)
      ensures on == old(on) - {nodes[i]}
    {
      assert Holds(Links) && Holds(Times);
      ghost var k := Find(i);
      ghost var rest := Without(order, i);
      Unlink(nodes[i], k);
      Shorten(rest);
    }

    /** The nodes on the ring being those of `rest`, that is the order now. */
    ghost method Shorten(rest: seq<nat>)
      requires Linked() && Repr == Nodes + {this} && |due| == |nodes|
      requires forall i {:trigger nodes[i]} :: 0 <= i < |nodes| ==> nodes[i] in Nodes && nodes[i].slot == i
      requires forall i {:trigger nodes[i]} :: 0 <= i < |nodes| && nodes[i] in on ==> i in rest
      requires forall i {:trigger due[i]} :: 0 <= i < |nodes| ==> due[i] == nodes[i].lastUpdate + nodes[i].delay
      requires Distinct(rest) && Shape(rest, ring, nodes) && Ascending(rest, due)
      modifies this`order
      ensures Valid() && order == rest
    {
      order := rest;
      assert Timed();
    }

    /** Writes the new time of a slot that is not on the list. */
    method Stamp(node: Node, now: int, delay: int, ghost i: nat)
      requires Valid() && i < |nodes| && node == nodes[i] && i !in order
      modifies this`due, node`lastUpdate, node`delay
      ensures Valid() && due == old(due)[i := now + delay]
      ensures node.lastUpdate + node.delay == due[i]
    {
      assert Holds(Links) && Holds(Times);
      node.lastUpdate, node.delay := now, delay;
      assert forall k :: 0 <= k < |order| ==> order[k] in order;
      due := due[i := now + delay];
    }

    /** The walk back from the tail, to the first entry that is not due later than `ourExp`. */
    method Walk(ourExp: int) returns (current: Node, ghost k: nat)
      requires Valid()
      ensures k < |ring| && current == ring[k]
      ensures k == Place(order, due, ourExp)
    {
      assert Holds(Links) && Holds(Times);
      Neighbours(0);
      current := root.prev;
      k := |order|;
      while current != root
        invariant 0 <= k < |ring| && current == ring[k]
        invariant forall j :: k <= j < |order| ==> ourExp < Due(due, order[j])
        decreases k
      {
        Neighbours(k);
        assert current == nodes[order[k - 1]];
        if current.Expiration() <= ourExp { break; }
        current := current.prev;
        k := k - 1;
      }
      PlaceUnique(order, due, ourExp, k);
    }

    /** Putting slot `i` behind position k of the ring puts it in its place. */
    lemma Placed(i: nat, k: nat)
      requires Valid() && i < |nodes| && i !in order && k == Place(order, due, due[i])
      ensures Distinct(Spliced(order, k, i)) && Ascending(Spliced(order, k, i), due)
      ensures Shape(Spliced(order, k, i), Spliced(ring, k + 1, nodes[i]), nodes)
      ensures forall x :: x in order || x == i ==> x in Spliced(order, k, i)
      ensures nodes[i] !in on
    {
      assert Holds(Links) && Holds(Times);
      assert due[i := due[i]] == due;
      InsertedAscends(order, due, i, due[i]);
      InsertedDistinct(order, due, i, due[i]);
      InsertedMembers(order, due, i, due[i]);
      ShapeSpliced(order, ring, nodes, i, k);
    }

    method Attach(i: nat, after: Node, ghost k: nat)
      requires Valid() && i < |nodes| && i !in order && k == Place(order, due, due[i]) && after == ring[k].next
      modifies this`order, this`ring, this`on, this`next, this`prev, Nodes`next, Nodes`prev
      ensures Valid() && order == Spliced(old(order), k, i)
    {
      assert Holds(Links) && Holds(Times);
      Placed(i, k);
      ghost var c := Spliced(order, k, i);
      Link(nodes[i], after, k);
      order := c;
    }

    /** Gives slot `i` a new time and moves it to its place. */
    method Update(i: nat, now: int, delay: int)
      requires Valid() && i < |nodes|
      modifies Repr
      ensures Valid()
      ensures due == old(due)[i := now + delay]
      ensures order == Inserted(Without(old(order), i), due, i, now + delay)
    {
      WithoutMembers(order, i);
      Detach(i);
      Stamp(nodes[i], now, delay, i);
      var ourExp := nodes[i].Expiration();
      var current, k := Walk(ourExp);
      Attach(i, current.next, k);
    }

    /** The slot due first, if any slot is on the list. */
    method Oldest() returns (r: Option<nat>)
      requires Valid()
      ensures r == if order == [] then None else Some(order[0])
    {
      assert Holds(Links) && Holds(Times);
      var tmp := root.next;
      r := if tmp != root then Some(tmp.slot) else None;
    }
  }
}

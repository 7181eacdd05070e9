/** The intrusive doubly linked lists of src/dllist.c. */
module DList {
  import opened Sequences

  class Node<T> {
    var data: T
    var prev: Node?<T>
    var next: Node?<T>

    constructor (data: T)
      ensures this.data == data && prev == null && next == null
    {
      this.data := data;
      prev := null;
      next := null;
    }
  }

  /** A sequence free of duplicates without its element at `k`. */
  ghost function Cut<T>(s: seq<T>, k: nat): (r: seq<T>)
    requires NoDup(s) && k < |s|
    ensures NoDup(r) && |r| == |s| - 1 && s[k] !in r
    ensures forall j :: 0 <= j < k ==> r[j] == s[j]
    ensures forall j {:trigger r[j]} :: k <= j < |r| ==> r[j] == s[j + 1]
  {
    s[..k] + s[k + 1..]
  }

  /** In such a sequence `s[k]` stands nowhere else. */
  lemma OnlyAt<T>(s: seq<T>, k: nat)
    requires NoDup(s) && k < |s|
    ensures forall j :: 0 <= j < |s| && j != k ==> s[j] != s[k]
  {
  }

  class DList<T> {
    var head: Node?<T>
    var tail: Node?<T>
    var count: int
    ghost var nodes: seq<Node<T>>

    /** The links spell out `nodes`, in both directions. */
    ghost predicate Valid()
      reads this`head, this`tail, this`count, this`nodes, nodes`prev, nodes`next
    {
      && NoDup(nodes)
      && count == |nodes|
      && (nodes == [] ==> head == null && tail == null)
      && (nodes != [] ==> head == nodes[0] && tail == nodes[|nodes| - 1] && head.prev == null && tail.next == null)
      && (forall k {:trigger nodes[k].prev} :: 1 <= k < |nodes| ==> nodes[k].prev == nodes[k - 1])
      && (forall k {:trigger nodes[k].next} :: 0 <= k < |nodes| - 1 ==> nodes[k].next == nodes[k + 1])
    }

    constructor ()
      ensures Valid() && nodes == []
    {
      head := null;
      tail := null;
      count := 0;
      nodes := [];
    }

    method AppendNode(node: Node<T>)
      requires Valid() && node !in nodes
      modifies this, nodes, node`prev, node`next
      ensures Valid() && nodes == old(nodes) + [node]
      ensures forall n :: n in old(nodes) ==> n.data == old(n.data)
    {
      if tail == null {
        node.prev := null;
        node.next := null;
        head := node;
        tail := node;
      } else {
        node.prev := tail;
        node.next := null;
        tail.next := node;
        tail := node;
      }
      count := count + 1;
      nodes := nodes + [node];
    }

    /** Takes `node` out, wherever it stands; `k` is where it stood. */
    method DeleteNode(node: Node<T>) returns (ghost k: nat)
      requires Valid() && node in nodes
      modifies this, nodes
      ensures Valid()
      ensures k < |old(nodes)| && old(nodes)[k] == node && nodes == old(nodes)[..k] + old(nodes)[k + 1..]
      ensures node.prev == null && node.next == null
      ensures forall n :: n in old(nodes) ==> n.data == old(n.data)
    {
      k :| 0 <= k < |nodes| && nodes[k] == node;
      ghost var was := nodes;
      nodes := Cut(was, k);
      OnlyAt(was, k);
      if k > 0 { OnlyAt(was, k - 1); }
      if k < |was| - 1 { OnlyAt(was, k + 1); }
      hide NoDup;
      if node == head {
        assert k == 0;
        if head.next != null {
          assert |was| > 1;
          head := head.next;
          head.prev := null;
        } else {
          head := null;
          tail := null;
        }
        node.next := null;
      } else if node == tail {
        assert k == |was| - 1;
        tail := tail.prev;
        tail.next := null;
        node.prev := null;
      } else {
        assert was[k - 1] == node.prev && was[k + 1] == node.next;
        node.prev.next := node.next;
        node.next.prev := node.prev;
        node.prev := null;
        node.next := null;
      }
      count := count - 1;
    }

    /** What the nodes hold, in order. */
    ghost function Contents(): (r: seq<T>)
      reads this, nodes
      ensures |r| == |nodes| && forall k :: 0 <= k < |r| ==> r[k] == nodes[k].data
    {
      seq(|nodes|, k requires 0 <= k < |nodes| reads this, nodes => nodes[k].data)
    }

    /**
     `dllistVisit`: the handler is called with index, element and argument from the head on, until it answers with
     zero; it may change what its argument points to. Comes back with the node at which it stopped.
     */
    method Visit<A>(handler: (nat, T, A) -> (bool, A), arg: A) returns (found: Node?<T>, res: A)
      requires Valid()
      ensures var (k, last) := Walk(handler, Contents(), 0, arg);
        res == last && found == if k < |nodes| then nodes[k] else null
    {
      found, res := head, arg;
      var idx := 0;
      while found != null
        invariant 0 <= idx <= |nodes|
        invariant if idx < |nodes| then found == nodes[idx] else found == null
        invariant Walk(handler, Contents(), idx, res) == Walk(handler, Contents(), 0, arg)
        decreases |nodes| - idx
      {
        var (goOn, changed) := handler(idx, found.data, res);
        res := changed;
        if !goOn {
          return;
        }
        found := found.next;
        idx := idx + 1;
      }
    }
  }

  /** Where a visit from index `i` on stops, or the length, and the argument as the handler leaves it. */
  function Walk<T, A>(handler: (nat, T, A) -> (bool, A), s: seq<T>, i: nat, arg: A): (nat, A)
    requires i <= |s|
    decreases |s| - i
  {
    if i == |s| then (i, arg)
    else
      var (goOn, changed) := handler(i, s[i], arg);
      if goOn then Walk(handler, s, i + 1, changed) else (i, changed)
  }

  /** A handler that only tests stops the visit at the first element that fails the test. */
  lemma {:induction false} WalkFindsFirst<T>(test: T -> bool, s: seq<T>, i: nat)
    requires i <= |s|
    ensures var k := Walk((n, x, arg) => (test(x), arg), s, i, ()).0;
      i <= k <= |s| && (forall j :: i <= j < k ==> test(s[j])) && (k < |s| ==> !test(s[k]))
    decreases |s| - i
  {
    if i < |s| && test(s[i]) {
      WalkFindsFirst(test, s, i + 1);
    }
  }

  /** A node migrates from one list to the end of another; `k` is where it stood. */
  method MvNode<T>(a: DList<T>, node: Node<T>, b: DList<T>) returns (ghost k: nat)
    requires a != b && a.Valid() && b.Valid() && node in a.nodes
    requires forall j :: 0 <= j < |b.nodes| ==> b.nodes[j] !in a.nodes
    modifies a, b, a.nodes, b.nodes
    ensures a.Valid() && b.Valid()
    ensures k < |old(a.nodes)| && old(a.nodes)[k] == node && a.nodes == old(a.nodes)[..k] + old(a.nodes)[k + 1..]
    ensures b.nodes == old(b.nodes) + [node]
    ensures forall n :: n in old(a.nodes) || n in old(b.nodes) ==> n.data == old(n.data)
  {
    k := a.DeleteNode(node);
    assert forall j :: 0 <= j < |a.nodes| ==> a.nodes[j] != node;
    b.AppendNode(node);
  }
}

/** The list of recipients, src/rcpt.c: nodes linked forwards, each holding where an address starts. */
module Recipients {

  class Rcpt {
    var email: nat
    var next: Rcpt?

    constructor (email: nat)
      ensures this.email == email && next == null
    {
      this.email := email;
      next := null;
    }
  }

  ghost function NodeAt(nodes: seq<Rcpt>, k: nat): Rcpt? {
    if k < |nodes| then nodes[k] else null
  }

  /** The variable that `newTo` is given the address of. */
  class ToList {
    var head: Rcpt?
    ghost var nodes: seq<Rcpt>

    constructor ()
      ensures Valid() && nodes == []
    {
      head := null;
      nodes := [];
    }

    ghost predicate Valid()
      reads this, nodes
    {
      && head == NodeAt(nodes, 0)
      && forall k :: 0 <= k < |nodes| ==> nodes[k].next == NodeAt(nodes, k + 1)
    }

    ghost function Emails(): (r: seq<nat>)
      reads this, nodes
      ensures |r| == |nodes|
    {
      seq(|nodes|, k requires 0 <= k < |nodes| reads this, nodes => nodes[k].email)
    }

    /** `newTo`: walks to the last node and hangs a new one behind it. */
    method NewTo(email: nat)
      requires Valid()
      modifies this, nodes
      ensures Valid()
      ensures |nodes| == |old(nodes)| + 1 && nodes[..|old(nodes)|] == old(nodes)
      ensures fresh(nodes[|old(nodes)|])
      ensures Emails() == old(Emails()) + [email]
    {
      var node := new Rcpt(email);
      assert Valid();
      if head == null {
        head := node;
      } else {
        var to: Rcpt := head;
        ghost var k := 0;
        while to.next != null
          invariant 0 <= k < |nodes| && to == nodes[k]
          decreases |nodes| - k
        {
          assert nodes[k].next != null;
          to := to.next;
          k := k + 1;
        }
        assert forall j :: 0 <= j < k ==> nodes[j].next != null;
        to.next := node;
      }
      nodes := nodes + [node];
    }
  }
}

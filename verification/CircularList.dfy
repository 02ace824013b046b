/** The circular singly linked list of the kernel: a list is a pointer to its last node, whose
    link leads to the first. The sort rewrites the links in place. */
module CircularList {
  import opened Sequences

  class Node {
    var next: Node?

    constructor ()
      ensures next == null
    {
      next := null;
    }
  }

  /** Each node links to the one after it, the last one to the first. */
  ghost predicate Ring(s: seq<Node>)
    reads s
  {
    forall i :: 0 <= i < |s| ==> s[i].next == s[if i + 1 < |s| then i + 1 else 0]
  }

  /** The ring without one node, once the node before it links to the one behind. */
  lemma RingWithout(s: seq<Node>, k: nat)
    requires 0 < k < |s| && s[k - 1].next == s[if k + 1 < |s| then k + 1 else 0]
    requires forall i :: 0 <= i < |s| && i != k - 1 ==> s[i].next == s[if i + 1 < |s| then i + 1 else 0]
    ensures Ring(Without(s, k))
  {
    var r := Without(s, k);
    forall i | 0 <= i < |r| ensures r[i].next == r[if i + 1 < |r| then i + 1 else 0] {
      assert r[i] == s[if i < k then i else i + 1];
    }
  }

  class List {
    var next: Node?
    ghost var nodes: seq<Node>

    ghost predicate Valid()
      reads this, nodes
    {
      && Distinct(nodes) && Ring(nodes)
      && next == if nodes == [] then null else nodes[|nodes| - 1]
    }

    constructor ()
      ensures Valid() && nodes == []
    {
      next, nodes := null, [];
    }

    method RPush(node: Node)
      requires Valid() && node !in nodes
      modifies this, nodes, node
      ensures Valid() && nodes == old(nodes) + [node]
    {
      if next != null {
        node.next := next.next;
        next.next := node;
      } else {
        node.next := node;
      }
      next := node;
      nodes := nodes + [node];
    }

    method LPush(node: Node)
      requires Valid() && node !in nodes
      modifies this, nodes, node
      ensures Valid() && nodes == [node] + old(nodes)
    {
      if next != null {
        node.next := next.next;
        next.next := node;
      } else {
        node.next := node;
        next := node;
      }
      nodes := [node] + nodes;
    }

    method LPop() returns (first: Node?)
      requires Valid()
      modifies this, nodes
      ensures Valid()
      ensures if old(nodes) == [] then first == null && nodes == []
              else first == old(nodes)[0] && nodes == old(nodes)[1..]
    {
      if next == null {
        return null;
      }
      ghost var z := |nodes| - 1;
      assert nodes[z].next == nodes[0];
      first := next.next;
      assert z > 0 ==> nodes[0] != nodes[z] && nodes[0].next == nodes[1];
      if next == first {
        next := null;
      } else {
        next.next := first.next;
      }
      nodes := nodes[1..];
    }

    /** Advances the list: the first node becomes the last. */
    method LPopRPush()
      requires Valid()
      modifies this
      ensures Valid()
      ensures nodes == if old(nodes) == [] then [] else old(nodes)[1..] + [old(nodes)[0]]
    {
      if next != null {
        next := next.next;
        nodes := nodes[1..] + [nodes[0]];
      }
    }

    method LPeek() returns (first: Node?)
      requires Valid()
      ensures first == if nodes == [] then null else nodes[0]
    {
      first := if next != null then next.next else null;
    }

    method RPop() returns (last: Node?)
      requires Valid()
      modifies this, nodes
      ensures Valid()
      ensures if old(nodes) == [] then last == null && nodes == []
              else last == old(nodes)[|old(nodes)| - 1] && nodes == old(nodes)[..|old(nodes)| - 1]
    {
      if next == null {
        return null;
      }
      var end := next;
      ghost var s, k := nodes, 0;
      while next.next != end
        invariant Valid() && k < |s| && nodes == Rotated(s, k) && end == s[|s| - 1]
        decreases |s| - k
      {
        assert nodes[|nodes| - 1].next == nodes[0];
        RotateOnce(s, k);
        LPopRPush();
        k := k + 1;
      }
      assert nodes[|nodes| - 1].next == nodes[0];
      assert k == |s| - 1;
      last := LPop();
    }

    /** The node before `node`, the last one before the first; NULL when `node` is not on the list. */
    method FindBefore(node: Node) returns (pos: Node?, ghost k: nat)
      requires Valid()
      ensures node !in nodes ==> pos == null
      ensures node in nodes ==> k < |nodes| && nodes[k] == node
      ensures node in nodes ==> pos != null && pos == nodes[if k == 0 then |nodes| - 1 else k - 1]
    {
      pos, k := next, 0;
      if pos == null {
        return;
      }
      ghost var i, z := -1, |nodes| - 1;
      while true
        invariant -1 <= i < z && pos == nodes[if i < 0 then z else i]
        invariant forall j :: 1 <= j <= i + 1 ==> nodes[j] != node
        decreases z - i
      {
        assert nodes[if i < 0 then z else i].next == nodes[i + 1];
        pos := pos.next;
        i := i + 1;
        assert nodes[i].next == nodes[if i + 1 <= z then i + 1 else 0];
        if pos.next == node {
          k := if i + 1 <= z then i + 1 else 0;
          return;
        }
        if pos == next {
          assert i == z;
          break;
        }
      }
      assert forall j :: 0 <= j <= z ==> nodes[j] != node;
      pos := null;
    }

    /** Takes the node behind `before` off the list. */
    method Bypass(before: Node, node: Node, ghost k: nat)
      requires Valid() && 0 < k < |nodes| && node == nodes[k] && before == nodes[k - 1]
      modifies this, nodes
      ensures Valid() && nodes == Without(old(nodes), k)
    {
      ghost var s := nodes;
      assert before.next == node && node.next == s[if k + 1 < |s| then k + 1 else 0];
      before.next := before.next.next;
      if node == next {
        next := before;
      }
      nodes := Without(s, k);
      RingWithout(s, k);
    }

    /** Takes `node` off the list, wherever it is. */
    method Remove(node: Node) returns (r: Node?, ghost k: nat)
      requires Valid()
      modifies this, nodes
      ensures Valid()
      ensures node !in old(nodes) ==> r == null && nodes == old(nodes)
      ensures node in old(nodes) ==> r == node && k < |old(nodes)| && old(nodes)[k] == node && nodes == Without(old(nodes), k)
    {
      k := 0;
      if next == null {
        return null, 0;
      }
      assert nodes[|nodes| - 1].next == nodes[0];
      if next.next == node {
        r := LPop();
        return;
      }
      var tmp;
      tmp, k := FindBefore(node);
      if tmp == null {
        return null, k;
      }
      Bypass(tmp, node, k);
      return node, k;
    }

    method Count() returns (n: nat)
      requires Valid()
      ensures n == |nodes|
    {
      var node := next;
      n := 0;
      if node == null {
        return;
      }
      ghost var z := |nodes| - 1;
      while true
        invariant n <= z && node == nodes[if n == 0 then z else n - 1]
        decreases |nodes| - n
      {
        assert nodes[if n == 0 then z else n - 1].next == nodes[n];
        node := node.next;
        n := n + 1;
        if node == next {
          assert n - 1 == z;
          break;
        }
      }
    }
  }
}

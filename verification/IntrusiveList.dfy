/**
  The intrusive doubly linked list of ulp/src/list.c.  `nodes` is the sequence the links spell.
  The list header is a pair of links of its own (`first`, `last`) and a count.
 */
module IntrusiveList {

  class ListNode {
    var next: ListNode?
    var prev: ListNode?

    constructor ()
      ensures next == null && prev == null
    {
      next, prev := null, null;
    }
  }

  function Without<T>(s: seq<T>, k: nat): seq<T>
    requires k < |s|
  {
    s[..k] + s[k + 1..]
  }

  lemma WithoutAt<T>(s: seq<T>, k: nat, i: nat)
    requires k < |s| && i < |s| - 1
    ensures |Without(s, k)| == |s| - 1 && Without(s, k)[i] == s[if i < k then i else i + 1]
  {
  }

  class List {
    var first: ListNode?
    var last: ListNode?
    var count: nat
    ghost var nodes: seq<ListNode>

    ghost predicate Valid()
      reads this, nodes
    {
      && count == |nodes|
      && (nodes == [] ==> first == null && last == null)
      && (nodes != [] ==> first == nodes[0] && last == nodes[|nodes| - 1]
                          && nodes[0].prev == null && nodes[|nodes| - 1].next == null)
      && (forall i {:trigger nodes[i].prev} :: 1 <= i < |nodes| ==> nodes[i].prev == nodes[i - 1])
      && (forall i {:trigger nodes[i].next} :: 0 <= i < |nodes| - 1 ==> nodes[i].next == nodes[i + 1])
      && (forall i, j :: 0 <= i < j < |nodes| ==> nodes[i] != nodes[j])
    }

    /** ListInit */
    constructor ()
      ensures Valid() && nodes == []
    {
      first, last, count, nodes := null, null, 0, [];
    }

    method PushTail(node: ListNode)
      requires Valid() && node !in nodes
      modifies this, node, last
      ensures Valid() && nodes == old(nodes) + [node]
    {
      if first == null || count == 0 || last == null {
        first, last := node, node;
        node.next, node.prev := null, null;
        count := 1;
        nodes := [node];
      } else {
        node.next := null;
        node.prev := last;
        last.next := node;
        last := node;
        count := count + 1;
        nodes := nodes + [node];
      }
    }

    method PushHead(node: ListNode)
      requires Valid() && node !in nodes
      modifies this, node, first
      ensures Valid() && nodes == [node] + old(nodes)
    {
      if first == null || count == 0 || last == null {
        first, last := node, node;
        node.next, node.prev := null, null;
        count := 1;
        nodes := [node];
      } else {
        node.prev := null;
        node.next := first;
        first.prev := node;
        first := node;
        count := count + 1;
        nodes := [node] + nodes;
      }
    }

    /** The links of a member tell where it stands; a node without neighbours is alone or foreign. */
    lemma Position(node: ListNode, k: nat)
      requires Valid() && k < |nodes| && nodes[k] == node
      ensures node.prev == null <==> k == 0
      ensures node.next == null <==> k == |nodes| - 1
      ensures k > 0 ==> node.prev == nodes[k - 1] && node.prev.next == node
      ensures k < |nodes| - 1 ==> node.next == nodes[k + 1] && node.next.prev == node
    {
    }

    method UnlinkLast()
      requires Valid() && |nodes| > 1
      modifies this, nodes
      ensures Valid() && nodes == Without(old(nodes), |old(nodes)| - 1)
      ensures old(last).next == null && old(last).prev == null
    {
      var node := last;
      last := node.prev;
      node.prev.next := null;
      count := count - 1;
      node.prev, node.next := null, null;
      nodes := Without(nodes, |nodes| - 1);
    }

    method UnlinkFirst()
      requires Valid() && |nodes| > 1
      modifies this, nodes
      ensures Valid() && nodes == Without(old(nodes), 0)
      ensures old(first).next == null && old(first).prev == null
    {
      var node := first;
      first := node.next;
      node.next.prev := null;
      count := count - 1;
      node.prev, node.next := null, null;
      nodes := Without(nodes, 0);
    }

    /** The neighbours of the node agree that it stands between them, in whichever list. */
    static predicate Amid(node: ListNode)
      reads node, node.next, node.prev
    {
      node.next != null && node.prev != null && node.next.prev == node && node.prev.next == node
    }

    /** A neighbour of a node that is no member is none either: its links would be in this list. */
    lemma ForeignNeighbours(node: ListNode)
      requires Valid() && node !in nodes && Amid(node)
      ensures node.next !in nodes && node.prev !in nodes
    {
      forall k | 0 <= k < |nodes| ensures nodes[k] != node.next && nodes[k] != node.prev {
        Position(nodes[k], k);
      }
    }

    /** This list as it was, but counting one node too few. */
    twostate predicate Miscounted()
      reads this, nodes
    {
      first == old(first) && last == old(last) && nodes == old(nodes) && unchanged(nodes) && count == |nodes| - 1
    }

    method UnlinkMiddle(node: ListNode)
      requires Valid() && |nodes| > 1 && Amid(node)
      modifies this, node, node.next, node.prev
      ensures node in old(nodes) ==>
                Valid() && exists k :: 0 <= k < |old(nodes)| && old(nodes)[k] == node && nodes == Without(old(nodes), k)
      ensures node !in old(nodes) ==> Miscounted()
      ensures node.next == null && node.prev == null
    {
      hide Bypassed, Without;
      ghost var k := 0;
      if node in nodes {
        k :| 0 <= k < |nodes| && nodes[k] == node;
        Position(node, k);
      } else {
        ForeignNeighbours(node);
      }
      Bypass(node, k);
      count := count - 1;
      if node in nodes {
        ghost var was := nodes;
        WithoutAt(was, k, 0);
        nodes := Without(nodes, k);
        Shorter(was, k);
      }
    }

    lemma Shorter(was: seq<ListNode>, k: nat)
      requires 0 < k < |was| - 1 && Bypassed(was, k) && nodes == Without(was, k) && count == |nodes|
      ensures Valid()
    {
      forall i | 1 <= i < |nodes| ensures nodes[i].prev == nodes[i - 1] {
        PrevAt(was, k, i);
      }
      forall i | 0 <= i < |nodes| - 1 ensures nodes[i].next == nodes[i + 1] {
        NextAt(was, k, i);
      }
      hide Without, Bypassed;
      WithoutOne(was, k);
    }

    lemma WithoutOne(was: seq<ListNode>, k: nat)
      requires 0 < k < |was| - 1 && Bypassed(was, k)
      ensures var s := Without(was, k);
              && |s| == |was| - 1 && first == s[0] && last == s[|s| - 1] && s[0].prev == null && s[|s| - 1].next == null
              && forall i, j :: 0 <= i < j < |s| ==> s[i] != s[j]
    {
    }

    lemma PrevAt(was: seq<ListNode>, k: nat, i: nat)
      requires 0 < k < |was| - 1 && Bypassed(was, k) && 1 <= i < |was| - 1
      ensures |Without(was, k)| == |was| - 1 && Without(was, k)[i].prev == Without(was, k)[i - 1]
    {
      WithoutAt(was, k, i);
      WithoutAt(was, k, i - 1);
      hide Without;
      var j := if i < k then i else i + 1;
      assert was[j].prev == was[if j == k + 1 then k - 1 else j - 1];
    }

    lemma NextAt(was: seq<ListNode>, k: nat, i: nat)
      requires 0 < k < |was| - 1 && Bypassed(was, k) && i < |was| - 2
      ensures |Without(was, k)| == |was| - 1 && Without(was, k)[i].next == Without(was, k)[i + 1]
    {
      WithoutAt(was, k, i);
      WithoutAt(was, k, i + 1);
      hide Without;
      var j := if i < k then i else i + 1;
      assert was[j].next == was[if j == k - 1 then k + 1 else j + 1];
    }

    /** The neighbours are linked to each other, and the node to none. */
    method Bypass(node: ListNode, ghost k: nat)
      requires Valid() && Amid(node)
      requires node in nodes ==> 0 < k < |nodes| - 1 && nodes[k] == node
      requires node !in nodes ==> node.next !in nodes && node.prev !in nodes
      modifies node, node.next, node.prev
      ensures node.next == null && node.prev == null
      ensures node in nodes ==> Bypassed(nodes, k)
      ensures node !in nodes ==> unchanged(nodes)
    {
      node.next.prev := node.prev;
      node.prev.next := node.next;
      node.prev, node.next := null, null;
    }

    /** But for the links of the member at `k` itself, the links spell `s` without it. */
    ghost predicate Bypassed(s: seq<ListNode>, k: nat)
      requires 0 < k < |s| - 1
      reads this`first, this`last, s
    {
      && first == s[0] && last == s[|s| - 1] && s[0].prev == null && s[|s| - 1].next == null
      && (forall i {:trigger s[i].prev} :: 1 <= i < |s| && i != k ==> s[i].prev == s[if i == k + 1 then k - 1 else i - 1])
      && (forall i {:trigger s[i].next} :: 0 <= i < |s| - 1 && i != k ==> s[i].next == s[if i == k - 1 then k + 1 else i + 1])
      && (forall i, j :: 0 <= i < j < |s| ==> s[i] != s[j])
    }

    /**
      DeleteNode, with its consistency checks. A member is removed. Of the other nodes it reports an
      error (1) and changes nothing, except that it takes one that stands amid another list out of
      that list, and then this list counts one node too few.
     */
    method DeleteNode(node: ListNode) returns (ret: int)
      requires Valid()
      modifies this, nodes, node, node.next, node.prev
      ensures ret == if node in old(nodes) || (|old(nodes)| > 1 && old(Amid(node))) then 0 else 1
      ensures ret == 0 ==> node.next == null && node.prev == null
      ensures node in old(nodes) ==>
                Valid() && exists k :: 0 <= k < |old(nodes)| && old(nodes)[k] == node && nodes == Without(old(nodes), k)
      ensures node !in old(nodes) && ret == 0 ==> Miscounted()
      ensures ret == 1 ==> Valid() && unchanged(this) && unchanged(nodes) && unchanged(node)
      ensures ret == 1 && node.next != null ==> old(allocated(node.next)) && unchanged(node.next)
      ensures ret == 1 && node.prev != null ==> old(allocated(node.prev)) && unchanged(node.prev)
    {
      ret := 0;
      ghost var k := 0;
      if node in nodes {
        k :| 0 <= k < |nodes| && nodes[k] == node;
        Position(node, k);
      }
      if count == 0 {
        first, last := null, null;
        ret := 1;
      } else if count == 1 {
        if node.prev != null || node.next != null || last != node || first != node {
          ret := 1;
        } else {
          first, last, count := null, null, 0;
          node.prev, node.next := null, null;
          nodes := Without(nodes, k);
        }
      } else if node.next == null && node.prev != null {
        if last != node || last.prev != node.prev {
          ret := 1;
        } else {
          UnlinkLast();
        }
      } else if node.next != null && node.prev == null {
        if first != node || first.next != node.next {
          ret := 1;
        } else {
          UnlinkFirst();
        }
      } else if node.next != null && node.prev != null {
        if node.next.prev != node || node.prev.next != node {
          ret := 1;
        } else {
          UnlinkMiddle(node);
        }
      } else {
        ret := 1;
      }
    }

    method PopHead() returns (node: ListNode?)
      requires Valid()
      modifies this, nodes
      ensures Valid()
      ensures old(nodes) == [] ==> node == null && nodes == []
      ensures old(nodes) != [] ==> node == old(nodes)[0] && nodes == old(nodes)[1..]
      ensures node != null ==> node.next == null && node.prev == null
    {
      node := first;
      if node != null {
        Position(node, 0);
        var ret := DeleteNode(node);
      }
    }

    /** ListDeleteNode: searches the list from its head; a node that is not found changes nothing. */
    method ListDeleteNode(node: ListNode)
      requires Valid()
      modifies this, nodes
      ensures Valid()
      ensures node !in old(nodes) ==> unchanged(this) && unchanged(nodes)
      ensures node in old(nodes) ==> node.next == null && node.prev == null
      ensures node in old(nodes) ==>
                exists k :: 0 <= k < |old(nodes)| && old(nodes)[k] == node && nodes == Without(old(nodes), k)
    {
      if count > 0 {
        var found := false;
        var tmp := first;
        var i := 0;
        while i < count
          invariant 0 <= i <= count
          invariant i < count ==> tmp == nodes[i]
          invariant !found && node !in nodes[..i]
        {
          if tmp == node {
            found := true;
            break;
          }
          tmp := tmp.next;
          i := i + 1;
        }
        if found {
          Position(tmp, i);
          var ret := DeleteNode(tmp);
        }
      }
    }
  }
}

/**
 The two work lists of the file manager, lsScan and lsScanDel, as intrusive lists whose nodes
 carry the items: the operations on them change the sequences of items as the scan engine
 expects, and keep the pointers of both lists consistent.
*/
module ScanLists {
  import opened Trees
  import opened LinkSeqModule

  /** The nodes of a list carry these items. */
  ghost predicate Carry(nodes: seq<Node>, items: seq<Item>) {
    |nodes| == |items| && forall i | 0 <= i < |nodes| :: nodes[i].item == items[i]
  }

  /** Two lists that share no node. */
  ghost predicate Disjoint(a: seq<Node>, b: seq<Node>) {
    forall i, j | 0 <= i < |a| && 0 <= j < |b| :: a[i] != b[j]
  }

  /** Where a new item goes: directories behind the directory at the head, or to the front, and
      files to the end. */
  ghost function Queued(todo: seq<Item>, it: Item): seq<Item> {
    if !it.node.dir then todo + [it]
    else if todo != [] && todo[0].node.dir then [todo[0], it] + todo[1..]
    else [it] + todo
  }

  /** The new node n got its place among the nodes was. */
  ghost predicate Placed(was: seq<Node>, n: Node, nodes: seq<Node>) {
    nodes == if !n.item.node.dir then was + [n]
             else if was != [] && was[0].item.node.dir then was[..1] + [n] + was[1..]
             else [n] + was
  }

  lemma PlacedCarry(was: seq<Node>, n: Node, nodes: seq<Node>, todo: seq<Item>)
    requires Placed(was, n, nodes) && Carry(was, todo)
    ensures Carry(nodes, Queued(todo, n.item))
    ensures forall i | 0 <= i < |nodes| :: nodes[i] == n || nodes[i] in was
  {
  }

  /** The first node leaves a list, and another list stays as it was. */
  method Unlink(ls: LinkSeq, ghost other: LinkSeq) returns (pScan: Node)
    requires ls.Valid() && ls.nodes != [] && other.Valid() && ls != other && Disjoint(ls.nodes, other.nodes)
    modifies ls, ls.nodes
    ensures ls.Valid() && ls.nodes == old(ls.nodes)[1..]
    ensures pScan == old(ls.nodes)[0] && pScan !in ls.nodes && pScan !in other.nodes
    ensures other.Valid() && other.nodes == old(other.nodes) && Disjoint(ls.nodes, other.nodes)
  {
    ls.NodesDistinct();
    pScan := ls.pList;
    assert pScan == ls.nodes[0] && pScan.ppSelf == CellAt(ls.nodes, ListCell(ls), 0);
    assert forall j | 0 <= j < |other.nodes| :: other.nodes[j] !in ls.nodes;
    ls.Remove(pScan, 0);
  }

  /** The node becomes the first of a list, and another list stays as it was. */
  method LinkFirst(ls: LinkSeq, pScan: Node, ghost other: LinkSeq)
    requires ls.Valid() && pScan !in ls.nodes && pScan !in other.nodes
    requires other.Valid() && ls != other && Disjoint(ls.nodes, other.nodes)
    modifies ls, ls.nodes, pScan
    ensures ls.Valid() && ls.nodes == [pScan] + old(ls.nodes)
    ensures other.Valid() && other.nodes == old(other.nodes) && Disjoint(ls.nodes, other.nodes)
  {
    assert forall j | 0 <= j < |other.nodes| :: other.nodes[j] !in ls.nodes && other.nodes[j] in other.nodes;
    ls.AddFirst(pScan);
  }

  /** A node gets the place of a new item, and another list stays as it was. */
  method LinkNew(ls: LinkSeq, pScan: Node, ghost other: LinkSeq)
    requires ls.Valid() && pScan !in ls.nodes && pScan !in other.nodes
    requires other.Valid() && ls != other && Disjoint(ls.nodes, other.nodes)
    modifies ls, ls.nodes, pScan
    ensures ls.Valid() && other.Valid() && other.nodes == old(other.nodes) && Disjoint(ls.nodes, other.nodes)
    ensures Placed(old(ls.nodes), pScan, ls.nodes)
  {
    assert forall j | 0 <= j < |other.nodes| :: other.nodes[j] !in ls.nodes && other.nodes[j] in other.nodes;
    if pScan.item.node.dir {
      var pFirst := ls.pList;
      if pFirst != null && pFirst.item.node.dir {
        ls.AddAfter(pFirst, pScan, 0);
      } else {
        ls.AddFirst(pScan);
      }
    } else {
      ls.Add(pScan);
    }
  }

  class WorkLists {
    const lsScan: LinkSeq
    const lsScanDel: LinkSeq
    ghost var todo: seq<Item>
    ghost var del: seq<Item>
    ghost var repr: set<object>

    ghost predicate Owns(nodes: seq<Node>)
      reads this
    {
      forall i | 0 <= i < |nodes| :: nodes[i] in repr
    }

    /** Both lists are well formed, share no node, and carry the items. */
    ghost predicate Valid()
      reads this, repr
    {
      && this in repr && lsScan in repr && lsScanDel in repr && lsScan != lsScanDel
      && Owns(lsScan.nodes) && Owns(lsScanDel.nodes)
      && lsScan.Valid() && lsScanDel.Valid() && Disjoint(lsScan.nodes, lsScanDel.nodes)
      && Carry(lsScan.nodes, todo) && Carry(lsScanDel.nodes, del)
    }

    constructor ()
      ensures Valid() && fresh(repr) && todo == [] && del == []
    {
      lsScan := new LinkSeq();
      lsScanDel := new LinkSeq();
      todo, del := [], [];
      new;
      repr := {this, lsScan, lsScanDel};
    }

    /** lnkseqIsEmpty( &pData->lsScan ). */
    function ScanEmpty(): (b: bool)
      requires Valid()
      reads this, repr
      ensures b <==> todo == []
    {
      lsScan.pList == null
    }

    /** The item of lnkseqGetFirst( &pData->lsScan ). */
    function ScanHead(): (it: Item)
      requires Valid() && todo != []
      reads this, repr
      ensures it == todo[0]
    {
      lsScan.pList.item
    }

    function DelEmpty(): (b: bool)
      requires Valid()
      reads this, repr
      ensures b <==> del == []
    {
      lsScanDel.pList == null
    }

    function DelHead(): (it: Item)
      requires Valid() && del != []
      reads this, repr
      ensures it == del[0]
    {
      lsScanDel.pList.item
    }

    /** The head of lsScan is removed and freed. */
    method PopScan()
      requires Valid() && todo != []
      modifies repr
      ensures Valid() && repr == old(repr) && todo == old(todo)[1..] && del == old(del)
    {
      var pScan := Unlink(lsScan, lsScanDel);
      todo := todo[1..];
    }

    method PopScanDel()
      requires Valid() && del != []
      modifies repr
      ensures Valid() && repr == old(repr) && todo == old(todo) && del == old(del)[1..]
    {
      var pScan := Unlink(lsScanDel, lsScan);
      del := del[1..];
    }

    /** The head of lsScan is moved to the front of lsScanDel. */
    method KeepScan()
      requires Valid() && todo != []
      modifies repr
      ensures Valid() && repr == old(repr) && todo == old(todo)[1..] && del == [old(todo[0])] + old(del)
    {
      var pScan := Unlink(lsScan, lsScanDel);
      LinkFirst(lsScanDel, pScan, lsScan);
      todo, del := todo[1..], [todo[0]] + del;
    }

    /** An item gets a node, and the node its place in lsScan. */
    method AddScan(it: Item)
      requires Valid()
      modifies repr
      ensures Valid() && fresh(repr - old(repr)) && todo == Queued(old(todo), it) && del == old(del)
    {
      ghost var was := lsScan.nodes;
      var pScan := new Node(it);
      LinkNew(lsScan, pScan, lsScanDel);
      PlacedCarry(was, pScan, lsScan.nodes, todo);
      repr := repr + {pScan};
      todo := Queued(todo, it);
    }
  }
}

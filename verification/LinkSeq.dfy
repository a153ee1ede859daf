/**
 The intrusive list of linkseq.h: every node knows the cell that points at it, and the
 list knows its final null cell. Each macro is proved to change the sequence of nodes
 as its name says and to keep the pointers consistent.
*/
module LinkSeqModule {
  import Trees

  /** The address of a pointer to a node: the list's own pList or the pNext of a node. */
  datatype Cell = ListCell(ls: LinkSeq) | NextCell(node: Node) | NullCell

  /** SEQOBJ, with the record whose first member it is: an item of the file manager's lists. */
  class Node {
    var pNext: Node?
    var ppSelf: Cell
    const item: Trees.Item

    constructor (item: Trees.Item)
      ensures pNext == null && ppSelf == NullCell && this.item == item
    {
      pNext, ppSelf, this.item := null, NullCell, item;
    }
  }

  function CellObject(c: Cell): set<object> {
    match c
    case ListCell(ls) => {ls}
    case NextCell(n) => {n}
    case NullCell => {}
  }

  /** What the cell c contains. */
  function Deref(c: Cell): Node?
    reads CellObject(c)
  {
    match c
    case ListCell(ls) => ls.pList
    case NextCell(n) => n.pNext
    case NullCell => null
  }

  /** The pointers from p on run through exactly the nodes s. */
  ghost predicate Chain(p: Node?, s: seq<Node>)
    reads s
  {
    if s == [] then p == null else p == s[0] && Chain(s[0].pNext, s[1..])
  }

  /** The pointers alone determine the sequence. */
  lemma {:induction false} ChainUnique(p: Node?, s: seq<Node>, t: seq<Node>)
    requires Chain(p, s) && Chain(p, t)
    ensures s == t
    decreases |s|
  {
    if s != [] && t != [] {
      ChainUnique(s[0].pNext, s[1..], t[1..]);
    }
  }

  ghost predicate Distinct(s: seq<Node>) {
    forall i, j | 0 <= i < j < |s| :: s[i] != s[j]
  }

  /** The cell that must point at s[i] when the first node is found in the cell first. */
  ghost function CellAt(s: seq<Node>, first: Cell, i: nat): Cell
    requires i <= |s|
  {
    if i == 0 then first else NextCell(s[i - 1])
  }

  /** The nodes s are chained from the cell first on to the node end. */
  ghost predicate Links(s: seq<Node>, first: Cell, end: Node?)
    reads s
  {
    && (forall i {:trigger s[i].ppSelf} | 0 <= i < |s| :: s[i].ppSelf == CellAt(s, first, i))
    && (forall i {:trigger s[i].pNext} | 0 <= i < |s| :: s[i].pNext == if i + 1 < |s| then s[i + 1] else end)
  }

  ghost function Head(s: seq<Node>, end: Node?): Node? {
    if s == [] then end else s[0]
  }

  lemma LinksConcat(a: seq<Node>, first: Cell, b: seq<Node>, end: Node?)
    requires Links(a, first, Head(b, end)) && Links(b, CellAt(a, first, |a|), end)
    ensures Links(a + b, first, end)
  {
    var s := a + b;
    forall i | 0 <= i < |s|
      ensures s[i].ppSelf == CellAt(s, first, i)
      ensures s[i].pNext == if i + 1 < |s| then s[i + 1] else end
    {
      if i < |a| { assert s[i] == a[i]; } else { assert s[i] == b[i - |a|]; }
    }
  }

  lemma LinksSplit(s: seq<Node>, first: Cell, end: Node?, k: nat)
    requires Links(s, first, end) && k <= |s|
    ensures Links(s[..k], first, Head(s[k..], end)) && Links(s[k..], CellAt(s, first, k), end)
  {
    var a, b := s[..k], s[k..];
    forall i | 0 <= i < |a|
      ensures a[i].ppSelf == CellAt(a, first, i)
      ensures a[i].pNext == if i + 1 < |a| then a[i + 1] else Head(b, end)
    {
      assert a[i] == s[i];
    }
    forall i | 0 <= i < |b|
      ensures b[i].ppSelf == CellAt(b, CellAt(s, first, k), i)
      ensures b[i].pNext == if i + 1 < |b| then b[i + 1] else end
    {
      assert b[i] == s[k + i];
    }
  }

  /** Distinct nodes follow from the back pointers: two equal nodes have equal predecessors,
      down to the cell first, which is not in s. */
  lemma {:induction false} LinksDistinct(s: seq<Node>, first: Cell, end: Node?, i: nat, j: nat)
    requires Links(s, first, end) && i < j < |s|
    requires first.ListCell? || (first.NextCell? && first.node !in s)
    ensures s[i] != s[j]
  {
    assert s[i].ppSelf == CellAt(s, first, i) && s[j].ppSelf == CellAt(s, first, j);
    if i > 0 { LinksDistinct(s, first, end, i - 1, j - 1); } else { assert s[j - 1] in s; }
  }

  class LinkSeq {
    var pList: Node?
    var ppLast: Cell
    var ulCount: nat
    ghost var nodes: seq<Node>

    ghost predicate Valid()
      reads this, nodes
    {
      && ulCount == |nodes|
      && ppLast == CellAt(nodes, ListCell(this), |nodes|)
      && pList == Head(nodes, null)
      && Links(nodes, ListCell(this), null)
    }

    /** The list in two parts: the cell after a contains end, and b starts at the cell first. */
    ghost predicate Parts(a: seq<Node>, end: Node?, b: seq<Node>, first: Cell)
      reads this, a, b
    {
      && Distinct(a) && Distinct(b) && (forall n | n in a :: n !in b)
      && pList == Head(a, end)
      && ppLast == CellAt(b, first, |b|)
      && Links(a, ListCell(this), end)
      && Links(b, first, null)
    }

    /** No node is in the list twice. */
    lemma NodesDistinct()
      requires Valid()
      ensures Distinct(nodes)
    {
      forall i, j | 0 <= i < j < |nodes|
        ensures nodes[i] != nodes[j]
      {
        LinksDistinct(nodes, ListCell(this), null, i, j);
      }
    }

    lemma Cut(k: nat)
      requires Valid() && k <= |nodes|
      ensures Parts(nodes[..k], Head(nodes[k..], null), nodes[k..], CellAt(nodes, ListCell(this), k))
    {
      NodesDistinct();
      LinksSplit(nodes, ListCell(this), null, k);
    }

    /** The node so, at index k, between its two neighbouring parts. */
    lemma CutAround(so: Node, k: nat)
      requires Valid() && k < |nodes| && nodes[k] == so
      ensures Parts(nodes[..k], so, nodes[k + 1..], NextCell(so))
      ensures so !in nodes[..k] && so !in nodes[k + 1..]
      ensures so.ppSelf == CellAt(nodes, ListCell(this), k) && so.pNext == Head(nodes[k + 1..], null)
    {
      NodesDistinct();
      LinksSplit(nodes, ListCell(this), null, k);
      LinksSplit(nodes, ListCell(this), null, k + 1);
    }

    ghost method Join(a: seq<Node>, b: seq<Node>)
      requires Parts(a, Head(b, null), b, CellAt(a, ListCell(this), |a|)) && ulCount == |a| + |b|
      modifies this`nodes
      ensures Valid() && nodes == a + b
    {
      LinksConcat(a, ListCell(this), b, null);
      nodes := a + b;
    }

    ghost method JoinAround(a: seq<Node>, so: Node, b: seq<Node>)
      requires Parts(a, so, b, NextCell(so)) && so !in a && so !in b
      requires so.ppSelf == CellAt(a, ListCell(this), |a|) && so.pNext == Head(b, null)
      requires ulCount == |a| + 1 + |b|
      modifies this`nodes
      ensures Valid() && nodes == a + [so] + b
    {
      LinksConcat([so], so.ppSelf, b, null);
      LinksConcat(a, ListCell(this), [so] + b, null);
      nodes := a + [so] + b;
      assert nodes == a + ([so] + b);
    }

    /** Every cell points at its node, and the final cell is null. */
    lemma SelfPoints(i: nat)
      requires Valid() && i <= |nodes|
      ensures i < |nodes| ==> Deref(nodes[i].ppSelf) == nodes[i]
      ensures i == |nodes| ==> Deref(ppLast) == null
    {
      assert i < |nodes| ==> nodes[i].ppSelf == CellAt(nodes, ListCell(this), i);
      if i > 0 { assert nodes[i - 1].pNext == Deref(CellAt(nodes, ListCell(this), i)); }
    }

    /** Following pNext from pList visits exactly the nodes. */
    lemma {:induction false} ValidChain(i: nat)
      requires Valid() && i <= |nodes|
      ensures Chain(if i < |nodes| then nodes[i] else null, nodes[i..])
      decreases |nodes| - i
    {
      if i < |nodes| {
        assert nodes[i..][1..] == nodes[i + 1..];
        ValidChain(i + 1);
      }
    }

    /** lnkseqInit. */
    constructor ()
      ensures Valid() && nodes == []
    {
      pList, ppLast, ulCount, nodes := null, ListCell(this), 0, [];
    }

    /** *c = p for the cell c after the part a. */
    method Store(c: Cell, p: Node?, ghost a: seq<Node>, ghost end: Node?, ghost b: seq<Node>, ghost first: Cell)
      requires Parts(a, end, b, first) && c == CellAt(a, ListCell(this), |a|)
      modifies if a == [] then {this} else {a[|a| - 1]}
      ensures Parts(a, p, b, first) && ulCount == old(ulCount) && nodes == old(nodes)
    {
      assert a != [] ==> a[|a| - 1] in a;
      if c.NextCell? { c.node.pNext := p; } else { pList := p; }
      assert Links(b, first, null) by { assert forall i | 0 <= i < |b| :: b[i] in b; }
    }

    /** What points back at the part b, the ppSelf of its first node or ppLast, becomes c. */
    method PointBack(node: Node?, c: Cell,
                     ghost a: seq<Node>, ghost end: Node?, ghost b: seq<Node>, ghost first: Cell)
      requires Parts(a, end, b, first) && node == Head(b, null)
      modifies if b == [] then {this} else {b[0]}
      ensures Parts(a, end, b, c) && ulCount == old(ulCount) && nodes == old(nodes)
    {
      assert b != [] ==> b[0] in b;
      if node != null { node.ppSelf := c; } else { ppLast := c; }
      assert Links(a, ListCell(this), end) by { assert forall i | 0 <= i < |a| :: a[i] in a; }
    }

    /** lnkseqAdd. */
    method Add(so: Node)
      requires Valid() && so !in nodes
      modifies this, nodes, so
      ensures Valid() && nodes == old(nodes) + [so]
    {
      ghost var a := nodes;
      Cut(|a|);
      so.pNext := null;
      so.ppSelf := ppLast;
      Store(ppLast, so, a, null, [], ppLast);
      PointBack(null, NextCell(so), a, so, [], ppLast);
      ulCount := ulCount + 1;
      JoinAround(a, so, []);
    }

    /** lnkseqAddFirst. */
    method AddFirst(so: Node)
      requires Valid() && so !in nodes
      modifies this, nodes, so
      ensures Valid() && nodes == [so] + old(nodes)
    {
      ghost var b := nodes;
      Cut(0);
      PointBack(pList, NextCell(so), [], pList, b, ListCell(this));
      so.pNext := pList;
      so.ppSelf := ListCell(this);
      pList := so;
      ulCount := ulCount + 1;
      JoinAround([], so, b);
    }

    /** lnkseqAddAfter. */
    method AddAfter(base: Node, so: Node, ghost k: nat)
      requires Valid() && so !in nodes && k < |nodes| && nodes[k] == base
      modifies this, nodes, so
      ensures Valid() && nodes == old(nodes[..k + 1] + [so] + nodes[k + 1..])
    {
      if base.pNext != null {
        ghost var a, b := nodes[..k + 1], nodes[k + 1..];
        Cut(k + 1);
        assert so !in a && so !in b;
        so.pNext := base.pNext;
        so.ppSelf := NextCell(base);
        PointBack(base.pNext, NextCell(so), a, b[0], b, NextCell(base));
        Store(NextCell(base), so, a, b[0], b, NextCell(so));
        ulCount := ulCount + 1;
        JoinAround(a, so, b);
      } else {
        Add(so);
      }
    }

    /** lnkseqAddBefore. */
    method AddBefore(base: Node, so: Node, ghost k: nat)
      requires Valid() && so !in nodes && k < |nodes| && nodes[k] == base
      modifies this, nodes, so
      ensures Valid() && nodes == old(nodes[..k] + [so] + nodes[k..])
    {
      NodesDistinct();
      if pList != base {
        ghost var a, b, c := nodes[..k], nodes[k..], base.ppSelf;
        Cut(k);
        so.ppSelf := base.ppSelf;
        so.pNext := base;
        Store(base.ppSelf, so, a, base, b, c);
        PointBack(base, NextCell(so), a, so, b, c);
        ulCount := ulCount + 1;
        JoinAround(a, so, b);
      } else {
        AddFirst(so);
      }
    }

    /** lnkseqRemove; a node that is not linked is left alone. */
    method Remove(so: Node, ghost k: nat)
      requires Valid() && (so.ppSelf == NullCell || (k < |nodes| && nodes[k] == so))
      modifies this, nodes, so
      ensures Valid() && so.ppSelf == NullCell
      ensures nodes == if old(so.ppSelf) == NullCell then old(nodes) else old(nodes[..k] + nodes[k + 1..])
    {
      if so.ppSelf != NullCell {
        ghost var a, b := nodes[..k], nodes[k + 1..];
        CutAround(so, k);
        Store(so.ppSelf, so.pNext, a, so, b, NextCell(so));
        PointBack(so.pNext, so.ppSelf, a, so.pNext, b, NextCell(so));
        so.ppSelf := NullCell;
        ulCount := ulCount - 1;
        Join(a, b);
      }
    }

    /** lnkseqReplace. */
    method Replace(so: Node, sonew: Node, ghost k: nat)
      requires Valid() && sonew !in nodes && k < |nodes| && nodes[k] == so
      modifies this, nodes, sonew
      ensures Valid() && nodes == old(nodes)[k := sonew] && so.ppSelf == NullCell
    {
      ghost var a, b := nodes[..k], nodes[k + 1..];
      CutAround(so, k);
      sonew.ppSelf := so.ppSelf;
      sonew.pNext := so.pNext;
      Store(sonew.ppSelf, sonew, a, so, b, NextCell(so));
      PointBack(sonew.pNext, NextCell(sonew), a, sonew, b, NextCell(so));
      so.ppSelf := NullCell;
      JoinAround(a, sonew, b);
    }

    /** lnkseqMove: the nodes of the other list go to the end of this one. */
    method Move(from: LinkSeq)
      requires Valid() && from.Valid() && from != this
      requires forall n | n in nodes :: n !in from.nodes
      modifies this, nodes, from, from.nodes
      ensures Valid() && from.Valid()
      ensures nodes == old(nodes) + old(from.nodes) && from.nodes == []
    {
      if from.pList != null {
        ghost var a, b := nodes, from.nodes;
        NodesDistinct();
        from.NodesDistinct();
        assert from.pList == b[0] && b[0] in b;
        from.pList.ppSelf := ppLast;
        if ppLast.NextCell? { ppLast.node.pNext := from.pList; } else { pList := from.pList; }
        ppLast := if pList == null then ListCell(this) else from.ppLast;
        from.pList := null;
        from.ppLast := ListCell(from);
        ulCount := ulCount + from.ulCount;
        from.ulCount := 0;
        from.nodes := [];
        assert Parts(a, b[0], b, CellAt(a, ListCell(this), |a|)) by {
          assert forall i | 0 <= i < |b| :: b[i] in b;
          assert forall i | 0 <= i < |a| :: a[i] in a;
        }
        Join(a, b);
      }
    }

    /** lnkseqFree: the nodes are handed to the release function one by one. */
    method Free() returns (released: seq<Node>)
      requires Valid()
      modifies this, nodes
      ensures Valid() && nodes == [] && released == old(nodes)
    {
      released := [];
      ghost var was := nodes;
      while pList != null
        invariant Valid() && |released| <= |was|
        invariant nodes == was[|released|..] && released == was[..|released|]
        decreases |nodes|
      {
        var obj := pList;
        assert obj == nodes[0] && obj == was[|released|];
        Visit(obj, true, 0);
        released := released + [obj];
      }
    }

    /** The visitor's part of one pass of a loop: obj, at index k, may be unlinked. */
    method Visit(obj: Node, remove: bool, ghost k: nat)
      requires Valid() && k < |nodes| && nodes[k] == obj
      modifies this, nodes
      ensures Valid() && nodes == if remove then old(nodes[..k] + nodes[k + 1..]) else old(nodes)
    {
      if remove {
        assert obj.ppSelf == CellAt(nodes, ListCell(this), k);
        Remove(obj, k);
      }
    }

    /** One pass of lnkseqForEach over the nodes was: the next node is read before the visit. */
    method Pass(obj: Node, remove: bool, ghost was: seq<Node>, ghost kept: seq<Node>, ghost left: seq<Node>)
      returns (pNext: Node?)
      requires Valid() && nodes == kept + left && left != [] && obj == left[0]
      requires AllIn(nodes, was)
      modifies this, was
      ensures Valid() && nodes == kept + (if remove then [] else [obj]) + left[1..]
      ensures pNext == Head(left[1..], null)
      ensures AllIn(nodes, was)
    {
      ghost var k := |kept|;
      assert nodes[k] == obj && nodes[..k] == kept && nodes[k + 1..] == left[1..];
      CutAround(obj, k);
      pNext := obj.pNext;
      Visit(obj, remove, k);
    }

    /** lnkseqForEach with a visitor that may unlink the node it is given: it visits up to and
        including the first node it refuses, and only visited nodes leave the list. */
    method ForEach(go: Node -> bool, unlink: Node -> bool) returns (visited: seq<Node>)
      requires Valid()
      modifies this, nodes
      ensures Valid() && visited <= old(nodes)
      ensures forall i | 0 <= i < |visited| - 1 :: go(visited[i])
      ensures visited == old(nodes) || (visited != [] && !go(visited[|visited| - 1]))
      ensures nodes == Kept(visited, unlink) + old(nodes)[|visited|..]
    {
      visited := [];
      ghost var was, left := nodes, nodes;
      var pObj := pList;
      while pObj != null
        invariant Valid() && nodes == Kept(visited, unlink) + left && pObj == Head(left, null)
        invariant visited + left == was
        invariant forall i | 0 <= i < |visited| :: go(visited[i])
        invariant AllIn(nodes, was)
        decreases |left|
      {
        var obj: Node := pObj;
        var pNext := Pass(obj, unlink(obj), was, Kept(visited, unlink), left);
        Step(visited, left, obj, unlink, go);
        visited, left := visited + [obj], left[1..];
        Prefix(visited, left, was);
        if !go(obj) { return; }
        pObj := pNext;
      }
      Prefix(visited, left, was);
    }
  }

  /** The nodes of s that the visitor leaves linked. */
  ghost function Kept(s: seq<Node>, unlink: Node -> bool): seq<Node> {
    if s == [] then []
    else Kept(s[..|s| - 1], unlink) + if unlink(s[|s| - 1]) then [] else [s[|s| - 1]]
  }

  lemma {:induction false} KeptAre(s: seq<Node>, unlink: Node -> bool, n: Node)
    ensures n in Kept(s, unlink) <==> n in s && !unlink(n)
  {
    if s != [] {
      KeptAre(s[..|s| - 1], unlink, n);
      assert s == s[..|s| - 1] + [s[|s| - 1]];
    }
  }

  ghost predicate AllIn(s: seq<Node>, was: seq<Node>) {
    forall i | 0 <= i < |s| :: s[i] in was
  }

  lemma Step(s: seq<Node>, left: seq<Node>, n: Node, unlink: Node -> bool, go: Node -> bool)
    requires left != [] && n == left[0] && forall i | 0 <= i < |s| :: go(s[i])
    ensures Kept(s + [n], unlink) == Kept(s, unlink) + if unlink(n) then [] else [n]
    ensures s + [n] + left[1..] == s + left
    ensures (s + [n])[..|s|] == s && (s + [n])[|s|] == n
    ensures go(n) ==> forall i | 0 <= i < |s + [n]| :: go((s + [n])[i])
  {
    assert (s + [n])[..|s|] == s;
    MoveOver(s, left);
  }

  lemma MoveOver(a: seq<Node>, b: seq<Node>)
    requires b != []
    ensures a + [b[0]] + b[1..] == a + b && (a + b)[|a|] == b[0]
    ensures (a + b)[..|a|] == a && (a + b)[|a| + 1..] == b[1..]
  {
  }

  lemma Prefix(a: seq<Node>, b: seq<Node>, s: seq<Node>)
    requires a + b == s
    ensures a <= s && s[|a|..] == b
    ensures b == [] ==> a == s
  {
  }
}

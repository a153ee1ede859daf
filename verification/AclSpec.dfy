/**
 The server's access list, config.c: rules over address ranges, of which the first enabled one
 that contains the address decides.
*/
module AclSpec {

  /** An address in host order. */
  type Addr = x: int | 0 <= x < 0x1_0000_0000

  /** ACLITEM. */
  datatype Item = Item(enable: bool, first: Addr, last: Addr, allow: bool, comment: string)

  /** ACL_xxx; the lowest bit of its code says that the address may connect. */
  datatype Answer = NotFound | Empty | Deny | Allow

  predicate MayConnect(r: Answer) { r.Empty? || r.Allow? }

  predicate Catches(it: Item, a: Addr) {
    it.enable && it.first <= a <= it.last
  }

  function Verdict(it: Item): Answer { if it.allow then Allow else Deny }

  /** The rule for the address among items[i..]. */
  function Decide(items: seq<Item>, a: Addr): Answer {
    if items == [] then NotFound
    else if Catches(items[0], a) then Verdict(items[0])
    else Decide(items[1..], a)
  }

  /** aclCheck. */
  function Check(items: seq<Item>, a: Addr): Answer {
    if items == [] then Empty else Decide(items, a)
  }

  predicate Uncaught(items: seq<Item>, n: nat, a: Addr)
    requires n <= |items|
  {
    forall j | 0 <= j < n :: !Catches(items[j], a)
  }

  /** The answer is that of the lowest-indexed enabled rule that contains the address. */
  lemma {:induction false} DecideIsFirst(items: seq<Item>, a: Addr, k: nat)
    requires k <= |items| && Uncaught(items, k, a)
    ensures Decide(items, a) == Decide(items[k..], a)
    ensures k < |items| && Catches(items[k], a) ==> Decide(items, a) == Verdict(items[k])
    ensures k == |items| ==> Decide(items, a) == NotFound
  {
    if k > 0 {
      assert items[1..][k - 1..] == items[k..];
      DecideIsFirst(items[1..], a, k - 1);
    }
  }

  /** Every address has a first rule or none. */
  lemma {:induction false} FirstRule(items: seq<Item>, a: Addr) returns (k: nat)
    ensures k <= |items| && Uncaught(items, k, a)
    ensures k < |items| ==> Catches(items[k], a) && Decide(items, a) == Verdict(items[k])
    ensures k == |items| ==> Decide(items, a) == NotFound
  {
    if items == [] || Catches(items[0], a) {
      k := 0;
    } else {
      k := FirstRule(items[1..], a);
      k := k + 1;
    }
  }

  /** aclCheck gives the answer of the first enabled rule whose ends enclose the address, both ends
      included; that there is none; or that there are no rules at all. */
  lemma CheckIsFirst(items: seq<Item>, a: Addr)
    ensures items == [] <==> Check(items, a) == Empty
    ensures items != [] && (forall j | 0 <= j < |items| :: !(items[j].enable && items[j].first <= a && a <= items[j].last))
            <==> Check(items, a) == NotFound
    ensures forall k | 0 <= k < |items| ::
              items[k].enable && items[k].first <= a && a <= items[k].last
              && (forall j | 0 <= j < k :: !(items[j].enable && items[j].first <= a && a <= items[j].last))
              ==> Check(items, a) == if items[k].allow then Allow else Deny
  {
    var f := FirstRule(items, a);
    assert forall j | 0 <= j < |items| :: Catches(items[j], a) <==> items[j].enable && items[j].first <= a && a <= items[j].last;
  }

  lemma DecideCons(x: Item, rest: seq<Item>, a: Addr)
    ensures Decide([x] + rest, a) == if Catches(x, a) then Verdict(x) else Decide(rest, a)
  {
    assert ([x] + rest)[1..] == rest;
  }

  // --- Insertion ----------------------------------------------------------------------

  function Inserted(items: seq<Item>, i: nat, it: Item): seq<Item> {
    var k := if i > |items| then |items| else i;
    items[..k] + [it] + items[k..]
  }

  lemma {:induction false} DecideConcat(p: seq<Item>, q: seq<Item>, a: Addr)
    ensures Decide(p + q, a) == if Uncaught(p, |p|, a) then Decide(q, a) else Decide(p, a)
  {
    if p == [] {
      assert p + q == q;
    } else {
      assert (p + q)[1..] == p[1..] + q;
      DecideConcat(p[1..], q, a);
      assert Uncaught(p, |p|, a) <==> !Catches(p[0], a) && Uncaught(p[1..], |p[1..]|, a) by {
        assert forall j | 1 <= j < |p| :: p[j] == p[1..][j - 1];
      }
    }
  }

  /** A new rule decides exactly the addresses it contains that no rule before it catches; for
      all others the decision of a list that was not empty stays. */
  lemma InsertDecides(items: seq<Item>, i: nat, it: Item, a: Addr)
    ensures
      var k := if i > |items| then |items| else i;
      Check(Inserted(items, i, it), a) ==
        if Catches(it, a) && Uncaught(items, k, a) then Verdict(it) else Decide(items, a)
  {
    var k := if i > |items| then |items| else i;
    var p, q := items[..k], items[k..];
    assert items == p + q && Inserted(items, i, it) == p + ([it] + q);
    DecideConcat(p, q, a);
    DecideConcat(p, [it] + q, a);
    assert ([it] + q)[1..] == q;
    assert Uncaught(items, k, a) <==> Uncaught(p, |p|, a) by {
      assert forall j | 0 <= j < k :: items[j] == p[j];
    }
  }

  // --- Exchange of neighbours ---------------------------------------------------------

  function Exchanged(items: seq<Item>, i: nat): seq<Item>
    requires i + 1 < |items|
  {
    items[i := items[i + 1]][i + 1 := items[i]]
  }

  /** The exchange of the rules i and i + 1 changes the decision for an address exactly if both
      catch it, none before them does, and they disagree. */
  lemma ExchangeDecides(items: seq<Item>, i: nat, a: Addr)
    requires i + 1 < |items|
    ensures Check(Exchanged(items, i), a) == Check(items, a) <==>
            !(Uncaught(items, i, a) && Catches(items[i], a) && Catches(items[i + 1], a) &&
              items[i].allow != items[i + 1].allow)
  {
    var p, q := items[..i], items[i + 2..];
    var x, y := items[i], items[i + 1];
    assert items == p + ([x, y] + q) && Exchanged(items, i) == p + ([y, x] + q);
    DecideConcat(p, [x, y] + q, a);
    DecideConcat(p, [y, x] + q, a);
    assert ([x, y] + q)[1..] == [y] + q && ([y, x] + q)[1..] == [x] + q;
    assert ([y] + q)[1..] == q && ([x] + q)[1..] == q;
    assert Uncaught(items, i, a) <==> Uncaught(p, |p|, a) by {
      assert forall j | 0 <= j < i :: items[j] == p[j];
    }
  }

  /** Two rules that do not overlap can be exchanged freely. */
  lemma DisjointRulesCommute(items: seq<Item>, i: nat, a: Addr)
    requires i + 1 < |items|
    requires items[i].last < items[i + 1].first || items[i + 1].last < items[i].first
    ensures Check(Exchanged(items, i), a) == Check(items, a)
  {
    NotBoth(items[i], items[i + 1], a);
    ExchangeDecides(items, i, a);
  }

  lemma NotBoth(x: Item, y: Item, a: Addr)
    requires x.last < y.first || y.last < x.first
    ensures !(Catches(x, a) && Catches(y, a))
  {
  }
}

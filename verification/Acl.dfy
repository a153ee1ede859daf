/**
 The access list in place: an array that grows by sixteen items.
*/
module AclModule {
  import opened Options
  import opened AclSpec
  import Text = AclText

  class Acl {
    var ulCount: nat
    var paItems: array<Item>

    /** There is room up to the next multiple of sixteen. */
    ghost predicate Valid()
      reads this
    {
      ulCount <= paItems.Length && (ulCount % 16 != 0 ==> paItems.Length >= (ulCount / 16 + 1) * 16)
    }

    ghost function Items(): seq<Item>
      requires Valid()
      reads this, paItems
    {
      paItems[..ulCount]
    }

    /** aclInit. */
    constructor ()
      ensures Valid() && Items() == [] && fresh(paItems)
    {
      ulCount := 0;
      paItems := new Item[0];
    }

    /** realloc. */
    method Grow()
      requires Valid()
      modifies this`paItems
      ensures fresh(paItems) && paItems.Length == ulCount + 16
      ensures paItems[..ulCount] == old(Items())
    {
      var a := new Item[ulCount + 16](_ => Item(false, 0, 0, false, ""));
      forall k | 0 <= k < ulCount {
        a[k] := paItems[k];
      }
      paItems := a;
    }

    /** memmove of the items from index i on by one place. */
    method MakeGap(i: nat)
      requires i <= ulCount < paItems.Length
      modifies paItems
      ensures paItems[..i] == old(paItems[..i]) && paItems[i + 1..ulCount + 1] == old(paItems[i..ulCount])
    {
      forall k | i <= k < ulCount {
        paItems[k + 1] := paItems[k];
      }
    }

    method Place(i: nat, it: Item)
      requires i <= ulCount < paItems.Length
      modifies paItems
      ensures paItems[..ulCount + 1] == Inserted(old(paItems[..ulCount]), i, it)
    {
      ghost var was := paItems[..ulCount];
      assert was[..i] == paItems[..i] && was[i..] == paItems[i..ulCount];
      MakeGap(i);
      paItems[i] := it;
      assert paItems[..i] == was[..i] && paItems[i + 1..ulCount + 1] == was[i..];
      assert paItems[..ulCount + 1] == paItems[..i] + [it] + paItems[i + 1..ulCount + 1];
    }

    /** aclInsert; an index past the end appends. */
    method Insert(ulIndex: nat, it: Item) returns (ok: bool)
      requires Valid()
      modifies this, paItems
      ensures Valid() && ok && Items() == Inserted(old(Items()), ulIndex, it)
      ensures paItems == old(paItems) || fresh(paItems)
    {
      var i := if ulIndex > ulCount then ulCount else ulIndex;
      if ulCount % 16 == 0 {
        Grow();
      }
      Place(i, it);
      ulCount := ulCount + 1;
      return true;
    }

    /** aclMove; the index before the first wraps round and is past the end. */
    method Move(ulIndex: nat, fForward: bool) returns (ok: bool)
      requires Valid() && ulIndex < ulCount < 0x1_0000_0000
      modifies paItems
      ensures ok == if fForward then ulIndex + 1 < ulCount else ulIndex > 0
      ensures Valid()
      ensures Items() ==
              if ok then Exchanged(old(Items()), if fForward then ulIndex else ulIndex - 1) else old(Items())
    {
      var stItem := paItems[ulIndex];
      var ulNewIndex := (ulIndex + (if fForward then 1 else 0xFFFF_FFFF)) % 0x1_0000_0000;
      if ulNewIndex >= ulCount { return false; }
      paItems[ulIndex] := paItems[ulNewIndex];
      paItems[ulNewIndex] := stItem;
      return true;
    }

    /** aclCheck. */
    method Check(a: Addr) returns (r: Answer)
      requires Valid()
      ensures r == AclSpec.Check(Items(), a)
    {
      if ulCount == 0 { return Empty; }
      var ulIdx := 0;
      while ulIdx < ulCount
        invariant ulIdx <= ulCount && Uncaught(Items(), ulIdx, a)
      {
        var it := paItems[ulIdx];
        if it.enable && a >= it.first && a <= it.last {
          DecideIsFirst(Items(), a, ulIdx);
          return if it.allow then Allow else Deny;
        }
        ulIdx := ulIdx + 1;
      }
      DecideIsFirst(Items(), a, ulIdx);
      return NotFound;
    }

    /** One turn of the loop of cfgStore, with the rules rest still to store. */
    static method StoreOne(net: Text.Inet, it: Item, texts: seq<string>, ghost rest: seq<Item>)
      returns (more: seq<string>)
      ensures more + Text.Store(net, rest) == texts + Text.Store(net, [it] + rest)
    {
      var t := Text.ItemText(net, it);
      more := if t.Some? then texts + [t.value] else texts;
      Text.StoreCons(net, it, rest);
    }

    /** The ACL part of cfgStore: rules that have no text are left out. */
    method StoreAll(net: Text.Inet) returns (texts: seq<string>)
      requires Valid()
      ensures texts == Text.Store(net, Items())
    {
      texts := [];
      ghost var left := Items();
      var ulIdx := 0;
      while ulIdx < ulCount
        invariant ulIdx <= ulCount && left == Items()[ulIdx..]
        invariant texts + Text.Store(net, left) == Text.Store(net, Items())
      {
        assert left == [paItems[ulIdx]] + left[1..];
        texts := StoreOne(net, paItems[ulIdx], texts, left[1..]);
        left := left[1..];
        ulIdx := ulIdx + 1;
      }
    }

    static method ParseOne(net: Text.Inet, t: string, ghost rest: seq<string>) returns (it: Option<Item>)
      ensures Text.LoadRules(net, [t] + rest) == (if it.Some? then [it.value] else []) + Text.LoadRules(net, rest)
    {
      it := Text.ParseItem(net, t);
      Text.LoadCons(net, t, rest);
    }

    /** A rule goes to the end of the list. */
    method Append(it: Item)
      requires Valid() && ulCount <= 0xFFFF_FFFF
      modifies this, paItems
      ensures Valid() && ulCount == old(ulCount) + 1 && (paItems == old(paItems) || fresh(paItems))
      ensures Items() == old(Items()) + [it]
    {
      Appended(Items(), it);
      var _ := Insert(0xFFFF_FFFF, it);
    }

    /** One turn of the loop of cfgGet, with the texts rest still to load. */
    method LoadOne(net: Text.Inet, t: string, ghost rest: seq<string>)
      requires Valid() && ulCount <= 0xFFFF_FFFF
      modifies this, paItems
      ensures Valid() && ulCount <= old(ulCount) + 1 && (paItems == old(paItems) || fresh(paItems))
      ensures Items() + Text.LoadRules(net, rest) == old(Items()) + Text.LoadRules(net, [t] + rest)
    {
      var it := ParseOne(net, t, rest);
      Joined(Items(), it, Text.LoadRules(net, rest));
      if it.Some? { Append(it.value); }
    }

    static lemma Joined(items: seq<Item>, it: Option<Item>, more: seq<Item>)
      ensures it.Some? ==> items + [it.value] + more == items + ([it.value] + more)
      ensures items + more == items + ([] + more)
    {
    }

    /** The ACL part of cfgGet: texts that are no rule are left out, the others appended. */
    method LoadAll(net: Text.Inet, texts: seq<string>)
      requires |texts| < 0x1_0000_0000
      modifies this
      ensures Valid() && fresh(paItems) && Items() == Text.LoadRules(net, texts)
    {
      ulCount := 0;
      paItems := new Item[0];
      ghost var left := texts;
      var i := 0;
      while i < |texts|
        invariant i <= |texts| && Valid() && fresh(paItems) && ulCount <= i && left == texts[i..]
        invariant Items() + Text.LoadRules(net, left) == Text.LoadRules(net, texts)
      {
        assert left == [texts[i]] + left[1..];
        LoadOne(net, texts[i], left[1..]);
        left := left[1..];
        i := i + 1;
      }
    }

    static lemma Appended(items: seq<Item>, it: Item)
      requires |items| <= 0xFFFF_FFFF
      ensures Inserted(items, 0xFFFF_FFFF, it) == items + [it]
    {
      assert items[..|items|] == items && items[|items|..] == [];
    }
  }
}

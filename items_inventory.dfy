/**
 * A unit's item bag: a list of (item, count) entries. Consuming lowers the
 * first matching entry and drops it once it reaches zero; adding raises
 * the first matching entry or appends a new one.
 */
module Inventory {
  import opened GameData

  datatype Entry = Entry(item: ItemDefinition, count: int)

  /** The position of the first entry that holds item. */
  function FirstIndex(items: seq<Entry>, item: ItemDefinition): (r: Option<nat>)
    ensures r.Some? ==> r.value < |items| && items[r.value].item == item
    ensures r.Some? ==> forall j :: 0 <= j < r.value ==> items[j].item != item
    ensures r.None? <==> forall j :: 0 <= j < |items| ==> items[j].item != item
  {
    if items == [] then None
    else if items[0].item == item then Some(0)
    else
      match FirstIndex(items[1..], item)
      case None => None
      case Some(k) => Some(k + 1)
  }

  /** An entry for item with none before it is the first one. */
  lemma FirstIndexAt(items: seq<Entry>, item: ItemDefinition, i: nat)
    requires i < |items| && items[i].item == item
    requires forall j :: 0 <= j < i ==> items[j].item != item
    ensures FirstIndex(items, item) == Some(i)
  {
  }

  /** List.Find: a linear search for the first entry holding item. */
  method FindEntry(items: seq<Entry>, item: ItemDefinition) returns (r: Option<nat>)
    ensures r.Some? ==> r.value < |items| && items[r.value].item == item
    ensures r.Some? ==> forall j :: 0 <= j < r.value ==> items[j].item != item
    ensures r.None? <==> forall j :: 0 <= j < |items| ==> items[j].item != item
  {
    var i := 0;
    while i < |items|
      invariant 0 <= i <= |items|
      invariant forall j :: 0 <= j < i ==> items[j].item != item
    {
      if items[i].item == item {
        return Some(i);
      }
      i := i + 1;
    }
    return None;
  }

  /** The entry list with position i removed. */
  function RemoveAt(items: seq<Entry>, i: nat): (r: seq<Entry>)
    requires i < |items|
    ensures |r| == |items| - 1
    ensures forall j :: 0 <= j < i ==> r[j] == items[j]
    ensures forall j :: i <= j < |r| ==> r[j] == items[j + 1]
  {
    items[..i] + items[i + 1..]
  }

  /**
   * The result of TryConsume(item, amount) on a list: whether it succeeded,
   * and the list afterwards.
   */
  function Consume(items: seq<Entry>, item: Option<ItemDefinition>, amount: int): (bool, seq<Entry>)
  {
    if item.None? then (false, items)
    else
      match FirstIndex(items, item.value)
      case None => (false, items)
      case Some(i) =>
        if items[i].count < amount then (false, items)
        else if items[i].count - amount <= 0 then (true, RemoveAt(items, i))
        else (true, items[i := Entry(item.value, items[i].count - amount)])
  }

  /** The list after Add(item, amount). */
  function Added(items: seq<Entry>, item: Option<ItemDefinition>, amount: int): seq<Entry>
  {
    if item.None? || amount <= 0 then items
    else
      match FirstIndex(items, item.value)
      case None => items + [Entry(item.value, amount)]
      case Some(i) => items[i := Entry(item.value, items[i].count + amount)]
  }

  /** How many of item the list holds: the counts of every entry for it, summed. */
  function Quantity(items: seq<Entry>, item: ItemDefinition): int
  {
    if items == [] then 0
    else (if items[0].item == item then items[0].count else 0) + Quantity(items[1..], item)
  }

  /** Every entry has a positive count and no item has two entries. */
  ghost predicate WellFormed(items: seq<Entry>)
  {
    && (forall j :: 0 <= j < |items| ==> items[j].count > 0)
    && (forall j, k :: 0 <= j < k < |items| ==> items[j].item != items[k].item)
  }

  lemma {:induction false} QuantityAppend(a: seq<Entry>, b: seq<Entry>, item: ItemDefinition)
    ensures Quantity(a + b, item) == Quantity(a, item) + Quantity(b, item)
  {
    if a == [] {
      assert a + b == b;
    } else {
      assert (a + b)[1..] == a[1..] + b;
      QuantityAppend(a[1..], b, item);
    }
  }

  /** A list without entries for item holds none of it. */
  lemma {:induction false} QuantityAbsent(items: seq<Entry>, item: ItemDefinition)
    requires forall j :: 0 <= j < |items| ==> items[j].item != item
    ensures Quantity(items, item) == 0
  {
    if items != [] {
      QuantityAbsent(items[1..], item);
    }
  }

  /** In a well-formed list, the quantity of an item is the count of its one entry, and 0 when it has none. */
  lemma QuantityOfEntry(items: seq<Entry>, item: ItemDefinition)
    requires WellFormed(items)
    ensures Quantity(items, item) == match FirstIndex(items, item) case None => 0 case Some(i) => items[i].count
  {
    match FirstIndex(items, item)
    case None =>
      QuantityAbsent(items, item);
    case Some(i) =>
      assert items == items[..i] + [items[i]] + items[i + 1..];
      QuantityAppend(items[..i] + [items[i]], items[i + 1..], item);
      QuantityAppend(items[..i], [items[i]], item);
      QuantityAbsent(items[..i], item);
      QuantityAbsent(items[i + 1..], item);
      assert Quantity([items[i]], item) == items[i].count by {
        assert [items[i]][1..] == [];
      }
  }

  /** Every other item keeps its quantity when one entry for item is replaced or removed. */
  lemma OtherQuantityUnchanged(items: seq<Entry>, i: nat, e: Entry, item: ItemDefinition, other: ItemDefinition)
    requires i < |items| && items[i].item == item && e.item == item && other != item
    ensures Quantity(items[i := e], other) == Quantity(items, other)
    ensures Quantity(RemoveAt(items, i), other) == Quantity(items, other)
  {
    assert items == items[..i] + [items[i]] + items[i + 1..];
    assert items[i := e] == items[..i] + [e] + items[i + 1..];
    QuantityAppend(items[..i] + [items[i]], items[i + 1..], other);
    QuantityAppend(items[..i], [items[i]], other);
    QuantityAppend(items[..i] + [e], items[i + 1..], other);
    QuantityAppend(items[..i], [e], other);
    QuantityAppend(items[..i], items[i + 1..], other);
    assert [items[i]][1..] == [] && [e][1..] == [];
  }

  /**
   * Consuming from a well-formed list succeeds exactly when the item is
   * present with at least amount, and a failure changes nothing.
   */
  lemma ConsumeSucceedsIff(items: seq<Entry>, item: Option<ItemDefinition>, amount: int)
    requires WellFormed(items)
    ensures Consume(items, item, amount).0
        <==> item.Some? && FirstIndex(items, item.value).Some? && Quantity(items, item.value) >= amount
    ensures !Consume(items, item, amount).0 ==> Consume(items, item, amount).1 == items
  {
    if item.Some? {
      QuantityOfEntry(items, item.value);
    }
  }

  /**
   * A successful consume lowers the item's quantity by exactly amount,
   * leaves every other item's quantity alone, and keeps the list well formed.
   */
  lemma ConsumeSuccess(items: seq<Entry>, item: ItemDefinition, amount: int, other: ItemDefinition)
    requires WellFormed(items) && Consume(items, Some(item), amount).0
    ensures Quantity(Consume(items, Some(item), amount).1, item) == Quantity(items, item) - amount
    ensures other != item ==> Quantity(Consume(items, Some(item), amount).1, other) == Quantity(items, other)
    ensures WellFormed(Consume(items, Some(item), amount).1)
  {
    var after := Consume(items, Some(item), amount).1;
    var i := FirstIndex(items, item).value;
    QuantityOfEntry(items, item);
    if items[i].count - amount <= 0 {
      assert after == RemoveAt(items, i);
      assert forall j :: 0 <= j < |after| ==> after[j].item != item;
      QuantityAbsent(after, item);
    } else {
      assert after == items[i := Entry(item, items[i].count - amount)];
      FirstIndexAt(after, item, i);
      QuantityOfEntry(after, item);
    }
    if other != item {
      OtherQuantityUnchanged(items, i, Entry(item, items[i].count - amount), item, other);
    }
  }

  /**
   * Adding to a well-formed list raises the item's quantity by amount when
   * amount is positive (and changes nothing otherwise), leaves every other
   * item's quantity alone, and keeps the list well formed.
   */
  lemma AddSpec(items: seq<Entry>, item: ItemDefinition, amount: int, other: ItemDefinition)
    requires WellFormed(items)
    ensures Quantity(Added(items, Some(item), amount), item) == Quantity(items, item) + (if amount > 0 then amount else 0)
    ensures other != item ==> Quantity(Added(items, Some(item), amount), other) == Quantity(items, other)
    ensures WellFormed(Added(items, Some(item), amount))
  {
    var after := Added(items, Some(item), amount);
    QuantityOfEntry(items, item);
    if amount > 0 {
      match FirstIndex(items, item)
      case None =>
        QuantityAppend(items, [Entry(item, amount)], item);
        QuantityAppend(items, [Entry(item, amount)], other);
        assert [Entry(item, amount)][1..] == [];
      case Some(i) =>
        FirstIndexAt(after, item, i);
        QuantityOfEntry(after, item);
        if other != item {
          OtherQuantityUnchanged(items, i, Entry(item, items[i].count + amount), item, other);
        }
    }
  }

  /** Adding a positive amount and consuming the same amount again restores a well-formed list. */
  lemma AddThenConsume(items: seq<Entry>, item: ItemDefinition, amount: int)
    requires WellFormed(items) && amount > 0
    ensures Consume(Added(items, Some(item), amount), Some(item), amount) == (true, items)
  {
    var after := Added(items, Some(item), amount);
    match FirstIndex(items, item)
    case None =>
      FirstIndexAt(after, item, |items|);
      assert RemoveAt(after, |items|) == items;
    case Some(i) =>
      FirstIndexAt(after, item, i);
      assert items[i].count > 0;
      assert after[i := Entry(item, after[i].count - amount)] == items;
  }

  /** A successful consume touches only the first entry for the item: entries before and after it are kept in order. */
  lemma ConsumeTouchesFirstMatchOnly(items: seq<Entry>, item: ItemDefinition, amount: int)
    requires Consume(items, Some(item), amount).0
    ensures var i := FirstIndex(items, item).value;
            var after := Consume(items, Some(item), amount).1;
            && after[..i] == items[..i]
            && after[|after| - (|items| - i - 1)..] == items[i + 1..]
            && (|after| == |items| ==> after[i] == Entry(item, items[i].count - amount))
            && (|after| == |items| - 1 ==> items[i].count - amount <= 0)
  {
  }

  /** Add touches only the first entry for the item, or appends one entry at the end. */
  lemma AddTouchesFirstMatchOnly(items: seq<Entry>, item: ItemDefinition, amount: int)
    requires amount > 0
    ensures var after := Added(items, Some(item), amount);
            match FirstIndex(items, item)
            case None => after == items + [Entry(item, amount)]
            case Some(i) =>
              && |after| == |items| && after[i] == Entry(item, items[i].count + amount)
              && forall j :: 0 <= j < |items| && j != i ==> after[j] == items[j]
  {
  }

  class ItemsInventory {
    var items: seq<Entry>

    constructor (items: seq<Entry>)
      ensures this.items == items
    {
      this.items := items;
    }

    /** Takes amount of item from the first entry holding it; false, and no change, when that cannot be done. */
    method TryConsume(item: Option<ItemDefinition>, amount: int) returns (ok: bool)
      modifies this
      ensures (ok, items) == Consume(old(items), item, amount)
    {
      if item.None? {
        return false;
      }
      var found := FindEntry(items, item.value);
      if found.None? || items[found.value].count < amount {
        return false;
      }
      var i := found.value;
      var left := items[i].count - amount;
      if left <= 0 {
        items := items[..i] + items[i + 1..];
      } else {
        items := items[i := Entry(item.value, left)];
      }
      ok := true;
    }

    /** Adds amount of item to its first entry, or appends a new entry when it has none. */
    method Add(item: Option<ItemDefinition>, amount: int)
      modifies this
      ensures items == Added(old(items), item, amount)
    {
      if item.None? || amount <= 0 {
        return;
      }
      var found := FindEntry(items, item.value);
      if found.None? {
        items := items + [Entry(item.value, amount)];
      } else {
        var i := found.value;
        items := items[i := Entry(item.value, items[i].count + amount)];
      }
    }
  }
}

/**
  The shopping cart and the registry of every cart ever constructed.

  The registry is a class-level array in the source; here it is an explicit
  Registry object that each cart's constructor appends itself to. Identifiers
  come from an IdSource, which stands in for the getId helper.
 */
module ShoppingCarts {
  import opened CartItems
  import opened Ids

  /** No two carts of the list share an identifier. */
  ghost predicate UniqueCartIds(carts: seq<ShoppingCart>)
  {
    forall i, j :: 0 <= i < j < |carts| ==> carts[i].id != carts[j].id
  }

  /**
    The left-to-right scan of findBy: the position of the first cart whose
    identifier is id, or |carts| when there is none.
   */
  function FirstIndex(carts: seq<ShoppingCart>, id: nat): (i: nat)
    ensures i <= |carts|
    ensures forall j :: 0 <= j < i ==> carts[j].id != id
    ensures i < |carts| ==> carts[i].id == id
  {
    if carts == [] then 0
    else if carts[0].id == id then 0
    else 1 + FirstIndex(carts[1..], id)
  }

  /** When identifiers are unique, the scan for the identifier of cart k stops at cart k. */
  lemma EveryCartFound(carts: seq<ShoppingCart>, k: nat)
    requires UniqueCartIds(carts)
    requires k < |carts|
    ensures FirstIndex(carts, carts[k].id) == k
  {
  }

  /** When identifiers are unique, findBy returns every registered cart when given its identifier. */
  lemma RegisteredCartsFound(registry: Registry)
    requires UniqueCartIds(registry.carts)
    ensures forall c <- registry.carts :: registry.FindBy(c.id) == c
  {
    forall c | c in registry.carts ensures registry.FindBy(c.id) == c {
      var k :| 0 <= k < |registry.carts| && registry.carts[k] == c;
      EveryCartFound(registry.carts, k);
    }
  }

  /** A cart appended behind carts with other identifiers is what the scan for its identifier finds. */
  lemma {:induction false} AppendedCartFound(carts: seq<ShoppingCart>, c: ShoppingCart)
    requires forall d <- carts :: d.id != c.id
    ensures FirstIndex(carts + [c], c.id) == |carts|
  {
    if carts == [] {
      assert carts + [c] == [c];
    } else {
      assert carts[0] in carts;
      assert (carts + [c])[1..] == carts[1..] + [c];
      AppendedCartFound(carts[1..], c);
    }
  }

  /** The registry of all carts, in creation order. */
  class Registry {
    var carts: seq<ShoppingCart>

    constructor ()
      ensures carts == []
    {
      carts := [];
    }

    /** Registered carts have unique identifiers, all of them issued by ids. */
    ghost predicate Valid(ids: IdSource)
      reads this, ids
    {
      UniqueCartIds(carts) && forall c <- carts :: c.id in ids.issued
    }

    /** A snapshot of the registry, in creation order. */
    function ListAll(): (r: seq<ShoppingCart>)
      reads this
      ensures r == carts
    {
      carts
    }

    /** The first registered cart whose identifier is id, or null when there is none. */
    function FindBy(id: nat): (r: ShoppingCart?)
      reads this
      ensures r == null <==> forall c <- carts :: c.id != id
      ensures r != null ==>
        r.id == id &&
        exists i :: 0 <= i < |carts| && carts[i] == r && forall j :: 0 <= j < i ==> carts[j].id != id
    {
      var i := FirstIndex(carts, id);
      if i < |carts| then carts[i] else null
    }
  }

  /** A cart: an identifier fixed at construction and an ordered list of line items. */
  class ShoppingCart {
    const id: nat
    var items: seq<Item>

    /** Item identifiers are distinct and were all issued by ids. */
    ghost predicate Valid(ids: IdSource)
      reads this, ids
    {
      DistinctIds(items) && forall it <- items :: it.id in ids.issued
    }

    /** A new empty cart with a fresh identifier, appended to the registry. */
    constructor (registry: Registry, ids: IdSource)
      requires ids.Valid() && registry.Valid(ids)
      modifies registry, ids
      ensures items == [] && Valid(ids)
      ensures ids.Valid() && id !in old(ids.issued) && ids.issued == old(ids.issued) + {id}
      ensures registry.carts == old(registry.carts) + [this]
      ensures registry.Valid(ids)
      ensures registry.FindBy(id) == this
    {
      var newId := ids.Next();
      id := newId;
      items := [];
      new;
      AppendedCartFound(registry.carts, this);
      registry.carts := registry.carts + [this];
    }

    /** Appends a new item with a fresh identifier and the given name and price, and returns it. */
    method CreateItem(ids: IdSource, name: string, price: int) returns (item: Item)
      requires ids.Valid()
      modifies this, ids
      ensures item.name == name && item.price == price
      ensures ids.Valid() && item.id !in old(ids.issued) && ids.issued == old(ids.issued) + {item.id}
      ensures items == old(items) + [item]
      ensures GetTotal() == old(GetTotal()) + price
      ensures old(Valid(ids)) ==> Valid(ids)
    {
      var newId := ids.Next();
      item := Item(newId, name, price);
      TotalAppend(items, item);
      items := items + [item];
    }

    /** A snapshot of the items, in the order they were added. */
    function GetItems(): (r: seq<Item>)
      reads this
      ensures r == items
    {
      items
    }

    /** Drops every item whose identifier is id, keeping the others in order. */
    method RemoveItem(id: nat)
      modifies this
      ensures items == Without(old(items), id)
      ensures forall it :: it in items <==> it in old(items) && it.id != id
      ensures DistinctIds(old(items)) ==> DistinctIds(items)
      ensures forall k :: 0 <= k < |old(items)| && DistinctIds(old(items)) && old(items)[k].id == id ==>
        items == old(items)[..k] + old(items)[k + 1..] && GetTotal() == old(GetTotal()) - old(items)[k].price
    {
      ghost var before := items;
      WithoutMembers(items, id);
      if DistinctIds(items) {
        WithoutKeepsDistinct(items, id);
      }
      items := Without(items, id);
      forall k | 0 <= k < |before| && DistinctIds(before) && before[k].id == id
        ensures items == before[..k] + before[k + 1..] && Total(items) == Total(before) - before[k].price
      {
        WithoutRemovesOne(before, k);
        TotalWithout(before, k);
      }
    }

    /** The sum of the prices of the current items; 0 for an empty cart. */
    function GetTotal(): (r: int)
      reads this
      ensures r == SumOfPrices(items)
      ensures items == [] ==> r == 0
    {
      TotalIsSumOfPrices(items);
      Total(items)
    }
  }

  /** A client run: two items, a removal, and the lookups that follow from the contracts. */
  method ExampleScenario()
  {
    var ids := new IdSource();
    var registry := new Registry();
    var cart := new ShoppingCart(registry, ids);
    var book := cart.CreateItem(ids, "Book", 1250);
    var pen := cart.CreateItem(ids, "Pen", 150);
    assert cart.GetItems() == [book, pen];
    assert cart.GetTotal() == 1400;
    cart.RemoveItem(book.id);
    assert Without([pen], book.id) == [pen];
    assert cart.GetItems() == [pen];
    assert cart.GetTotal() == 150;
    assert registry.ListAll() == [cart];
    assert registry.FindBy(cart.id) == cart;
  }
}

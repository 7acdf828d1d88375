/**
  Line items and the pure operations a cart performs on its item list:
  the running total (a left fold of the prices starting from 0) and the
  filter that removing an item by identifier performs.
 */
module CartItems {

  /** A line item: an immutable record. Prices are whole numbers (cents). */
  datatype Item = Item(id: nat, name: string, price: int)

  /** No two items of the list share an identifier. */
  ghost predicate DistinctIds(items: seq<Item>)
  {
    forall i, j :: 0 <= i < j < |items| ==> items[i].id != items[j].id
  }

  /** The cart total as the source computes it: fold the prices left to right from 0. */
  function Total(items: seq<Item>): int
  {
    if items == [] then 0 else Total(items[..|items| - 1]) + items[|items| - 1].price
  }

  /** Reference definition of the sum of the prices, taken head first. */
  function SumOfPrices(items: seq<Item>): int
  {
    if items == [] then 0 else items[0].price + SumOfPrices(items[1..])
  }

  lemma {:induction false} SumOfPricesAppend(items: seq<Item>, x: Item)
    ensures SumOfPrices(items + [x]) == SumOfPrices(items) + x.price
  {
    if items == [] {
      assert [] + [x] == [x];
    } else {
      assert (items + [x])[1..] == items[1..] + [x];
      SumOfPricesAppend(items[1..], x);
    }
  }

  /** The left fold adds up exactly the prices of the items. */
  lemma {:induction false} TotalIsSumOfPrices(items: seq<Item>)
    ensures Total(items) == SumOfPrices(items)
  {
    if items != [] {
      var init, last := items[..|items| - 1], items[|items| - 1];
      TotalIsSumOfPrices(init);
      SumOfPricesAppend(init, last);
      assert init + [last] == items;
    }
  }

  /** Appending an item raises the total by exactly its price. */
  lemma TotalAppend(items: seq<Item>, x: Item)
    ensures Total(items + [x]) == Total(items) + x.price
  {
    assert (items + [x])[..|items|] == items;
  }

  /** The total of a concatenation is the sum of the totals. */
  lemma {:induction false} TotalConcat(a: seq<Item>, b: seq<Item>)
    ensures Total(a + b) == Total(a) + Total(b)
  {
    if b == [] {
      assert a + b == a;
    } else {
      var init, last := b[..|b| - 1], b[|b| - 1];
      assert b == init + [last];
      assert a + b == (a + init) + [last];
      TotalConcat(a, init);
      TotalAppend(a + init, last);
      TotalAppend(init, last);
    }
  }

  /** The list removeItem leaves behind: the items whose identifier differs from id, in order. */
  function Without(items: seq<Item>, id: nat): (r: seq<Item>)
    ensures |r| <= |items|
  {
    if items == [] then []
    else (if items[0].id == id then [] else [items[0]]) + Without(items[1..], id)
  }

  /** An item survives the removal exactly when it was there and carries another identifier. */
  lemma {:induction false} WithoutMembers(items: seq<Item>, id: nat)
    ensures forall x :: x in Without(items, id) <==> x in items && x.id != id
  {
    if items != [] {
      WithoutMembers(items[1..], id);
      assert items == [items[0]] + items[1..];
    }
  }

  /** Removal works element by element: it distributes over concatenation, so order is kept. */
  lemma {:induction false} WithoutConcat(a: seq<Item>, b: seq<Item>, id: nat)
    ensures Without(a + b, id) == Without(a, id) + Without(b, id)
  {
    if a == [] {
      assert a + b == b;
    } else {
      assert (a + b)[0] == a[0];
      assert (a + b)[1..] == a[1..] + b;
      WithoutConcat(a[1..], b, id);
    }
  }

  /** Removing an identifier no item carries changes nothing. */
  lemma {:induction false} WithoutAbsent(items: seq<Item>, id: nat)
    requires forall x <- items :: x.id != id
    ensures Without(items, id) == items
  {
    if items != [] {
      assert items[0] in items;
      WithoutAbsent(items[1..], id);
      assert [items[0]] + items[1..] == items;
    }
  }

  /** Removing the same identifier a second time is a no-op. */
  lemma WithoutIdempotent(items: seq<Item>, id: nat)
    ensures Without(Without(items, id), id) == Without(items, id)
  {
    WithoutMembers(items, id);
    WithoutAbsent(Without(items, id), id);
  }

  /** Under distinct identifiers, only item k carries the identifier of item k. */
  lemma OthersDiffer(items: seq<Item>, k: nat)
    requires DistinctIds(items)
    requires k < |items|
    ensures forall x <- items[..k] :: x.id != items[k].id
    ensures forall x <- items[k + 1..] :: x.id != items[k].id
  {
    forall x | x in items[..k] ensures x.id != items[k].id {
      var i :| 0 <= i < k && items[..k][i] == x;
      assert items[i] == x;
    }
    forall x | x in items[k + 1..] ensures x.id != items[k].id {
      var i :| 0 <= i < |items| - k - 1 && items[k + 1..][i] == x;
      assert items[k + 1 + i] == x;
    }
  }

  /** Removing the identifier only x carries cuts x out of before + [x] + after. */
  lemma WithoutSplice(before: seq<Item>, x: Item, after: seq<Item>)
    requires forall y <- before :: y.id != x.id
    requires forall y <- after :: y.id != x.id
    ensures Without(before + [x] + after, x.id) == before + after
  {
    WithoutAbsent(before, x.id);
    WithoutAbsent(after, x.id);
    assert Without([x], x.id) == [] by {
      assert [x][1..] == [];
    }
    WithoutConcat(before + [x], after, x.id);
    WithoutConcat(before, [x], x.id);
  }

  /** With distinct identifiers, removing the identifier of item k takes out item k and nothing else. */
  lemma WithoutRemovesOne(items: seq<Item>, k: nat)
    requires DistinctIds(items)
    requires k < |items|
    ensures Without(items, items[k].id) == items[..k] + items[k + 1..]
  {
    OthersDiffer(items, k);
    assert items == items[..k] + [items[k]] + items[k + 1..];
    WithoutSplice(items[..k], items[k], items[k + 1..]);
  }

  /** With distinct identifiers, removing item k lowers the total by exactly its price. */
  lemma TotalWithout(items: seq<Item>, k: nat)
    requires DistinctIds(items)
    requires k < |items|
    ensures Total(Without(items, items[k].id)) == Total(items) - items[k].price
  {
    var before, x, after := items[..k], items[k], items[k + 1..];
    WithoutRemovesOne(items, k);
    assert items == (before + [x]) + after;
    TotalConcat(before + [x], after);
    TotalAppend(before, x);
    TotalConcat(before, after);
  }

  /** Removal keeps the identifiers of the remaining items distinct. */
  lemma {:induction false} WithoutKeepsDistinct(items: seq<Item>, id: nat)
    requires DistinctIds(items)
    ensures DistinctIds(Without(items, id))
  {
    if items != [] {
      var rest := Without(items[1..], id);
      WithoutKeepsDistinct(items[1..], id);
      if items[0].id != id {
        WithoutMembers(items[1..], id);
        forall j | 0 <= j < |rest| ensures items[0].id != rest[j].id {
          assert rest[j] in items[1..];
          var m :| 0 <= m < |items[1..]| && items[1..][m] == rest[j];
          assert items[1 + m] == rest[j];
        }
        var r := [items[0]] + rest;
        forall i, j | 0 <= i < j < |r| ensures r[i].id != r[j].id {
          if i == 0 {
            assert r[j] == rest[j - 1];
          } else {
            assert r[i] == rest[i - 1] && r[j] == rest[j - 1];
          }
        }
      }
    }
  }
}

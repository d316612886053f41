/** The shopping cart of the storefront: a list of lines, one per product,
    each with a quantity; every operation builds a new list. */
module Cart {

  /** The columns of a product the cart uses; prices are whole rupees. */
  datatype CartProduct = CartProduct(id: string, priceInr: int)

  datatype CartItem = CartItem(product: CartProduct, quantity: int)

  /** Some line holds the product. */
  predicate Contains(items: seq<CartItem>, id: string)
  {
    exists k :: 0 <= k < |items| && items[k].product.id == id
  }

  /** No two lines hold the same product. */
  ghost predicate Distinct(items: seq<CartItem>)
  {
    forall a, b :: 0 <= a < b < |items| ==> items[a].product.id != items[b].product.id
  }

  // ---------------------------------------------------------- operations

  /** The `map` of addItem: every line of the product gains `quantity`. */
  function AddToLines(items: seq<CartItem>, id: string, quantity: int): (r: seq<CartItem>)
    ensures |r| == |items|
    ensures forall k :: 0 <= k < |r| ==>
      r[k] == if items[k].product.id == id then items[k].(quantity := items[k].quantity + quantity) else items[k]
  {
    if items == [] then []
    else
      [if items[0].product.id == id then items[0].(quantity := items[0].quantity + quantity) else items[0]]
      + AddToLines(items[1..], id, quantity)
  }

  /** addItem: the line of a product already in the cart grows by
      `quantity` (keeping the product it was added with); a new product gets
      a new line at the end. The quantity is 1 unless the caller gives one. */
  function AddItem(items: seq<CartItem>, product: CartProduct, quantity: int := 1): seq<CartItem>
  {
    if Contains(items, product.id) then AddToLines(items, product.id, quantity)
    else items + [CartItem(product, quantity)]
  }

  /** removeItem: the `filter` that drops every line of the product. */
  function RemoveItem(items: seq<CartItem>, id: string): (r: seq<CartItem>)
    ensures !Contains(r, id)
    ensures forall x :: multiset(r)[x] == if x.product.id != id then multiset(items)[x] else 0
  {
    if items == [] then []
    else
      var rest := RemoveItem(items[1..], id);
      assert items == [items[0]] + items[1..];
      if items[0].product.id != id then
        var r := [items[0]] + rest;
        assert !Contains(r, id) by {
          forall k | 0 <= k < |r|
            ensures r[k].product.id != id
          {
            if k > 0 {
              assert r[k] == rest[k - 1];
            }
          }
        }
        r
      else rest
  }

  /** The `map` of updateQuantity: every line of the product gets `quantity`. */
  function SetLines(items: seq<CartItem>, id: string, quantity: int): (r: seq<CartItem>)
    ensures |r| == |items|
    ensures forall k :: 0 <= k < |r| ==> r[k] == if items[k].product.id == id then items[k].(quantity := quantity) else items[k]
  {
    if items == [] then []
    else [if items[0].product.id == id then items[0].(quantity := quantity) else items[0]] + SetLines(items[1..], id, quantity)
  }

  /** updateQuantity: a quantity of zero or less removes the product. */
  function UpdateQuantity(items: seq<CartItem>, id: string, quantity: int): (r: seq<CartItem>)
  {
    if quantity <= 0 then RemoveItem(items, id) else SetLines(items, id, quantity)
  }

  /** clearCart. */
  function ClearCart(): seq<CartItem>
  {
    []
  }

  /** total: the sum of price × quantity over the lines. */
  function Total(items: seq<CartItem>): int
  {
    if items == [] then 0 else Total(items[..|items| - 1]) + LineTotal(items[|items| - 1])
  }

  function LineTotal(x: CartItem): int
  {
    x.product.priceInr * x.quantity
  }

  /** itemCount: the sum of the quantities. */
  function ItemCount(items: seq<CartItem>): int
  {
    if items == [] then 0 else ItemCount(items[..|items| - 1]) + items[|items| - 1].quantity
  }

  // -------------------------------------------------------------- addItem

  /** A product already in the cart: same number of lines, only its line changes. */
  lemma AddExisting(items: seq<CartItem>, product: CartProduct, quantity: int)
    requires Contains(items, product.id)
    ensures var r := AddItem(items, product, quantity);
      && |r| == |items|
      && forall k :: 0 <= k < |r| ==>
           r[k] == if items[k].product.id == product.id then items[k].(quantity := items[k].quantity + quantity) else items[k]
  {
  }

  /** A new product: one more line, at the end, and the others untouched. */
  lemma AddNew(items: seq<CartItem>, product: CartProduct, quantity: int)
    requires !Contains(items, product.id)
    ensures AddItem(items, product, quantity) == items + [CartItem(product, quantity)]
  {
  }

  /** addItem never puts a product on two lines. */
  lemma AddKeepsDistinct(items: seq<CartItem>, product: CartProduct, quantity: int)
    requires Distinct(items)
    ensures Distinct(AddItem(items, product, quantity))
  {
    var r := AddItem(items, product, quantity);
    if !Contains(items, product.id) {
      forall a, b | 0 <= a < b < |r|
        ensures r[a].product.id != r[b].product.id
      {
        if b == |items| {
          assert items[a].product.id != product.id;
        }
      }
    }
  }

  // ----------------------------------------------------- removeItem, update

  /** removeItem keeps the order of the lines it keeps: it works line by line. */
  lemma {:induction false} RemoveSplits(a: seq<CartItem>, b: seq<CartItem>, id: string)
    ensures RemoveItem(a + b, id) == RemoveItem(a, id) + RemoveItem(b, id)
  {
    if a == [] {
      assert a + b == b;
    } else {
      assert (a + b)[1..] == a[1..] + b;
      RemoveSplits(a[1..], b, id);
    }
  }

  /** Removing a product the cart does not hold changes nothing. */
  lemma {:induction false} RemoveAbsent(items: seq<CartItem>, id: string)
    requires !Contains(items, id)
    ensures RemoveItem(items, id) == items
  {
    if items != [] {
      assert !Contains(items[1..], id) by {
        forall k | 0 <= k < |items[1..]|
          ensures items[1..][k].product.id != id
        {
          assert items[1..][k] == items[k + 1];
        }
      }
      RemoveAbsent(items[1..], id);
      assert items == [items[0]] + items[1..];
    }
  }

  /** Every line removeItem keeps was a line of the cart. */
  lemma RemovedFrom(items: seq<CartItem>, id: string, y: CartItem)
    requires y in RemoveItem(items, id)
    ensures y in items
  {
    assert multiset(RemoveItem(items, id))[y] > 0;
  }

  lemma DistinctTail(items: seq<CartItem>)
    requires Distinct(items) && |items| > 0
    ensures Distinct(items[1..])
    ensures forall y :: y in items[1..] ==> y.product.id != items[0].product.id
  {
    var tail := items[1..];
    forall a, b | 0 <= a < b < |tail| ensures tail[a].product.id != tail[b].product.id {
      assert tail[a] == items[a + 1] && tail[b] == items[b + 1];
    }
    forall y | y in tail ensures y.product.id != items[0].product.id {
      var c :| 0 <= c < |tail| && tail[c] == y;
      assert tail[c] == items[c + 1];
    }
  }

  /** Dropping lines never puts a product on two lines. */
  lemma {:induction false} RemoveKeepsDistinct(items: seq<CartItem>, id: string)
    requires Distinct(items)
    ensures Distinct(RemoveItem(items, id))
  {
    if items != [] {
      var x := items[0];
      DistinctTail(items);
      RemoveKeepsDistinct(items[1..], id);
      var rest := RemoveItem(items[1..], id);
      if x.product.id != id {
        forall y | y in rest ensures y.product.id != x.product.id {
          RemovedFrom(items[1..], id, y);
        }
        ConsDistinct(x, rest);
      }
    }
  }

  lemma ConsDistinct(x: CartItem, rest: seq<CartItem>)
    requires Distinct(rest) && forall y :: y in rest ==> y.product.id != x.product.id
    ensures Distinct([x] + rest)
  {
    var r := [x] + rest;
    forall a, b | 0 <= a < b < |r| ensures r[a].product.id != r[b].product.id {
      assert r[b] == rest[b - 1];
      if a > 0 {
        assert r[a] == rest[a - 1];
      }
    }
  }

  /** Setting quantities keeps every line's product, so it keeps the lines distinct. */
  lemma SetLinesKeepsDistinct(items: seq<CartItem>, id: string, quantity: int)
    requires Distinct(items)
    ensures Distinct(SetLines(items, id, quantity))
  {
    var r := SetLines(items, id, quantity);
    assert forall k :: 0 <= k < |r| ==> r[k].product == items[k].product;
  }

  /** updateQuantity never puts a product on two lines. */
  lemma UpdateKeepsDistinct(items: seq<CartItem>, id: string, quantity: int)
    requires Distinct(items)
    ensures Distinct(UpdateQuantity(items, id, quantity))
  {
    if quantity <= 0 {
      RemoveKeepsDistinct(items, id);
    } else {
      SetLinesKeepsDistinct(items, id, quantity);
    }
  }

  /** updateQuantity with a quantity of zero or less is removeItem. */
  lemma UpdateNonPositiveRemoves(items: seq<CartItem>, id: string, quantity: int)
    requires quantity <= 0
    ensures UpdateQuantity(items, id, quantity) == RemoveItem(items, id)
    ensures !Contains(UpdateQuantity(items, id, quantity), id)
  {
  }

  /** updateQuantity with a positive quantity sets the product's line and
      nothing else; a product not in the cart leaves it as it was. */
  lemma UpdatePositiveSets(items: seq<CartItem>, id: string, quantity: int)
    requires quantity > 0
    ensures var r := UpdateQuantity(items, id, quantity);
      && |r| == |items|
      && (forall k :: 0 <= k < |r| ==> r[k] == if items[k].product.id == id then items[k].(quantity := quantity) else items[k])
      && (!Contains(items, id) ==> r == items)
  {
    var r := UpdateQuantity(items, id, quantity);
    if !Contains(items, id) {
      assert forall k :: 0 <= k < |r| ==> r[k] == items[k];
    }
  }

  // --------------------------------------------------------------- totals

  lemma {:induction false} ItemCountAppend(a: seq<CartItem>, b: seq<CartItem>)
    ensures ItemCount(a + b) == ItemCount(a) + ItemCount(b)
    decreases |b|
  {
    if b == [] {
      assert a + b == a;
    } else {
      assert (a + b)[..|a + b| - 1] == a + b[..|b| - 1];
      ItemCountAppend(a, b[..|b| - 1]);
    }
  }

  lemma {:induction false} TotalAppend(a: seq<CartItem>, b: seq<CartItem>)
    ensures Total(a + b) == Total(a) + Total(b)
    decreases |b|
  {
    if b == [] {
      assert a + b == a;
    } else {
      assert (a + b)[..|a + b| - 1] == a + b[..|b| - 1];
      TotalAppend(a, b[..|b| - 1]);
    }
  }

  /** The sums are folds: they can be taken from the front as well. */
  lemma SumsFromFront(x: CartItem, rest: seq<CartItem>)
    ensures ItemCount([x] + rest) == x.quantity + ItemCount(rest)
    ensures Total([x] + rest) == LineTotal(x) + Total(rest)
  {
    ItemCountAppend([x], rest);
    TotalAppend([x], rest);
    assert [x][..0] == [];
  }

  /** A line that gains `quantity` adds `quantity` times its price to the total. */
  lemma LineTotalGrows(x: CartItem, quantity: int)
    ensures LineTotal(x.(quantity := x.quantity + quantity)) == LineTotal(x) + x.product.priceInr * quantity
  {
    var p := x.product.priceInr;
    assert p * (x.quantity + quantity) == p * x.quantity + p * quantity;
  }

  /** What adding `quantity` to every line of the product adds to the item
      count: `quantity` once per such line. */
  function CountGain(items: seq<CartItem>, id: string, quantity: int): int
  {
    if items == [] then 0
    else (if items[0].product.id == id then quantity else 0) + CountGain(items[1..], id, quantity)
  }

  /** What it adds to the total: `quantity` times the price of each such line. */
  function TotalGain(items: seq<CartItem>, id: string, quantity: int): int
  {
    if items == [] then 0
    else (if items[0].product.id == id then items[0].product.priceInr * quantity else 0) + TotalGain(items[1..], id, quantity)
  }

  lemma {:induction false} AddToLinesSums(items: seq<CartItem>, id: string, quantity: int)
    ensures ItemCount(AddToLines(items, id, quantity)) == ItemCount(items) + CountGain(items, id, quantity)
    ensures Total(AddToLines(items, id, quantity)) == Total(items) + TotalGain(items, id, quantity)
  {
    if items != [] {
      var x := items[0];
      var rest := AddToLines(items[1..], id, quantity);
      AddToLinesSums(items[1..], id, quantity);
      assert items == [x] + items[1..];
      SumsFromFront(x, items[1..]);
      if x.product.id == id {
        var y := x.(quantity := x.quantity + quantity);
        assert AddToLines(items, id, quantity) == [y] + rest;
        SumsFromFront(y, rest);
        LineTotalGrows(x, quantity);
      } else {
        assert AddToLines(items, id, quantity) == [x] + rest;
        SumsFromFront(x, rest);
      }
    }
  }

  /** Lines of other products gain nothing. */
  lemma {:induction false} NoGain(items: seq<CartItem>, id: string, quantity: int)
    requires forall k :: 0 <= k < |items| ==> items[k].product.id != id
    ensures CountGain(items, id, quantity) == 0 && TotalGain(items, id, quantity) == 0
  {
    if items != [] {
      NoGain(items[1..], id, quantity);
    }
  }

  /** In a cart without repeated products, the product on line k is on that
      line only, so the gains are those of line k alone. */
  lemma {:induction false} DistinctGain(items: seq<CartItem>, k: nat, quantity: int)
    requires Distinct(items) && k < |items|
    ensures CountGain(items, items[k].product.id, quantity) == quantity
    ensures TotalGain(items, items[k].product.id, quantity) == items[k].product.priceInr * quantity
  {
    var id := items[k].product.id;
    if k == 0 {
      NoGain(items[1..], id, quantity);
    } else {
      assert items[1..][k - 1] == items[k];
      DistinctGain(items[1..], k - 1, quantity);
    }
  }

  /** After addItem(p, q) the item count has grown by exactly q. */
  lemma AddItemCount(items: seq<CartItem>, product: CartProduct, quantity: int)
    requires Distinct(items)
    ensures ItemCount(AddItem(items, product, quantity)) == ItemCount(items) + quantity
  {
    if Contains(items, product.id) {
      var k :| 0 <= k < |items| && items[k].product.id == product.id;
      AddToLinesSums(items, product.id, quantity);
      DistinctGain(items, k, quantity);
    } else {
      ItemCountAppend(items, [CartItem(product, quantity)]);
    }
  }

  /** After addItem(p, q) the total has grown by q times the price of the
      product's line: the price it was first added with when the cart held
      it already, the given product's price otherwise. */
  lemma AddItemTotal(items: seq<CartItem>, product: CartProduct, quantity: int)
    requires Distinct(items)
    ensures !Contains(items, product.id) ==>
      Total(AddItem(items, product, quantity)) == Total(items) + product.priceInr * quantity
    ensures forall k :: 0 <= k < |items| && items[k].product.id == product.id ==>
      Total(AddItem(items, product, quantity)) == Total(items) + items[k].product.priceInr * quantity
  {
    if Contains(items, product.id) {
      AddToLinesSums(items, product.id, quantity);
      forall k | 0 <= k < |items| && items[k].product.id == product.id
        ensures Total(AddItem(items, product, quantity)) == Total(items) + items[k].product.priceInr * quantity
      {
        DistinctGain(items, k, quantity);
      }
    } else {
      TotalAppend(items, [CartItem(product, quantity)]);
      assert [CartItem(product, quantity)][..0] == [];
    }
  }

  /** An empty cart totals 0, counts 0 items and repeats no product. */
  lemma ClearedSums()
    ensures Total(ClearCart()) == 0 && ItemCount(ClearCart()) == 0
    ensures Distinct(ClearCart())
  {
  }
}

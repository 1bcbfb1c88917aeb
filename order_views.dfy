/**
 * Order creation (`view_create` on POST): the order is created with total 0,
 * then one item per submitted entry is created in submission order with
 * subtotal = unit price × quantity, and finally the order's total is set to
 * the sum of the subtotals. Money is in whole cents; the database is a map
 * of orders and the sequence of item rows in creation order.
 */
module OrderViews {
  import opened Outcomes

  datatype Product = Product(price: int, qtyStock: int)
  datatype Order = Order(customer: int, totalAmount: int)
  datatype OrderItem = OrderItem(order: nat, product: int, quantity: int, subtotal: int)

  /** One element of the posted `products` list: its `id` and, when present, its `quantity`. */
  datatype Entry = Entry(productId: int, quantity: Option<int>)

  /** The response: a redirect to the order list, or the exception that ends the request. */
  datatype Outcome =
    | Redirected(orderId: nat)
    | CustomerNotFound
    | ProductNotFound(orderId: nat, position: nat)

  /** `int(item.get('quantity', 1))`: a missing quantity counts as 1. */
  function QuantityOf(e: Entry): (q: int)
    ensures e.quantity.None? ==> q == 1
    ensures e.quantity.Some? ==> q == e.quantity.value
  {
    if e.quantity.Some? then e.quantity.value else 1
  }

  /** The item row for one entry whose product exists. */
  function ItemFor(orderId: nat, e: Entry, products: map<int, Product>): OrderItem
    requires e.productId in products
  {
    OrderItem(orderId, e.productId, QuantityOf(e), products[e.productId].price * QuantityOf(e))
  }

  predicate AllKnown(entries: seq<Entry>, products: map<int, Product>)
  {
    forall i :: 0 <= i < |entries| ==> entries[i].productId in products
  }

  /** The rows created for entries whose products all exist, in submission order. */
  function ItemsFor(orderId: nat, entries: seq<Entry>, products: map<int, Product>): seq<OrderItem>
    requires AllKnown(entries, products)
  {
    if entries == [] then []
    else ItemsFor(orderId, entries[..|entries| - 1], products) + [ItemFor(orderId, entries[|entries| - 1], products)]
  }

  /** The sum of the subtotals. */
  function Total(items: seq<OrderItem>): int
  {
    if items == [] then 0 else Total(items[..|items| - 1]) + items[|items| - 1].subtotal
  }

  /** The length of the longest prefix of entries whose products exist. */
  function KnownPrefix(entries: seq<Entry>, products: map<int, Product>): (n: nat)
    ensures n <= |entries| && AllKnown(entries[..n], products)
    ensures n < |entries| ==> entries[n].productId !in products
  {
    if entries == [] then 0
    else if entries[0].productId !in products then 0
    else
      var n := 1 + KnownPrefix(entries[1..], products);
      assert entries[..n] == [entries[0]] + entries[1..][..n - 1];
      n
  }

  // ---- properties of the specification

  /** One item per entry, in order, with that entry's product and quantity and subtotal price × quantity. */
  lemma {:induction false} ItemsForSpec(orderId: nat, entries: seq<Entry>, products: map<int, Product>)
    requires AllKnown(entries, products)
    ensures |ItemsFor(orderId, entries, products)| == |entries|
    ensures forall i :: 0 <= i < |entries| ==>
      var item := ItemsFor(orderId, entries, products)[i];
      && item.order == orderId
      && item.product == entries[i].productId
      && item.quantity == QuantityOf(entries[i])
      && item.subtotal == products[entries[i].productId].price * QuantityOf(entries[i])
  {
    if entries != [] {
      var front := entries[..|entries| - 1];
      assert AllKnown(front, products);
      ItemsForSpec(orderId, front, products);
    }
  }

  /** The total of a list of items extends by the subtotal of the item added last. */
  lemma TotalAppend(items: seq<OrderItem>, item: OrderItem)
    ensures Total(items + [item]) == Total(items) + item.subtotal
  {
    assert (items + [item])[..|items|] == items;
  }

  /** The total is additive over concatenation. */
  lemma {:induction false} TotalConcat(a: seq<OrderItem>, b: seq<OrderItem>)
    ensures Total(a + b) == Total(a) + Total(b)
    decreases |b|
  {
    if b == [] {
      assert a + b == a;
    } else {
      var front := b[..|b| - 1];
      assert a + b == (a + front) + [b[|b| - 1]];
      TotalAppend(a + front, b[|b| - 1]);
      TotalConcat(a, front);
      TotalAppend(front, b[|b| - 1]);
      assert front + [b[|b| - 1]] == b;
    }
  }

  /** Every subtotal non-negative makes the total non-negative, and each subtotal at most the total. */
  lemma {:induction false} TotalBounds(items: seq<OrderItem>)
    requires forall i :: 0 <= i < |items| ==> items[i].subtotal >= 0
    ensures Total(items) >= 0
    ensures forall i :: 0 <= i < |items| ==> items[i].subtotal <= Total(items)
  {
    if items != [] {
      var front := items[..|items| - 1];
      TotalBounds(front);
      forall i | 0 <= i < |items| ensures items[i].subtotal <= Total(items) {
        if i < |items| - 1 { assert items[i] == front[i]; }
      }
    }
  }

  /** An order of one line: its total is the price times the quantity (e.g. 3 × 100.00 = 300.00). */
  lemma SingleLineTotal(orderId: nat, e: Entry, products: map<int, Product>)
    requires e.productId in products
    ensures AllKnown([e], products)
    ensures Total(ItemsFor(orderId, [e], products)) == products[e.productId].price * QuantityOf(e)
  {
    assert [e][..0] == [];
  }

  /** Extending a fully known prefix by one more known entry appends that entry's item. */
  lemma ItemsForStep(orderId: nat, entries: seq<Entry>, i: nat, products: map<int, Product>)
    requires i < |entries| && AllKnown(entries[..i], products) && entries[i].productId in products
    ensures AllKnown(entries[..i + 1], products)
    ensures ItemsFor(orderId, entries[..i + 1], products)
         == ItemsFor(orderId, entries[..i], products) + [ItemFor(orderId, entries[i], products)]
    ensures Total(ItemsFor(orderId, entries[..i + 1], products))
         == Total(ItemsFor(orderId, entries[..i], products)) + ItemFor(orderId, entries[i], products).subtotal
  {
    assert entries[..i + 1][..i] == entries[..i];
    TotalAppend(ItemsFor(orderId, entries[..i], products), ItemFor(orderId, entries[i], products));
  }

  /** The first unknown entry after a known prefix is where the known prefix ends. */
  lemma {:induction false} KnownPrefixStopsAt(entries: seq<Entry>, i: nat, products: map<int, Product>)
    requires i <= |entries| && AllKnown(entries[..i], products)
    requires i < |entries| ==> entries[i].productId !in products
    ensures KnownPrefix(entries, products) == i
    decreases i
  {
    if i > 0 {
      assert entries[0] == entries[..i][0];
      assert entries[1..][..i - 1] == entries[..i][1..];
      if i - 1 < |entries[1..]| { assert entries[1..][i - 1] == entries[i]; }
      KnownPrefixStopsAt(entries[1..], i - 1, products);
    }
  }

  class Database {
    var customers: set<int>
    var products: map<int, Product>
    var orders: map<nat, Order>
    var items: seq<OrderItem>
    var nextOrderId: nat

    /** Order ids are handed out in increasing order. */
    ghost predicate Valid()
      reads this
    {
      forall id :: id in orders ==> id < nextOrderId
    }

    constructor (customers: set<int>, products: map<int, Product>)
      ensures Valid()
      ensures this.customers == customers && this.products == products
      ensures orders == map[] && items == [] && nextOrderId == 1
    {
      this.customers := customers;
      this.products := products;
      orders := map[];
      items := [];
      nextOrderId := 1;
    }

    /**
     * `view_create` on POST. An unknown customer raises before anything is
     * written. An unknown product raises in the middle of the loop: the order
     * (still with total 0) and the items created before it stay, since nothing
     * wraps the view in a transaction. Products, and their stock, are never written.
     */
    method CreateOrder(customerId: int, entries: seq<Entry>) returns (outcome: Outcome)
      requires Valid()
      modifies this
      ensures Valid()
      ensures customers == old(customers) && products == old(products)
      ensures customerId !in customers ==>
        && outcome == CustomerNotFound
        && orders == old(orders) && items == old(items) && nextOrderId == old(nextOrderId)
      ensures customerId in customers ==>
        var id := old(nextOrderId);
        var n := KnownPrefix(entries, products);
        && id !in old(orders)
        && nextOrderId == id + 1
        && items == old(items) + ItemsFor(id, entries[..n], products)
        && (n == |entries| ==>
              && outcome == Redirected(id)
              && orders == old(orders)[id := Order(customerId, Total(ItemsFor(id, entries[..n], products)))])
        && (n < |entries| ==>
              && outcome == ProductNotFound(id, n)
              && orders == old(orders)[id := Order(customerId, 0)])
    {
      if customerId !in customers {
        return CustomerNotFound;
      }
      var id := nextOrderId;
      orders := orders[id := Order(customerId, 0)];
      nextOrderId := nextOrderId + 1;
      var total := 0;
      var i := 0;
      while i < |entries|
        invariant 0 <= i <= |entries|
        invariant AllKnown(entries[..i], products)
        invariant items == old(items) + ItemsFor(id, entries[..i], products)
        invariant total == Total(ItemsFor(id, entries[..i], products))
        invariant orders == old(orders)[id := Order(customerId, 0)]
        invariant nextOrderId == id + 1 && customers == old(customers) && products == old(products)
      {
        var entry := entries[i];
        var quantity := QuantityOf(entry);
        if entry.productId !in products {
          KnownPrefixStopsAt(entries, i, products);
          return ProductNotFound(id, i);
        }
        var product := products[entry.productId];
        var subtotal := product.price * quantity;
        var item := OrderItem(id, entry.productId, quantity, subtotal);
        ItemsForStep(id, entries, i, products);
        assert item == ItemFor(id, entry, products);
        assert old(items) + ItemsFor(id, entries[..i + 1], products) == items + [item];
        items := items + [item];
        total := total + subtotal;
        i := i + 1;
      }
      KnownPrefixStopsAt(entries, i, products);
      assert entries[..i] == entries;
      orders := orders[id := Order(customerId, total)];
      return Redirected(id);
    }
  }
}

/**
 * Order creation in the e-commerce backend: the cart's lines are checked
 * against the stock in order, copied into the order with their prices and
 * totals, the stock of each product is lowered by its line's quantity, and
 * the cart is emptied. The order list's page description is here too.
 */
module Orders {
  import opened Wrappers
  import Shop
  import Paging

  type UserId = string
  type OrderId = string

  const Pending: string := "PENDING"
  const Paid: string := "PAID"

  const EmptyCart: string := "Cart is empty"
  const ServerError: string := "Server error creating order"

  function Insufficient(name: string): string {
    "Insufficient stock for " + name
  }

  /** An order line: a copy of the cart line and of the product's name. */
  datatype OrderItem = OrderItem(product: Shop.ProductId, name: string, price: int, quantity: int, total: int)

  /** A stored order. The payment route changes its status and payment. */
  class Order {
    const id: OrderId
    const user: UserId
    const items: seq<OrderItem>
    const totalAmount: int
    const shippingAddress: string
    const isDeleted: bool
    var status: string
    var payment: Option<string>

    /** A new order: pending, not deleted, without a payment. */
    constructor (id: OrderId, user: UserId, items: seq<OrderItem>, totalAmount: int, shippingAddress: string)
      ensures this.id == id && this.user == user && this.items == items && this.totalAmount == totalAmount
      ensures this.shippingAddress == shippingAddress
      ensures status == Pending && payment == None && !isDeleted
    {
      this.id := id;
      this.user := user;
      this.items := items;
      this.totalAmount := totalAmount;
      this.shippingAddress := shippingAddress;
      this.isDeleted := false;
      status := Pending;
      payment := None;
    }
  }

  /** Why a line stops the order: its product is gone (reading its stock
      fails and the route answers 500), or its stock is below its quantity. */
  datatype Shortage = Missing | Short(name: string)

  /** The shortage of one line, if any. */
  function LineShortage(products: map<Shop.ProductId, Shop.Product>, item: Shop.Item): Option<Shortage> {
    if item.product !in products then Some(Missing)
    else if products[item.product].stock < item.quantity then Some(Short(products[item.product].name))
    else None
  }

  /** The stock check's verdict: the shortage of the first line that has one. */
  function FirstShortage(products: map<Shop.ProductId, Shop.Product>, items: seq<Shop.Item>): (r: Option<Shortage>)
    ensures r.None? <==> forall j :: 0 <= j < |items| ==> LineShortage(products, items[j]).None?
  {
    if items == [] then None
    else if LineShortage(products, items[0]).Some? then LineShortage(products, items[0])
    else FirstShortage(products, items[1..])
  }

  /** The check as the route runs it: a loop over the lines that stops at
      the first one short of stock. */
  method CheckStock(products: map<Shop.ProductId, Shop.Product>, items: seq<Shop.Item>) returns (r: Option<Shortage>)
    ensures r == FirstShortage(products, items)
  {
    var i := 0;
    while i < |items|
      invariant 0 <= i <= |items|
      invariant FirstShortage(products, items) == FirstShortage(products, items[i..])
      decreases |items| - i
    {
      assert items[i..][0] == items[i] && items[i..][1..] == items[i + 1..];
      var s := LineShortage(products, items[i]);
      if s.Some? {
        return s;
      }
      i := i + 1;
    }
    assert items[i..] == [];
    r := None;
  }

  /** The order's copy of the cart's lines, in the cart's order. */
  function Snapshot(products: map<Shop.ProductId, Shop.Product>, items: seq<Shop.Item>): (r: seq<OrderItem>)
    requires forall j :: 0 <= j < |items| ==> items[j].product in products
    ensures |r| == |items|
    ensures forall j :: 0 <= j < |items| ==>
              r[j] == OrderItem(items[j].product, products[items[j].product].name, items[j].price, items[j].quantity,
                                items[j].price * items[j].quantity)
  {
    seq(|items|, j requires 0 <= j < |items| =>
      OrderItem(items[j].product, products[items[j].product].name, items[j].price, items[j].quantity,
                items[j].price * items[j].quantity))
  }

  /** `$inc: {stock: -quantity}` on one product; a missing product is left alone. */
  function Decrease(products: map<Shop.ProductId, Shop.Product>, item: Shop.Item): map<Shop.ProductId, Shop.Product> {
    if item.product in products
    then products[item.product := products[item.product].(stock := products[item.product].stock - item.quantity)]
    else products
  }

  /** The products after the stock of every line, in order, is lowered. */
  function Decreased(products: map<Shop.ProductId, Shop.Product>, items: seq<Shop.Item>): map<Shop.ProductId, Shop.Product> {
    if items == [] then products
    else Decrease(Decreased(products, items[..|items| - 1]), items[|items| - 1])
  }

  /** Lowering the stock keeps the same products with the same names, prices
      and deletion marks, and each product's stock falls by the quantity
      held of it over all lines. */
  lemma {:induction false} DecreasedStock(products: map<Shop.ProductId, Shop.Product>, items: seq<Shop.Item>, id: Shop.ProductId)
    ensures Decreased(products, items).Keys == products.Keys
    ensures id in products ==>
              var p := Decreased(products, items)[id];
              && p == products[id].(stock := p.stock)
              && p.stock == products[id].stock - Shop.Held(items, id)
    decreases |items|
  {
    if items != [] {
      DecreasedStock(products, items[..|items| - 1], id);
    }
  }

  /** The check passed: every line's product exists and has the line's
      quantity in stock. */
  lemma NoShortage(products: map<Shop.ProductId, Shop.Product>, items: seq<Shop.Item>)
    requires FirstShortage(products, items).None?
    ensures forall j :: 0 <= j < |items| ==> items[j].product in products && products[items[j].product].stock >= items[j].quantity
  {
    forall j | 0 <= j < |items|
      ensures items[j].product in products && products[items[j].product].stock >= items[j].quantity
    {
      assert LineShortage(products, items[j]).None?;
    }
  }

  /** With one line per product, the quantity held of a product is that of
      its one line, or nothing. */
  lemma {:induction false} HeldOneLine(items: seq<Shop.Item>, id: Shop.ProductId)
    requires Shop.OneLinePerProduct(items)
    ensures Shop.LineOf(items, id).None? ==> Shop.Held(items, id) == 0
    ensures Shop.LineOf(items, id).Some? ==> Shop.Held(items, id) == items[Shop.LineOf(items, id).value].quantity
    decreases |items|
  {
    if items != [] {
      var init := items[..|items| - 1];
      assert Shop.OneLinePerProduct(init) by {
        assert forall j :: 0 <= j < |init| ==> init[j] == items[j];
      }
      HeldOneLine(init, id);
      assert forall j :: 0 <= j < |init| ==> init[j] == items[j];
      if Shop.LineOf(init, id).Some? {
        assert Shop.LineOf(items, id) == Shop.LineOf(init, id);
      } else if items[|items| - 1].product == id {
        assert Shop.LineOf(items, id) == Some(|items| - 1);
      } else {
        assert Shop.LineOf(items, id).None?;
      }
    }
  }

  /** When the cart has one line per product, as the add route keeps it, an
      order that passed the check leaves no stock negative. */
  lemma StockStaysNatural(products: map<Shop.ProductId, Shop.Product>, items: seq<Shop.Item>, id: Shop.ProductId)
    requires FirstShortage(products, items).None? && Shop.OneLinePerProduct(items)
    requires id in products && products[id].stock >= 0
    ensures id in Decreased(products, items) && Decreased(products, items)[id].stock >= 0
  {
    DecreasedStock(products, items, id);
    HeldOneLine(items, id);
    NoShortage(products, items);
  }

  /** Two lines of the same product pass the check one by one and drive the
      stock below zero: the check does not add up a product's lines. */
  lemma SplitLinesOversell()
    ensures var products := map["p" := Shop.Product("pen", 5, 1, false)];
            var items := [Shop.Item("a", "p", 1, 5), Shop.Item("b", "p", 1, 5)];
            && FirstShortage(products, items).None?
            && "p" in Decreased(products, items) && Decreased(products, items)["p"].stock == -1
  {
    var products := map["p" := Shop.Product("pen", 5, 1, false)];
    var items := [Shop.Item("a", "p", 1, 5), Shop.Item("b", "p", 1, 5)];
    assert items[1..][1..] == [];
    assert items[..1][..0] == [];
    assert items[..1] == [Shop.Item("a", "p", 1, 5)];
  }

  /** A route's answer: a refusal, or the new order. */
  datatype Reply = Refused(code: nat, message: string) | Created(order: Order)

  /** The stock of every line, in order, is lowered in the catalogue. */
  method DecreaseStock(catalogue: Shop.Catalogue, items: seq<Shop.Item>)
    modifies catalogue
    ensures catalogue.products == Decreased(old(catalogue.products), items)
  {
    for i := 0 to |items|
      invariant catalogue.products == Decreased(old(catalogue.products), items[..i])
    {
      assert items[..i + 1][..i] == items[..i];
      var item := items[i];
      if item.product in catalogue.products {
        var p := catalogue.products[item.product];
        catalogue.products := catalogue.products[item.product := p.(stock := p.stock - item.quantity)];
      }
    }
    assert items[..|items|] == items;
  }

  /** POST of an order. A missing or empty cart is refused with 400 and the
      first line short of stock with 400 (or 500 when its product is gone),
      before anything changes. Otherwise the new order is pending with the
      cart's lines and total, every product's stock falls by its lines'
      quantity, and the cart ends empty with a zero total. */
  method CreateOrder(catalogue: Shop.Catalogue, cart: Shop.Cart?, user: UserId, orderId: OrderId, shippingAddress: string)
    returns (reply: Reply)
    modifies catalogue, cart
    ensures cart == null ==> reply == Refused(400, EmptyCart) && unchanged(catalogue)
    ensures cart != null && old(cart.items) == [] ==> reply == Refused(400, EmptyCart) && unchanged(catalogue) && unchanged(cart)
    ensures cart != null && old(cart.items) != [] && FirstShortage(old(catalogue.products), old(cart.items)) == Some(Missing) ==>
              reply == Refused(500, ServerError) && unchanged(catalogue) && unchanged(cart)
    ensures cart != null && old(cart.items) != [] && FirstShortage(old(catalogue.products), old(cart.items)).Some? &&
            FirstShortage(old(catalogue.products), old(cart.items)).value.Short? ==>
              reply == Refused(400, Insufficient(FirstShortage(old(catalogue.products), old(cart.items)).value.name))
              && unchanged(catalogue) && unchanged(cart)
    ensures cart != null && old(cart.items) != [] && FirstShortage(old(catalogue.products), old(cart.items)).None? ==>
              && NoShortageIn(old(catalogue.products), old(cart.items))
              && reply.Created? && fresh(reply.order)
              && reply.order.id == orderId && reply.order.user == user && reply.order.shippingAddress == shippingAddress
              && reply.order.items == Snapshot(old(catalogue.products), old(cart.items))
              && reply.order.totalAmount == old(cart.totalAmount)
              && reply.order.status == Pending && reply.order.payment == None && !reply.order.isDeleted
              && catalogue.products == Decreased(old(catalogue.products), old(cart.items))
              && cart.items == [] && cart.totalAmount == 0
  {
    if cart == null || |cart.items| == 0 {
      return Refused(400, EmptyCart);
    }
    var shortage := CheckStock(catalogue.products, cart.items);
    if shortage.Some? {
      match shortage.value
      case Missing => return Refused(500, ServerError);
      case Short(name) => return Refused(400, Insufficient(name));
    }
    NoShortage(catalogue.products, cart.items);
    var lines := Snapshot(catalogue.products, cart.items);
    var order := new Order(orderId, user, lines, cart.totalAmount, shippingAddress);
    DecreaseStock(catalogue, cart.items);
    cart.Clear();
    reply := Created(order);
  }

  /** Every line's product exists. */
  predicate NoShortageIn(products: map<Shop.ProductId, Shop.Product>, items: seq<Shop.Item>) {
    forall j :: 0 <= j < |items| ==> items[j].product in products
  }

  /** The order list's page description: `page` and `limit` read from the
      query with defaults 1 and 10, over `total` matching orders. */
  function OrdersMeta(page: Option<string>, limit: Option<string>, total: nat): (m: Paging.Meta)
    ensures m.currentPage == Paging.Param(page, Paging.DefaultPage) && m.total == total
    ensures m.totalPages == Paging.CeilDiv(total, Paging.Param(limit, Paging.DefaultLimit))
    ensures m.hasNextPage <==> Paging.Param(page, Paging.DefaultPage) * Paging.Param(limit, Paging.DefaultLimit) < total
    ensures m.hasPrevPage <==> Paging.Param(page, Paging.DefaultPage) > 1
  {
    Paging.MetaFor(Paging.Param(page, Paging.DefaultPage), Paging.Param(limit, Paging.DefaultLimit), total)
  }
}

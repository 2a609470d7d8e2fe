/**
 * The shopping cart of the e-commerce backend: the product catalogue, the
 * user's cart with its lines, and the four cart routes (add, update, remove,
 * clear), each of which changes the stored cart in place.
 */
module Shop {
  import opened Wrappers

  type ProductId = string
  type ItemId = string

  /** A catalogue product, as far as the cart and order routes read it. */
  datatype Product = Product(name: string, price: int, stock: int, isDeleted: bool)

  /** A cart line: its own identifier, the product, the quantity and the
      price copied from the product when the line was created. */
  datatype Item = Item(id: ItemId, product: ProductId, quantity: int, price: int)

  /** A route's answer: a refusal with its status and message, or success. */
  datatype Reply = Refused(code: nat, message: string) | Done

  const Unavailable: string := "Product not available or insufficient stock"
  const CartNotFound: string := "Cart not found"
  const ItemNotFound: string := "Cart item not found"

  /** The product store. */
  class Catalogue {
    var products: map<ProductId, Product>

    constructor (products: map<ProductId, Product>)
      ensures this.products == products
    {
      this.products := products;
    }

    /** The product with this identifier, if there is one. */
    function Find(id: ProductId): (p: Option<Product>)
      reads this
      ensures p.Some? <==> id in products
      ensures p.Some? ==> p.value == products[id]
    {
      if id in products then Some(products[id]) else None
    }
  }

  /** The product exists, is not deleted and has at least `quantity` in stock. */
  predicate Available(p: Option<Product>, quantity: int) {
    p.Some? && !p.value.isDeleted && p.value.stock >= quantity
  }

  /** `findIndex` of the first line for the product. */
  function LineOf(items: seq<Item>, product: ProductId): (k: Option<nat>)
    ensures k.Some? ==> k.value < |items| && items[k.value].product == product &&
                        forall j :: 0 <= j < k.value ==> items[j].product != product
    ensures k.None? ==> forall j :: 0 <= j < |items| ==> items[j].product != product
  {
    if items == [] then None
    else if items[0].product == product then Some(0)
    else match LineOf(items[1..], product)
      case None => None
      case Some(k) => Some(k + 1)
  }

  /** `items.id(id)`: the first line with this identifier. */
  function ItemAt(items: seq<Item>, id: ItemId): (k: Option<nat>)
    ensures k.Some? ==> k.value < |items| && items[k.value].id == id &&
                        forall j :: 0 <= j < k.value ==> items[j].id != id
    ensures k.None? ==> forall j :: 0 <= j < |items| ==> items[j].id != id
  {
    if items == [] then None
    else if items[0].id == id then Some(0)
    else match ItemAt(items[1..], id)
      case None => None
      case Some(k) => Some(k + 1)
  }

  /** The lines after adding `quantity` of a product: merged into the
      product's line when there is one, otherwise a new line at the end with
      the given price. */
  function Added(items: seq<Item>, product: ProductId, quantity: int, price: int, newId: ItemId): seq<Item> {
    match LineOf(items, product)
    case Some(k) => items[k := items[k].(quantity := items[k].quantity + quantity)]
    case None => items + [Item(newId, product, quantity, price)]
  }

  /** `items.pull(id)`: every line with this identifier removed. */
  function Withdrawn(items: seq<Item>, id: ItemId): (r: seq<Item>)
    ensures |r| <= |items|
    ensures forall j :: 0 <= j < |r| ==> r[j].id != id && r[j] in items
  {
    if items == [] then []
    else (if items[0].id == id then [] else [items[0]]) + Withdrawn(items[1..], id)
  }

  /** The quantity of a product held over all lines. */
  function Held(items: seq<Item>, product: ProductId): int {
    if items == [] then 0
    else Held(items[..|items| - 1], product) + (if items[|items| - 1].product == product then items[|items| - 1].quantity else 0)
  }

  /** Distinct lines hold distinct products. */
  predicate OneLinePerProduct(items: seq<Item>) {
    forall i, j :: 0 <= i < j < |items| ==> items[i].product != items[j].product
  }

  /** Distinct lines have distinct identifiers. */
  predicate DistinctIds(items: seq<Item>) {
    forall i, j :: 0 <= i < j < |items| ==> items[i].id != items[j].id
  }

  /** The held quantity of a changed line moves by the change. */
  lemma {:induction false} HeldUpdate(items: seq<Item>, k: nat, q: int, product: ProductId)
    requires k < |items|
    ensures Held(items[k := items[k].(quantity := q)], product) ==
            Held(items, product) + (if items[k].product == product then q - items[k].quantity else 0)
    decreases |items|
  {
    var r := items[k := items[k].(quantity := q)];
    assert r[..|r| - 1] == if k < |items| - 1 then items[..|items| - 1][k := items[k].(quantity := q)] else items[..|items| - 1];
    if k < |items| - 1 {
      HeldUpdate(items[..|items| - 1], k, q, product);
    }
  }

  /** The held quantity of a sequence with a line appended. */
  lemma HeldAppend(items: seq<Item>, line: Item, product: ProductId)
    ensures Held(items + [line], product) == Held(items, product) + (if line.product == product then line.quantity else 0)
  {
    assert (items + [line])[..|items|] == items;
  }

  /** Adding `quantity` of a product raises its held quantity by exactly that
      much and leaves every other product's alone. */
  lemma AddedHeld(items: seq<Item>, product: ProductId, quantity: int, price: int, newId: ItemId, other: ProductId)
    ensures Held(Added(items, product, quantity, price, newId), other) ==
            Held(items, other) + (if other == product then quantity else 0)
  {
    match LineOf(items, product)
    case Some(k) =>
      HeldUpdate(items, k, items[k].quantity + quantity, other);
    case None =>
      HeldAppend(items, Item(newId, product, quantity, price), other);
  }

  /** A line is appended only when the product had none, so a cart with one
      line per product keeps one line per product. */
  lemma AddedLines(items: seq<Item>, product: ProductId, quantity: int, price: int, newId: ItemId)
    ensures var r := Added(items, product, quantity, price, newId);
            && (LineOf(items, product).Some? ==> |r| == |items|)
            && (LineOf(items, product).None? ==> |r| == |items| + 1 && r[|items|].product == product)
            && (OneLinePerProduct(items) ==> OneLinePerProduct(r))
  {
  }

  /** The stock check looks at the requested quantity alone: with 1 in
      stock and 1 already in the cart, one more is still accepted, and the
      cart then holds 2. */
  lemma StockCheckIgnoresCart()
    ensures var items := [Item("line", "p", 1, 5)];
            var p := Product("pen", 5, 1, false);
            && Available(Some(p), 1)
            && Held(Added(items, "p", 1, p.price, "new"), "p") == 2 > p.stock
  {
    var items := [Item("line", "p", 1, 5)];
    assert LineOf(items, "p") == Some(0);
    var r := Added(items, "p", 1, 5, "new");
    assert r == [Item("line", "p", 2, 5)];
    assert r[..0] == [];
  }

  /** Withdrawing an identifier that only one line has removes exactly that
      line and keeps the others in order. */
  lemma {:induction false} WithdrawnOne(items: seq<Item>, id: ItemId, k: nat)
    requires k < |items| && items[k].id == id && DistinctIds(items)
    ensures Withdrawn(items, id) == items[..k] + items[k + 1..]
    decreases |items|
  {
    var tail := items[1..];
    DistinctTail(items);
    if k == 0 {
      WithdrawnNone(tail, id);
      assert items[..0] + items[1..] == tail;
    } else {
      WithdrawnOne(tail, id, k - 1);
      WithdrawnKeepsHead(items, id, k);
    }
  }

  /** The lines after the first of distinct identifiers have distinct
      identifiers, none of them the first line's. */
  lemma DistinctTail(items: seq<Item>)
    requires |items| > 0 && DistinctIds(items)
    ensures DistinctIds(items[1..])
    ensures forall j :: 0 <= j < |items| - 1 ==> items[1..][j].id != items[0].id
  {
    var tail := items[1..];
    assert forall j :: 0 <= j < |tail| ==> tail[j] == items[j + 1];
  }

  /** The inductive step of `WithdrawnOne`: a first line that is kept goes in
      front of the rest's result. */
  lemma WithdrawnKeepsHead(items: seq<Item>, id: ItemId, k: nat)
    requires 0 < k < |items| && items[0].id != id
    requires Withdrawn(items[1..], id) == items[1..][..k - 1] + items[1..][k..]
    ensures Withdrawn(items, id) == items[..k] + items[k + 1..]
  {
    var tail := items[1..];
    assert tail[..k - 1] == items[1..k] && tail[k..] == items[k + 1..];
    assert [items[0]] + items[1..k] == items[..k];
  }

  /** Withdrawing an identifier no line has changes nothing. */
  lemma {:induction false} WithdrawnNone(items: seq<Item>, id: ItemId)
    requires forall j :: 0 <= j < |items| ==> items[j].id != id
    ensures Withdrawn(items, id) == items
    decreases |items|
  {
    if items != [] {
      WithdrawnNone(items[1..], id);
      assert [items[0]] + items[1..] == items;
    }
  }

  /** The user's cart. `totalAmount` is stored with the cart and changed by
      these routes only when the cart is cleared. */
  class Cart {
    var items: seq<Item>
    var totalAmount: int

    /** A new, empty cart. */
    constructor ()
      ensures items == [] && totalAmount == 0
    {
      items := [];
      totalAmount := 0;
    }

    /** The line for the product gets `quantity` more, or a new line with the
        current price is appended. */
    method Add(product: ProductId, quantity: int, price: int, newId: ItemId)
      modifies this
      ensures items == Added(old(items), product, quantity, price, newId)
      ensures totalAmount == old(totalAmount)
    {
      var existing := LineOf(items, product);
      if existing.Some? {
        var k := existing.value;
        items := items[k := items[k].(quantity := items[k].quantity + quantity)];
      } else {
        items := items + [Item(newId, product, quantity, price)];
      }
    }

    /** The line at `k` gets exactly `quantity`. */
    method SetQuantity(k: nat, quantity: int)
      requires k < |items|
      modifies this
      ensures items == old(items)[k := old(items)[k].(quantity := quantity)]
      ensures totalAmount == old(totalAmount)
    {
      items := items[k := items[k].(quantity := quantity)];
    }

    /** Every line with this identifier is removed. */
    method Pull(id: ItemId)
      modifies this
      ensures items == Withdrawn(old(items), id)
      ensures totalAmount == old(totalAmount)
    {
      items := Withdrawn(items, id);
    }

    /** No lines and a zero total. */
    method Clear()
      modifies this
      ensures items == [] && totalAmount == 0
    {
      items := [];
      totalAmount := 0;
    }
  }

  /** POST of a cart line. An unavailable product is refused before the
      cart is looked at, so nothing changes and no cart is created;
      otherwise the user's cart, created empty when there is none, gets the
      line. `newId` is the identifier the store gives a new line. */
  method AddToCart(catalogue: Catalogue, cart: Cart?, productId: ProductId, quantity: int, newId: ItemId)
    returns (reply: Reply, result: Cart?)
    modifies cart
    ensures !Available(catalogue.Find(productId), quantity) ==>
              reply == Refused(400, Unavailable) && result == cart && (cart != null ==> unchanged(cart))
    ensures Available(catalogue.Find(productId), quantity) ==>
              && reply == Done && result != null
              && (cart != null ==> result == cart && result.totalAmount == old(cart.totalAmount))
              && (cart == null ==> fresh(result) && result.totalAmount == 0)
              && result.items == Added(if cart == null then [] else old(cart.items), productId, quantity,
                                       catalogue.products[productId].price, newId)
  {
    var product := catalogue.Find(productId);
    if !Available(product, quantity) {
      return Refused(400, Unavailable), cart;
    }
    result := cart;
    if result == null {
      result := new Cart();
    }
    result.Add(productId, quantity, product.value.price, newId);
    reply := Done;
  }

  /** PUT of a cart line's quantity: 404 without a cart or without the line,
      400 when the line's product is not available in that quantity, and
      otherwise the line's quantity becomes exactly the requested one. */
  method UpdateCartItem(catalogue: Catalogue, cart: Cart?, itemId: ItemId, quantity: int) returns (reply: Reply)
    modifies cart
    ensures cart == null ==> reply == Refused(404, CartNotFound)
    ensures cart != null ==>
              match ItemAt(old(cart.items), itemId)
              case None => reply == Refused(404, ItemNotFound) && unchanged(cart)
              case Some(k) =>
                if Available(catalogue.Find(old(cart.items)[k].product), quantity) then
                  reply == Done && cart.items == old(cart.items)[k := old(cart.items)[k].(quantity := quantity)]
                  && cart.totalAmount == old(cart.totalAmount)
                else reply == Refused(400, Unavailable) && unchanged(cart)
  {
    if cart == null {
      return Refused(404, CartNotFound);
    }
    var k := ItemAt(cart.items, itemId);
    if k.None? {
      return Refused(404, ItemNotFound);
    }
    var product := catalogue.Find(cart.items[k.value].product);
    if !Available(product, quantity) {
      return Refused(400, Unavailable);
    }
    cart.SetQuantity(k.value, quantity);
    reply := Done;
  }

  /** DELETE of a cart line: 404 without a cart or without the line,
      otherwise the line is pulled out. */
  method RemoveFromCart(cart: Cart?, itemId: ItemId) returns (reply: Reply)
    modifies cart
    ensures cart == null ==> reply == Refused(404, CartNotFound)
    ensures cart != null && ItemAt(old(cart.items), itemId).None? ==> reply == Refused(404, ItemNotFound) && unchanged(cart)
    ensures cart != null && ItemAt(old(cart.items), itemId).Some? ==>
              reply == Done && cart.items == Withdrawn(old(cart.items), itemId) && cart.totalAmount == old(cart.totalAmount)
  {
    if cart == null {
      return Refused(404, CartNotFound);
    }
    var k := ItemAt(cart.items, itemId);
    if k.None? {
      return Refused(404, ItemNotFound);
    }
    cart.Pull(itemId);
    reply := Done;
  }

  /** DELETE of the whole cart: 404 without a cart, otherwise no lines and a
      zero total. */
  method ClearCart(cart: Cart?) returns (reply: Reply)
    modifies cart
    ensures cart == null ==> reply == Refused(404, CartNotFound)
    ensures cart != null ==> reply == Done && cart.items == [] && cart.totalAmount == 0
  {
    if cart == null {
      return Refused(404, CartNotFound);
    }
    cart.Clear();
    reply := Done;
  }
}

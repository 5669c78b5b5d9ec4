/** The point-of-sale screen: a cart of product lines that the clerk grows,
    adjusts and empties, its running total, and the rows a checkout writes. */
module Sales {
  import opened Wrappers

  /** A row of the product list the screen shows; prices are whole cents. */
  datatype Product = Product(id: string, name: string, price: int, stock: int)

  /** A cart line: the product as it was when it was added, and how many. */
  datatype CartItem = CartItem(product: Product, cartQuantity: int) {
    function Id(): string { product.id }

    /** What the line adds to the total. */
    function Amount(): int { product.price * cartQuantity }
  }

  type Cart = seq<CartItem>

  function Max(a: int, b: int): int {
    if a >= b then a else b
  }

  /** `cart.find(item => item.id === id)`, as the index of the first match. */
  function FindLine(cart: Cart, id: string): (r: Option<nat>)
    ensures r.None? <==> forall i | 0 <= i < |cart| :: cart[i].Id() != id
    ensures r.Some? ==> r.value < |cart| && cart[r.value].Id() == id
    ensures r.Some? ==> forall j | 0 <= j < r.value :: cart[j].Id() != id
  {
    if |cart| == 0 then None
    else if cart[0].Id() == id then Some(0)
    else match FindLine(cart[1..], id)
      case None => None
      case Some(k) => Some(k + 1)
  }

  /** Where `products.find` stops: the position of the first listed product
      with the id. */
  function ProductIndex(products: seq<Product>, id: string): (r: Option<nat>)
    ensures r.None? <==> forall i | 0 <= i < |products| :: products[i].id != id
    ensures r.Some? ==> r.value < |products| && products[r.value].id == id
    ensures r.Some? ==> forall j | 0 <= j < r.value :: products[j].id != id
  {
    if |products| == 0 then None
    else if products[0].id == id then Some(0)
    else match ProductIndex(products[1..], id)
      case None => None
      case Some(k) => Some(k + 1)
  }

  /** `products.find(p => p.id === id)`: the first listed product with that
      id. */
  function FindProduct(products: seq<Product>, id: string): (r: Option<Product>)
    ensures r.None? <==> forall i | 0 <= i < |products| :: products[i].id != id
    ensures r.Some? ==> r.value in products && r.value.id == id
    ensures forall k | 0 <= k < |products| && products[k].id == id && FirstWithId(products, id, k) ::
      r == Some(products[k])
  {
    match ProductIndex(products, id)
    case None => None
    case Some(k) => Some(products[k])
  }

  /** No product listed before position `k` has this id. */
  predicate FirstWithId(products: seq<Product>, id: string, k: nat)
    requires k <= |products|
  {
    forall j | 0 <= j < k :: products[j].id != id
  }

  /** The product list knows `id` and its stock is below `quantity`. */
  predicate ExceedsStock(products: seq<Product>, id: string, quantity: int) {
    match FindProduct(products, id)
    case Some(p) => quantity > p.stock
    case None => false
  }

  /** No two lines of the cart are for the same product. */
  predicate UniqueIds(cart: Cart) {
    forall i, j | 0 <= i < j < |cart| :: cart[i].Id() != cart[j].Id()
  }

  /** Every line holds at least one unit and no more than the listed stock. */
  predicate WithinStock(cart: Cart, products: seq<Product>) {
    forall i | 0 <= i < |cart| ::
      1 <= cart[i].cartQuantity && !ExceedsStock(products, cart[i].Id(), cart[i].cartQuantity)
  }

  /** The product list is fetched with a `stock_quantity > 0` filter. */
  predicate AllInStock(products: seq<Product>) {
    forall i | 0 <= i < |products| :: products[i].stock > 0
  }

  function Bump(item: CartItem, id: string): CartItem {
    if item.Id() == id then item.(cartQuantity := item.cartQuantity + 1) else item
  }

  /** `addToCart`: a product not yet in the cart is appended with quantity 1;
      otherwise every line for it goes up by one, unless the first such line
      already holds the product's stock, in which case nothing changes. */
  function AddToCart(cart: Cart, product: Product): (r: Cart)
    ensures FindLine(cart, product.id).None? ==>
      |r| == |cart| + 1 && r[..|cart|] == cart && r[|cart|] == CartItem(product, 1)
    ensures FindLine(cart, product.id).Some? ==> |r| == |cart|
    ensures FindLine(cart, product.id).Some? ==> forall i | 0 <= i < |cart| ::
      r[i].product == cart[i].product && (cart[i].Id() != product.id ==> r[i] == cart[i])
    ensures FindLine(cart, product.id).Some? ==>
      var k := FindLine(cart, product.id).value;
      if cart[k].cartQuantity >= product.stock then r == cart
      else forall i | 0 <= i < |cart| && cart[i].Id() == product.id ::
        r[i].cartQuantity == cart[i].cartQuantity + 1
  {
    match FindLine(cart, product.id)
    case Some(k) =>
      if cart[k].cartQuantity >= product.stock then cart
      else seq(|cart|, i requires 0 <= i < |cart| => Bump(cart[i], product.id))
    case None => cart + [CartItem(product, 1)]
  }

  function Adjust(item: CartItem, products: seq<Product>, id: string, delta: int): CartItem {
    if item.Id() != id then item
    else
      var newQty := Max(1, item.cartQuantity + delta);
      if ExceedsStock(products, id, newQty) then item else item.(cartQuantity := newQty)
  }

  /** `updateQuantity`: each line for `id` moves to `max(1, quantity + delta)`
      unless that is more than the listed stock; other lines stay as they are. */
  function UpdateQuantity(cart: Cart, products: seq<Product>, id: string, delta: int): (r: Cart)
    ensures |r| == |cart|
    ensures forall i | 0 <= i < |cart| :: r[i].product == cart[i].product
    ensures forall i | 0 <= i < |cart| && cart[i].Id() != id :: r[i] == cart[i]
    ensures forall i | 0 <= i < |cart| && cart[i].Id() == id ::
      var wanted := Max(1, cart[i].cartQuantity + delta);
      if ExceedsStock(products, id, wanted) then r[i] == cart[i]
      else r[i].cartQuantity == wanted
    ensures forall i | 0 <= i < |cart| :: r[i].cartQuantity >= 1 || r[i] == cart[i]
  {
    seq(|cart|, i requires 0 <= i < |cart| => Adjust(cart[i], products, id, delta))
  }

  /** `removeFromCart`: the lines for other products, in their order. */
  function RemoveFromCart(cart: Cart, id: string): (r: Cart)
    ensures |r| <= |cart|
    ensures forall x :: x in r <==> x in cart && x.Id() != id
  {
    if |cart| == 0 then []
    else (if cart[0].Id() == id then [] else [cart[0]]) + RemoveFromCart(cart[1..], id)
  }

  /** The running total: the sum of price times quantity over the lines. */
  function Total(cart: Cart): (r: int)
    ensures |cart| == 0 ==> r == 0
    ensures (forall i | 0 <= i < |cart| :: cart[i].product.price >= 0 && cart[i].cartQuantity >= 0) ==> r >= 0
  {
    if |cart| == 0 then 0 else Total(cart[..|cart| - 1]) + cart[|cart| - 1].Amount()
  }

  lemma {:induction false} TotalAppend(a: Cart, b: Cart)
    ensures Total(a + b) == Total(a) + Total(b)
    decreases |b|
  {
    if |b| == 0 {
      assert a + b == a;
    } else {
      assert (a + b)[..|a + b| - 1] == a + b[..|b| - 1];
      TotalAppend(a, b[..|b| - 1]);
    }
  }

  /** Replacing one line changes the total by the difference of the two lines. */
  lemma TotalReplaceLine(cart: Cart, k: nat, x: CartItem)
    requires k < |cart|
    ensures Total(cart[k := x]) == Total(cart) - cart[k].Amount() + x.Amount()
  {
    var c := cart[k := x];
    assert cart == cart[..k] + [cart[k]] + cart[k + 1..];
    assert c == cart[..k] + [x] + cart[k + 1..];
    TotalAppend(cart[..k] + [cart[k]], cart[k + 1..]);
    TotalAppend(cart[..k], [cart[k]]);
    TotalAppend(cart[..k] + [x], cart[k + 1..]);
    TotalAppend(cart[..k], [x]);
    assert Total([x]) == Total([x][..0]) + x.Amount();
    assert Total([cart[k]]) == Total([cart[k]][..0]) + cart[k].Amount();
  }

  /** With distinct ids, bumping every line for `id` bumps exactly line `k`. */
  lemma BumpIsReplace(cart: Cart, k: nat, id: string)
    requires UniqueIds(cart) && k < |cart| && cart[k].Id() == id
    ensures seq(|cart|, i requires 0 <= i < |cart| => Bump(cart[i], id))
      == cart[k := cart[k].(cartQuantity := cart[k].cartQuantity + 1)]
  {
    var r := seq(|cart|, i requires 0 <= i < |cart| => Bump(cart[i], id));
    forall i | 0 <= i < |cart| && i != k
      ensures r[i] == cart[i]
    {
      if i < k {
        assert cart[i].Id() != cart[k].Id();
      } else {
        assert cart[k].Id() != cart[i].Id();
      }
    }
  }

  /** Adding to a cart with distinct ids either changes nothing or raises the
      total by exactly one unit price: the new product's, or that of the line
      it was already on. */
  lemma OneMoreUnit(price: int, quantity: int)
    ensures price * (quantity + 1) == price * quantity + price
  {
  }

  lemma AddToCartTotalNew(cart: Cart, product: Product)
    requires FindLine(cart, product.id).None?
    ensures Total(AddToCart(cart, product)) == Total(cart) + product.price
  {
    var item := CartItem(product, 1);
    assert AddToCart(cart, product) == cart + [item];
    TotalAppend(cart, [item]);
    assert [item][..0] == [];
  }

  /** One more unit on line `k` adds that line's unit price to the total. */
  lemma TotalOfBump(r: Cart, cart: Cart, k: nat)
    requires k < |cart|
    requires r == cart[k := cart[k].(cartQuantity := cart[k].cartQuantity + 1)]
    ensures Total(r) == Total(cart) + cart[k].product.price
  {
    TotalReplaceLine(cart, k, r[k]);
    OneMoreUnit(cart[k].product.price, cart[k].cartQuantity);
  }

  lemma AddExistingIsReplace(cart: Cart, product: Product, k: nat)
    requires UniqueIds(cart)
    requires FindLine(cart, product.id) == Some(k)
    requires cart[k].cartQuantity < product.stock
    ensures AddToCart(cart, product) == cart[k := cart[k].(cartQuantity := cart[k].cartQuantity + 1)]
  {
    BumpIsReplace(cart, k, product.id);
  }

  lemma {:induction false} AddToCartTotalExisting(cart: Cart, product: Product)
    requires UniqueIds(cart)
    requires FindLine(cart, product.id).Some?
    ensures AddToCart(cart, product) != cart ==>
      Total(AddToCart(cart, product)) == Total(cart) + cart[FindLine(cart, product.id).value].product.price
  {
    var k := FindLine(cart, product.id).value;
    if cart[k].cartQuantity < product.stock {
      AddExistingIsReplace(cart, product, k);
      TotalOfBump(AddToCart(cart, product), cart, k);
    }
  }

  lemma AddToCartKeepsIdsUnique(cart: Cart, product: Product)
    requires UniqueIds(cart)
    ensures UniqueIds(AddToCart(cart, product))
  {
    var r := AddToCart(cart, product);
    if FindLine(cart, product.id).None? {
      assert forall i | 0 <= i < |cart| :: r[i] == cart[i];
    }
  }

  /** With a product list fetched as it is (only products in stock), adding a
      listed product keeps every line between 1 and its listed stock. */
  lemma AddToCartKeepsWithinStock(cart: Cart, products: seq<Product>, product: Product)
    requires UniqueIds(cart) && WithinStock(cart, products) && AllInStock(products)
    requires FindProduct(products, product.id) == Some(product)
    ensures WithinStock(AddToCart(cart, product), products)
  {
    var r := AddToCart(cart, product);
    match FindLine(cart, product.id)
    case None =>
      assert forall i | 0 <= i < |cart| :: r[i] == cart[i];
    case Some(k) =>
      if cart[k].cartQuantity < product.stock {
        BumpIsReplace(cart, k, product.id);
      }
  }

  lemma UpdateQuantityKeepsInvariant(cart: Cart, products: seq<Product>, id: string, delta: int)
    requires UniqueIds(cart) && WithinStock(cart, products)
    ensures UniqueIds(UpdateQuantity(cart, products, id, delta))
    ensures WithinStock(UpdateQuantity(cart, products, id, delta), products)
  {
    var r := UpdateQuantity(cart, products, id, delta);
    assert forall i | 0 <= i < |cart| :: r[i].Id() == cart[i].Id();
  }

  /** Removal works line by line, so the kept lines stay in their order. */
  lemma {:induction false} RemoveFromCartDistributes(a: Cart, b: Cart, id: string)
    ensures RemoveFromCart(a + b, id) == RemoveFromCart(a, id) + RemoveFromCart(b, id)
  {
    if |a| == 0 {
      assert a + b == b;
    } else {
      assert (a + b)[1..] == a[1..] + b;
      RemoveFromCartDistributes(a[1..], b, id);
    }
  }

  /** Removing a product the cart does not hold leaves the cart as it is. */
  lemma {:induction false} RemoveFromCartAbsent(cart: Cart, id: string)
    requires FindLine(cart, id).None?
    ensures RemoveFromCart(cart, id) == cart
  {
    if |cart| > 0 {
      assert FindLine(cart[1..], id).None?;
      RemoveFromCartAbsent(cart[1..], id);
    }
  }

  /** Removing a product right after adding it when it was not in the cart
      restores the cart. */
  lemma RemoveFromCartUndoesAdd(cart: Cart, product: Product)
    requires FindLine(cart, product.id).None?
    ensures RemoveFromCart(AddToCart(cart, product), product.id) == cart
  {
    var item := CartItem(product, 1);
    assert AddToCart(cart, product) == cart + [item];
    RemoveFromCartDistributes(cart, [item], product.id);
    RemoveFromCartAbsent(cart, product.id);
    assert RemoveFromCart([item], product.id) == [] + RemoveFromCart([item][1..], product.id);
  }

  lemma RemoveFromCartKeepsInvariant(cart: Cart, products: seq<Product>, id: string)
    requires UniqueIds(cart) && WithinStock(cart, products)
    ensures UniqueIds(RemoveFromCart(cart, id))
    ensures WithinStock(RemoveFromCart(cart, id), products)
  {
    var r := RemoveFromCart(cart, id);
    forall i, j | 0 <= i < j < |r|
      ensures r[i].Id() != r[j].Id()
    {
      RemoveBeforeIsBefore(cart, id, r, j);
    }
    assert forall i | 0 <= i < |r| :: r[i] in cart;
  }

  /** The lines after the first of a cart with distinct ids have distinct ids. */
  lemma UniqueIdsTail(cart: Cart)
    requires UniqueIds(cart) && |cart| > 0
    ensures UniqueIds(cart[1..])
  {
    var rest := cart[1..];
    forall i, k | 0 <= i < k < |rest| ensures rest[i].Id() != rest[k].Id() {
      assert rest[i] == cart[i + 1] && rest[k] == cart[k + 1];
    }
  }

  /** A line that comes before position `j` of the result came before the
      source of line `j` in the cart; used to carry distinct ids across. */
  lemma {:induction false} RemoveBeforeIsBefore(cart: Cart, id: string, r: Cart, j: nat)
    requires UniqueIds(cart)
    requires r == RemoveFromCart(cart, id) && j < |r|
    ensures forall i | 0 <= i < j :: r[i].Id() != r[j].Id()
    decreases |cart|
  {
    var rest := cart[1..];
    var tail := RemoveFromCart(rest, id);
    UniqueIdsTail(cart);
    if cart[0].Id() == id {
      assert r == tail;
      RemoveBeforeIsBefore(rest, id, tail, j);
    } else if j > 0 {
      assert r == [cart[0]] + tail;
      RemoveBeforeIsBefore(rest, id, tail, j - 1);
      HeadNotKeptAgain(cart, id, tail, j - 1);
      ConsKeepsDistinctBefore(cart[0], tail, j);
    }
  }

  /** A kept line of the rest of a cart with distinct ids is not for the
      first line's product. */
  lemma HeadNotKeptAgain(cart: Cart, id: string, tail: Cart, k: nat)
    requires UniqueIds(cart) && |cart| > 0
    requires tail == RemoveFromCart(cart[1..], id) && k < |tail|
    ensures tail[k].Id() != cart[0].Id()
  {
    assert tail[k] in cart[1..];
    var m :| 0 <= m < |cart[1..]| && cart[1..][m] == tail[k];
    assert cart[m + 1] == tail[k];
  }

  lemma ConsKeepsDistinctBefore(head: CartItem, tail: Cart, j: nat)
    requires 0 < j <= |tail|
    requires forall i | 0 <= i < j - 1 :: tail[i].Id() != tail[j - 1].Id()
    requires head.Id() != tail[j - 1].Id()
    ensures forall i | 0 <= i < j :: ([head] + tail)[i].Id() != ([head] + tail)[j].Id()
  {
    var r := [head] + tail;
    forall i | 0 <= i < j ensures r[i].Id() != r[j].Id() {
      if i > 0 {
        assert r[i] == tail[i - 1];
      }
    }
  }

  /** With distinct ids, removing a product takes exactly its line's amount
      off the total. */
  lemma RemoveFromCartTotal(cart: Cart, id: string)
    requires UniqueIds(cart)
    ensures FindLine(cart, id).None? ==> Total(RemoveFromCart(cart, id)) == Total(cart)
    ensures FindLine(cart, id).Some? ==>
      Total(RemoveFromCart(cart, id)) == Total(cart) - cart[FindLine(cart, id).value].Amount()
  {
    match FindLine(cart, id)
    case None =>
      RemoveFromCartAbsent(cart, id);
    case Some(k) =>
      var before, line, after := cart[..k], [cart[k]], cart[k + 1..];
      assert cart == before + line + after;
      assert FindLine(before, id).None? by {
        forall j | 0 <= j < |before|
          ensures before[j].Id() != id
        {
          assert before[j] == cart[j];
        }
      }
      assert FindLine(after, id).None? by {
        forall j | 0 <= j < |after|
          ensures after[j].Id() != id
        {
          assert after[j] == cart[k + 1 + j];
        }
      }
      RemoveSplitAt(before, cart[k], after, id);
      TotalAppend(before + line, after);
      TotalAppend(before, line);
      TotalAppend(before, after);
      TotalSingle(cart[k]);
  }

  lemma TotalSingle(x: CartItem)
    ensures Total([x]) == x.Amount()
  {
    assert [x][..0] == [];
  }

  lemma RemoveSplitAt(before: Cart, x: CartItem, after: Cart, id: string)
    requires x.Id() == id
    requires FindLine(before, id).None? && FindLine(after, id).None?
    ensures RemoveFromCart(before + [x] + after, id) == before + after
  {
    RemoveFromCartDistributes(before + [x], after, id);
    RemoveFromCartDistributes(before, [x], id);
    RemoveFromCartAbsent(before, id);
    RemoveFromCartAbsent(after, id);
    RemoveOwnLine(x);
    assert RemoveFromCart(before + [x], id) == before;
  }

  lemma RemoveOwnLine(x: CartItem)
    ensures RemoveFromCart([x], x.Id()) == []
  {
    assert RemoveFromCart([x], x.Id()) == [] + RemoveFromCart([x][1..], x.Id());
  }

  /** A `sale_items` row written for one cart line. */
  datatype SaleItemRow = SaleItemRow(saleId: string, productId: string, quantity: int, unitPrice: int)

  /** A stock update written for one cart line: the product and its new stock. */
  datatype StockWrite = StockWrite(productId: string, newStock: int)

  /** What a checkout leaves behind: the cart, the total sent with the sale
      header when one was sent, and the rows written after it. */
  datatype CheckoutEffect = CheckoutEffect(
    cart: Cart, saleTotal: Option<int>, saleItems: seq<SaleItemRow>, stockWrites: seq<StockWrite>)

  /** The stock checkout starts from: the listed product's, or 0 when the
      product is not in the list. */
  function CurrentStock(products: seq<Product>, id: string): (r: int)
    ensures (forall i | 0 <= i < |products| :: products[i].id != id) ==> r == 0
    ensures forall k | 0 <= k < |products| && products[k].id == id && FirstWithId(products, id, k) ::
      r == products[k].stock
  {
    match FindProduct(products, id)
    case Some(p) => p.stock
    case None => 0
  }

  function SaleItems(saleId: string, cart: Cart): seq<SaleItemRow> {
    seq(|cart|, i requires 0 <= i < |cart| =>
      SaleItemRow(saleId, cart[i].Id(), cart[i].cartQuantity, cart[i].product.price))
  }

  function StockWrites(products: seq<Product>, cart: Cart): seq<StockWrite> {
    seq(|cart|, i requires 0 <= i < |cart| =>
      StockWrite(cart[i].Id(), CurrentStock(products, cart[i].Id()) - cart[i].cartQuantity))
  }

  /** `handleCheckout`. `header` is how the sale-header insert went: the new
      sale's id, or the error it reported. An empty cart does nothing; a failed
      header insert writes nothing more and keeps the cart; otherwise one sale
      row and one stock update go out per line, in cart order, and the cart is
      emptied. */
  function Checkout(cart: Cart, products: seq<Product>, header: Result<string, string>): (r: CheckoutEffect)
    ensures |cart| == 0 ==> r == CheckoutEffect(cart, None, [], [])
    ensures |cart| > 0 ==> r.saleTotal == Some(Total(cart))
    ensures |cart| > 0 && header.Failure? ==> r.cart == cart && r.saleItems == [] && r.stockWrites == []
    ensures |cart| > 0 && header.Success? ==>
      && r.cart == []
      && |r.saleItems| == |cart| && |r.stockWrites| == |cart|
      && (forall i | 0 <= i < |cart| ::
            && r.saleItems[i].saleId == header.value
            && r.saleItems[i].productId == cart[i].Id()
            && r.saleItems[i].quantity == cart[i].cartQuantity
            && r.saleItems[i].unitPrice == cart[i].product.price)
      && (forall i | 0 <= i < |cart| ::
            && r.stockWrites[i].productId == cart[i].Id()
            && r.stockWrites[i].newStock == CurrentStock(products, cart[i].Id()) - cart[i].cartQuantity)
  {
    if |cart| == 0 then CheckoutEffect(cart, None, [], [])
    else match header
      case Failure(_) => CheckoutEffect(cart, Some(Total(cart)), [], [])
      case Success(saleId) => CheckoutEffect([], Some(Total(cart)), SaleItems(saleId, cart), StockWrites(products, cart))
  }

  /** The sum of quantity times unit price over sale rows. */
  function RowsTotal(rows: seq<SaleItemRow>): int {
    if |rows| == 0 then 0
    else RowsTotal(rows[..|rows| - 1]) + rows[|rows| - 1].unitPrice * rows[|rows| - 1].quantity
  }

  lemma {:induction false} SaleItemsTotal(saleId: string, cart: Cart)
    ensures RowsTotal(SaleItems(saleId, cart)) == Total(cart)
    decreases |cart|
  {
    if |cart| > 0 {
      var init := cart[..|cart| - 1];
      var rows := SaleItems(saleId, cart);
      assert rows[..|cart| - 1] == SaleItems(saleId, init);
      SaleItemsTotal(saleId, init);
      var last := rows[|rows| - 1];
      assert last.unitPrice * last.quantity == cart[|cart| - 1].Amount();
    }
  }

  /** The total recorded on the sale header is what its rows add up to. */
  lemma CheckoutRowsMatchHeader(cart: Cart, products: seq<Product>, saleId: string)
    requires |cart| > 0
    ensures var r := Checkout(cart, products, Success(saleId));
      r.saleTotal == Some(RowsTotal(r.saleItems))
  {
    SaleItemsTotal(saleId, cart);
  }

  /** When the cart respects the listed stock and every line's product is
      listed, no stock update goes below zero. */
  lemma CheckoutKeepsStockNonNegative(cart: Cart, products: seq<Product>, saleId: string)
    requires WithinStock(cart, products)
    requires forall i | 0 <= i < |cart| :: FindProduct(products, cart[i].Id()).Some?
    ensures forall w | w in Checkout(cart, products, Success(saleId)).stockWrites :: w.newStock >= 0
  {
  }

  /** A line whose product is missing from the list is written as stock
      `0 - quantity`, below zero. */
  lemma {:induction false} CheckoutUnlistedLineGoesNegative(cart: Cart, products: seq<Product>, saleId: string, i: nat)
    requires i < |cart| && cart[i].cartQuantity >= 1
    requires FindProduct(products, cart[i].Id()).None?
    ensures Checkout(cart, products, Success(saleId)).stockWrites[i].newStock < 0
  {
  }
}

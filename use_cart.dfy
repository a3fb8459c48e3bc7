/** The cart provider: the in-memory cart and the snapshot under the storage key, updated in
    place by addProduct, removeProduct and updateProductAmount. */
module UseCart {
  import opened Items
  import opened Reconcile

  class CartProvider {
    /** The component state `cart`. */
    var cart: seq<Item>
    /** What `localStorage` holds under '@RocketShoes:cart' (None: nothing, or an empty string). */
    var stored: Option<seq<Item>>

    function Snapshot(): State
      reads this
    {
      State(cart, stored)
    }

    /** Mount: the cart is read from storage when the key holds one, else it starts empty. */
    constructor (saved: Option<seq<Item>>)
      ensures Snapshot() == Initial(saved)
      ensures cart == (if saved.Some? then saved.value else [])
      ensures stored == saved
    {
      if saved.Some? {
        cart := saved.value;
      } else {
        cart := [];
      }
      stored := saved;
    }

    /** addProduct(productId), with the answers of the stock and catalog lookups. */
    method AddProduct(productId: int, stock: Option<int>, catalog: Option<CatalogRecord>) returns (outcome: Outcome)
      modifies this
      ensures var r := AddStep(old(cart), productId, stock, catalog);
        outcome == r.outcome && cart == r.cart
      ensures stored == if outcome == Ok then Some(cart) else old(stored)
      ensures Snapshot() == Apply(old(Snapshot()), AddRequest(productId, stock, catalog))
      ensures old(WellFormed(cart)) && (Find(old(cart), productId).None? && catalog.Some? ==> catalog.value.id == productId) ==>
        WellFormed(cart)
    {
      var updatedCart := cart;
      var hasProduct := Find(updatedCart, productId);
      if stock.None? {
        return AddError;
      }
      var productStock := stock.value;
      var productAmount := if hasProduct.Some? then updatedCart[hasProduct.value].amount else 0;
      var amount := productAmount + 1;
      if amount > productStock {
        return OutOfStock;
      }
      if hasProduct.Some? {
        var k := hasProduct.value;
        updatedCart := updatedCart[k := updatedCart[k].(amount := amount)];
      } else {
        if catalog.Some? {
          updatedCart := updatedCart + [NewLine(catalog.value)];
        } else {
          return SilentNoop;
        }
      }
      if WellFormed(old(cart)) && (Find(old(cart), productId).None? && catalog.Some? ==> catalog.value.id == productId) {
        AddKeepsWellFormed(old(cart), productId, stock, catalog);
      }
      cart := updatedCart;
      stored := Some(updatedCart);
      outcome := Ok;
    }

    /** removeProduct(productId). */
    method RemoveProduct(productId: int) returns (outcome: Outcome)
      modifies this
      ensures var r := RemoveStep(old(cart), productId);
        outcome == r.outcome && cart == r.cart
      ensures stored == if outcome == Ok then Some(cart) else old(stored)
      ensures Snapshot() == Apply(old(Snapshot()), RemoveRequest(productId))
      ensures old(WellFormed(cart)) ==> WellFormed(cart)
    {
      var updatedCart := cart;
      var hasProduct := Find(updatedCart, productId);
      if hasProduct.Some? {
        var k := hasProduct.value;
        updatedCart := updatedCart[..k] + updatedCart[k + 1..];
      } else {
        return RemoveError;
      }
      if WellFormed(old(cart)) {
        RemoveKeepsWellFormed(old(cart), productId);
      }
      cart := updatedCart;
      stored := Some(updatedCart);
      outcome := Ok;
    }

    /** updateProductAmount({productId, amount}), with the answer of the stock lookup. */
    method UpdateProductAmount(productId: int, amount: int, stock: Option<int>) returns (outcome: Outcome)
      modifies this
      ensures var r := UpdateStep(old(cart), productId, amount, stock);
        outcome == r.outcome && cart == r.cart
      ensures stored == if outcome == Ok then Some(cart) else old(stored)
      ensures Snapshot() == Apply(old(Snapshot()), UpdateRequest(productId, amount, stock))
      ensures old(WellFormed(cart)) ==> WellFormed(cart)
    {
      if amount <= 0 {
        return SilentNoop;
      }
      var updatedCart := cart;
      var hasProduct := Find(updatedCart, productId);
      if stock.None? {
        return UpdateError;
      }
      var productStock := stock.value;
      if productStock < amount {
        return OutOfStock;
      }
      if hasProduct.Some? {
        var k := hasProduct.value;
        updatedCart := updatedCart[k := updatedCart[k].(amount := amount)];
      } else {
        return UpdateError;
      }
      if WellFormed(old(cart)) {
        UpdateKeepsWellFormed(old(cart), productId, amount, stock);
      }
      cart := updatedCart;
      stored := Some(updatedCart);
      outcome := Ok;
    }
  }

  /** Three usage scenarios, followed on the class contracts alone. */
  method Walkthroughs(d: Details)
  {
    // Empty cart, stock 5 for product 7: five adds reach amount 5, the sixth is refused.
    var p := new CartProvider(None);
    var rec := CatalogRecord(7, d, None);
    var o := p.AddProduct(7, Some(5), Some(rec));
    assert o == Ok && p.cart == [Item(7, d, 1)] && p.stored == Some(p.cart);
    o := p.AddProduct(7, Some(5), Some(rec));
    o := p.AddProduct(7, Some(5), Some(rec));
    o := p.AddProduct(7, Some(5), Some(rec));
    o := p.AddProduct(7, Some(5), Some(rec));
    assert o == Ok && p.cart == [Item(7, d, 5)];
    o := p.AddProduct(7, Some(5), Some(rec));
    assert o == OutOfStock && p.cart == [Item(7, d, 5)] && p.stored == Some(p.cart);
    assert Notification(o).Some?;

    // Cart [{id: 3, amount: 2}], stock 10: setting amount 4 is stored.
    var q := new CartProvider(Some([Item(3, d, 2)]));
    o := q.UpdateProductAmount(3, 4, Some(10));
    assert o == Ok && q.cart == [Item(3, d, 4)] && q.stored == Some([Item(3, d, 4)]);

    // Cart [{id: 3, amount: 2}]: removing product 3 empties the cart and the snapshot.
    var s := new CartProvider(Some([Item(3, d, 2)]));
    o := s.RemoveProduct(3);
    assert o == Ok && s.cart == [] && s.stored == Some([]);
  }
}

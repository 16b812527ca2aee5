/** The cart provider: the in-memory cart together with its persisted mirror
    under the single storage key. Every operation works on a copy of the cart
    and, only when it succeeds, commits twice: first the in-memory cart, then
    the persisted copy. A refused or failed call commits nothing. */
module CartStore {
  import opened CartList
  import opened CartRules

  /** The cart read back from the store: the persisted list when the key is
      present, the empty cart when it is absent. */
  function Load<M>(persisted: Option<seq<Item<M>>>): (r: seq<Item<M>>)
  {
    match persisted
    case None => []
    case Some(items) => items
  }

  class CartStore<M> {
    /** The in-memory cart the user interface reads. */
    var cart: seq<Item<M>>
    /** The persisted copy under the storage key; None while never written. */
    var stored: Option<seq<Item<M>>>

    /** The persisted copy, reloaded, is the in-memory cart. */
    ghost predicate Mirrored()
      reads this
    {
      Load(stored) == cart
    }

    /** Session start: the cart is whatever the store holds, or empty. */
    constructor (persisted: Option<seq<Item<M>>>)
      ensures stored == persisted
      ensures cart == Load(persisted)
      ensures Mirrored()
    {
      stored := persisted;
      cart := Load(persisted);
    }

    /** Commit a newly computed cart: memory first, then the store. */
    method Commit(updated: seq<Item<M>>)
      modifies this
      ensures cart == updated && stored == Some(updated)
      ensures Mirrored()
    {
      cart := updated;
      stored := Some(updated);
    }

    /** addProduct, with the stock answer and the catalog answer for a first
        addition passed in. */
    method AddProduct(productId: int, stock: Lookup<int>, product: Lookup<Product<M>>) returns (outcome: Outcome)
      modifies this
      ensures outcome == AddStep(old(cart), productId, stock, product).outcome
      ensures cart == AddStep(old(cart), productId, stock, product).cart
      ensures outcome == Ok ==> stored == Some(cart)
      ensures outcome != Ok ==> cart == old(cart) && stored == old(stored)
      ensures old(Mirrored()) ==> Mirrored()
      ensures WellFormed(old(cart)) && (product.Fetched? ==> product.value.id == productId) ==> WellFormed(cart)
    {
      ghost var keepsInvariant := WellFormed(cart) && (product.Fetched? ==> product.value.id == productId);
      if keepsInvariant {
        AddPreservesWellFormed(cart, productId, stock, product);
      }
      var updated := cart;
      var found := FindIndex(updated, productId);
      var currentAmount := if found.Some? then updated[found.value].amount else 0;
      if stock.Failed? {
        return AddError;
      }
      var stockAmount := stock.value;
      if currentAmount + 1 > stockAmount {
        return OutOfStock;
      }
      if found.Some? {
        var i := found.value;
        updated := updated[i := updated[i].(amount := updated[i].amount + 1)];
      } else {
        if product.Failed? {
          return AddError;
        }
        updated := updated + [Item(product.value.id, 1, product.value.meta)];
      }
      Commit(updated);
      outcome := Ok;
    }

    /** removeProduct. */
    method RemoveProduct(productId: int) returns (outcome: Outcome)
      modifies this
      ensures outcome == RemoveStep(old(cart), productId).outcome
      ensures cart == RemoveStep(old(cart), productId).cart
      ensures outcome == Ok ==> stored == Some(cart)
      ensures outcome != Ok ==> cart == old(cart) && stored == old(stored)
      ensures old(Mirrored()) ==> Mirrored()
      ensures WellFormed(old(cart)) ==> WellFormed(cart)
    {
      ghost var keepsInvariant := WellFormed(cart);
      if keepsInvariant {
        RemovePreservesWellFormed(cart, productId);
      }
      var updated := cart;
      var found := FindIndex(updated, productId);
      if found.None? {
        return RemoveError;
      }
      var remaining := Without(updated, productId);
      Commit(remaining);
      outcome := Ok;
    }

    /** updateProductAmount, with the stock answer passed in. */
    method UpdateProductAmount(productId: int, amount: int, stock: Lookup<int>) returns (outcome: Outcome)
      modifies this
      ensures outcome == UpdateStep(old(cart), productId, amount, stock).outcome
      ensures cart == UpdateStep(old(cart), productId, amount, stock).cart
      ensures outcome == Ok ==> stored == Some(cart)
      ensures outcome != Ok ==> cart == old(cart) && stored == old(stored)
      ensures old(Mirrored()) ==> Mirrored()
      ensures WellFormed(old(cart)) ==> WellFormed(cart)
    {
      ghost var keepsInvariant := WellFormed(cart);
      if keepsInvariant {
        UpdatePreservesWellFormed(cart, productId, amount, stock);
      }
      var updated := cart;
      var found := FindIndex(updated, productId);
      if found.None? || amount < 1 {
        return UpdateError;
      }
      var item := updated[found.value];
      var currentAmount := item.amount;
      if currentAmount <= 0 {
        return OutOfStock;
      }
      if stock.Failed? {
        return UpdateError;
      }
      var stockAmount := stock.value;
      if amount > stockAmount {
        return OutOfStock;
      }
      item := item.(amount := amount);
      var others := Without(updated, productId);
      Commit(others + [item]);
      outcome := Ok;
    }
  }
}

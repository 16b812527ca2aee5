/** Line items of a shopping cart and the two list lookups the cart operations
    use: the first item with a given product id (`Array.prototype.find`) and the
    cart without the items of a given product id (`Array.prototype.filter`). */
module CartList {

  datatype Option<+T> = None | Some(value: T)

  /** One line item: the product id, the requested quantity and the catalog
      fields (title, price, image) carried along uninterpreted as `meta`. */
  datatype Item<M> = Item(id: int, amount: int, meta: M)

  /** Some item of `cart` has product id `id`. */
  predicate Contains<M>(cart: seq<Item<M>>, id: int)
  {
    exists i :: 0 <= i < |cart| && cart[i].id == id
  }

  /** No two items share a product id. */
  predicate UniqueIds<M>(cart: seq<Item<M>>)
  {
    forall i, j :: 0 <= i < j < |cart| ==> cart[i].id != cart[j].id
  }

  /** Every item asks for at least one unit. */
  predicate PositiveAmounts<M>(cart: seq<Item<M>>)
  {
    forall i :: 0 <= i < |cart| ==> cart[i].amount >= 1
  }

  /** The cart invariant: positive amounts and unique product ids. */
  predicate WellFormed<M>(cart: seq<Item<M>>)
  {
    PositiveAmounts(cart) && UniqueIds(cart)
  }

  /** Position of the first item whose id is `id`, or None when there is none. */
  function FindIndex<M>(cart: seq<Item<M>>, id: int): (r: Option<nat>)
    ensures r.Some? ==> r.value < |cart| && cart[r.value].id == id
    ensures r.Some? ==> forall j :: 0 <= j < r.value ==> cart[j].id != id
    ensures r.None? <==> !Contains(cart, id)
  {
    if cart == [] then None
    else if cart[0].id == id then Some(0)
    else match FindIndex(cart[1..], id)
      case None => None
      case Some(k) => Some(k + 1)
  }

  /** Amount of the first item with id `id`, or 0 when the cart has none. */
  function CurrentAmount<M>(cart: seq<Item<M>>, id: int): (n: int)
    ensures !Contains(cart, id) ==> n == 0
    ensures Contains(cart, id) ==> exists i :: 0 <= i < |cart| && cart[i].id == id && cart[i].amount == n
    ensures forall i :: 0 <= i < |cart| && cart[i].id == id && (forall j :: 0 <= j < i ==> cart[j].id != id) ==>
      n == cart[i].amount
  {
    match FindIndex(cart, id)
    case None => 0
    case Some(i) => cart[i].amount
  }

  /** The cart with every item of product id `id` dropped, the others in order. */
  function Without<M>(cart: seq<Item<M>>, id: int): (r: seq<Item<M>>)
    ensures |r| <= |cart|
    ensures Contains(cart, id) ==> |r| < |cart|
    ensures forall k :: 0 <= k < |r| ==> r[k].id != id
  {
    if cart == [] then []
    else if cart[0].id == id then Without(cart[1..], id)
    else [cart[0]] + Without(cart[1..], id)
  }

  /** Filtering keeps exactly the items of other ids: every item of the result
      comes from the cart, and every item of another id is kept. */
  lemma {:induction false} WithoutMembers<M>(cart: seq<Item<M>>, id: int)
    ensures forall k :: 0 <= k < |Without(cart, id)| ==> Without(cart, id)[k] in cart
    ensures forall k :: 0 <= k < |cart| && cart[k].id != id ==> cart[k] in Without(cart, id)
  {
    if cart != [] {
      var tail := cart[1..];
      WithoutMembers(tail, id);
      var r := Without(cart, id);
      var rest := Without(tail, id);
      forall k | 0 <= k < |r| ensures r[k] in cart {
        if cart[0].id == id {
          assert r[k] in tail;
        } else if k > 0 {
          assert r[k] == rest[k - 1];
        }
      }
      forall k | 0 <= k < |cart| && cart[k].id != id ensures cart[k] in r {
        if k > 0 {
          assert cart[k] == tail[k - 1];
        }
      }
    }
  }

  /** Dropping an id no item has leaves the cart as it was. */
  lemma {:induction false} WithoutAbsent<M>(cart: seq<Item<M>>, id: int)
    requires !Contains(cart, id)
    ensures Without(cart, id) == cart
  {
    if cart != [] {
      assert cart[0].id != id;
      assert !Contains(cart[1..], id) by {
        forall i | 0 <= i < |cart[1..]| ensures cart[1..][i].id != id {
          assert cart[1..][i] == cart[i + 1];
        }
      }
      WithoutAbsent(cart[1..], id);
      assert cart == [cart[0]] + cart[1..];
    }
  }

  /** Filtering distributes over concatenation: it keeps the other items of
      every cart in order and with their multiplicity. */
  lemma {:induction false} WithoutAppend<M>(a: seq<Item<M>>, b: seq<Item<M>>, id: int)
    ensures Without(a + b, id) == Without(a, id) + Without(b, id)
  {
    if a == [] {
      assert a + b == b;
    } else {
      WithoutAppend(a[1..], b, id);
      assert (a + b)[1..] == a[1..] + b;
    }
  }

  /** On any cart, dropping the id of the first matching item `i` keeps the
      prefix before it and filters only what follows it. */
  lemma WithoutFirst<M>(cart: seq<Item<M>>, id: int, i: nat)
    requires i < |cart| && cart[i].id == id
    requires forall j :: 0 <= j < i ==> cart[j].id != id
    ensures Without(cart, id) == cart[..i] + Without(cart[i + 1..], id)
  {
    assert cart == cart[..i] + cart[i..];
    WithoutAppend(cart[..i], cart[i..], id);
    assert !Contains(cart[..i], id) by {
      forall k | 0 <= k < i ensures cart[..i][k].id != id {
        assert cart[..i][k] == cart[k];
      }
    }
    WithoutAbsent(cart[..i], id);
    assert cart[i..][1..] == cart[i + 1..];
  }

  /** The tail of a cart with unique ids has unique ids. */
  lemma UniqueTail<M>(cart: seq<Item<M>>)
    requires |cart| > 0 && UniqueIds(cart)
    ensures UniqueIds(cart[1..])
  {
    var tail := cart[1..];
    forall a, b | 0 <= a < b < |tail| ensures tail[a].id != tail[b].id {
      assert tail[a] == cart[a + 1] && tail[b] == cart[b + 1];
    }
  }

  /** In a cart with unique ids, the item at index 0 has an id no later item has. */
  lemma HeadIdNotInTail<M>(cart: seq<Item<M>>)
    requires |cart| > 0 && UniqueIds(cart)
    ensures !Contains(cart[1..], cart[0].id)
  {
    var tail := cart[1..];
    forall k | 0 <= k < |tail| ensures tail[k].id != cart[0].id {
      assert tail[k] == cart[k + 1];
    }
  }

  /** In a cart with unique ids, dropping the id of item `i` removes exactly
      that item and keeps the others in their original order. */
  lemma {:induction false} WithoutAt<M>(cart: seq<Item<M>>, id: int, i: nat)
    requires UniqueIds(cart)
    requires i < |cart| && cart[i].id == id
    ensures Without(cart, id) == cart[..i] + cart[i + 1..]
  {
    var tail := cart[1..];
    if i == 0 {
      HeadIdNotInTail(cart);
      WithoutAbsent(tail, id);
    } else {
      UniqueTail(cart);
      WithoutAt(tail, id, i - 1);
      assert Without(cart, id) == [cart[0]] + (tail[..i - 1] + tail[i..]);
      assert tail[..i - 1] == cart[1..i] && tail[i..] == cart[i + 1..];
      assert cart[..i] == [cart[0]] + cart[1..i];
    }
  }

  /** Dropping items never introduces a duplicate id. */
  lemma {:induction false} WithoutUnique<M>(cart: seq<Item<M>>, id: int)
    requires UniqueIds(cart)
    ensures UniqueIds(Without(cart, id))
  {
    if cart != [] {
      var tail := cart[1..];
      UniqueTail(cart);
      WithoutUnique(tail, id);
      WithoutMembers(tail, id);
      if cart[0].id != id {
        var rest := Without(tail, id);
        var r := [cart[0]] + rest;
        forall a, b | 0 <= a < b < |r| ensures r[a].id != r[b].id {
          if a == 0 {
            assert r[b] == rest[b - 1];
            assert rest[b - 1] in tail;
            var m :| 0 <= m < |tail| && tail[m] == rest[b - 1];
            assert tail[m] == cart[m + 1];
          } else {
            assert r[a] == rest[a - 1] && r[b] == rest[b - 1];
          }
        }
      }
    }
  }

  /** Dropping items keeps every remaining amount positive. */
  lemma WithoutPositive<M>(cart: seq<Item<M>>, id: int)
    requires PositiveAmounts(cart)
    ensures PositiveAmounts(Without(cart, id))
  {
    var r := Without(cart, id);
    WithoutMembers(cart, id);
    forall k | 0 <= k < |r| ensures r[k].amount >= 1 {
      assert r[k] in cart;
    }
  }
}

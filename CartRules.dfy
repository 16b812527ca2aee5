/** The three cart operations as pure transitions: each takes the cart before
    the call, the answers of the inventory service, and gives the notification
    raised (or Ok) together with the cart after the call. */
module CartRules {
  import opened CartList

  /** A catalog record as the inventory service returns it for a product. */
  datatype Product<M> = Product(id: int, meta: M)

  /** The answer of one inventory request: a value, or a failed request
      (network or parse error), which the operation catches. */
  datatype Lookup<T> = Fetched(value: T) | Failed

  /** What an operation reports: success, or the notification it raises.
      OutOfStock is "requested quantity exceeds stock"; the others are the
      generic "failed to add / remove / update" notifications. */
  datatype Outcome = Ok | OutOfStock | AddError | RemoveError | UpdateError

  /** The result of one operation: its outcome and the cart it leaves. */
  datatype Step<M> = Step(outcome: Outcome, cart: seq<Item<M>>)

  /** addProduct: check one more unit against the stock, then increment the
      first matching item in place or append a fresh item with amount 1. */
  function AddStep<M>(cart: seq<Item<M>>, id: int, stock: Lookup<int>, product: Lookup<Product<M>>): (s: Step<M>)
    ensures s.outcome in {Ok, OutOfStock, AddError}
    ensures s.outcome != Ok ==> s.cart == cart
    ensures s.outcome == OutOfStock <==> stock.Fetched? && CurrentAmount(cart, id) + 1 > stock.value
    ensures s.outcome == AddError <==>
      stock.Failed? || (CurrentAmount(cart, id) + 1 <= stock.value && !Contains(cart, id) && product.Failed?)
    ensures s.outcome == Ok ==> |s.cart| == |cart| + (if Contains(cart, id) then 0 else 1)
  {
    var found := FindIndex(cart, id);
    var current := CurrentAmount(cart, id);
    if stock.Failed? then Step(AddError, cart)
    else if current + 1 > stock.value then Step(OutOfStock, cart)
    else if found.Some? then
      Step(Ok, cart[found.value := cart[found.value].(amount := current + 1)])
    else if product.Failed? then Step(AddError, cart)
    else Step(Ok, cart + [Item(product.value.id, 1, product.value.meta)])
  }

  /** removeProduct: drop the product when the cart holds it. */
  function RemoveStep<M>(cart: seq<Item<M>>, id: int): (s: Step<M>)
    ensures s.outcome in {Ok, RemoveError}
    ensures s.outcome == RemoveError <==> !Contains(cart, id)
    ensures s.outcome != Ok ==> s.cart == cart
    ensures s.outcome == Ok ==> |s.cart| < |cart| && !Contains(s.cart, id)
    ensures forall k :: 0 <= k < |s.cart| ==> s.cart[k] in cart
  {
    WithoutMembers(cart, id);
    if FindIndex(cart, id).None? then Step(RemoveError, cart)
    else Step(Ok, Without(cart, id))
  }

  /** updateProductAmount: validate the request, check it against the stock,
      then move the item, with its new amount, to the end of the cart. */
  function UpdateStep<M>(cart: seq<Item<M>>, id: int, amount: int, stock: Lookup<int>): (s: Step<M>)
    ensures s.outcome in {Ok, OutOfStock, UpdateError}
    ensures s.outcome != Ok ==> s.cart == cart
    ensures s.outcome == UpdateError <==>
      !Contains(cart, id) || amount < 1 || (CurrentAmount(cart, id) > 0 && stock.Failed?)
    ensures s.outcome == OutOfStock <==>
      Contains(cart, id) && amount >= 1 &&
      (CurrentAmount(cart, id) <= 0 || (stock.Fetched? && amount > stock.value))
    ensures s.outcome == Ok ==> |s.cart| >= 1 && s.cart[|s.cart| - 1].id == id && s.cart[|s.cart| - 1].amount == amount
  {
    var found := FindIndex(cart, id);
    if found.None? || amount < 1 then Step(UpdateError, cart)
    else if cart[found.value].amount <= 0 then Step(OutOfStock, cart)
    else if stock.Failed? then Step(UpdateError, cart)
    else if amount > stock.value then Step(OutOfStock, cart)
    else Step(Ok, Without(cart, id) + [cart[found.value].(amount := amount)])
  }

  /** Adding a product the cart already holds raises the amount of its first
      item by exactly one, in place; every other item and the length stay as
      they were. */
  lemma AddExisting<M>(cart: seq<Item<M>>, id: int, i: nat, stock: Lookup<int>, product: Lookup<Product<M>>)
    requires i < |cart| && cart[i].id == id
    requires forall j :: 0 <= j < i ==> cart[j].id != id
    requires stock.Fetched? && cart[i].amount + 1 <= stock.value
    ensures AddStep(cart, id, stock, product) == Step(Ok, cart[i := cart[i].(amount := cart[i].amount + 1)])
  {
    assert FindIndex(cart, id) == Some(i);
  }

  /** Adding a product the cart does not hold appends one item with amount 1
      built from the catalog record, leaving the earlier items unchanged. */
  lemma AddNew<M>(cart: seq<Item<M>>, id: int, stock: Lookup<int>, product: Lookup<Product<M>>)
    requires !Contains(cart, id)
    requires stock.Fetched? && 1 <= stock.value
    requires product.Fetched?
    ensures AddStep(cart, id, stock, product) == Step(Ok, cart + [Item(product.value.id, 1, product.value.meta)])
  {
  }

  /** A successful add raises the product's current amount by one and never
      past the stock (given the catalog returns the record of the asked id). */
  lemma AddCountsAgainstStock<M>(cart: seq<Item<M>>, id: int, stock: Lookup<int>, product: Lookup<Product<M>>)
    requires product.Fetched? ==> product.value.id == id
    requires AddStep(cart, id, stock, product).outcome == Ok
    ensures stock.Fetched?
    ensures CurrentAmount(AddStep(cart, id, stock, product).cart, id) == CurrentAmount(cart, id) + 1
    ensures CurrentAmount(AddStep(cart, id, stock, product).cart, id) <= stock.value
  {
    var after := AddStep(cart, id, stock, product).cart;
    match FindIndex(cart, id)
    case Some(i) =>
      assert after[i].id == id;
      assert forall j :: 0 <= j < i ==> after[j] == cart[j];
      assert FindIndex(after, id) == Some(i);
    case None =>
      assert after == cart + [Item(id, 1, product.value.meta)];
      assert forall j :: 0 <= j < |cart| ==> after[j] == cart[j];
      assert after[|cart|].id == id;
      assert FindIndex(after, id) == Some(|cart|);
  }

  /** A successful add keeps the cart well formed. */
  lemma AddPreservesWellFormed<M>(cart: seq<Item<M>>, id: int, stock: Lookup<int>, product: Lookup<Product<M>>)
    requires WellFormed(cart)
    requires product.Fetched? ==> product.value.id == id
    ensures WellFormed(AddStep(cart, id, stock, product).cart)
  {
    var s := AddStep(cart, id, stock, product);
    if s.outcome == Ok {
      match FindIndex(cart, id)
      case Some(i) =>
        assert forall j :: 0 <= j < |cart| ==> s.cart[j].id == cart[j].id;
      case None =>
        assert s.cart == cart + [Item(id, 1, product.value.meta)];
        assert forall j :: 0 <= j < |cart| ==> s.cart[j] == cart[j];
    }
  }

  /** Removing a product the cart holds, first found at `i`, keeps every item
      before `i` and filters the rest; with unique ids it drops exactly item `i`
      and keeps the other items in their original order. */
  lemma RemoveExact<M>(cart: seq<Item<M>>, id: int, i: nat)
    requires i < |cart| && cart[i].id == id
    requires forall j :: 0 <= j < i ==> cart[j].id != id
    ensures RemoveStep(cart, id) == Step(Ok, cart[..i] + Without(cart[i + 1..], id))
    ensures UniqueIds(cart) ==> RemoveStep(cart, id) == Step(Ok, cart[..i] + cart[i + 1..])
  {
    WithoutFirst(cart, id, i);
    if UniqueIds(cart) {
      WithoutAt(cart, id, i);
    }
  }

  /** Removing keeps the cart well formed. */
  lemma RemovePreservesWellFormed<M>(cart: seq<Item<M>>, id: int)
    requires WellFormed(cart)
    ensures WellFormed(RemoveStep(cart, id).cart)
  {
    WithoutUnique(cart, id);
    WithoutPositive(cart, id);
  }

  /** A successful update is the other items in their original order followed
      by the updated item carrying the requested amount; on any cart, the items
      before the first match are kept and every later item of the id is dropped. */
  lemma UpdateMovesToEnd<M>(cart: seq<Item<M>>, id: int, i: nat, amount: int, stock: Lookup<int>)
    requires i < |cart| && cart[i].id == id && cart[i].amount >= 1
    requires forall j :: 0 <= j < i ==> cart[j].id != id
    requires 1 <= amount && stock.Fetched? && amount <= stock.value
    ensures UpdateStep(cart, id, amount, stock) ==
      Step(Ok, cart[..i] + Without(cart[i + 1..], id) + [Item(id, amount, cart[i].meta)])
    ensures UniqueIds(cart) ==>
      UpdateStep(cart, id, amount, stock) == Step(Ok, cart[..i] + cart[i + 1..] + [Item(id, amount, cart[i].meta)])
  {
    assert FindIndex(cart, id) == Some(i);
    WithoutFirst(cart, id, i);
    if UniqueIds(cart) {
      WithoutAt(cart, id, i);
    }
  }

  /** After a successful update the product's current amount is the requested
      one, which the stock covers. */
  lemma UpdateWithinStock<M>(cart: seq<Item<M>>, id: int, amount: int, stock: Lookup<int>)
    requires UpdateStep(cart, id, amount, stock).outcome == Ok
    ensures stock.Fetched? && 1 <= amount <= stock.value
    ensures CurrentAmount(UpdateStep(cart, id, amount, stock).cart, id) == amount
  {
    var after := UpdateStep(cart, id, amount, stock).cart;
    var rest := Without(cart, id);
    assert after[..|rest|] == rest;
    assert FindIndex(after, id) == Some(|rest|);
  }

  /** A successful update keeps the cart well formed. */
  lemma UpdatePreservesWellFormed<M>(cart: seq<Item<M>>, id: int, amount: int, stock: Lookup<int>)
    requires WellFormed(cart)
    ensures WellFormed(UpdateStep(cart, id, amount, stock).cart)
  {
    var s := UpdateStep(cart, id, amount, stock);
    if s.outcome == Ok {
      var rest := Without(cart, id);
      WithoutUnique(cart, id);
      WithoutPositive(cart, id);
      assert s.cart == rest + [s.cart[|rest|]];
      forall a, b | 0 <= a < b < |s.cart| ensures s.cart[a].id != s.cart[b].id {
        if b < |rest| {
          assert s.cart[a] == rest[a] && s.cart[b] == rest[b];
        } else {
          assert s.cart[a] == rest[a];
        }
      }
    }
  }

  /** On a well-formed cart the defensive "existing amount is not positive"
      check never fires: out of stock is reported exactly when the requested
      amount exceeds the fetched stock. */
  lemma UpdateDefensiveCheckDead<M>(cart: seq<Item<M>>, id: int, amount: int, stock: Lookup<int>)
    requires PositiveAmounts(cart)
    ensures UpdateStep(cart, id, amount, stock).outcome == OutOfStock <==>
      Contains(cart, id) && amount >= 1 && stock.Fetched? && amount > stock.value
  {
    if Contains(cart, id) {
      var i := FindIndex(cart, id).value;
      assert CurrentAmount(cart, id) == cart[i].amount >= 1;
    }
  }

  /** The cart after `n` successive adds of product `id`. */
  function AddTimes<M>(cart: seq<Item<M>>, id: int, n: nat, stock: Lookup<int>, product: Lookup<Product<M>>): (r: seq<Item<M>>)
  {
    if n == 0 then cart else AddStep(AddTimes(cart, id, n - 1, stock, product), id, stock, product).cart
  }

  /** On an empty cart, `n` adds within the stock leave one item whose amount
      is `n`. */
  lemma {:induction false} AddTimesCounts<M>(id: int, n: nat, stock: int, meta: M)
    requires n <= stock
    ensures AddTimes([], id, n, Fetched(stock), Fetched(Product(id, meta))) == if n == 0 then [] else [Item(id, n, meta)]
  {
    if n > 0 {
      AddTimesCounts(id, n - 1, stock, meta);
    }
  }

  /** On an empty cart with stock N, after N adds the next add is refused as
      out of stock and leaves the cart (amount N) as it was. */
  lemma AddPastStock<M>(id: int, stock: nat, meta: M)
    ensures var full := AddTimes([], id, stock, Fetched(stock), Fetched(Product(id, meta)));
      full == (if stock == 0 then [] else [Item(id, stock, meta)]) &&
      AddStep(full, id, Fetched(stock), Fetched(Product(id, meta))) == Step(OutOfStock, full)
  {
    AddTimesCounts(id, stock, stock, meta);
  }

  /** The walk-through of a typical session: two adds, an update within the
      stock, one past it, and a removal. */
  lemma Session<M>(meta: M)
    ensures
      var p := Fetched(Product(1, meta));
      var s1 := AddStep([], 1, Fetched(5), p);
      var s2 := AddStep(s1.cart, 1, Fetched(5), p);
      var s3 := UpdateStep(s2.cart, 1, 5, Fetched(5));
      var s4 := UpdateStep(s3.cart, 1, 6, Fetched(5));
      var s5 := RemoveStep(s4.cart, 1);
      s1 == Step(Ok, [Item(1, 1, meta)]) &&
      s2 == Step(Ok, [Item(1, 2, meta)]) &&
      s3 == Step(Ok, [Item(1, 5, meta)]) &&
      s4 == Step(OutOfStock, [Item(1, 5, meta)]) &&
      s5 == Step(Ok, [])
  {
    var c1: seq<Item<M>> := [Item(1, 1, meta)];
    assert FindIndex(c1, 1) == Some(0);
    var c2: seq<Item<M>> := [Item(1, 2, meta)];
    assert FindIndex(c2, 1) == Some(0);
    assert Without(c2, 1) == [];
    var c3: seq<Item<M>> := [Item(1, 5, meta)];
    assert FindIndex(c3, 1) == Some(0);
    assert Without(c3, 1) == [];
  }
}

# Shopping cart reconciliation (RocketShoes cart provider)

This project models the cart provider of a React storefront. The provider
keeps the shopping cart in memory and mirrors it to browser local storage
under the key `@RocketShoes:cart`. Three operations change the cart:

- `addProduct` checks one more unit against the product's stock. It then
  raises the amount of the existing line item, or appends a new line item with
  amount 1 built from the catalog record.
- `removeProduct` drops a product the cart holds.
- `updateProductAmount` validates the requested amount and checks it against
  the stock. The item then moves to the end of the cart with its new amount.

Each operation works on a copy of the cart. Only on success does it commit:
first the in-memory cart, then the persisted copy. A refused or failed call
raises a notification and changes nothing.

Layout:

- `CartList.dfy` (module `CartList`) holds the line items, the first-match
  lookup `FindIndex`, the function `Without` that drops every item of one
  product, and the cart invariant `WellFormed` (every amount is at least 1,
  ids are unique).
- `CartRules.dfy` (module `CartRules`) states each operation as a pure
  transition `cart -> Step(outcome, cart')` and proves the properties of it.
- `CartStore.dfy` (module `CartStore`) holds the class `CartStore`. Its
  fields are `cart` and `stored`, and its methods follow the source step by
  step. Each method's contract ties the new state to the transition function
  and keeps the invariant `Mirrored` (reloading the store gives the cart).

The inventory service's answers are method parameters of type
`Lookup<T> = Fetched(value) | Failed`. `Failed` stands for a network or parse
error, which the source catches. The notifications are the `Outcome` values:

- `OutOfStock` is "requested quantity exceeds stock".
- `AddError`, `RemoveError` and `UpdateError` are the generic failure
  messages of the three operations.

Behaviour of the code worth noting:

- A successful `updateProductAmount` moves the item to the end of the cart
  (src/hooks/useCart.tsx:127-129); it does not keep its position.
- When the existing amount is not positive, `updateProductAmount` reports
  out of stock, not the update failure (src/hooks/useCart.tsx:112-115). On a
  well-formed cart this check never fires (`UpdateDefensiveCheckDead`).
- The initial load has no fallback for unparsable stored data
  (src/hooks/useCart.tsx:28-29). The model loads a present value as is.
- In `addProduct`, the `filter(...).push(...)` on an existing item pushes onto
  a discarded array. The increment therefore happens in place and the
  item keeps its position (src/hooks/useCart.tsx:50-54).
- A new line item takes its id from the fetched catalog record, not from the
  argument (src/hooks/useCart.tsx:56-58). The invariant lemmas for `add`
  assume that the record's id is the requested one.

## Model

| member | source | states |
|---|---|---|
| CartList.FindIndex | src/hooks/useCart.tsx:39 | the index of the first item with the id, and None exactly when no item has it |
| CartList.CurrentAmount | src/hooks/useCart.tsx:39-40 | 0 when the product is absent, otherwise the amount of the first item with that id |
| CartList.Without | src/hooks/useCart.tsx:83 | the result has no item with the id and is strictly shorter when the id was present |
| CartList.WithoutMembers | src/hooks/useCart.tsx:83 | every item of the result comes from the cart, and every item of another id is kept |
| CartList.WithoutAppend | src/hooks/useCart.tsx:83 | on every cart, filtering distributes over concatenation, so the other items keep their order and multiplicity |
| CartList.WithoutFirst | src/hooks/useCart.tsx:83 | on every cart, filtering out the id of the first match at i keeps the prefix before i and filters only the items after it |
| CartList.WithoutAbsent | src/hooks/useCart.tsx:83 | filtering out an id that no item has leaves the cart unchanged |
| CartList.WithoutAt | src/hooks/useCart.tsx:83 | with unique ids, filtering out item i's id removes exactly item i; the others keep their order |
| CartList.WithoutUnique | src/hooks/useCart.tsx:83 | filtering keeps ids unique |
| CartList.WithoutPositive | src/hooks/useCart.tsx:83 | filtering keeps every amount at least 1 |
| CartRules.AddStep | src/hooks/useCart.tsx:35-70 | out of stock exactly when current amount + 1 exceeds the fetched stock; add error exactly on a failed stock lookup, or a failed catalog lookup for a new product; any refusal leaves the cart unchanged; success grows the cart by one item only for a new product |
| CartRules.RemoveStep | src/hooks/useCart.tsx:72-94 | remove error exactly when the id is absent, and then no change; success leaves a strictly shorter cart without the id and adds no item |
| CartRules.UpdateStep | src/hooks/useCart.tsx:96-138 | update error exactly when the id is absent, or amount < 1, or the stock lookup fails; out of stock exactly on a non-positive existing amount or amount > stock; any refusal leaves the cart unchanged; on success the last item is the product with the requested amount |
| CartRules.AddExisting | src/hooks/useCart.tsx:50-54 | on any cart, adding a held product within stock raises only the amount of its first item by 1, in place; every other item and the length are unchanged |
| CartRules.AddNew | src/hooks/useCart.tsx:55-58 | adding a new product within stock appends one item with amount 1 and the catalog fields; earlier items are unchanged |
| CartRules.AddCountsAgainstStock | src/hooks/useCart.tsx:40-58 | after a successful add, the product's current amount is the old one plus 1 and at most the fetched stock |
| CartRules.AddPreservesWellFormed | src/hooks/useCart.tsx:45-58 | add keeps amounts at least 1 and ids unique, when the catalog record's id is the requested one |
| CartRules.RemoveExact | src/hooks/useCart.tsx:76-85 | on any cart, removing a held product keeps the items before its first match and filters the rest; with unique ids it drops exactly its item and the others keep their original order |
| CartRules.RemovePreservesWellFormed | src/hooks/useCart.tsx:83-85 | remove keeps amounts at least 1 and ids unique |
| CartRules.UpdateMovesToEnd | src/hooks/useCart.tsx:125-129 | on any cart, a successful update keeps the items before the first match, filters the rest, and appends the item with the requested amount; with unique ids that is the other items in their original order followed by the updated item |
| CartRules.UpdateWithinStock | src/hooks/useCart.tsx:105-129 | after a successful update, the stock was fetched, 1 <= amount <= stock, and the product's current amount is the requested one |
| CartRules.UpdatePreservesWellFormed | src/hooks/useCart.tsx:105-129 | update keeps amounts at least 1 and ids unique |
| CartRules.UpdateDefensiveCheckDead | src/hooks/useCart.tsx:110-123 | when every amount is positive, update reports out of stock exactly when the product is held, amount >= 1, and amount exceeds the fetched stock |
| CartRules.AddTimesCounts | src/hooks/useCart.tsx:35-70 | n adds of one product on an empty cart, with stock >= n, leave one item with amount n |
| CartRules.AddPastStock | src/hooks/useCart.tsx:45-48 | with stock N, after N adds to an empty cart, the next add is refused as out of stock and the amount stays N |
| CartRules.Session | src/hooks/useCart.tsx:35-138 | add, add, update to 5, update to 6 and remove, with stock 5, give amounts 1, 2, 5, then a refusal keeping 5, then the empty cart |
| CartStore.CartStore.constructor | src/hooks/useCart.tsx:25-33 | the cart is the stored list when the key is present, otherwise empty; the mirror holds |
| CartStore.CartStore.Commit | src/hooks/useCart.tsx:61-66 | sets the in-memory cart, then the stored copy, to the same new cart |
| CartStore.CartStore.AddProduct | src/hooks/useCart.tsx:35-70 | outcome and new cart are those of AddStep; on success the stored copy equals the cart; on refusal neither field changes; the mirror and the cart invariant are preserved |
| CartStore.CartStore.RemoveProduct | src/hooks/useCart.tsx:72-94 | outcome and new cart are those of RemoveStep; on success the stored copy equals the cart; on refusal neither field changes; the mirror and the cart invariant are preserved |
| CartStore.CartStore.UpdateProductAmount | src/hooks/useCart.tsx:96-138 | outcome and new cart are those of UpdateStep; on success the stored copy equals the cart; on refusal neither field changes; the mirror and the cart invariant are preserved |

## Left out

- The React context, the provider component and the `useCart` hook
  (src/hooks/useCart.tsx:22, 140-153) are user-interface wiring.
- The `api.get` requests (src/hooks/useCart.tsx:42, 56, 117) are parameters
  of the methods (`Lookup<int>` for the stock, `Lookup<Product<M>>` for the
  catalog record). `Failed` models a request that throws.
- The notification texts (`toast.error`) are the `Outcome` values.
- JSON serialisation and `localStorage` are the `stored` field,
  an `Option` of the cart (None when the key is absent). The source's
  `JSON.parse` of corrupt data throws; this model does not represent it.
- A `localStorage.setItem` that throws (for example, a full quota) is not
  modelled. In the source, such a call has already replaced the in-memory
  cart and then reports the generic error. In the model the write always
  succeeds.
- Concurrent calls that interleave at an `await` and overwrite each other's
  result are not modelled. Each method is one atomic step.
- Items are values. The source's `productExists.amount += 1` and
  `= amount` also change the object that the previous cart array shares
  (src/hooks/useCart.tsx:51, 125). This aliasing is not represented.
- The catalog fields (title, price, image) are the uninterpreted `meta`.
- JavaScript numbers are modelled as unbounded integers. Fractional or
  non-numeric amounts and stock figures are not represented.

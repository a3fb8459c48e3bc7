# Cart reconciliation of the RocketShoes cart hook

This project models `CartProvider` in `src/hooks/useCart.tsx`. It holds an ordered list of cart
lines. Each line is a product with an `id`, display fields and an `amount`. The provider keeps
that list as component state and mirrors it under the storage key `@RocketShoes:cart`. It offers
three operations:

- `addProduct` checks the stock. Then it either raises the amount of the product's line by one
  or appends a new line from the catalog with amount 1.
- `removeProduct` splices out the product's line, or reports an error.
- `updateProductAmount` ignores amounts of zero or less. Otherwise it checks the stock and then
  sets the line's amount to the requested value, or reports an error.

Every successful operation writes the new cart to storage. Every other path writes nothing.

Layout:

- `items.dfy` (module `Items`) holds the cart line, the catalog record, `find` by id
  (`Find`), the quantity of a product (`AmountIn`) and the list edits: amount assignment,
  `push` and `splice`. It also holds the cart invariant `WellFormed`: at most one line per id
  and every amount at least 1.
- `reconcile.dfy` (module `Reconcile`) decides each operation as a function of the cart and the
  lookup answers (`AddStep`, `RemoveStep`, `UpdateStep`). It also holds the toast texts
  (`Notification`), the state of cart plus stored snapshot (`State`, `Apply`, `Run` over any
  sequence of calls) and the lemmas.
- `use_cart.dfy` (module `UseCart`) has the class `CartProvider` with the fields `cart` and
  `stored`. Its methods copy the cart, edit the copy and replace both fields, as the hook does.
  Each method is proved against the matching `Reconcile` function.

The HTTP lookups are parameters of the operations:

- `stock: Option<int>` is the answer of `GET /stock/{id}`. `None` means the request threw,
  which sends the call to its `catch` block.
- `catalog: Option<CatalogRecord>` is the answer of `GET /products/{id}`. `None` means the
  request failed (its own `.catch` returns `undefined`) or returned no data.

A toast is the operation's returned `Outcome`. `Notification` gives its exact text.

Behaviour taken from the code as written:

- The appended line spreads the catalog record, so it takes the record's `id`, not the
  requested one. It then overrides any amount the record had with 1. So id-uniqueness after
  `addProduct` holds only when the catalog answers with the id it was asked for.
  `AddTrustsCatalogId` shows a second line for an id when the catalog answers with another id.
- The stored text is parsed without a guard. An absent key and an empty string both give the
  empty cart. Mounting writes nothing. A cart read from storage is mirrored from mount on. An
  absent or empty key leaves nothing stored, with the empty cart, until the first call succeeds
  (`MountedRunMirrors`).
- `find` returns the first line with the id. Every edit touches that line, even in a cart
  whose ids are not distinct.

## Model

| member | source | states |
|---|---|---|
| `Items.Find` | src/hooks/useCart.tsx:38 | the index found holds the id and no earlier line does; None exactly when no line has the id |
| `Items.AmountIn` | src/hooks/useCart.tsx:42 | the amount of the first line with the id; 0 when no line has it; in a cart of positive amounts it is at least 1 exactly when some line has the id |
| `Items.SetAmount` | src/hooks/useCart.tsx:51 | no contract of its own; `FindSetAmount`, `SetAmountKeepsDistinctIds`, `AddIncrementsLine`, `UpdateSetsLine` and the `*Quantity` lemmas state what the amount assignment does |
| `Items.RemoveAt` | src/hooks/useCart.tsx:82 | no contract of its own; `FindRemoveAt`, `RemoveAtKeepsWellFormed`, `RemoveDeletesLine` and `RemoveDropsQuantity` state what `splice(k, 1)` does |
| `Items.NewLine` | src/hooks/useCart.tsx:60-63 | no contract of its own; `AddAppendsLine` states that the pushed line keeps the record's id and details and has amount 1, whatever amount the record had |
| `Items.FindDependsOnlyOnIds` | src/hooks/useCart.tsx:38 | two carts with the same ids line by line give the same `find` answer for every id |
| `Items.FindDistinct` | src/hooks/useCart.tsx:38 | with distinct ids, `find` of a line's id returns that line's index |
| `Items.FindSetAmount` | src/hooks/useCart.tsx:51 | assigning a line's amount leaves every `find` answer unchanged |
| `Items.FindAppend` | src/hooks/useCart.tsx:60 | after `push`, ids already present are found where they were; the pushed id, if new, is found at the end; all other ids are still absent |
| `Items.FindRemoveAt` | src/hooks/useCart.tsx:82 | after `splice(k, 1)`, other ids found past k move down by one and those before k stay; with distinct ids, the removed id is no longer found |
| `Items.SetAmountKeepsDistinctIds` | src/hooks/useCart.tsx:114 | assigning an amount keeps at most one line per id |
| `Items.AppendKeepsWellFormed` | src/hooks/useCart.tsx:60 | pushing a line with a new id and a positive amount keeps the cart invariant |
| `Items.RemoveAtKeepsWellFormed` | src/hooks/useCart.tsx:82 | `splice` keeps the cart invariant and shortens the cart by one |
| `Reconcile.Notification` | src/hooks/useCart.tsx:46-124 | a toast is raised for every outcome except success and the silent no-op; the texts are the hook's own |
| `Reconcile.AddStep` | src/hooks/useCart.tsx:35-74 | generic add error exactly when the stock lookup throws; out of stock exactly when current quantity + 1 exceeds the stock; silent no-op exactly when the stock allows the add, the product has no line and the catalog lookup failed; every non-success leaves the cart unchanged; success keeps the length (line existed) or appends after an unchanged prefix (line absent) |
| `Reconcile.RemoveStep` | src/hooks/useCart.tsx:76-93 | remove error exactly when no line has the id, with the cart unchanged; success shortens the cart by one |
| `Reconcile.UpdateStep` | src/hooks/useCart.tsx:95-126 | silent no-op exactly when amount <= 0; out of stock exactly when amount > 0 and the stock is below it; non-success leaves the cart unchanged; success needs 1 <= amount <= stock and keeps the length |
| `Reconcile.AddRefusesBeyondStock` | src/hooks/useCart.tsx:40-48 | current quantity (0 if absent) + 1 above the stock gives out of stock, the out-of-stock text, and an unchanged cart |
| `Reconcile.AddIncrementsLine` | src/hooks/useCart.tsx:38-51 | a present product's line becomes old amount + 1 with id and details kept; length, order and every other line are unchanged |
| `Reconcile.AddAppendsLine` | src/hooks/useCart.tsx:53-63 | an absent product with catalog data is appended with amount 1; earlier lines are unchanged and the length grows by one |
| `Reconcile.AddAbortsWithoutChange` | src/hooks/useCart.tsx:53-72 | a throwing stock lookup gives the generic add-error toast; a failed catalog lookup gives no toast; neither changes the cart |
| `Reconcile.AddIncrementsQuantity` | src/hooks/useCart.tsx:42-63 | on success the product's quantity is old + 1 and within the observed stock, at least 1 when amounts were positive, and every other product's quantity is unchanged; for a product new to the cart this assumes the catalog answers the asked id |
| `Reconcile.AddKeepsWellFormed` | src/hooks/useCart.tsx:38-63 | `addProduct` keeps at most one line per id and every amount at least 1; for a product new to the cart this assumes the catalog answers the asked id |
| `Reconcile.AddTrustsCatalogId` | src/hooks/useCart.tsx:59-63 | a catalog record with another product's id makes `addProduct` create a duplicate id |
| `Reconcile.RemoveDeletesLine` | src/hooks/useCart.tsx:79-89 | a present product's line is removed; the lines before and after it keep their order and the length drops by one |
| `Reconcile.RemoveAbsent` | src/hooks/useCart.tsx:81-86 | an absent product gives the remove-error toast and no change |
| `Reconcile.RemoveDropsQuantity` | src/hooks/useCart.tsx:79-82 | with distinct ids, the product's quantity becomes 0 and every other quantity is unchanged |
| `Reconcile.RemoveKeepsWellFormed` | src/hooks/useCart.tsx:81-82 | `removeProduct` keeps the cart invariant |
| `Reconcile.UpdateIgnoresNonPositive` | src/hooks/useCart.tsx:100 | amount <= 0 is a silent no-op whatever the stock |
| `Reconcile.UpdateChecksStockFirst` | src/hooks/useCart.tsx:103-111 | amount above the stock is out of stock even for a product the cart does not hold |
| `Reconcile.UpdateSetsLine` | src/hooks/useCart.tsx:113-114 | a present product within stock gets exactly the requested amount; length, order and every other line are unchanged |
| `Reconcile.UpdateMissing` | src/hooks/useCart.tsx:105-124 | a throwing stock lookup, or an absent product within stock, gives the update-error toast and no change |
| `Reconcile.UpdateSetsQuantity` | src/hooks/useCart.tsx:113-122 | on success the product's quantity is the requested amount and every other quantity is unchanged |
| `Reconcile.UpdateKeepsWellFormed` | src/hooks/useCart.tsx:100-114 | `updateProductAmount` keeps the cart invariant |
| `Reconcile.Initial` | src/hooks/useCart.tsx:25-33 | mounting leaves storage as it was; the cart is the stored one when there is one, else empty |
| `Reconcile.ApplyKeepsWellFormed` | src/hooks/useCart.tsx:35-126 | any one call keeps the cart invariant, given a catalog that answers the asked id |
| `Reconcile.RunKeepsWellFormed` | src/hooks/useCart.tsx:35-126 | any sequence of calls keeps at most one line per id and every amount at least 1, given a catalog that answers the asked id |
| `Reconcile.RunMirrorsStorage` | src/hooks/useCart.tsx:69-122 | after any sequence of calls either nothing was written or the stored snapshot equals the current cart; a mirrored state stays mirrored |
| `Reconcile.MountedRunMirrors` | src/hooks/useCart.tsx:25-33 | from mount on, storage holds exactly the current cart, unless the key was absent or empty and no call has succeeded yet, in which case nothing is stored and the cart is empty |
| `Reconcile.Apply` | src/hooks/useCart.tsx:69-70 | no contract of its own: `setCart` and `setItem` run only on success, with the same list; `RunMirrorsStorage` and the `stored` ensures of the three `CartProvider` methods state it |
| `UseCart.CartProvider.constructor` | src/hooks/useCart.tsx:25-33 | the cart is the stored cart or empty, and storage is untouched |
| `UseCart.CartProvider.AddProduct` | src/hooks/useCart.tsx:35-74 | outcome and new cart are those of `AddStep`; storage becomes the new cart on success and is untouched otherwise; the cart invariant is kept when the product was present or the catalog answers the asked id |
| `UseCart.CartProvider.RemoveProduct` | src/hooks/useCart.tsx:76-93 | outcome and new cart are those of `RemoveStep`; storage becomes the new cart on success and is untouched otherwise; the cart invariant is kept |
| `UseCart.CartProvider.UpdateProductAmount` | src/hooks/useCart.tsx:95-126 | outcome and new cart are those of `UpdateStep`; storage becomes the new cart on success and is untouched otherwise; the cart invariant is kept |

## Left out

- React wiring (`createContext`, the provider element, `useCallback`, `useCart`): framework code with no cart logic.
- The HTTP calls to `/stock/{id}` and `/products/{id}`: foreign I/O, taken as parameters. A stock answer without an `amount` field (compared as `undefined`) is not modelled.
- `toast.error`: a UI side effect, modelled as the returned `Outcome` and its `Notification` text.
- `JSON.parse`, `JSON.stringify` and `localStorage`: serialisation by a library; the `stored` field holds the list itself. A malformed stored text, which the hook does not guard against, is not modelled.
- A throwing `localStorage.setItem` (for example, storage quota): the write is taken to succeed. In the hook, `setCart` has already run at that point and the `catch` block raises the error toast.
- The `catch` block of `removeProduct` (line 91): nothing it guards can fail once storage writes succeed.
- Concurrent calls that read the same stale `cart`, where the last write wins: concurrency.
- Aliasing: `[...cart]` is a shallow copy, so `hasProduct.amount = …` also changes the line object shared with the previous state. Here it is a value update of one line in the new list.
- JavaScript numbers: ids, amounts and stock are unbounded integers here. Fractional or `NaN` amounts are not modelled.

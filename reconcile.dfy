/** The decisions of the cart hook's three operations, as functions of the cart and of what
    the stock and catalog services answered, and the properties they keep. */
module Reconcile {
  import opened Items

  /** How an operation ends. Ok is the one outcome that writes; the other five leave the cart
      and the storage alone. */
  datatype Outcome = Ok | OutOfStock | AddError | RemoveError | UpdateError | SilentNoop

  /** The toast an outcome raises, if any (useCart.tsx lines 46, 72, 84, 91, 109, 116, 124). */
  function Notification(o: Outcome): (m: Option<string>)
    ensures m.None? <==> o == Ok || o == SilentNoop
  {
    match o
    case Ok => None
    case SilentNoop => None
    case OutOfStock => Some("Quantidade solicitada fora de estoque")
    case AddError => Some("Erro na adição do produto")
    case RemoveError => Some("Erro na remoção do produto")
    case UpdateError => Some("Erro na alteração de quantidade do produto")
  }

  /** The outcome of one operation and the cart it leaves. */
  datatype Step = Step(outcome: Outcome, cart: seq<Item>)

  /** addProduct(productId): `stock` is the answer of `/stock/{id}` (None when the request
      throws), `catalog` that of `/products/{id}` (None when it fails or returns nothing). */
  function AddStep(c: seq<Item>, productId: int, stock: Option<int>, catalog: Option<CatalogRecord>): (r: Step)
    ensures r.outcome in {Ok, OutOfStock, AddError, SilentNoop}
    ensures r.outcome != Ok ==> r.cart == c
    ensures r.outcome == AddError <==> stock.None?
    ensures r.outcome == OutOfStock <==> stock.Some? && AmountIn(c, productId) + 1 > stock.value
    ensures r.outcome == SilentNoop <==>
      stock.Some? && AmountIn(c, productId) + 1 <= stock.value && Find(c, productId).None? && catalog.None?
    ensures r.outcome == Ok ==>
      || (Find(c, productId).Some? && |r.cart| == |c|)
      || (Find(c, productId).None? && |r.cart| == |c| + 1 && r.cart[..|c|] == c)
  {
    match stock
    case None => Step(AddError, c)
    case Some(available) =>
      var amount := AmountIn(c, productId) + 1;
      if amount > available then Step(OutOfStock, c)
      else match Find(c, productId)
        case Some(k) => Step(Ok, SetAmount(c, k, amount))
        case None =>
          match catalog
          case None => Step(SilentNoop, c)
          case Some(rec) => Step(Ok, c + [NewLine(rec)])
  }

  /** removeProduct(productId). */
  function RemoveStep(c: seq<Item>, productId: int): (r: Step)
    ensures r.outcome in {Ok, RemoveError}
    ensures r.outcome == RemoveError <==> forall j :: 0 <= j < |c| ==> c[j].id != productId
    ensures r.outcome == RemoveError ==> r.cart == c
    ensures r.outcome == Ok ==> |r.cart| == |c| - 1
  {
    match Find(c, productId)
    case None => Step(RemoveError, c)
    case Some(k) => Step(Ok, RemoveAt(c, k))
  }

  /** updateProductAmount({productId, amount}): `stock` as for AddStep. */
  function UpdateStep(c: seq<Item>, productId: int, amount: int, stock: Option<int>): (r: Step)
    ensures r.outcome in {Ok, OutOfStock, UpdateError, SilentNoop}
    ensures r.outcome != Ok ==> r.cart == c
    ensures r.outcome == SilentNoop <==> amount <= 0
    ensures r.outcome == OutOfStock <==> amount > 0 && stock.Some? && stock.value < amount
    ensures r.outcome == Ok ==> stock.Some? && 1 <= amount <= stock.value && |r.cart| == |c|
  {
    if amount <= 0 then Step(SilentNoop, c)
    else match stock
      case None => Step(UpdateError, c)
      case Some(available) =>
        if available < amount then Step(OutOfStock, c)
        else match Find(c, productId)
          case None => Step(UpdateError, c)
          case Some(k) => Step(Ok, SetAmount(c, k, amount))
  }

  // ---------------------------------------------------------------------------------------
  // addProduct

  /** The desired amount (current + 1) beyond the stock aborts with the out-of-stock toast. */
  lemma AddRefusesBeyondStock(c: seq<Item>, productId: int, available: int, catalog: Option<CatalogRecord>)
    requires AmountIn(c, productId) + 1 > available
    ensures AddStep(c, productId, Some(available), catalog) == Step(OutOfStock, c)
    ensures Notification(OutOfStock) == Some("Quantidade solicitada fora de estoque")
  {
  }

  /** A product already in the cart: its line's amount goes up by one, everything else stays. */
  lemma AddIncrementsLine(c: seq<Item>, productId: int, k: nat, available: int, catalog: Option<CatalogRecord>)
    requires Find(c, productId) == Some(k)
    requires c[k].amount + 1 <= available
    ensures var r := AddStep(c, productId, Some(available), catalog);
      && r.outcome == Ok
      && |r.cart| == |c|
      && r.cart[k] == Item(c[k].id, c[k].details, c[k].amount + 1)
      && forall j :: 0 <= j < |c| && j != k ==> r.cart[j] == c[j]
  {
  }

  /** A product new to the cart: a line with amount 1 is appended, whatever amount the catalog
      record carried; the earlier lines stay as they were. */
  lemma AddAppendsLine(c: seq<Item>, productId: int, available: int, rec: CatalogRecord)
    requires forall j :: 0 <= j < |c| ==> c[j].id != productId
    requires 1 <= available
    ensures var r := AddStep(c, productId, Some(available), Some(rec));
      && r.outcome == Ok
      && |r.cart| == |c| + 1
      && r.cart[..|c|] == c
      && r.cart[|c|] == Item(rec.id, rec.details, 1)
  {
  }

  /** The two quiet ends of addProduct: a failed stock lookup raises only the generic toast; a
      failed catalog lookup raises nothing. Neither changes the cart. */
  lemma AddAbortsWithoutChange(c: seq<Item>, productId: int, stock: Option<int>, catalog: Option<CatalogRecord>)
    ensures stock.None? ==> AddStep(c, productId, stock, catalog) == Step(AddError, c)
    ensures stock.Some? && 1 <= stock.value && catalog.None? &&
            (forall j :: 0 <= j < |c| ==> c[j].id != productId) ==>
            AddStep(c, productId, stock, catalog) == Step(SilentNoop, c)
    ensures Notification(SilentNoop).None? && Notification(AddError) == Some("Erro na adição do produto")
  {
  }

  /** On success the quantity of the product rises by exactly one and stays within the stock
      observed; the quantity of every other product is untouched. For a product new to the cart
      this needs the catalog to answer with the id it was asked for, because the appended line
      takes the record's id; an add to a present line never consults the catalog. */
  lemma AddIncrementsQuantity(c: seq<Item>, productId: int, stock: Option<int>, catalog: Option<CatalogRecord>)
    requires Find(c, productId).None? && catalog.Some? ==> catalog.value.id == productId
    ensures var r := AddStep(c, productId, stock, catalog);
      r.outcome == Ok ==>
        && stock.Some?
        && AmountIn(r.cart, productId) == AmountIn(c, productId) + 1 <= stock.value
        && (PositiveAmounts(c) ==> 1 <= AmountIn(r.cart, productId))
        && forall q :: q != productId ==> AmountIn(r.cart, q) == AmountIn(c, q)
  {
    var r := AddStep(c, productId, stock, catalog);
    if r.outcome == Ok {
      match Find(c, productId)
      case Some(k) =>
        forall q {
          FindSetAmount(c, k, AmountIn(c, productId) + 1, q);
        }
      case None =>
        forall q {
          FindAppend(c, NewLine(catalog.value), q);
        }
    }
  }

  /** addProduct keeps at most one line per id and every amount at least 1, provided the
      catalog, when it is consulted, answers with the id it was asked for. */
  lemma AddKeepsWellFormed(c: seq<Item>, productId: int, stock: Option<int>, catalog: Option<CatalogRecord>)
    requires WellFormed(c)
    requires Find(c, productId).None? && catalog.Some? ==> catalog.value.id == productId
    ensures WellFormed(AddStep(c, productId, stock, catalog).cart)
  {
    var r := AddStep(c, productId, stock, catalog);
    if r.outcome == Ok {
      match Find(c, productId)
      case Some(k) =>
        SetAmountKeepsDistinctIds(c, k, c[k].amount + 1);
      case None =>
        AppendKeepsWellFormed(c, NewLine(catalog.value));
    }
  }

  /** Uniqueness rests on the catalog: a record that answers with another product's id yields
      a second line for that id. */
  lemma AddTrustsCatalogId(d: Details)
    ensures var c := [Item(1, d, 1)];
      var r := AddStep(c, 2, Some(5), Some(CatalogRecord(1, d, None)));
      DistinctIds(c) && r.outcome == Ok && !DistinctIds(r.cart)
  {
    var c := [Item(1, d, 1)];
    var r := AddStep(c, 2, Some(5), Some(CatalogRecord(1, d, None)));
    assert r.cart[0].id == r.cart[1].id;
  }

  // ---------------------------------------------------------------------------------------
  // removeProduct

  /** A present product's line is spliced out; the remaining lines keep their order. */
  lemma RemoveDeletesLine(c: seq<Item>, productId: int, k: nat)
    requires Find(c, productId) == Some(k)
    ensures var r := RemoveStep(c, productId);
      && r.outcome == Ok
      && |r.cart| == |c| - 1
      && r.cart[..k] == c[..k]
      && r.cart[k..] == c[k + 1..]
  {
  }

  /** An absent product: no change and the remove-error toast. */
  lemma RemoveAbsent(c: seq<Item>, productId: int)
    requires forall j :: 0 <= j < |c| ==> c[j].id != productId
    ensures RemoveStep(c, productId) == Step(RemoveError, c)
    ensures Notification(RemoveError) == Some("Erro na remoção do produto")
  {
  }

  /** With distinct ids, removing leaves no unit of the product and every other quantity as it was. */
  lemma RemoveDropsQuantity(c: seq<Item>, productId: int)
    requires DistinctIds(c)
    ensures var r := RemoveStep(c, productId);
      && AmountIn(r.cart, productId) == 0
      && forall q :: q != productId ==> AmountIn(r.cart, q) == AmountIn(c, q)
  {
    var r := RemoveStep(c, productId);
    match Find(c, productId)
    case None =>
    case Some(k) =>
      FindRemoveAt(c, k, productId);
      forall q | q != productId
        ensures AmountIn(r.cart, q) == AmountIn(c, q)
      {
        FindRemoveAt(c, k, q);
        match Find(c, q)
        case None =>
        case Some(j) =>
          assert r.cart == RemoveAt(c, k);
          assert j != k;
      }
  }

  lemma RemoveKeepsWellFormed(c: seq<Item>, productId: int)
    requires WellFormed(c)
    ensures WellFormed(RemoveStep(c, productId).cart)
  {
    match Find(c, productId)
    case None =>
    case Some(k) => RemoveAtKeepsWellFormed(c, k);
  }

  // ---------------------------------------------------------------------------------------
  // updateProductAmount

  /** A non-positive amount is ignored without a toast, whatever the stock would have said. */
  lemma UpdateIgnoresNonPositive(c: seq<Item>, productId: int, amount: int, stock: Option<int>)
    requires amount <= 0
    ensures UpdateStep(c, productId, amount, stock) == Step(SilentNoop, c)
    ensures Notification(SilentNoop).None?
  {
  }

  /** The stock check comes before the look-up in the cart: an amount beyond the stock is
      out of stock even for a product the cart does not hold. */
  lemma UpdateChecksStockFirst(c: seq<Item>, productId: int, amount: int, available: int)
    requires 0 < amount && available < amount
    ensures UpdateStep(c, productId, amount, Some(available)) == Step(OutOfStock, c)
  {
  }

  /** A present product gets exactly the requested amount; nothing else changes. */
  lemma UpdateSetsLine(c: seq<Item>, productId: int, k: nat, amount: int, available: int)
    requires Find(c, productId) == Some(k)
    requires 0 < amount <= available
    ensures var r := UpdateStep(c, productId, amount, Some(available));
      && r.outcome == Ok
      && |r.cart| == |c|
      && r.cart[k] == Item(c[k].id, c[k].details, amount)
      && forall j :: 0 <= j < |c| && j != k ==> r.cart[j] == c[j]
  {
  }

  /** An absent product, or a failed stock lookup: the update-error toast and no change. */
  lemma UpdateMissing(c: seq<Item>, productId: int, amount: int, stock: Option<int>)
    requires 0 < amount
    requires stock.None? || (stock.value >= amount && forall j :: 0 <= j < |c| ==> c[j].id != productId)
    ensures UpdateStep(c, productId, amount, stock) == Step(UpdateError, c)
    ensures Notification(UpdateError) == Some("Erro na alteração de quantidade do produto")
  {
  }

  /** On success the product's quantity is the requested amount; other quantities are untouched. */
  lemma UpdateSetsQuantity(c: seq<Item>, productId: int, amount: int, stock: Option<int>)
    ensures var r := UpdateStep(c, productId, amount, stock);
      r.outcome == Ok ==>
        && AmountIn(r.cart, productId) == amount
        && forall q :: q != productId ==> AmountIn(r.cart, q) == AmountIn(c, q)
  {
    var r := UpdateStep(c, productId, amount, stock);
    if r.outcome == Ok {
      var k := Find(c, productId).value;
      forall q {
        FindSetAmount(c, k, amount, q);
      }
    }
  }

  lemma UpdateKeepsWellFormed(c: seq<Item>, productId: int, amount: int, stock: Option<int>)
    requires WellFormed(c)
    ensures WellFormed(UpdateStep(c, productId, amount, stock).cart)
  {
    var r := UpdateStep(c, productId, amount, stock);
    if r.outcome == Ok {
      SetAmountKeepsDistinctIds(c, Find(c, productId).value, amount);
    }
  }

  // ---------------------------------------------------------------------------------------
  // The cart with its persisted snapshot, over any sequence of calls

  /** The in-memory cart and what the storage key holds (None: nothing, or an empty string). */
  datatype State = State(cart: seq<Item>, stored: Option<seq<Item>>)

  /** One call of the hook, with the answers its lookups got. */
  datatype Request =
    | AddRequest(productId: int, stock: Option<int>, catalog: Option<CatalogRecord>)
    | RemoveRequest(productId: int)
    | UpdateRequest(productId: int, amount: int, stock: Option<int>)

  function Decide(c: seq<Item>, req: Request): Step
  {
    match req
    case AddRequest(id, stock, catalog) => AddStep(c, id, stock, catalog)
    case RemoveRequest(id) => RemoveStep(c, id)
    case UpdateRequest(id, amount, stock) => UpdateStep(c, id, amount, stock)
  }

  /** The state at mount: the stored cart when the key holds one, else the empty cart. Nothing
      is written. */
  function Initial(saved: Option<seq<Item>>): (s: State)
    ensures s.stored == saved
    ensures saved.Some? ==> s.stored == Some(s.cart)
    ensures saved.None? ==> s.cart == []
  {
    State(if saved.Some? then saved.value else [], saved)
  }

  /** A successful step replaces the cart and writes it to storage; any other step touches neither. */
  function Apply(s: State, req: Request): State
  {
    var r := Decide(s.cart, req);
    if r.outcome == Ok then State(r.cart, Some(r.cart)) else s
  }

  function Run(s: State, reqs: seq<Request>): State
    decreases |reqs|
  {
    if reqs == [] then s else Run(Apply(s, reqs[0]), reqs[1..])
  }

  /** The catalog answers an add request with the id it was asked for. */
  predicate TrustedCatalog(req: Request)
  {
    req.AddRequest? && req.catalog.Some? ==> req.catalog.value.id == req.productId
  }

  lemma ApplyKeepsWellFormed(s: State, req: Request)
    requires WellFormed(s.cart) && TrustedCatalog(req)
    ensures WellFormed(Apply(s, req).cart)
  {
    match req
    case AddRequest(id, stock, catalog) => AddKeepsWellFormed(s.cart, id, stock, catalog);
    case RemoveRequest(id) => RemoveKeepsWellFormed(s.cart, id);
    case UpdateRequest(id, amount, stock) => UpdateKeepsWellFormed(s.cart, id, amount, stock);
  }

  /** Any sequence of calls keeps at most one line per product and every amount at least 1. */
  lemma {:induction false} RunKeepsWellFormed(s: State, reqs: seq<Request>)
    requires WellFormed(s.cart)
    requires forall i :: 0 <= i < |reqs| ==> TrustedCatalog(reqs[i])
    ensures WellFormed(Run(s, reqs).cart)
    decreases |reqs|
  {
    if reqs != [] {
      ApplyKeepsWellFormed(s, reqs[0]);
      RunKeepsWellFormed(Apply(s, reqs[0]), reqs[1..]);
    }
  }

  /** Storage mirrors the cart: after any sequence of calls, either nothing was written and the
      state is the one before, or the stored snapshot is exactly the current cart. */
  lemma {:induction false} RunMirrorsStorage(s: State, reqs: seq<Request>)
    ensures var t := Run(s, reqs); t == s || t.stored == Some(t.cart)
    ensures s.stored == Some(s.cart) ==> Run(s, reqs).stored == Some(Run(s, reqs).cart)
    decreases |reqs|
  {
    if reqs != [] {
      RunMirrorsStorage(Apply(s, reqs[0]), reqs[1..]);
    }
  }

  /** From mount on: a cart read from storage is mirrored at once and stays so; an absent or
      empty key leaves nothing stored, with the empty cart, until the first success writes. */
  lemma MountedRunMirrors(saved: Option<seq<Item>>, reqs: seq<Request>)
    ensures var t := Run(Initial(saved), reqs);
      t.stored == Some(t.cart) || (saved.None? && t.stored.None? && t.cart == [])
  {
    RunMirrorsStorage(Initial(saved), reqs);
  }
}

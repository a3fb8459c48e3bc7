/** Cart lines and the list operations the cart hook performs on them:
    `find` by product id, the in-place amount update, `push` and `splice`. */
module Items {

  datatype Option<+T> = None | Some(value: T)

  /** Display fields of a product (title, price, image). The cart logic only carries them along. */
  datatype Details = Details(title: string, price: real, image: string)

  /** One cart line: a product with the quantity the user asked for. */
  datatype Item = Item(id: int, details: Details, amount: int)

  /** What the catalog service answers for `/products/{id}`: the product's own id, its display
      fields, and possibly an amount field, which the cart hook overrides with 1. */
  datatype CatalogRecord = CatalogRecord(id: int, details: Details, amount: Option<int>)

  /** `cart.find(product => product.id === productId)`, as the index of the first line with
      that id, or None when no line has it. */
  function Find(c: seq<Item>, id: int): (k: Option<nat>)
    ensures k.Some? ==> k.value < |c| && c[k.value].id == id
    ensures k.Some? ==> forall j :: 0 <= j < k.value ==> c[j].id != id
    ensures k.None? <==> forall j :: 0 <= j < |c| ==> c[j].id != id
    decreases |c|
  {
    if |c| == 0 then None
    else if c[0].id == id then Some(0)
    else match Find(c[1..], id)
      case None => None
      case Some(i) => Some(i + 1)
  }

  /** The quantity of a product in the cart: the amount of its first line, 0 when it has none. */
  function AmountIn(c: seq<Item>, id: int): (n: int)
    ensures forall j :: 0 <= j < |c| && c[j].id == id && (forall i :: 0 <= i < j ==> c[i].id != id) ==>
      n == c[j].amount
    ensures (forall j :: 0 <= j < |c| ==> c[j].id != id) ==> n == 0
    ensures n == 0 || exists j :: 0 <= j < |c| && c[j].id == id && c[j].amount == n
    ensures PositiveAmounts(c) ==> (n >= 1 <==> exists j :: 0 <= j < |c| && c[j].id == id)
  {
    match Find(c, id)
    case None => 0
    case Some(k) => c[k].amount
  }

  /** At most one line per product id. */
  ghost predicate DistinctIds(c: seq<Item>)
  {
    forall i, j :: 0 <= i < j < |c| ==> c[i].id != c[j].id
  }

  /** Every line holds at least one unit. */
  ghost predicate PositiveAmounts(c: seq<Item>)
  {
    forall i :: 0 <= i < |c| ==> c[i].amount >= 1
  }

  /** The cart invariant the three operations keep. */
  ghost predicate WellFormed(c: seq<Item>)
  {
    DistinctIds(c) && PositiveAmounts(c)
  }

  /** The line at index k with its amount field assigned. */
  function SetAmount(c: seq<Item>, k: nat, a: int): seq<Item>
    requires k < |c|
  {
    c[k := c[k].(amount := a)]
  }

  /** `splice(k, 1)`: the cart without its line at index k. */
  function RemoveAt(c: seq<Item>, k: nat): seq<Item>
    requires k < |c|
  {
    c[..k] + c[k + 1..]
  }

  /** The line appended for a product new to the cart: the catalog record with amount 1. */
  function NewLine(rec: CatalogRecord): Item
  {
    Item(rec.id, rec.details, 1)
  }

  /** Find looks only at ids: two carts with the same ids line by line give the same answer. */
  lemma {:induction false} FindDependsOnlyOnIds(c: seq<Item>, d: seq<Item>, id: int)
    requires |c| == |d|
    requires forall i :: 0 <= i < |c| ==> c[i].id == d[i].id
    ensures Find(c, id) == Find(d, id)
  {
    if |c| > 0 && c[0].id != id {
      FindDependsOnlyOnIds(c[1..], d[1..], id);
    }
  }

  /** With distinct ids, find locates the one line that has the id. */
  lemma FindDistinct(c: seq<Item>, k: nat)
    requires DistinctIds(c) && k < |c|
    ensures Find(c, c[k].id) == Some(k)
  {
  }

  /** Changing a line's amount leaves every lookup where it was. */
  lemma FindSetAmount(c: seq<Item>, k: nat, a: int, id: int)
    requires k < |c|
    ensures Find(SetAmount(c, k, a), id) == Find(c, id)
  {
    FindDependsOnlyOnIds(SetAmount(c, k, a), c, id);
  }

  /** Appending a line for an absent id makes it found at the end; other lookups are unchanged. */
  lemma {:induction false} FindAppend(c: seq<Item>, x: Item, id: int)
    ensures Find(c + [x], id) ==
      if Find(c, id).Some? then Find(c, id) else if x.id == id then Some(|c|) else None
  {
    if |c| > 0 && c[0].id != id {
      assert (c + [x])[1..] == c[1..] + [x];
      FindAppend(c[1..], x, id);
    }
  }

  /** Removing line k shifts the lookups of the other ids past k down by one; with distinct
      ids, the removed id is no longer found. */
  lemma {:induction false} FindRemoveAt(c: seq<Item>, k: nat, id: int)
    requires k < |c|
    ensures id != c[k].id ==>
      Find(RemoveAt(c, k), id) == (match Find(c, id)
                                   case None => None
                                   case Some(j) => if j < k then Some(j) else Some(j - 1))
    ensures DistinctIds(c) && id == c[k].id ==> Find(RemoveAt(c, k), id).None?
  {
    var r := RemoveAt(c, k);
    if k == 0 {
      assert r == c[1..];
    } else {
      assert r[0] == c[0];
      assert r[1..] == RemoveAt(c[1..], k - 1);
      if c[0].id != id {
        FindRemoveAt(c[1..], k - 1, id);
      }
    }
  }

  lemma SetAmountKeepsDistinctIds(c: seq<Item>, k: nat, a: int)
    requires k < |c| && DistinctIds(c)
    ensures DistinctIds(SetAmount(c, k, a))
  {
  }

  /** `push` of a line whose id the cart does not hold, with a positive amount. */
  lemma AppendKeepsWellFormed(c: seq<Item>, x: Item)
    requires WellFormed(c) && x.amount >= 1
    requires forall j :: 0 <= j < |c| ==> c[j].id != x.id
    ensures WellFormed(c + [x])
  {
    var r := c + [x];
    forall i, j | 0 <= i < j < |r| ensures r[i].id != r[j].id {
      assert r[i] == c[i];
    }
  }

  lemma RemoveAtKeepsWellFormed(c: seq<Item>, k: nat)
    requires k < |c| && WellFormed(c)
    ensures WellFormed(RemoveAt(c, k)) && |RemoveAt(c, k)| == |c| - 1
  {
    var r := RemoveAt(c, k);
    forall i | 0 <= i < |r|
      ensures r[i] == c[if i < k then i else i + 1]
    {
    }
  }
}

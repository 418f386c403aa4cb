/**
 * The product store as an insertion-ordered sequence and the catalog handlers:
 * newcollections, popularinwomen, relatedproducts, addproduct and removeproduct.
 */
module Catalog {
  import opened Common

  /** A stored product; prices are carried through unchanged. */
  datatype Product = Product(
    id: int, name: string, description: string, image: string, category: string,
    newPrice: int, oldPrice: int, available: bool)

  /** The fields an `/addproduct` request supplies. */
  datatype ProductFields = ProductFields(
    name: string, description: string, image: string, category: string,
    newPrice: int, oldPrice: int)

  /** The `{success, name}` body of the product handlers. */
  datatype Reply = Reply(success: bool, name: string)

  function Min(a: int, b: int): int { if a <= b then a else b }

  /** A relative index of `Array.prototype.slice`: negative counts from the end, then clamped. */
  function SliceIndex(len: nat, x: int): (r: nat)
    ensures r <= len
  {
    if x < 0 then (if len + x < 0 then 0 else len + x) else Min(x, len)
  }

  /** `Array.prototype.slice(start, end)`. */
  function JsSlice<T>(s: seq<T>, start: int, end: int): (r: seq<T>)
    ensures |r| <= |s|
  {
    var from, to := SliceIndex(|s|, start), SliceIndex(|s|, end);
    if from < to then s[from..to] else []
  }

  /** `/newcollections`: `slice(-8)`, the last min(8, n) products in store order. */
  function NewCollections(store: seq<Product>): (r: seq<Product>)
    ensures |r| == Min(8, |store|)
    ensures forall j :: 0 <= j < |r| ==> r[j] == store[|store| - |r| + j]
  {
    JsSlice(store, -8, |store|)
  }

  /** The store's query by category: the matching products in store order. */
  function InCategory(store: seq<Product>, category: string): (r: seq<Product>)
    ensures |r| <= |store|
    ensures forall j :: 0 <= j < |r| ==> r[j].category == category && r[j] in store
  {
    if store == [] then []
    else (if store[0].category == category then [store[0]] else []) + InCategory(store[1..], category)
  }

  lemma {:induction false} InCategoryAppend(a: seq<Product>, b: seq<Product>, category: string)
    ensures InCategory(a + b, category) == InCategory(a, category) + InCategory(b, category)
  {
    if a == [] {
      assert a + b == b;
    } else {
      var head := if a[0].category == category then [a[0]] else [];
      assert (a + b)[0] == a[0] && (a + b)[1..] == a[1..] + b;
      assert InCategory(a + b, category) == head + InCategory(a[1..] + b, category);
      InCategoryAppend(a[1..], b, category);
      assert InCategory(a, category) == head + InCategory(a[1..], category);
    }
  }

  /**
   * A product of the category sits in the query's answer at the position given
   * by the number of products of that category stored before it.
   */
  lemma InCategoryAt(store: seq<Product>, category: string, i: nat)
    requires i < |store| && store[i].category == category
    ensures |InCategory(store[..i], category)| < |InCategory(store, category)|
    ensures InCategory(store, category)[|InCategory(store[..i], category)|] == store[i]
  {
    assert store == store[..i] + store[i..];
    InCategoryAppend(store[..i], store[i..], category);
    assert store[i..][1..] == store[i + 1..];
  }

  /**
   * `/relatedproducts`: the query by category, then `slice(0, 4)`: at most four
   * products, all of the category and all stored.
   */
  function RelatedProducts(store: seq<Product>, category: string): (r: seq<Product>)
    ensures |r| == Min(4, |InCategory(store, category)|)
    ensures forall j :: 0 <= j < |r| ==> r[j].category == category && r[j] in store
  {
    var matches := InCategory(store, category);
    var r := JsSlice(matches, 0, 4);
    assert forall j :: 0 <= j < |r| ==> r[j] == matches[j];
    r
  }

  /**
   * The answer holds the first four products of the category in store order:
   * a match with fewer than four matches before it is at that position.
   */
  lemma RelatedProductsAreFirstInStoreOrder(store: seq<Product>, category: string, i: nat)
    requires i < |store| && store[i].category == category
    requires |InCategory(store[..i], category)| < 4
    ensures |InCategory(store[..i], category)| < |RelatedProducts(store, category)|
    ensures RelatedProducts(store, category)[|InCategory(store[..i], category)|] == store[i]
  {
    InCategoryAt(store, category, i);
  }

  /** `/popularinwomen`: the related products of category "women". */
  function PopularInWomen(store: seq<Product>): (r: seq<Product>)
    ensures |r| == Min(4, |InCategory(store, "women")|)
    ensures forall j :: 0 <= j < |r| ==> r[j].category == "women" && r[j] in store
    ensures forall i :: 0 <= i < |store| && store[i].category == "women" && |InCategory(store[..i], "women")| < 4 ==>
              |InCategory(store[..i], "women")| < |r| && r[|InCategory(store[..i], "women")|] == store[i]
  {
    var r := RelatedProducts(store, "women");
    forall i | 0 <= i < |store| && store[i].category == "women" && |InCategory(store[..i], "women")| < 4
      ensures |InCategory(store[..i], "women")| < |r| && r[|InCategory(store[..i], "women")|] == store[i]
    {
      RelatedProductsAreFirstInStoreOrder(store, "women", i);
    }
    r
  }

  /** The id rule of `/addproduct`: the last stored product's id plus one, or 1 on an empty store. */
  function NextId(store: seq<Product>): (id: int)
    ensures store == [] ==> id == 1
    ensures store != [] ==> id == store[|store| - 1].id + 1
    ensures IncreasingIds(store) ==> forall j :: 0 <= j < |store| ==> store[j].id < id
  {
    if |store| > 0 then store[|store| - 1].id + 1 else 1
  }

  /** The schema's required string fields; an empty one makes the save fail. */
  predicate RequiredPresent(f: ProductFields)
  {
    f.name != "" && f.description != "" && f.image != "" && f.category != ""
  }

  /**
   * `/addproduct`: a complete request appends exactly one available product whose
   * id is 1 on an empty store and the last product's id + 1 otherwise; an
   * incomplete one leaves the store as it is.
   */
  function AddProduct(store: seq<Product>, f: ProductFields): (r: (seq<Product>, Result<Reply>))
    ensures RequiredPresent(f) ==>
              |r.0| == |store| + 1 && r.0[..|store|] == store &&
              r.0[|store|].id == (if store == [] then 1 else store[|store| - 1].id + 1) &&
              r.0[|store|].name == f.name && r.0[|store|].description == f.description &&
              r.0[|store|].image == f.image && r.0[|store|].category == f.category &&
              r.0[|store|].newPrice == f.newPrice && r.0[|store|].oldPrice == f.oldPrice &&
              r.0[|store|].available &&
              r.1 == Ok(Reply(true, f.name))
    ensures !RequiredPresent(f) ==> r.0 == store && r.1 == Err(ValidationFailed)
  {
    if RequiredPresent(f) then
      var p := Product(NextId(store), f.name, f.description, f.image, f.category, f.newPrice, f.oldPrice, true);
      (store + [p], Ok(Reply(true, f.name)))
    else
      (store, Err(ValidationFailed))
  }

  /** The position of the first product with the id. */
  function FirstWithId(store: seq<Product>, id: int): (r: Option<nat>)
    ensures r.Some? ==> r.value < |store| && store[r.value].id == id
    ensures r.Some? ==> forall j :: 0 <= j < r.value ==> store[j].id != id
    ensures r.None? ==> forall j :: 0 <= j < |store| ==> store[j].id != id
  {
    FirstWhere(store, (p: Product) => p.id == id)
  }

  /**
   * `/removeproduct`: always reports success with the request's name; the first
   * product with the id is deleted, and without one the store is unchanged.
   */
  function RemoveProduct(store: seq<Product>, id: int, name: string): (r: (seq<Product>, Reply))
    ensures r.1 == Reply(true, name)
    ensures (forall j :: 0 <= j < |store| ==> store[j].id != id) ==> r.0 == store
    ensures (exists j :: 0 <= j < |store| && store[j].id == id) ==>
              exists k :: 0 <= k < |store| && store[k].id == id &&
                (forall j :: 0 <= j < k ==> store[j].id != id) &&
                r.0 == store[..k] + store[k + 1..]
  {
    match FirstWithId(store, id)
    case None => (store, Reply(true, name))
    case Some(k) => (store[..k] + store[k + 1..], Reply(true, name))
  }

  /** Ids strictly increase along the store. */
  ghost predicate IncreasingIds(store: seq<Product>)
  {
    forall i, j :: 0 <= i < j < |store| ==> store[i].id < store[j].id
  }

  /**
   * While ids increase along the store, the last-plus-one rule gives an id above
   * every stored one, so adding keeps ids increasing and hence unique.
   */
  lemma AddKeepsIdsIncreasing(store: seq<Product>, f: ProductFields)
    requires IncreasingIds(store)
    ensures forall j :: 0 <= j < |store| ==> store[j].id < NextId(store)
    ensures IncreasingIds(AddProduct(store, f).0)
  {
  }

  /** Deleting a product keeps ids increasing along the store. */
  lemma RemoveKeepsIdsIncreasing(store: seq<Product>, id: int, name: string)
    requires IncreasingIds(store)
    ensures IncreasingIds(RemoveProduct(store, id, name).0)
  {
    var found := FirstWithId(store, id);
    if found.Some? {
      var k := found.value;
      var after := store[..k] + store[k + 1..];
      assert RemoveProduct(store, id, name).0 == after;
      forall i, j | 0 <= i < j < |after| ensures after[i].id < after[j].id {
        var i', j' := if i < k then i else i + 1, if j < k then j else j + 1;
        assert after[i] == store[i'] && after[j] == store[j'];
      }
    }
  }

  /**
   * Ids are not reserved: after the last product is removed, the next product
   * added receives an id no greater than the removed one's, and the very same id
   * when the last two ids were consecutive.
   */
  lemma RemovedLastIdCanBeReused(store: seq<Product>, f: ProductFields, name: string)
    requires |store| >= 2 && IncreasingIds(store) && RequiredPresent(f)
    ensures var last := store[|store| - 1];
            var after := AddProduct(RemoveProduct(store, last.id, name).0, f).0;
            after[|after| - 1].id <= last.id &&
            (last.id == store[|store| - 2].id + 1 ==> after[|after| - 1].id == last.id)
  {
  }
}

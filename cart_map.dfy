/**
 * The per-user cart: a map from product id to quantity, created dense with
 * keys 0..299 at signup and changed one unit at a time by the cart endpoints.
 */
module CartMap {

  /** Number of entries a new cart holds (keys 0 to CartSize - 1). */
  const CartSize: nat := 300

  type Cart = map<int, int>

  function Max(a: int, b: int): int { if a >= b then a else b }

  /** The shape every stored cart keeps: keys exactly 0..CartSize-1, no negative quantity. */
  ghost predicate WellFormed(c: Cart)
  {
    (forall k :: k in c <==> 0 <= k < CartSize) &&
    (forall k :: k in c ==> c[k] >= 0)
  }

  /** The cart signup builds: one zero entry per key, filled by a counting loop. */
  method NewCart() returns (c: Cart)
    ensures WellFormed(c)
    ensures forall k :: k in c ==> c[k] == 0
  {
    c := map[];
    var i := 0;
    while i < CartSize
      invariant 0 <= i <= CartSize
      invariant forall k :: k in c <==> 0 <= k < i
      invariant forall k :: k in c ==> c[k] == 0
    {
      c := c[i := 0];
      i := i + 1;
    }
  }

  /** The cart after `addtocart`: one more unit of the item, no upper bound. */
  function Added(c: Cart, itemId: int): (r: Cart)
    requires itemId in c
    ensures r.Keys == c.Keys
    ensures r[itemId] == c[itemId] + 1
    ensures forall k :: k in c && k != itemId ==> r[k] == c[k]
    ensures WellFormed(c) ==> WellFormed(r)
  {
    c[itemId := c[itemId] + 1]
  }

  /**
   * The cart after `removefromcart`: one unit less only when the entry is above
   * zero; a zero or absent entry is left as it is.
   */
  function Removed(c: Cart, itemId: int): (r: Cart)
    ensures r.Keys == c.Keys
    ensures itemId in c && c[itemId] >= 0 ==> r[itemId] == Max(0, c[itemId] - 1)
    ensures forall k :: k in c && k != itemId ==> r[k] == c[k]
    ensures forall k :: k in c && c[k] >= 0 ==> r[k] >= 0
    ensures WellFormed(c) ==> WellFormed(r)
  {
    if itemId in c && c[itemId] > 0 then c[itemId := c[itemId] - 1] else c
  }

  /** The cart after a sequence of removal calls applied one after another. */
  function ApplyRemoves(c: Cart, calls: seq<int>): (r: Cart)
    ensures r.Keys == c.Keys
    decreases |calls|
  {
    if calls == [] then c
    else Removed(ApplyRemoves(c, calls[..|calls| - 1]), calls[|calls| - 1])
  }

  /** Each entry ends at its start value less the removals addressed to it, floored at zero. */
  lemma {:induction false} ApplyRemovesAt(c: Cart, calls: seq<int>, k: int)
    requires k in c && c[k] >= 0
    ensures ApplyRemoves(c, calls)[k] == Max(0, c[k] - multiset(calls)[k])
    decreases |calls|
  {
    if calls != [] {
      var init, last := calls[..|calls| - 1], calls[|calls| - 1];
      assert calls == init + [last];
      ApplyRemovesAt(c, init, k);
    }
  }

  /** One cart call addressed to a single item. */
  datatype CartOp = Add | Remove

  /** The item's entry after the calls are applied sequentially. */
  function ApplyOps(c: Cart, itemId: int, ops: seq<CartOp>): (r: Cart)
    requires itemId in c
    ensures r.Keys == c.Keys
    decreases |ops|
  {
    if ops == [] then c
    else
      var before := ApplyOps(c, itemId, ops[..|ops| - 1]);
      match ops[|ops| - 1]
      case Add => Added(before, itemId)
      case Remove => Removed(before, itemId)
  }

  function CountOps(ops: seq<CartOp>, op: CartOp): nat
  {
    multiset(ops)[op]
  }

  /**
   * Sequential adds and removes on one item never take it below zero, never
   * raise it by more than the adds, never lower it by more than the removes, and
   * leave every other entry as it was.
   */
  lemma {:induction false} ApplyOpsBounds(c: Cart, itemId: int, ops: seq<CartOp>)
    requires itemId in c && c[itemId] >= 0
    ensures ApplyOps(c, itemId, ops)[itemId] >= 0
    ensures ApplyOps(c, itemId, ops)[itemId] <= c[itemId] + CountOps(ops, Add)
    ensures ApplyOps(c, itemId, ops)[itemId] >= c[itemId] + CountOps(ops, Add) - CountOps(ops, Remove)
    ensures forall k :: k in c && k != itemId ==> ApplyOps(c, itemId, ops)[k] == c[k]
    decreases |ops|
  {
    if ops != [] {
      var init := ops[..|ops| - 1];
      assert ops == init + [ops[|ops| - 1]];
      ApplyOpsBounds(c, itemId, init);
    }
  }

  /**
   * The clamp applies per call, not to the totals: a remove on an empty entry
   * followed by an add leaves one unit, although adds minus removes is zero.
   */
  lemma ClampIsPerCall(c: Cart, itemId: int)
    requires itemId in c && c[itemId] == 0
    ensures ApplyOps(c, itemId, [Remove, Add])[itemId] == 1
    ensures CountOps([Remove, Add], Add) - CountOps([Remove, Add], Remove) == 0
  {
  }
}

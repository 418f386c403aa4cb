/**
 * The checkout page: the form, its per-method validation, the "cart has items"
 * check, and the submit handler that drains the server-side cart with one
 * removal call per unit.
 */
module Checkout {
  import opened Common
  import opened Auth
  import opened CartMap
  import opened Backend

  /** The page's form state: field name to entered text. */
  type Form = map<string, string>

  const ShippingFields: seq<string> := ["firstName", "lastName", "email", "address", "city", "zipCode"]
  const CardFields: seq<string> := ["cardNumber", "expiry", "cvv", "cardName"]

  /** The form as the page first shows it: all ten fields empty. */
  function InitialForm(): (form: Form)
    ensures forall f :: f in ShippingFields + CardFields ==> f in form && form[f] == ""
  {
    map f | f in ShippingFields + CardFields :: ""
  }

  /** A field counts as filled when it is present and not the empty string. */
  predicate Filled(form: Form, field: string)
  {
    field in form && form[field] != ""
  }

  function AllFilled(form: Form, fields: seq<string>): (ok: bool)
    ensures ok <==> forall f :: f in fields ==> Filled(form, f)
  {
    if fields == [] then true
    else
      assert forall f :: f in fields <==> f == fields[0] || f in fields[1..];
      Filled(form, fields[0]) && AllFilled(form, fields[1..])
  }

  /**
   * The submit-time validation: the six shipping fields are always required and
   * the four card fields only when the payment method is "card".
   */
  function FormValid(paymentMethod: string, form: Form): (ok: bool)
    ensures ok <==> (forall f :: f in ShippingFields ==> Filled(form, f)) &&
                    (paymentMethod == "card" ==> forall f :: f in CardFields ==> Filled(form, f))
  {
    if paymentMethod == "card" then AllFilled(form, ShippingFields + CardFields)
    else AllFilled(form, ShippingFields)
  }

  /** The untouched form fails validation under every payment method. */
  lemma InitialFormIsRejected(paymentMethod: string)
    ensures !FormValid(paymentMethod, InitialForm())
  {
  }

  /** `handleInputChange`: the named field takes the new value and no other field changes. */
  function HandleInputChange(form: Form, name: string, value: string): (r: Form)
    ensures name in r && r[name] == value
    ensures forall k :: k != name ==> (k in r <==> k in form)
    ensures forall k :: k in form && k != name ==> r[k] == form[k]
  {
    form[name := value]
  }

  /** Under a method other than "card", editing a card field never changes the verdict. */
  lemma CardFieldsIgnoredByOtherMethods(paymentMethod: string, form: Form, field: string, value: string)
    requires paymentMethod != "card" && field in CardFields
    ensures FormValid(paymentMethod, HandleInputChange(form, field, value)) == FormValid(paymentMethod, form)
  {
  }

  /** Whatever passes with "card" passes with any other method. */
  lemma CardValidationIsStricter(paymentMethod: string, form: Form)
    requires FormValid("card", form)
    ensures FormValid(paymentMethod, form)
  {
  }

  function Pos(q: int): nat { if q > 0 then q else 0 }

  /** The sum of the positive quantities. */
  function Total(cartItems: seq<int>): nat
    decreases |cartItems|
  {
    if cartItems == [] then 0
    else Total(cartItems[..|cartItems| - 1]) + Pos(cartItems[|cartItems| - 1])
  }

  /** Some quantity is above zero exactly when the positive quantities add up to more than zero. */
  lemma {:induction false} PositiveQuantityIffPositiveTotal(cartItems: seq<int>)
    ensures (exists p :: 0 <= p < |cartItems| && cartItems[p] > 0) <==> Total(cartItems) > 0
    decreases |cartItems|
  {
    if cartItems != [] {
      var init := cartItems[..|cartItems| - 1];
      PositiveQuantityIffPositiveTotal(init);
      if exists p :: 0 <= p < |init| && init[p] > 0 {
        var p :| 0 <= p < |init| && init[p] > 0;
        assert cartItems[p] > 0;
      } else if exists p :: 0 <= p < |cartItems| && cartItems[p] > 0 {
        var p :| 0 <= p < |cartItems| && cartItems[p] > 0;
        assert p == |cartItems| - 1;
      }
    }
  }

  /**
   * `hasItems`: some quantity of the client's cart is above zero, which is the
   * case exactly when a full drain has at least one call to make.
   */
  function HasItems(cartItems: seq<int>): (r: bool)
    ensures r <==> Total(cartItems) > 0
  {
    PositiveQuantityIffPositiveTotal(cartItems);
    exists p :: 0 <= p < |cartItems| && cartItems[p] > 0
  }

  function Repeat(p: int, n: nat): (r: seq<int>)
    ensures |r| == n
    ensures forall j :: 0 <= j < n ==> r[j] == p
  {
    if n == 0 then [] else Repeat(p, n - 1) + [p]
  }

  lemma {:induction false} RepeatCount(p: int, n: nat, k: int)
    ensures multiset(Repeat(p, n))[k] == if k == p then n else 0
  {
    if n > 0 {
      RepeatCount(p, n - 1, k);
    }
  }

  /**
   * The item ids of the removal calls a full drain issues, in order: product ids
   * ascending, each repeated once per unit of its positive quantity.
   */
  function CallList(cartItems: seq<int>): (r: seq<int>)
    ensures |r| == Total(cartItems)
    ensures forall j :: 0 <= j < |r| ==> 0 <= r[j] < |cartItems| && cartItems[r[j]] > 0
    decreases |cartItems|
  {
    if cartItems == [] then []
    else CallList(cartItems[..|cartItems| - 1]) + Repeat(|cartItems| - 1, Pos(cartItems[|cartItems| - 1]))
  }

  /**
   * A full drain issues exactly `cartItems[p]` calls for a product with a positive
   * quantity and none for any other id.
   */
  lemma {:induction false} CallListCounts(cartItems: seq<int>, p: int)
    ensures multiset(CallList(cartItems))[p] == if 0 <= p < |cartItems| then Pos(cartItems[p]) else 0
    decreases |cartItems|
  {
    if cartItems != [] {
      var n := |cartItems| - 1;
      CallListCounts(cartItems[..n], p);
      RepeatCount(n, Pos(cartItems[n]), p);
    }
  }

  /** The calls for the first `m` products come first. */
  lemma {:induction false} CallListPrefix(cartItems: seq<int>, m: nat)
    requires m <= |cartItems|
    ensures CallList(cartItems[..m]) <= CallList(cartItems)
    decreases |cartItems| - m
  {
    if m < |cartItems| {
      var init := cartItems[..|cartItems| - 1];
      CallListPrefix(init, m);
      assert init[..m] == cartItems[..m];
    } else {
      assert cartItems[..m] == cartItems;
    }
  }

  /** The user records after a run of removal calls sent with the token. */
  function AfterCalls(users: seq<Account>, secret: string, t: Token, calls: seq<int>): seq<Account>
  {
    match Authenticate(users, secret, Some(t))
    case Ok(i) => WithCart(users, i, ApplyRemoves(users[i].cart, calls))
    case Err(_) => users
  }

  /** One more removal call continues the run. */
  lemma AfterCallsStep(users: seq<Account>, secret: string, t: Token, calls: seq<int>, p: int)
    ensures AfterRemoval(AfterCalls(users, secret, t, calls), secret, Some(t), p) == AfterCalls(users, secret, t, calls + [p])
  {
  }

  /**
   * The inner loop of the drain for product `p`: `quantity` sequential removal
   * calls, stopping before the call numbered `failAt`. `done` are the calls
   * completed before this product.
   */
  method DrainProduct(server: Server, t: Token, p: nat, quantity: nat, failAt: Option<nat>,
                      ghost start: seq<Account>, done: seq<int>)
      returns (completed: bool, calls: seq<int>)
    requires server.Valid()
    requires server.users == AfterCalls(start, server.secret, t, done)
    requires failAt.Some? ==> failAt.value >= |done|
    modifies server
    ensures server.Valid() && server.nextUserId == old(server.nextUserId)
    ensures server.users == AfterCalls(start, server.secret, t, calls)
    ensures completed ==> calls == done + Repeat(p, quantity) && (failAt.Some? ==> failAt.value >= |calls|)
    ensures !completed ==> failAt.Some? && |calls| == failAt.value < |done| + quantity &&
                           calls == done + Repeat(p, failAt.value - |done|)
  {
    calls := done;
    var i := 0;
    while i < quantity
      invariant 0 <= i <= quantity
      invariant server.Valid() && server.nextUserId == old(server.nextUserId)
      invariant calls == done + Repeat(p, i)
      invariant failAt.Some? ==> failAt.value >= |calls|
      invariant server.users == AfterCalls(start, server.secret, t, calls)
    {
      if failAt == Some(|calls|) {
        return false, calls;
      }
      AfterCallsStep(start, server.secret, t, calls, p);
      var _ := server.RemoveFromCart(Some(t), p);
      calls := calls + [p];
      i := i + 1;
    }
    completed := true;
  }

  /**
   * The drain: products in ascending id order, and for each with a positive
   * quantity that many removal calls; the call numbered `failAt` throws and ends it.
   */
  method Drain(server: Server, t: Token, cartItems: seq<int>, failAt: Option<nat>)
      returns (completed: bool, calls: seq<int>)
    requires server.Valid()
    modifies server
    ensures server.Valid() && server.nextUserId == old(server.nextUserId)
    ensures calls <= CallList(cartItems)
    ensures server.users == AfterCalls(old(server.users), server.secret, t, calls)
    ensures if failAt.Some? && failAt.value < Total(cartItems)
            then !completed && |calls| == failAt.value
            else completed && calls == CallList(cartItems)
  {
    ghost var start := server.users;
    assert AfterCalls(start, server.secret, t, []) == start by {
      match Authenticate(start, server.secret, Some(t))
      case Ok(i) =>
        assert ApplyRemoves(start[i].cart, []) == start[i].cart;
      case Err(_) =>
    }
    calls := [];
    var p := 0;
    while p < |cartItems|
      invariant 0 <= p <= |cartItems|
      invariant server.Valid() && server.nextUserId == old(server.nextUserId)
      invariant calls == CallList(cartItems[..p])
      invariant failAt.Some? ==> failAt.value >= |calls|
      invariant server.users == AfterCalls(start, server.secret, t, calls)
    {
      CallListPrefix(cartItems, p + 1);
      assert cartItems[..p + 1][..p] == cartItems[..p];
      assert CallList(cartItems[..p + 1]) == calls + Repeat(p, Pos(cartItems[p]));
      if cartItems[p] > 0 {
        var done;
        done, calls := DrainProduct(server, t, p, cartItems[p], failAt, start, calls);
        if !done {
          assert calls <= CallList(cartItems[..p + 1]);
          return false, calls;
        }
      } else {
        assert Repeat(p, 0) == [];
      }
      p := p + 1;
    }
    assert cartItems[..p] == cartItems;
    completed := true;
  }

  /** How a submission ends. */
  datatype SubmitOutcome =
    | CartEmpty      // early return: alert and redirect to the cart
    | MissingFields  // "Please fill in all required fields"
    | Paid           // success alert and redirect home
    | PaymentError   // a removal call threw: error alert

  /**
   * `handleSubmit`. `cartItems` is the page's copy of the cart (index = product id),
   * `token` the stored auth token, and `failAt` the number of the removal call, if
   * any, that throws instead of reaching the server. `calls` are the item ids of the
   * removal calls that completed, in order.
   */
  method HandleSubmit(server: Server, cartItems: seq<int>, form: Form, paymentMethod: string,
                      token: Option<Token>, failAt: Option<nat>)
      returns (outcome: SubmitOutcome, calls: seq<int>)
    requires server.Valid()
    modifies server
    ensures server.Valid() && server.nextUserId == old(server.nextUserId)
    ensures !HasItems(cartItems) ==>
              outcome == CartEmpty && calls == [] && server.users == old(server.users)
    ensures HasItems(cartItems) && !FormValid(paymentMethod, form) ==>
              outcome == MissingFields && calls == [] && server.users == old(server.users)
    ensures HasItems(cartItems) && FormValid(paymentMethod, form) && token.None? ==>
              outcome == Paid && calls == [] && server.users == old(server.users)
    ensures HasItems(cartItems) && FormValid(paymentMethod, form) && token.Some? ==>
              calls <= CallList(cartItems) &&
              server.users == AfterCalls(old(server.users), server.secret, token.value, calls) &&
              if failAt.Some? && failAt.value < Total(cartItems)
              then outcome == PaymentError && |calls| == failAt.value
              else outcome == Paid && calls == CallList(cartItems)
  {
    calls := [];
    if !HasItems(cartItems) {
      return CartEmpty, calls;
    }
    if !FormValid(paymentMethod, form) {
      return MissingFields, calls;
    }
    if token.None? {
      return Paid, calls;
    }
    var completed;
    completed, calls := Drain(server, token.value, cartItems, failAt);
    outcome := if completed then Paid else PaymentError;
  }

  /**
   * When every call completes and the page's copy covers the server's cart, every
   * entry of the user's cart ends at zero and no other record changes.
   */
  lemma DrainEmptiesCart(users: seq<Account>, secret: string, t: Token, cartItems: seq<int>)
    requires Authenticate(users, secret, Some(t)).Ok?
    requires var c := users[Authenticate(users, secret, Some(t)).value].cart;
             forall k :: k in c ==> c[k] >= 0 && (c[k] > 0 ==> 0 <= k < |cartItems| && cartItems[k] >= c[k])
    ensures var i := Authenticate(users, secret, Some(t)).value;
            var after := AfterCalls(users, secret, t, CallList(cartItems));
            |after| == |users| && after[i].cart.Keys == users[i].cart.Keys &&
            (forall k :: k in after[i].cart ==> after[i].cart[k] == 0) &&
            (forall j :: 0 <= j < |users| && j != i ==> after[j] == users[j])
  {
    var i := Authenticate(users, secret, Some(t)).value;
    var c := users[i].cart;
    forall k | k in c ensures ApplyRemoves(c, CallList(cartItems))[k] == 0 {
      ApplyRemovesAt(c, CallList(cartItems), k);
      CallListCounts(cartItems, k);
    }
  }

  /**
   * After the first `n` calls of a drain, each entry of the user's cart is its
   * start value less the calls made for it so far, floored at zero.
   */
  lemma InterruptedDrainState(users: seq<Account>, secret: string, t: Token, cartItems: seq<int>, n: nat, k: int)
    requires Authenticate(users, secret, Some(t)).Ok?
    requires n <= Total(cartItems)
    requires var c := users[Authenticate(users, secret, Some(t)).value].cart; k in c && c[k] >= 0
    ensures |CallList(cartItems)| == Total(cartItems)
    ensures var i := Authenticate(users, secret, Some(t)).value;
            var made := CallList(cartItems)[..n];
            AfterCalls(users, secret, t, made)[i].cart[k] == Max(0, users[i].cart[k] - multiset(made)[k])
  {
    var i := Authenticate(users, secret, Some(t)).value;
    ApplyRemovesAt(users[i].cart, CallList(cartItems)[..n], k);
  }

  /**
   * A quantity of 3 drains with three calls to 0; when the second call throws,
   * only the first has reached the server and the quantity is left at 2.
   */
  lemma DrainOfThreeUnits(users: seq<Account>, secret: string, t: Token)
    requires Authenticate(users, secret, Some(t)).Ok?
    requires var c := users[Authenticate(users, secret, Some(t)).value].cart; 0 in c && c[0] == 3
    ensures CallList([3]) == [0, 0, 0]
    ensures var i := Authenticate(users, secret, Some(t)).value;
            AfterCalls(users, secret, t, CallList([3])[..1])[i].cart[0] == 2 &&
            AfterCalls(users, secret, t, CallList([3]))[i].cart[0] == 0
  {
    assert [3][..0] == [];
    assert CallList([3]) == [0, 0, 0];
    var i := Authenticate(users, secret, Some(t)).value;
    ApplyRemovesAt(users[i].cart, [0], 0);
    ApplyRemovesAt(users[i].cart, [0, 0, 0], 0);
  }
}

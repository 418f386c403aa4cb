/**
 * The user store and the handlers that read or change it: signup, login,
 * getcart, addtocart and removefromcart. Calls are applied one at a time.
 */
module Backend {
  import opened Common
  import opened Auth
  import opened CartMap

  /** A stored user record; the password is kept as given. */
  datatype Account = Account(id: nat, name: string, email: string, password: string, cart: Cart)

  ghost predicate UniqueEmails(users: seq<Account>)
  {
    forall i, j :: 0 <= i < j < |users| ==> users[i].email != users[j].email
  }

  ghost predicate UniqueIds(users: seq<Account>)
  {
    forall i, j :: 0 <= i < j < |users| ==> users[i].id != users[j].id
  }

  /** The store's lookup by id: the position of the first record with that id. */
  function FindById(users: seq<Account>, id: nat): (r: Option<nat>)
    ensures r.Some? ==> r.value < |users| && users[r.value].id == id
    ensures r.Some? ==> forall j :: 0 <= j < r.value ==> users[j].id != id
    ensures r.None? ==> forall j :: 0 <= j < |users| ==> users[j].id != id
  {
    FirstWhere(users, (u: Account) => u.id == id)
  }

  /** The store's lookup by email: the position of the first record with that email. */
  function FindByEmail(users: seq<Account>, email: string): (r: Option<nat>)
    ensures r.Some? ==> r.value < |users| && users[r.value].email == email
    ensures r.Some? ==> forall j :: 0 <= j < r.value ==> users[j].email != email
    ensures r.None? ==> forall j :: 0 <= j < |users| ==> users[j].email != email
  {
    FirstWhere(users, (u: Account) => u.email == email)
  }

  /** Only the ids take part in a lookup by id. */
  lemma {:induction false} FindByIdOnlyReadsIds(u1: seq<Account>, u2: seq<Account>, id: nat)
    requires |u1| == |u2|
    requires forall j :: 0 <= j < |u1| ==> u1[j].id == u2[j].id
    ensures FindById(u1, id) == FindById(u2, id)
  {
  }

  /**
   * `fetchuser` followed by the handler's lookup of the token's user: the
   * position of the authenticated user's record.
   */
  function Authenticate(users: seq<Account>, secret: string, header: Option<Token>): (r: Result<nat>)
    ensures FetchUser(header, secret).Err? ==> r == Err(Unauthenticated)
    ensures r.Ok? ==> header.Some? && header.value.secret == secret
    ensures r.Ok? ==> r.value < |users| && users[r.value].id == header.value.userId
    ensures FetchUser(header, secret).Ok? && (forall j :: 0 <= j < |users| ==> users[j].id != header.value.userId)
            ==> r == Err(UserNotFound)
    ensures FetchUser(header, secret).Ok? && (exists j :: 0 <= j < |users| && users[j].id == header.value.userId)
            ==> r.Ok? && forall j :: 0 <= j < r.value ==> users[j].id != header.value.userId
  {
    match FetchUser(header, secret)
    case Err(e) => Err(e)
    case Ok(id) =>
      match FindById(users, id)
      case None => Err(UserNotFound)
      case Some(i) => Ok(i)
  }

  /** The users after the cart of record `i` is replaced; every other record stays. */
  function WithCart(users: seq<Account>, i: nat, c: Cart): seq<Account>
    requires i < |users|
  {
    users[i := users[i].(cart := c)]
  }

  /**
   * The records after `/removefromcart` with the header: the authenticated user's
   * entry for the item loses one unit if above zero; otherwise nothing changes.
   */
  function AfterRemoval(users: seq<Account>, secret: string, header: Option<Token>, itemId: int): (r: seq<Account>)
    ensures |r| == |users|
    ensures forall j :: 0 <= j < |users| ==>
              r[j].id == users[j].id && r[j].email == users[j].email && r[j].password == users[j].password
    ensures forall j :: 0 <= j < |users| && WellFormed(users[j].cart) ==> WellFormed(r[j].cart)
    ensures Authenticate(users, secret, header).Err? ==> r == users
    ensures Authenticate(users, secret, header).Ok? ==>
              var i := Authenticate(users, secret, header).value;
              r[i] == users[i].(cart := Removed(users[i].cart, itemId)) &&
              forall j :: 0 <= j < |users| && j != i ==> r[j] == users[j]
  {
    match Authenticate(users, secret, header)
    case Ok(i) => WithCart(users, i, Removed(users[i].cart, itemId))
    case Err(_) => users
  }

  /** Changing a cart does not change who a token authenticates as. */
  lemma AuthenticateIgnoresCarts(users: seq<Account>, i: nat, c: Cart, secret: string, header: Option<Token>)
    requires i < |users|
    ensures Authenticate(WithCart(users, i, c), secret, header) == Authenticate(users, secret, header)
  {
    if header.Some? {
      FindByIdOnlyReadsIds(WithCart(users, i, c), users, header.value.userId);
    }
  }

  /**
   * `/login`: the first record with the email must hold exactly the given
   * password; the token then carries that record's id.
   */
  function Login(users: seq<Account>, secret: string, email: string, password: string): (r: Result<Token>)
    ensures r.Ok? <==> exists i :: 0 <= i < |users| && users[i].email == email && users[i].password == password
                                   && (forall j :: 0 <= j < i ==> users[j].email != email)
    ensures r.Ok? ==> exists i :: 0 <= i < |users| && users[i].email == email &&
                                  (forall j :: 0 <= j < i ==> users[j].email != email) &&
                                  r.value == Sign(users[i].id, secret)
    ensures r.Err? ==> r.error == InvalidCredentials
  {
    match FindByEmail(users, email)
    case None => Err(InvalidCredentials)
    case Some(i) =>
      if users[i].password == password then Ok(Sign(users[i].id, secret)) else Err(InvalidCredentials)
  }

  /** With unique emails, login succeeds iff some record has both the email and the password. */
  lemma LoginIffCredentialsMatch(users: seq<Account>, secret: string, email: string, password: string)
    requires UniqueEmails(users)
    ensures Login(users, secret, email, password).Ok? <==>
            exists i :: 0 <= i < |users| && users[i].email == email && users[i].password == password
  {
  }

  /** `/getcart`: the whole cart of the authenticated user. */
  function GetCart(users: seq<Account>, secret: string, header: Option<Token>): (r: Result<Cart>)
    ensures r.Ok? ==> header.Some? && exists i :: 0 <= i < |users| && users[i].id == header.value.userId && r.value == users[i].cart
    ensures r.Ok? <==> Authenticate(users, secret, header).Ok?
    ensures FetchUser(header, secret).Err? ==> r == Err(Unauthenticated)
  {
    match Authenticate(users, secret, header)
    case Err(e) => Err(e)
    case Ok(i) => Ok(users[i].cart)
  }

  /** The backend's user collection and its token secret. */
  class Server {
    var users: seq<Account>
    /** Stands for the store's generation of fresh record ids. */
    var nextUserId: nat
    const secret: string

    ghost predicate Valid()
      reads this
    {
      (forall i :: 0 <= i < |users| ==> users[i].id < nextUserId && WellFormed(users[i].cart)) &&
      UniqueIds(users) && UniqueEmails(users)
    }

    constructor (secret: string)
      ensures Valid() && users == [] && this.secret == secret
    {
      users := [];
      nextUserId := 0;
      this.secret := secret;
    }

    /**
     * `/signup`: a known email is refused and nothing is stored; otherwise one
     * record with a zero-filled cart is appended and a token for it returned,
     * with which login by the same credentials agrees.
     */
    method Signup(name: string, email: string, password: string) returns (r: Result<Token>)
      requires Valid()
      modifies this
      ensures Valid()
      ensures (exists i :: 0 <= i < |old(users)| && old(users)[i].email == email) ==>
                r == Err(DuplicateEmail) && users == old(users) && nextUserId == old(nextUserId)
      ensures (forall i :: 0 <= i < |old(users)| ==> old(users)[i].email != email) ==>
                |users| == |old(users)| + 1 && users[..|old(users)|] == old(users) &&
                var u := users[|old(users)|];
                u.name == name && u.email == email && u.password == password &&
                (forall k :: k in u.cart <==> 0 <= k < CartSize) &&
                (forall k :: k in u.cart ==> u.cart[k] == 0) &&
                r == Ok(Sign(u.id, secret)) && Verify(r.value, secret) == Some(u.id) &&
                Login(users, secret, email, password).Ok? &&
                Verify(Login(users, secret, email, password).value, secret) == Some(u.id) &&
                Login(users, secret, email, password) == r
    {
      if FindByEmail(users, email).Some? {
        return Err(DuplicateEmail);
      }
      ghost var before := users;
      var cart := NewCart();
      var user := Account(nextUserId, name, email, password, cart);
      users := users + [user];
      nextUserId := nextUserId + 1;
      var found := FindByEmail(users, email);
      assert users[|before|].email == email;
      assert found == Some(|before|);
      r := Ok(Sign(user.id, secret));
    }

    /**
     * `/addtocart`: the authenticated user's entry for the item goes up by one and
     * nothing else changes; an unauthenticated call changes nothing.
     */
    method AddToCart(header: Option<Token>, itemId: int) returns (r: Result<string>)
      requires Valid() && 0 <= itemId < CartSize
      modifies this
      ensures Valid() && nextUserId == old(nextUserId)
      ensures match Authenticate(old(users), secret, header)
              case Ok(i) => r == Ok("Added") && users == WithCart(old(users), i, Added(old(users)[i].cart, itemId))
              case Err(e) => r == Err(e) && users == old(users)
    {
      var auth := Authenticate(users, secret, header);
      if auth.Err? {
        return Err(auth.error);
      }
      var i := auth.value;
      var userData := users[i];
      var cart := userData.cart;
      cart := cart[itemId := cart[itemId] + 1];
      users := users[i := userData.(cart := cart)];
      r := Ok("Added");
    }

    /**
     * `/removefromcart`: the authenticated user's entry goes down by one when it is
     * above zero; any other entry, user and an unauthenticated call change nothing.
     */
    method RemoveFromCart(header: Option<Token>, itemId: int) returns (r: Result<string>)
      requires Valid()
      modifies this
      ensures Valid() && nextUserId == old(nextUserId)
      ensures users == AfterRemoval(old(users), secret, header, itemId)
      ensures match Authenticate(old(users), secret, header)
              case Ok(_) => r == Ok("Removed")
              case Err(e) => r == Err(e)
    {
      var auth := Authenticate(users, secret, header);
      if auth.Err? {
        return Err(auth.error);
      }
      var i := auth.value;
      var userData := users[i];
      var cart := userData.cart;
      if itemId in cart && cart[itemId] > 0 {
        cart := cart[itemId := cart[itemId] - 1];
      }
      users := users[i := userData.(cart := cart)];
      r := Ok("Removed");
    }
  }
}

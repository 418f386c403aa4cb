# Cart, auth and checkout model of a small e-commerce shop

This project models, in Dafny, the part of the shop that has behaviour to state:

- the backend's **user store and cart service**: signup with its zero-filled 300-entry
  cart, login, the `fetchuser` token gate, `getcart`, `addtocart` and `removefromcart`;
- the backend's **catalog selections** over the product store: `newcollections`,
  `popularinwomen`, `relatedproducts`, the product id rule of `addproduct`, and
  `removeproduct`;
- the storefront's **checkout page**: the form and its per-payment-method validation,
  the "cart has items" check, and `handleSubmit`, which drains the server-side cart with
  one `removefromcart` call per unit of quantity and stops at the first call that throws.

Modules, one per component:

| file | module | models |
|---|---|---|
| common.dfy | `Common` | `Option`, `Result`, the handlers' error kinds, and the first-match search the store lookups share |
| auth.dfy | `Auth` | tokens (`jwt.sign` / `jwt.verify` abstracted) and the `fetchuser` gate |
| cart_map.dfy | `CartMap` | the cart map: creation at signup, one-unit add and floored remove, runs of calls |
| backend.dfy | `Backend` | user records, lookups, login, getcart; class `Server` with signup, addtocart, removefromcart |
| catalog.dfy | `Catalog` | the product store as an insertion-ordered sequence and its handlers |
| checkout.dfy | `Checkout` | the payment page: form, validation, `hasItems`, the drain, `handleSubmit` |

Modelling decisions:

- The user collection is a field `users: seq<Account>` of a `Server` object. The
  cart endpoints change it in place. Each stored cart is a `map<int, int>` that
  `Server.Valid()` keeps with keys exactly 0..299 and no negative entry. User ids
  come from a counter (`nextUserId`) that stands for the store's generation of fresh
  record ids.
- A token is the datatype `Token(userId, secret)`. Verification succeeds exactly when
  the secret matches. A malformed token is a token with a wrong secret. An absent
  header is `None`.
- A token can verify while naming no stored user. The handler then reads a field of
  a null record and throws. The model returns `Err(UserNotFound)` and changes nothing.
- The product store is a `seq<Product>` in insertion order, the order in which the
  store returns documents. The catalog handlers are functions from the store to the
  reply, or to the new store and the reply. The schema calls the availability flag
  `avilable`; here it is `available`.
- A product whose name, description, image or category is the empty string is
  refused by the schema's `required` validator. The handler then throws: the store
  is unchanged and no success reply is sent (`Err(ValidationFailed)`).
- The id rule is the one in the code (backend/index.js:182): the LAST stored
  product's id + 1, or 1 on an empty store. It is not the maximum id + 1. While ids
  increase along the store, the two agree (`AddKeepsIdsIncreasing`, `RemoveKeepsIdsIncreasing`). A removed last
  product's id can be handed out again (`RemovedLastIdCanBeReused`).
- The floor at zero in `removefromcart` applies call by call. So after any run of
  adds and removes on one item, the quantity is NOT always "adds − removes, clamped
  at 0": a remove on an empty entry followed by an add leaves 1 (`ClampIsPerCall`).
  What holds for every run is proved in `ApplyOpsBounds`.
- On the checkout page, `cartItems` (the page's copy of the cart) is a `seq<int>`
  indexed by product id. `for … in` visits its integer keys in ascending order.
  `hasItemsInCart` is the value the page's effect computes from `cartItems`.
- A removal `fetch` that throws is chosen by the parameter `failAt`: the completed
  calls are numbered 0, 1, …, and the call numbered `failAt` throws without reaching
  the server. A reply of 401 does not throw, so with a token the server rejects, the
  drain still issues every call and the cart is unchanged (`AfterCalls`).

## Model

| member | source | states |
|---|---|---|
| `Common.FirstWhere` | backend/index.js:98 | the position of the first element that satisfies the filter, or no element does |
| `Auth.Sign` | backend/index.js:100 | a token signed for a user id verifies to that id under the same secret and fails under any other secret |
| `Auth.Verify` | backend/index.js:62 | verification yields the embedded user id exactly when the token was signed with the given secret, and fails otherwise |
| `Auth.FetchUser` | backend/index.js:55-70 | 401 (`Unauthenticated`) iff the header is absent or was not signed with the server's secret; otherwise the token's user id is passed on |
| `Backend.FindByEmail` | backend/index.js:111 | the lookup by email gives the first record with that email, or none exists |
| `Backend.FindById` | backend/index.js:155 | the lookup by id gives the first record with that id, or none exists |
| `Backend.FindByIdOnlyReadsIds` | backend/index.js:155 | two user lists with the same ids at the same positions give the same lookup result |
| `Backend.Authenticate` | backend/index.js:154-155 | the gate's 401 is passed through; a verified token naming a stored user succeeds with the first record carrying the token's user id; a verified token naming no stored user fails with `UserNotFound` |
| `Backend.AuthenticateIgnoresCarts` | backend/index.js:157-159 | writing back a cart never changes which record a token authenticates as |
| `Backend.Login` | backend/index.js:96-107 | success iff the first record with the email holds exactly the given password; the token then carries the id of that first record; any failure is `InvalidCredentials` |
| `Backend.LoginIffCredentialsMatch` | backend/index.js:98-99 | with unique emails, login succeeds iff some record has both the email and the password |
| `Backend.GetCart` | backend/index.js:175-178 | returns the whole cart of the token's user; fails exactly when authentication fails, and with 401 when the gate does |
| `Backend.Server.Signup` | backend/index.js:109-131 | a known email gives `DuplicateEmail` and stores nothing; otherwise exactly one record is appended with the given name, email and password and a cart with keys 0..299 all zero; the returned token verifies to the new record's id, and login with the same credentials then succeeds with a token that verifies to that same id (in the model, the very same token); the store's invariants (unique ids, unique emails, well-formed carts) are kept |
| `Backend.Server.AddToCart` | backend/index.js:154-162 | an authenticated call raises the user's entry for the item by exactly one and changes no other entry and no other user; a rejected call changes nothing and returns the error |
| `Backend.AfterRemoval` | backend/index.js:164-171 | one removal keeps the number of records, every id, email and password, and well-formed carts; a rejected call changes nothing; an authenticated one replaces only that user's cart, by the floored decrement |
| `Backend.Server.RemoveFromCart` | backend/index.js:164-173 | the records become `AfterRemoval` of the old ones: an authenticated call lowers the user's entry by one only when it is above zero; a rejected call changes nothing and returns the error |
| `CartMap.NewCart` | backend/index.js:117-118 | the cart built at signup has exactly the keys 0..299, each with quantity zero |
| `CartMap.Added` | backend/index.js:156 | the item's entry is one higher, the key set and every other entry are unchanged, and a well-formed cart stays well-formed |
| `CartMap.Removed` | backend/index.js:166-167 | the item's entry becomes max(0, q − 1); absent keys and every other entry are unchanged; no entry becomes negative |
| `CartMap.ApplyRemoves` | backend/index.js:164-171 | a run of removal calls keeps the cart's key set |
| `CartMap.ApplyRemovesAt` | backend/index.js:166-167 | after a run of removal calls, each entry is its start value less the calls addressed to it, floored at zero |
| `CartMap.ApplyOpsBounds` | backend/index.js:156-167 | any run of adds and removes on one item keeps its quantity ≥ 0, ≤ start + adds and ≥ start + adds − removes, and leaves every other entry unchanged |
| `CartMap.ClampIsPerCall` | backend/index.js:166-167 | from zero, remove then add ends at 1 although adds minus removes is 0 |
| `Catalog.NewCollections` | backend/index.js:138-141 | exactly the last min(8, n) products, in store order |
| `Catalog.InCategory` | backend/index.js:150 | the category query returns only stored products of that category |
| `Catalog.InCategoryAt` | backend/index.js:150 | each stored product of the category is in the query's answer, at the position given by the number of matches stored before it |
| `Catalog.RelatedProducts` | backend/index.js:148-152 | min(4, number of matches) products, all of the requested category and all stored |
| `Catalog.RelatedProductsAreFirstInStoreOrder` | backend/index.js:150-151 | a match with fewer than four matches before it is in the answer, at that position: the answer is the first four matches in store order |
| `Catalog.PopularInWomen` | backend/index.js:143-146 | exactly min(4, number of "women" products) products, all of category "women" and stored; a "women" product with fewer than four before it is at the position given by their number, so the answer is the first four in store order |
| `Catalog.NextId` | backend/index.js:182 | id 1 on an empty store, else the last stored product's id + 1; while ids increase along the store, above every stored id |
| `Catalog.AddProduct` | backend/index.js:180-196 | a complete request appends exactly one available product with the request's fields and id 1 on an empty store, else the last product's id + 1, and replies success with the name; an incomplete one changes nothing |
| `Catalog.AddKeepsIdsIncreasing` | backend/index.js:182 | while ids increase along the store, the new id is above every stored id, so adding keeps ids increasing, hence unique |
| `Catalog.RemoveKeepsIdsIncreasing` | backend/index.js:199 | deleting a product keeps ids increasing along the store |
| `Catalog.RemovedLastIdCanBeReused` | backend/index.js:182 | after the last product is removed, the next product gets an id no greater than the removed one's, and the same id when the last two ids were consecutive |
| `Catalog.FirstWithId` | backend/index.js:199 | the delete targets the first product with the id, or none exists |
| `Catalog.RemoveProduct` | backend/index.js:198-201 | always replies success with the request's name; deletes exactly the first product with the id, and leaves the store unchanged when there is none |
| `Checkout.InitialForm` | frontend/src/Pages/Payment.jsx:12-23 | the form starts with all ten fields empty |
| `Checkout.InitialFormIsRejected` | frontend/src/Pages/Payment.jsx:96-127 | the untouched form fails validation under every payment method |
| `Checkout.AllFilled` | frontend/src/Pages/Payment.jsx:97-108 | true iff every listed field is present and non-empty |
| `Checkout.FormValid` | frontend/src/Pages/Payment.jsx:96-127 | passes iff the six shipping fields are filled and, for method "card" only, the four card fields too |
| `Checkout.CardFieldsIgnoredByOtherMethods` | frontend/src/Pages/Payment.jsx:113-127 | under a method other than "card", editing a card field never changes the validation verdict |
| `Checkout.CardValidationIsStricter` | frontend/src/Pages/Payment.jsx:96-127 | a form that passes with "card" passes with any method |
| `Checkout.HandleInputChange` | frontend/src/Pages/Payment.jsx:75-81 | the named field takes the value; every other field keeps its presence and value |
| `Checkout.PositiveQuantityIffPositiveTotal` | frontend/src/Pages/Payment.jsx:31 | some quantity is above zero iff the positive quantities add up to more than zero |
| `Checkout.HasItems` | frontend/src/Pages/Payment.jsx:31 | the cart has items iff a full drain has at least one call to make (the positive quantities sum above zero) |
| `Checkout.CallList` | frontend/src/Pages/Payment.jsx:135-149 | a full drain issues as many calls as the positive quantities add up to, and every call names a product of the page's cart whose quantity is above zero |
| `Checkout.CallListCounts` | frontend/src/Pages/Payment.jsx:135-149 | a full drain issues exactly `cartItems[p]` calls for a product with positive quantity and none for any other id |
| `Checkout.CallListPrefix` | frontend/src/Pages/Payment.jsx:135-137 | the calls for the first m products precede all others |
| `Checkout.AfterCallsStep` | frontend/src/Pages/Payment.jsx:138-146 | one more removal call sent with the token continues the run of removals on the same user's cart |
| `Checkout.DrainProduct` | frontend/src/Pages/Payment.jsx:137-147 | issues `quantity` calls for the product unless the call numbered `failAt` comes first, in which case it stops with exactly `failAt` calls made; the server reflects exactly the calls made |
| `Checkout.Drain` | frontend/src/Pages/Payment.jsx:134-150 | the calls made are a prefix of the full call list; without a failure inside it, all of it is issued; with one, exactly `failAt` calls are made; the server reflects exactly those calls |
| `Checkout.HandleSubmit` | frontend/src/Pages/Payment.jsx:83-161 | an empty cart and a failed validation each return early with no call and no change; no token reaches success with no call; otherwise the drain runs, success iff no call throws, and the error branch with the calls made so far |
| `Checkout.DrainEmptiesCart` | frontend/src/Pages/Payment.jsx:135-149 | when every call completes and the page's copy covers the server's cart, every entry of the user's cart ends at 0 and no other record changes |
| `Checkout.InterruptedDrainState` | frontend/src/Pages/Payment.jsx:137-157 | after the first n calls, each entry of the user's cart is its start value less the calls made for it, floored at zero |
| `Checkout.DrainOfThreeUnits` | frontend/src/Pages/Payment.jsx:135-157 | a quantity of 3 drains with three calls to 0; if the second call throws, the quantity is left at 2 |

## Left out

- Database plumbing (connection, schemas as storage, queries): the stores are in-memory sequences; the unique index on email is represented by the duplicate check and the `UniqueEmails` invariant.
- Express wiring, CORS, static image serving, `app.listen`, the `/upload` endpoint and its time-stamped file names: file and network I/O.
- `/allproducts`: it returns the store unchanged.
- Password hashing and token cryptography: `jwt.sign` / `jwt.verify` are foreign calls, abstracted to secret equality; tokens have no expiry in the source either.
- Backend.Server.Signup: the token datatype drops the `iat` issue time that `jwt.sign` adds by default, so the model's signup token and a later login token are equal; in the source they are different strings that carry the same user id and verify under the same secret, which is what the contract's `Verify` clauses state.
- Request fields that are JSON objects rather than strings or numbers: the source passes `req.body.email`, `req.body.category` and `req.body.id` straight into store filters, where an object such as `{"$ne": null}` acts as a query operator (a login checked against the password of the first stored record, related products of other categories, deletion of whichever product matches the operator first). The model types these fields as strings and integers, so this operator injection is not modelled.
- Concurrency: calls are applied one at a time, so the lost update between two concurrent read-modify-write cart calls is not modelled.
- Backend.Server.AddToCart: requires the item id to be one of the cart's keys 0..299; outside them the source computes `undefined + 1`, which stores NaN, and this is not modelled.
- Catalog.RelatedProducts: the request's category is taken as a string; a request without a category is not modelled.
- The record creation dates and `Date.now()`: clock reads.
- Prices: JavaScript numbers are modelled as integers; they are only stored and echoed. The page's totals, tax and `toFixed` formatting are floating-point display and are left out.
- The page's React rendering, alerts, navigation, `isProcessing` flag, the effect that pre-fills the email via `/getuser` and `atob`, and `localStorage` (the token is a parameter).
- A removal `fetch` that throws after the server has applied it is not modelled: a throwing call is taken not to reach the server.

/**
 * The per-user shopping cart: one document per user email holding an ordered
 * list of line items. The store is a map from the owner's email to that list;
 * a user without an entry has no cart document.
 */
module Cart {
  import opened Base

  /** A product id, compared by its string form as the handlers do. */
  type ProductId = string

  /** The product fields sent with an add-to-cart request. */
  datatype ProductRef = ProductRef(id: ProductId, name: string, price: real, images: seq<string>)

  /** One line of a cart: a snapshot of the product and how many of it. */
  datatype LineItem = LineItem(productId: ProductId, name: string, price: real, image: seq<string>, quantity: int)

  /** A cart as the read endpoint returns it. */
  datatype Cart = Cart(userEmail: Email, items: seq<LineItem>)

  type CartStore = map<Email, seq<LineItem>>

  /** The two success replies of an add: a new cart document, or an update of an existing one. */
  datatype AddReply = CartCreated | ItemAdded

  datatype CartError = QuantityBelowOne

  // ---------------------------------------------------------------- invariants

  predicate Has(items: seq<LineItem>, pid: ProductId) {
    exists i :: 0 <= i < |items| && items[i].productId == pid
  }

  /** No two lines share a product id. */
  predicate UniqueIds(items: seq<LineItem>) {
    forall i, j :: 0 <= i < j < |items| ==> items[i].productId != items[j].productId
  }

  predicate PositiveQuantities(items: seq<LineItem>) {
    forall i :: 0 <= i < |items| ==> items[i].quantity >= 1
  }

  predicate ValidItems(items: seq<LineItem>) {
    UniqueIds(items) && PositiveQuantities(items)
  }

  predicate ValidStore(store: CartStore) {
    forall e :: e in store ==> ValidItems(store[e])
  }

  /** `i` is the first line holding `pid`: the one a positional `items.$` update touches. */
  predicate FirstMatch(items: seq<LineItem>, pid: ProductId, i: int) {
    && 0 <= i < |items|
    && items[i].productId == pid
    && forall k :: 0 <= k < i ==> items[k].productId != pid
  }

  /** The number of units in a cart. */
  function TotalQuantity(items: seq<LineItem>): int {
    if |items| == 0 then 0 else items[0].quantity + TotalQuantity(items[1..])
  }

  // ---------------------------------------------------------------- helpers

  /** The position of the first line holding `pid`, if any. */
  function IndexOf(items: seq<LineItem>, pid: ProductId): (r: Option<nat>)
    ensures r.None? ==> forall k :: 0 <= k < |items| ==> items[k].productId != pid
    ensures r.Some? ==> FirstMatch(items, pid, r.value)
  {
    if |items| == 0 then None
    else if items[0].productId == pid then Some(0)
    else match IndexOf(items[1..], pid)
      case None => None
      case Some(i) => Some(i + 1)
  }

  /** The line a first add of `p` creates. */
  function NewLine(p: ProductRef): LineItem {
    LineItem(p.id, p.name, p.price, p.images, 1)
  }

  /** Adds one unit of `p` to a list of lines: bump the first matching line, or append. */
  function AddLine(items: seq<LineItem>, p: ProductRef): (r: seq<LineItem>)
    ensures Has(r, p.id)
    ensures |r| == if Has(items, p.id) then |items| else |items| + 1
  {
    match IndexOf(items, p.id)
    case None =>
      var r := items + [NewLine(p)];
      assert r[|items|].productId == p.id;
      r
    case Some(i) =>
      var r := items[i := items[i].(quantity := items[i].quantity + 1)];
      assert r[i].productId == p.id;
      r
  }

  /** The lines whose product id is not `pid`, in their original order. */
  function Without(items: seq<LineItem>, pid: ProductId): (r: seq<LineItem>)
    ensures |r| <= |items|
    ensures !Has(r, pid)
    ensures forall x :: x in r <==> x in items && x.productId != pid
  {
    if |items| == 0 then []
    else if items[0].productId == pid then Without(items[1..], pid)
    else [items[0]] + Without(items[1..], pid)
  }

  // ---------------------------------------------------------------- operations

  /** GET /cart/:email: the stored cart, or an empty one for a user without a cart. */
  function ReadCart(store: CartStore, email: Email): (r: Cart)
    ensures r.userEmail == email
    ensures email !in store ==> r.items == []
    ensures email in store ==> r.items == store[email]
  {
    if email in store then Cart(email, store[email]) else Cart(email, [])
  }

  /** POST /cart: create the cart with one line, or add one unit of the product to it. */
  function AddToCart(store: CartStore, email: Email, p: ProductRef): (r: (CartStore, AddReply))
    ensures r.0.Keys == store.Keys + {email}
    ensures forall e :: e in store && e != email ==> r.0[e] == store[e]
    ensures r.1 == CartCreated <==> email !in store
    ensures Has(r.0[email], p.id)
  {
    if email !in store then
      assert [NewLine(p)][0].productId == p.id;
      (store[email := [NewLine(p)]], CartCreated)
    else (store[email := AddLine(store[email], p)], ItemAdded)
  }

  /** PATCH /cart/quantity: set the quantity of the first matching line; values below 1 are refused. */
  function SetQuantity(store: CartStore, email: Email, pid: ProductId, quantity: int): (r: Result<CartStore, CartError>)
    ensures r.Err? <==> quantity < 1
    ensures r.Ok? ==> r.value.Keys == store.Keys
    ensures r.Ok? ==> forall e :: e in store && e != email ==> r.value[e] == store[e]
  {
    if quantity < 1 then Err(QuantityBelowOne)
    else if email !in store then Ok(store)
    else match IndexOf(store[email], pid)
      case None => Ok(store)
      case Some(i) => Ok(store[email := store[email][i := store[email][i].(quantity := quantity)]])
  }

  /** DELETE /cart/item: pull every line of the product from an existing cart. */
  function RemoveItem(store: CartStore, email: Email, pid: ProductId): (r: CartStore)
    ensures r.Keys == store.Keys
    ensures forall e :: e in store && e != email ==> r[e] == store[e]
    ensures email in store ==> !Has(r[email], pid)
  {
    if email in store then store[email := Without(store[email], pid)] else store
  }

  /** DELETE /cart/:email: delete the user's cart document. */
  function ClearCart(store: CartStore, email: Email): (r: CartStore)
    ensures email !in r
    ensures r.Keys == store.Keys - {email}
    ensures forall e :: e in r ==> r[e] == store[e]
  {
    store - {email}
  }
}

/**
 * The collections written with "insert only if the key is absent": users by
 * email, seller requests by uid, newsletter subscribers by email, and reviews
 * by (product, reviewer).
 */
module Registries {
  import opened Base

  // ---------------------------------------------------------------- users

  /** A user document; `role` is absent for a plain sign-up. */
  datatype User = User(email: Email, name: string, role: Option<string>)

  type UserStore = map<Email, User>

  const DefaultRole := "customer"

  /** POST /users: store the user unless one with that email exists; the flag is the reply's `inserted`. */
  function RegisterUser(users: UserStore, u: User): (r: (UserStore, bool))
    ensures r.1 <==> u.email !in users
    ensures !r.1 ==> r.0 == users
    ensures r.1 ==> r.0.Keys == users.Keys + {u.email} && r.0[u.email] == u
    ensures forall e :: e in users ==> e in r.0 && r.0[e] == users[e]
  {
    if u.email in users then (users, false) else (users[u.email := u], true)
  }

  /** GET /users/:email/role: the stored role, or "customer" when there is no user or no (or an empty) role. */
  function RoleOf(users: UserStore, email: Email): (r: string)
    ensures email !in users ==> r == DefaultRole
    ensures email in users && Truthy(users[email].role) ==> r == users[email].role.value
    ensures email in users && !Truthy(users[email].role) ==> r == DefaultRole
    ensures |r| > 0
  {
    if email in users && Truthy(users[email].role) then users[email].role.value else DefaultRole
  }

  // ---------------------------------------------------------------- seller requests

  /** The body of a seller application; it may carry a status of its own. */
  datatype SellerApplication = SellerApplication(uid: string, email: Email, shopName: string, status: Option<string>)

  /** A stored seller request: the application plus the status the handler sets. */
  datatype SellerRequest = SellerRequest(uid: string, email: Email, shopName: string, status: string)

  type SellerStore = map<string, SellerRequest>

  const PendingStatus := "pending"

  datatype SellerError = AlreadyApplied

  /** POST /seller-request: store the application as pending unless that uid has applied. */
  function SubmitSellerRequest(sellers: SellerStore, app: SellerApplication): (r: Result<SellerStore, SellerError>)
    ensures r.Err? <==> app.uid in sellers
    ensures r.Ok? ==> r.value.Keys == sellers.Keys + {app.uid}
    ensures r.Ok? ==> r.value[app.uid].status == PendingStatus
    ensures r.Ok? ==> r.value[app.uid].email == app.email && r.value[app.uid].shopName == app.shopName
    ensures r.Ok? ==> forall u :: u in sellers ==> r.value[u] == sellers[u]
  {
    if app.uid in sellers then Err(AlreadyApplied)
    else Ok(sellers[app.uid := SellerRequest(app.uid, app.email, app.shopName, PendingStatus)])
  }

  // ---------------------------------------------------------------- newsletter

  datatype NewsletterError = EmailRequired | EmailExists

  /** POST /newsletter: a missing or empty email is refused, a known one is a conflict. */
  function Subscribe(subscribers: set<Email>, email: Option<Email>): (r: Result<set<Email>, NewsletterError>)
    ensures r == Err(EmailRequired) <==> !Truthy(email)
    ensures r == Err(EmailExists) <==> Truthy(email) && email.value in subscribers
    ensures r.Ok? ==> r.value == subscribers + {email.value} && |r.value| == |subscribers| + 1
  {
    if !Truthy(email) then Err(EmailRequired)
    else if email.value in subscribers then Err(EmailExists)
    else Ok(subscribers + {email.value})
  }

  // ---------------------------------------------------------------- reviews

  datatype Review = Review(userName: string, rating: real, comment: string)

  /** Reviews keyed by (product id, reviewer email). */
  type ReviewStore = map<(string, Email), Review>

  datatype ReviewError = AlreadyReviewed

  /** The reviews of one product: what the handler counts into `reviewCount`. */
  function ReviewKeys(reviews: ReviewStore, productId: string): set<(string, Email)> {
    set k | k in reviews && k.0 == productId
  }

  function ReviewCount(reviews: ReviewStore, productId: string): nat {
    |ReviewKeys(reviews, productId)|
  }

  /**
   * POST /product/:id/review: store the review unless this reviewer has reviewed the product;
   * on success also give the `reviewCount` written back to the product.
   */
  function PostReview(reviews: ReviewStore, productId: string, userEmail: Email, review: Review): (r: Result<(ReviewStore, nat), ReviewError>)
    ensures r.Err? <==> (productId, userEmail) in reviews
    ensures r.Ok? ==> r.value.0.Keys == reviews.Keys + {(productId, userEmail)}
    ensures r.Ok? ==> r.value.0[(productId, userEmail)] == review
    ensures r.Ok? ==> forall k :: k in reviews ==> r.value.0[k] == reviews[k]
    ensures r.Ok? ==> r.value.1 == ReviewCount(r.value.0, productId)
  {
    var key := (productId, userEmail);
    if key in reviews then Err(AlreadyReviewed)
    else
      var updated := reviews[key := review];
      Ok((updated, ReviewCount(updated, productId)))
  }
}

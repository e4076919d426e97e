/** Duplicate keys are refused and leave the collection as it was. */
module RegistryProperties {
  import opened Base
  import opened Registries

  /** A second sign-up with the same email is refused, keeps the first user, and its role with it. */
  lemma SecondSignUpRefused(users: UserStore, u: User, v: User)
    requires u.email == v.email
    ensures var s := RegisterUser(users, u).0;
      && RegisterUser(s, v) == (s, false)
      && RoleOf(RegisterUser(s, v).0, v.email) == RoleOf(s, u.email)
  {
  }

  /** A user who signed up without a role reads as a customer. */
  lemma NewUserIsCustomer(users: UserStore, u: User)
    requires u.email !in users && (u.role.None? || u.role == Some(""))
    ensures RoleOf(RegisterUser(users, u).0, u.email) == DefaultRole
  {
  }

  /** Whatever status the application carries, the stored request is pending; a second one is refused. */
  lemma SellerRequestOnce(sellers: SellerStore, app: SellerApplication, again: SellerApplication)
    requires app.uid !in sellers && again.uid == app.uid
    ensures SubmitSellerRequest(sellers, app).Ok?
    ensures SubmitSellerRequest(sellers, app).value[app.uid].status == PendingStatus
    ensures SubmitSellerRequest(SubmitSellerRequest(sellers, app).value, again) == Err(AlreadyApplied)
  {
  }

  /** Subscribing the same email twice: the second attempt is a conflict. */
  lemma SubscribeTwiceConflicts(subscribers: set<Email>, email: Email)
    requires email != "" && email !in subscribers
    ensures Subscribe(subscribers, Some(email)).Ok?
    ensures Subscribe(Subscribe(subscribers, Some(email)).value, Some(email)) == Err(EmailExists)
  {
  }

  /** A reviewer reviews a product at most once. */
  lemma ReviewOncePerReviewer(reviews: ReviewStore, productId: string, userEmail: Email, first: Review, second: Review)
    requires (productId, userEmail) !in reviews
    ensures PostReview(reviews, productId, userEmail, first).Ok?
    ensures PostReview(PostReview(reviews, productId, userEmail, first).value.0, productId, userEmail, second) == Err(AlreadyReviewed)
  {
  }

  /** Storing a review under `key` adds `key` to its own product's reviewer keys and to no other product's. */
  lemma ReviewKeysAfterStore(reviews: ReviewStore, key: (string, Email), review: Review, productId: string)
    ensures ReviewKeys(reviews[key := review], productId)
      == if key.0 == productId then ReviewKeys(reviews, productId) + {key} else ReviewKeys(reviews, productId)
  {
    var before, after := ReviewKeys(reviews, productId), ReviewKeys(reviews[key := review], productId);
    forall k ensures k in after <==> k in before || (k == key && key.0 == productId) {
    }
  }

  /** An accepted review raises the reviewed product's count by one and leaves every other product's count alone. */
  lemma ReviewCountIncrements(reviews: ReviewStore, productId: string, userEmail: Email, review: Review, other: string)
    requires PostReview(reviews, productId, userEmail, review).Ok?
    requires other != productId
    ensures PostReview(reviews, productId, userEmail, review).value.1 == ReviewCount(reviews, productId) + 1
    ensures ReviewCount(PostReview(reviews, productId, userEmail, review).value.0, other) == ReviewCount(reviews, other)
  {
    var key := (productId, userEmail);
    assert PostReview(reviews, productId, userEmail, review).value.0 == reviews[key := review];
    ReviewKeysAfterStore(reviews, key, review, productId);
    ReviewKeysAfterStore(reviews, key, review, other);
    assert key !in ReviewKeys(reviews, productId);
  }
}

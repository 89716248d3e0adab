/** Subscription endpoints (api/routes/subscriptions.py): the status view, the
    checkout preconditions, the billing webhook that reconciles the
    `is_subscribed` flag, and the local cancel. Stripe itself is not part of
    this model: event verification and session creation are function
    parameters standing for whatever Stripe answers. */
module SubscriptionRoutes {
  import opened Common
  import opened Models
  import opened HttpErrors
  import opened Dependencies

  // ---------------------------------------------------------------------------
  // Status

  /** The dict `get_subscription_status` returns. */
  datatype StatusResponse = StatusResponse(isSubscribed: bool, subscriptionId: Option<string>, plan: string)

  /** `GET /subscription/status`: the caller's row is read again by id and
      reported; the plan is "premium" exactly for a subscribed user. */
  function GetSubscriptionStatus(crypto: Crypto, token: string, users: seq<User>): (r: Result<StatusResponse, ApiError>)
    ensures GetCurrentUser(crypto, token, users).Failure? ==> r == Failure(CredentialsInvalid)
    ensures GetCurrentUser(crypto, token, users).Success? ==> r.Success?
    ensures r.Success? ==>
      && (r.value.plan == "premium" <==> r.value.isSubscribed)
      && (r.value.plan == "free" <==> !r.value.isSubscribed)
      && r.value.subscriptionId.None?
    ensures r.Success? && UniqueUsers(users) ==>
      r.value.isSubscribed == GetCurrentUser(crypto, token, users).value.isSubscribed
  {
    match GetCurrentUser(crypto, token, users)
    case Failure(e) => Failure(e)
    case Success(current) =>
      match FindFirst(users, IdIs(current.id))
      case None =>
        // the guard's user is a row of `users`, so the lookup by its id succeeds
        assert false;
        Failure(IntegrityError)
      case Some(k) =>
        var user := users[k];
        assert UniqueUsers(users) ==> user == current by {
          if UniqueUsers(users) {
            var j :| 0 <= j < |users| && users[j] == current;
            assert users[j].id == users[k].id;
          }
        }
        Success(StatusResponse(user.isSubscribed, None, if user.isSubscribed then "premium" else "free"))
  }

  // ---------------------------------------------------------------------------
  // Checkout

  /** The `stripe.checkout.Session.create` call the route would make. */
  datatype CheckoutRequest = CheckoutRequest(
    customerEmail: string,
    price: string,
    mode: string,
    successUrl: string,
    cancelUrl: string,
    metadataUserId: Id)

  /** What Stripe answers: a session URL, or a `StripeError` with its text. */
  datatype StripeAnswer = SessionCreated(url: string) | StripeFailed(message: string)

  /** `SubscriptionResponse` */
  datatype CheckoutResponse = CheckoutResponse(
    status: string,
    message: string,
    checkoutUrl: Option<string>,
    subscriptionId: Option<string>)

  /** The route's answer together with the Stripe call it made, if any. */
  datatype Checkout = Checkout(stripeCall: Option<CheckoutRequest>, result: Result<CheckoutResponse, ApiError>)

  const DefaultApiBaseUrl: string := "http://localhost:8000"

  /** `os.getenv('API_BASE_URL', 'http://localhost:8000')` */
  function ApiBase(apiBaseUrl: Option<string>): string {
    match apiBaseUrl
    case Some(url) => url
    case None => DefaultApiBaseUrl
  }

  /** `POST /subscription/create-checkout-session`. After the guard: a missing
      price id (500) is reported before an existing subscription (400), and in
      both cases Stripe is not called. Otherwise one session is requested for
      the caller, tagged with the caller's id, and its URL is returned. */
  function CreateCheckoutSession(crypto: Crypto, token: string, users: seq<User>,
                                 priceId: Option<string>, apiBaseUrl: Option<string>,
                                 stripe: CheckoutRequest -> StripeAnswer): (c: Checkout)
    ensures GetCurrentUser(crypto, token, users).Failure? ==> c == Checkout(None, Failure(CredentialsInvalid))
    ensures GetCurrentUser(crypto, token, users).Success? ==>
      var user := GetCurrentUser(crypto, token, users).value;
      && (!Truthy(priceId) ==> c == Checkout(None, Failure(PriceNotConfigured)))
      && (Truthy(priceId) && user.isSubscribed ==> c == Checkout(None, Failure(AlreadySubscribed)))
      && (c.stripeCall.Some? <==> Truthy(priceId) && !user.isSubscribed)
      && (c.stripeCall.Some? ==>
            && c.stripeCall.value.customerEmail == user.username
            && c.stripeCall.value.metadataUserId == user.id
            && c.stripeCall.value.price == priceId.value
            && c.stripeCall.value.mode == "subscription"
            && c.stripeCall.value.successUrl ==
                 ApiBase(apiBaseUrl) + "/subscription/success?session_id={CHECKOUT_SESSION_ID}"
            && c.stripeCall.value.cancelUrl == ApiBase(apiBaseUrl) + "/subscription/cancel")
    ensures c.result.Success? ==>
      && c.stripeCall.Some?
      && c.result.value.checkoutUrl.Some?
      && stripe(c.stripeCall.value) == SessionCreated(c.result.value.checkoutUrl.value)
      && c.result.value.status == "checkout_created"
    ensures c.stripeCall.Some? && stripe(c.stripeCall.value).SessionCreated? ==>
      c.result == Success(CheckoutResponse("checkout_created", "Checkout session created",
                                           Some(stripe(c.stripeCall.value).url), None))
    ensures c.stripeCall.Some? && stripe(c.stripeCall.value).StripeFailed? ==>
      c.result == Failure(StripeError(stripe(c.stripeCall.value).message))
  {
    match GetCurrentUser(crypto, token, users)
    case Failure(e) => Checkout(None, Failure(e))
    case Success(user) =>
      if !Truthy(priceId) then Checkout(None, Failure(PriceNotConfigured))
      else if user.isSubscribed then Checkout(None, Failure(AlreadySubscribed))
      else
        var base := ApiBase(apiBaseUrl);
        var request := CheckoutRequest(
          user.username, priceId.value, "subscription",
          base + "/subscription/success?session_id={CHECKOUT_SESSION_ID}",
          base + "/subscription/cancel",
          user.id);
        match stripe(request)
        case SessionCreated(url) =>
          Checkout(Some(request), Success(CheckoutResponse("checkout_created", "Checkout session created", Some(url), None)))
        case StripeFailed(message) =>
          Checkout(Some(request), Failure(StripeError(message)))
  }

  // ---------------------------------------------------------------------------
  // Webhook

  const CheckoutCompleted: string := "checkout.session.completed"
  const SubscriptionDeleted: string := "customer.subscription.deleted"

  /** `event["data"]["object"]`, reduced to the two fields the handler reads:
      `metadata.user_id` of a checkout session and `customer_email` of a subscription. */
  datatype EventObject = EventObject(metadataUserId: Option<string>, customerEmail: Option<string>)

  datatype StripeEvent = StripeEvent(eventType: string, data: EventObject)

  /** What `stripe.Webhook.construct_event` does with a payload, signature and secret. */
  datatype Verification = Verified(event: StripeEvent) | PayloadRejected | SignatureRejected

  /** The webhook's acknowledgement `{"status": "success"}`. */
  datatype Ack = Ack(status: string)

  /** All of a user except the subscription flag and its `updated_at` stamp. */
  predicate SameAccount(a: User, b: User) {
    a.id == b.id && a.username == b.username && a.passwordHash == b.passwordHash && a.createdAt == b.createdAt
  }

  /** The effect of one verified event on the store. `checkout.session.completed`
      subscribes the user whose id is the session's `metadata.user_id`;
      `customer.subscription.deleted` unsubscribes the user whose username is
      the `customer_email`; anything else, an empty correlation value or no
      matching user changes nothing. Only flags change; a flag that really
      changes is stamped with the next commit tick, and the clock moves by
      that one tick. */
  function Reconcile(db: Db, ev: StripeEvent): (r: Db)
    ensures Consistent(db) ==> Consistent(r)
    ensures r.tasks == db.tasks && |r.users| == |db.users|
    ensures forall j :: 0 <= j < |db.users| ==> SameAccount(db.users[j], r.users[j])
    ensures ev.eventType != CheckoutCompleted && ev.eventType != SubscriptionDeleted ==> r == db
    ensures ev.eventType == CheckoutCompleted && !Truthy(ev.data.metadataUserId) ==> r == db
    ensures ev.eventType == SubscriptionDeleted && !Truthy(ev.data.customerEmail) ==> r == db
    ensures ev.eventType == CheckoutCompleted && Truthy(ev.data.metadataUserId) ==>
      (!HasUser(db.users, ev.data.metadataUserId.value) ==> r == db)
    ensures ev.eventType == SubscriptionDeleted && Truthy(ev.data.customerEmail) ==>
      ((forall u :: u in db.users ==> u.username != ev.data.customerEmail.value) ==> r == db)
    ensures forall j :: 0 <= j < |db.users| && r.users[j] != db.users[j] ==>
      || (ev.eventType == CheckoutCompleted && Some(db.users[j].id) == ev.data.metadataUserId)
      || (ev.eventType == SubscriptionDeleted && Some(db.users[j].username) == ev.data.customerEmail)
    ensures Consistent(db) && ev.eventType == CheckoutCompleted && Truthy(ev.data.metadataUserId) ==>
      forall j :: 0 <= j < |db.users| ==>
        r.users[j].isSubscribed == (db.users[j].id == ev.data.metadataUserId.value || db.users[j].isSubscribed)
    ensures Consistent(db) && ev.eventType == SubscriptionDeleted && Truthy(ev.data.customerEmail) ==>
      forall j :: 0 <= j < |db.users| ==>
        r.users[j].isSubscribed == (db.users[j].username != ev.data.customerEmail.value && db.users[j].isSubscribed)
    ensures forall j :: 0 <= j < |db.users| ==>
      r.users[j].updatedAt == (if r.users[j].isSubscribed != db.users[j].isSubscribed then Some(r.clock) else db.users[j].updatedAt)
    ensures r.clock == (if r.users == db.users then db.clock else db.clock + 1)
  {
    if ev.eventType == CheckoutCompleted then
      if !Truthy(ev.data.metadataUserId) then db
      else
        var uid := ev.data.metadataUserId.value;
        match FindFirst(db.users, IdIs(uid))
        case None => db
        case Some(i) =>
          assert Consistent(db) ==> forall j :: 0 <= j < |db.users| && j != i ==> db.users[j].id != uid by {
            if Consistent(db) {
              forall j | 0 <= j < |db.users| && j != i ensures db.users[j].id != uid {
                assert db.users[j].id != db.users[i].id;
              }
            }
          }
          SetFlag(db, i, true)
    else if ev.eventType == SubscriptionDeleted then
      if !Truthy(ev.data.customerEmail) then db
      else
        var email := ev.data.customerEmail.value;
        match FindFirst(db.users, NameIs(email))
        case None => db
        case Some(i) =>
          assert Consistent(db) ==> forall j :: 0 <= j < |db.users| && j != i ==> db.users[j].username != email by {
            if Consistent(db) {
              forall j | 0 <= j < |db.users| && j != i ensures db.users[j].username != email {
                assert db.users[j].username != db.users[i].username;
              }
            }
          }
          SetFlag(db, i, false)
    else db
  }

  /** Stripe delivers events at least once: applying the same event again
      changes nothing, stamps and clock included. */
  lemma ReconcileIdempotent(db: Db, ev: StripeEvent)
    ensures Reconcile(Reconcile(db, ev), ev) == Reconcile(db, ev)
  {
    var once := Reconcile(db, ev);
    if ev.eventType == CheckoutCompleted && Truthy(ev.data.metadataUserId) {
      var uid := ev.data.metadataUserId.value;
      var k := FindFirst(db.users, IdIs(uid));
      if k.Some? {
        FindFirstStable(db.users, once.users, IdIs(uid), k.value);
      }
    } else if ev.eventType == SubscriptionDeleted && Truthy(ev.data.customerEmail) {
      var email := ev.data.customerEmail.value;
      var k := FindFirst(db.users, NameIs(email));
      if k.Some? {
        FindFirstStable(db.users, once.users, NameIs(email), k.value);
      }
    }
  }

  /** Rewriting the flag of some users does not move the first user matching
      an account-level filter, when the rewritten rows keep their account. */
  lemma FindFirstStable(before: seq<User>, after: seq<User>, p: User -> bool, k: nat)
    requires |after| == |before|
    requires forall j :: 0 <= j < |before| ==> SameAccount(before[j], after[j])
    requires forall a, b :: SameAccount(a, b) ==> p(a) == p(b)
    requires FindFirst(before, p) == Some(k)
    ensures FindFirst(after, p) == Some(k)
  {
    assert SameAccount(before[k], after[k]);
  }

  /** A completed checkout, reported back with the metadata the checkout route
      attached, subscribes exactly the user who started it. */
  lemma CheckoutThenWebhookSubscribes(crypto: Crypto, token: string, db: Db, priceId: Option<string>,
                                      apiBaseUrl: Option<string>, stripe: CheckoutRequest -> StripeAnswer)
    requires Consistent(db)
    requires forall u :: u in db.users ==> u.id != ""  // ids are uuid4 strings
    requires CreateCheckoutSession(crypto, token, db.users, priceId, apiBaseUrl, stripe).stripeCall.Some?
    ensures var call := CreateCheckoutSession(crypto, token, db.users, priceId, apiBaseUrl, stripe).stripeCall.value;
            var user := GetCurrentUser(crypto, token, db.users).value;
            var after := Reconcile(db, StripeEvent(CheckoutCompleted, EventObject(Some(call.metadataUserId), None)));
            forall j :: 0 <= j < |db.users| ==>
              after.users[j].isSubscribed == (db.users[j] == user || db.users[j].isSubscribed)
  {
    var user := GetCurrentUser(crypto, token, db.users).value;
    var call := CreateCheckoutSession(crypto, token, db.users, priceId, apiBaseUrl, stripe).stripeCall.value;
    var k :| 0 <= k < |db.users| && db.users[k] == user;
  }

  /** `POST /subscription/webhook`. The boundary checks come first and touch no
      user: a missing signature header (400), a missing secret (500), a
      payload or signature Stripe rejects (400). A verified event is then
      reconciled and, whatever it was, acknowledged with "success". */
  method StripeWebhook(db: Database, payload: string, sigHeader: Option<string>, webhookSecret: Option<string>,
                       constructEvent: (string, string, string) -> Verification)
    returns (r: Result<Ack, ApiError>)
    requires db.Valid()
    modifies db
    ensures db.Valid()
    ensures !Truthy(sigHeader) ==> r == Failure(MissingSignature) && db.Snapshot() == old(db.Snapshot())
    ensures Truthy(sigHeader) && !Truthy(webhookSecret) ==>
      r == Failure(SecretNotConfigured) && db.Snapshot() == old(db.Snapshot())
    ensures Truthy(sigHeader) && Truthy(webhookSecret) ==>
      var verification := constructEvent(payload, sigHeader.value, webhookSecret.value);
      && (verification.PayloadRejected? ==> r == Failure(InvalidPayload) && db.Snapshot() == old(db.Snapshot()))
      && (verification.SignatureRejected? ==> r == Failure(InvalidSignature) && db.Snapshot() == old(db.Snapshot()))
      && (verification.Verified? ==>
            r == Success(Ack("success")) && db.Snapshot() == Reconcile(old(db.Snapshot()), verification.event))
  {
    if !Truthy(sigHeader) {
      return Failure(MissingSignature);
    }
    if !Truthy(webhookSecret) {
      return Failure(SecretNotConfigured);
    }
    var verification := constructEvent(payload, sigHeader.value, webhookSecret.value);
    if verification.PayloadRejected? {
      return Failure(InvalidPayload);
    }
    if verification.SignatureRejected? {
      return Failure(InvalidSignature);
    }
    var event := verification.event;
    var data := event.data;
    if event.eventType == CheckoutCompleted {
      var userId := data.metadataUserId;
      if Truthy(userId) {
        var found := FindFirst(db.users, IdIs(userId.value));
        if found.Some? {
          db.SetSubscribed(found.value, true);
        }
      }
    } else if event.eventType == SubscriptionDeleted {
      var customerEmail := data.customerEmail;
      if Truthy(customerEmail) {
        var found := FindFirst(db.users, NameIs(customerEmail.value));
        if found.Some? {
          db.SetSubscribed(found.value, false);
        }
      }
    }
    r := Success(Ack("success"));
  }

  // ---------------------------------------------------------------------------
  // Cancel

  /** The dict `cancel_subscription` returns. */
  datatype CancelResponse = CancelResponse(status: string, message: string)

  /** `POST /subscription/cancel`: refused with 400 for a free user; otherwise
      the caller's flag is cleared locally (Stripe is not told). */
  method CancelSubscription(db: Database, crypto: Crypto, token: string)
    returns (r: Result<CancelResponse, ApiError>)
    requires db.Valid()
    modifies db
    ensures db.Valid()
    ensures GetCurrentUser(crypto, token, old(db.users)).Failure? ==>
      r == Failure(CredentialsInvalid) && db.Snapshot() == old(db.Snapshot())
    ensures GetCurrentUser(crypto, token, old(db.users)).Success? ==>
      var user := GetCurrentUser(crypto, token, old(db.users)).value;
      && (!user.isSubscribed ==> r == Failure(NoActiveSubscription) && db.Snapshot() == old(db.Snapshot()))
      && (user.isSubscribed ==>
            var i := FindFirst(old(db.users), NameIs(user.username)).value;
            && old(db.users)[i] == user
            && r == Success(CancelResponse("success", "Subscription cancelled successfully"))
            && db.Snapshot() == SetFlag(old(db.Snapshot()), i, false)
            && GetCurrentUser(crypto, token, db.users).Success?
            && !GetCurrentUser(crypto, token, db.users).value.isSubscribed)
  {
    var g := GetCurrentUser(crypto, token, db.users);
    if g.Failure? {
      return Failure(g.error);
    }
    var currentUser := g.value;
    if !currentUser.isSubscribed {
      return Failure(NoActiveSubscription);
    }
    var found := FindFirst(db.users, NameIs(currentUser.username));
    var i := found.value;
    ghost var before := db.users;
    assert before[i] == currentUser by {
      var j :| 0 <= j < |before| && before[j] == currentUser;
      assert NameIs(currentUser.username)(before[j]);
      assert before[j].username == before[i].username;
    }
    db.SetSubscribed(i, false);
    assert db.users[i].username == currentUser.username;
    GetCurrentUserIsThatUser(crypto, token, db.users, db.users[i]);
    r := Success(CancelResponse("success", "Subscription cancelled successfully"));
  }
}

/** The HTTP errors the routes raise, each with the status code and the
    `detail` text the source gives it. */
module HttpErrors {
  import opened Common

  datatype ApiError =
    | CredentialsInvalid        // get_current_user: bad token, no `sub`, unknown user
    | UsernameTaken             // register: duplicate username
    | IncorrectLogin            // login: unknown user or wrong password
    | TaskNotFound              // task absent or owned by someone else
    | TaskLimitReached          // free account at its task limit
    | DuplicateTitle            // caller already owns a task with this title
    | NoUpdateData              // update with no field supplied
    | PriceNotConfigured        // STRIPE_PRICE_ID unset
    | AlreadySubscribed         // checkout for a subscribed user
    | StripeError(message: string)
    | MissingSignature          // webhook without a stripe-signature header
    | SecretNotConfigured       // STRIPE_WEBHOOK_SECRET unset
    | InvalidPayload            // construct_event raised ValueError
    | InvalidSignature          // construct_event raised SignatureVerificationError
    | NoActiveSubscription      // cancel for a free user
    | IntegrityError            // a database constraint failed at commit (uncaught: HTTP 500)
    | ResponseInvalid           // the returned row does not fit the response model (HTTP 500)
  {
    /** 401 for the two authentication failures, 500 for server-side
        misconfiguration, Stripe and commit failures, a 4xx otherwise. */
    function Status(): (code: int)
      ensures code == 401 <==> this.CredentialsInvalid? || this.IncorrectLogin?
      ensures code == 500 <==>
        this.PriceNotConfigured? || this.StripeError? || this.SecretNotConfigured? || this.IntegrityError? || this.ResponseInvalid?
      ensures 400 <= code < 500 || code == 500
    {
      match this
      case CredentialsInvalid => 401
      case UsernameTaken => 400
      case IncorrectLogin => 401
      case TaskNotFound => 404
      case TaskLimitReached => 403
      case DuplicateTitle => 400
      case NoUpdateData => 400
      case PriceNotConfigured => 500
      case AlreadySubscribed => 400
      case StripeError(_) => 500
      case MissingSignature => 400
      case SecretNotConfigured => 500
      case InvalidPayload => 400
      case InvalidSignature => 400
      case NoActiveSubscription => 400
      case IntegrityError => 500
      case ResponseInvalid => 500
    }

    /** The `detail` text; a Stripe error carries Stripe's own message. */
    function Detail(): (d: string)
      ensures |d| > 0
      ensures this.StripeError? ==> IsPrefix("Stripe error: ", d) && IsSuffix(this.message, d)
    {
      match this
      case CredentialsInvalid => "Could not validate credentials"
      case UsernameTaken => "Username already registered"
      case IncorrectLogin => "Incorrect username or password"
      case TaskNotFound => "Task not found"
      case TaskLimitReached =>
        "Task limit reached. Free accounts are limited to 25 tasks. Please upgrade to a paid subscription for unlimited tasks."
      case DuplicateTitle => "A task with this title already exists"
      case NoUpdateData => "No update data provided"
      case PriceNotConfigured => "Stripe price ID not configured. Contact administrator."
      case AlreadySubscribed => "User already has an active subscription"
      case StripeError(m) => "Stripe error: " + m
      case MissingSignature => "Missing Stripe signature"
      case SecretNotConfigured => "Stripe webhook secret not configured"
      case InvalidPayload => "Invalid payload"
      case InvalidSignature => "Invalid signature"
      case NoActiveSubscription => "No active subscription found"
      case IntegrityError => "Internal Server Error"
      case ResponseInvalid => "Internal Server Error"
    }
  }
}

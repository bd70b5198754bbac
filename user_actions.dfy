/** The user actions of lib/actions/user.actions.ts: looking a user up,
    overwriting the address, payment method or name of the signed-in user,
    signing up and signing in. Hashing, the Zod schemas that are not part of
    this model and Auth.js's `signIn` are parameters. */
module UserActions {

  import opened Common
  import opened Records
  import opened Store
  import Validators

  const USER_NOT_FOUND := "User not found"
  const ADDRESS_UPDATED := "User updated successfullly"
  const PAYMENT_METHOD_UPDATED := "Payment method updated successfully"
  const PROFILE_UPDATED := "User updated successfully"
  const SIGNED_UP := "Signed up successfully"
  const SIGNED_IN := "Signed in successfully"
  const INVALID_CREDENTIALS := "Invalid email or password"

  /** `prisma.user.findFirst({where: {id}})` for a defined id. */
  function UserIndex(users: seq<User>, id: Id): (r: Option<nat>)
    ensures r.Some? ==> r.value < |users| && users[r.value].id == id
    ensures r.None? <==> forall i :: 0 <= i < |users| ==> users[i].id != id
    ensures DistinctUserIds(users) ==>
      forall i :: 0 <= i < |users| && users[i].id == id ==> r == Some(i)
  {
    FindFirst(users, (u: User) => u.id == id)
  }

  /** `getUserById`: the user with that id, or "User not found". */
  function GetUserById(users: seq<User>, userId: Id): (r: Result<User>)
    ensures r.Ok? <==> exists i :: 0 <= i < |users| && users[i].id == userId
    ensures r.Ok? ==> r.value in users && r.value.id == userId
    ensures r.Err? ==> r.error == Thrown(USER_NOT_FOUND)
  {
    match UserIndex(users, userId)
    case None => Err(Thrown(USER_NOT_FOUND))
    case Some(i) => Ok(users[i])
  }

  // ---------------------------------------------------------------------
  // The current user
  // ---------------------------------------------------------------------

  /** `prisma.user.findFirst({where: {id: session?.user?.id}})` as the three
      update actions write it. With no session the id is `undefined`, which
      Prisma reads as "no condition", so the first user row is found. */
  function CurrentUserIndexAsWritten(users: seq<User>, sessionUserId: Option<Id>): (r: Option<nat>)
    ensures r.Some? ==> r.value < |users|
    ensures sessionUserId.None? ==> r == (if |users| > 0 then Some(0) else None)
    ensures sessionUserId.Some? ==> r == UserIndex(users, sessionUserId.value)
  {
    if sessionUserId.None? then FindFirst(users, (u: User) => true)
    else UserIndex(users, sessionUserId.value)
  }

  /** Without a session, the update actions as written pick some other
      person's row: the first user, where the intended lookup finds none. */
  lemma AnonymousCallerGetsFirstUser(users: seq<User>)
    requires |users| > 0
    ensures CurrentUserIndexAsWritten(users, None) == Some(0)
    ensures CurrentUserIndex(users, None) == None
  {
  }

  /** The lookup the update actions evidently intend: the signed-in user's
      own row, and nobody's row when no one is signed in. */
  function CurrentUserIndex(users: seq<User>, sessionUserId: Option<Id>): (r: Option<nat>)
    ensures sessionUserId.None? ==> r.None?
    ensures r.Some? ==> r.value < |users| && users[r.value].id == sessionUserId.value
    ensures sessionUserId.Some? ==>
      (r.None? <==> forall i :: 0 <= i < |users| ==> users[i].id != sessionUserId.value)
  {
    if sessionUserId.None? then None else UserIndex(users, sessionUserId.value)
  }

  /** The two lookups agree exactly when someone is signed in. */
  lemma CurrentUserCorrection(users: seq<User>, sessionUserId: Option<Id>)
    ensures sessionUserId.Some? ==>
      CurrentUserIndex(users, sessionUserId) == CurrentUserIndexAsWritten(users, sessionUserId)
    ensures sessionUserId.None? && |users| > 0 ==>
      CurrentUserIndex(users, sessionUserId) != CurrentUserIndexAsWritten(users, sessionUserId)
  {
  }

  // ---------------------------------------------------------------------
  // Updating the current user
  // ---------------------------------------------------------------------

  /** `prisma.user.update({where: {id: users[i].id}, data})`: row `i` becomes
      `u` and every table stays otherwise as it was. */
  method SaveUser(db: Db, i: nat, u: User)
    requires db.Valid() && i < |db.users| && u.id == db.users[i].id
    modifies db
    ensures db.Valid()
    ensures db.users == old(db.users)[i := u]
    ensures db.products == old(db.products) && db.carts == old(db.carts)
    ensures db.orders == old(db.orders) && db.orderItems == old(db.orderItems)
  {
    db.users := db.users[i := u];
  }

  /** `updateUserAddress`: the parsed address replaces the signed-in user's
      address; no user, or an address the schema refuses, changes nothing. */
  method UpdateUserAddress(db: Db, sessionUserId: Option<Id>, data: Address, addressSchema: Address -> bool)
    returns (res: ActionResult)
    requires db.Valid()
    modifies db
    ensures db.Valid()
    ensures db.products == old(db.products) && db.carts == old(db.carts)
    ensures db.orders == old(db.orders) && db.orderItems == old(db.orderItems)
    ensures !res.Success() ==> db.users == old(db.users)
    ensures CurrentUserIndex(old(db.users), sessionUserId).None? ==> res == Failed(Thrown(USER_NOT_FOUND))
    ensures CurrentUserIndex(old(db.users), sessionUserId).Some? && !addressSchema(data) ==>
      res == Failed(SchemaRejected)
    ensures CurrentUserIndex(old(db.users), sessionUserId).Some? && addressSchema(data) ==>
      var i := CurrentUserIndex(old(db.users), sessionUserId).value;
      && res == Succeeded(ADDRESS_UPDATED, None)
      && db.users == old(db.users)[i := old(db.users)[i].(address := Some(data))]
  {
    var found := CurrentUserIndex(db.users, sessionUserId);
    if found.None? {
      return Failed(Thrown(USER_NOT_FOUND));
    }
    if !addressSchema(data) {
      return Failed(SchemaRejected);
    }
    var i := found.value;
    SaveUser(db, i, db.users[i].(address := Some(data)));
    res := Succeeded(ADDRESS_UPDATED, None);
  }

  /** The payment-method form's value; only its `type` is stored. */
  datatype PaymentMethodInput = PaymentMethodInput(kind: string)

  /** `updateUserPaymentMethod`: the method's type becomes the signed-in
      user's payment method. */
  method UpdateUserPaymentMethod(db: Db, sessionUserId: Option<Id>, data: PaymentMethodInput,
                                 paymentMethodSchema: PaymentMethodInput -> bool)
    returns (res: ActionResult)
    requires db.Valid()
    modifies db
    ensures db.Valid()
    ensures db.products == old(db.products) && db.carts == old(db.carts)
    ensures db.orders == old(db.orders) && db.orderItems == old(db.orderItems)
    ensures !res.Success() ==> db.users == old(db.users)
    ensures CurrentUserIndex(old(db.users), sessionUserId).None? ==> res == Failed(Thrown(USER_NOT_FOUND))
    ensures CurrentUserIndex(old(db.users), sessionUserId).Some? && !paymentMethodSchema(data) ==>
      res == Failed(SchemaRejected)
    ensures CurrentUserIndex(old(db.users), sessionUserId).Some? && paymentMethodSchema(data) ==>
      var i := CurrentUserIndex(old(db.users), sessionUserId).value;
      && res == Succeeded(PAYMENT_METHOD_UPDATED, None)
      && db.users == old(db.users)[i := old(db.users)[i].(paymentMethod := Some(data.kind))]
  {
    var found := CurrentUserIndex(db.users, sessionUserId);
    if found.None? {
      return Failed(Thrown(USER_NOT_FOUND));
    }
    if !paymentMethodSchema(data) {
      return Failed(SchemaRejected);
    }
    var i := found.value;
    SaveUser(db, i, db.users[i].(paymentMethod := Some(data.kind)));
    res := Succeeded(PAYMENT_METHOD_UPDATED, None);
  }

  /** `updateProfile`: only the name changes; the e-mail passed in is
      ignored. */
  method UpdateProfile(db: Db, sessionUserId: Option<Id>, name: string, email: string)
    returns (res: ActionResult)
    requires db.Valid()
    modifies db
    ensures db.Valid()
    ensures db.products == old(db.products) && db.carts == old(db.carts)
    ensures db.orders == old(db.orders) && db.orderItems == old(db.orderItems)
    ensures CurrentUserIndex(old(db.users), sessionUserId).None? ==>
      res == Failed(Thrown(USER_NOT_FOUND)) && db.users == old(db.users)
    ensures CurrentUserIndex(old(db.users), sessionUserId).Some? ==>
      var i := CurrentUserIndex(old(db.users), sessionUserId).value;
      && res == Succeeded(PROFILE_UPDATED, None)
      && db.users == old(db.users)[i := old(db.users)[i].(name := name)]
      && db.users[i].email == old(db.users)[i].email
  {
    var found := CurrentUserIndex(db.users, sessionUserId);
    if found.None? {
      return Failed(Thrown(USER_NOT_FOUND));
    }
    var i := found.value;
    SaveUser(db, i, db.users[i].(name := name));
    res := Succeeded(PROFILE_UPDATED, None);
  }

  // ---------------------------------------------------------------------
  // Signing up and signing in
  // ---------------------------------------------------------------------

  /** What Auth.js's `signIn("credentials", ...)` does from a server action:
      it returns, it throws Next.js's redirect signal (its usual way to
      finish), or it throws because the credentials were refused. */
  datatype SignInOutcome = SignInReturned | SignInRedirected | SignInFailed

  /** The reply of a server action once `signIn` has run. */
  function AfterSignIn(outcome: SignInOutcome, message: string): (r: ActionResult)
    ensures outcome == SignInReturned <==> r == Succeeded(message, None)
    ensures outcome == SignInRedirected <==> r == RedirectRethrown
    ensures outcome == SignInFailed <==> r == Failed(SignInRejected)
  {
    match outcome
    case SignInReturned => Succeeded(message, None)
    case SignInRedirected => RedirectRethrown
    case SignInFailed => Failed(SignInRejected)
  }

  /** `signUpUser`: a valid form creates a user (the default role, no
      address, no payment method) whose stored password is the hash of the
      one typed, then signs in with the typed password itself. A refused
      sign-in leaves the new user in place. */
  method SignUpUser(db: Db, form: Validators.SignUpForm, isEmail: string -> bool, hash: string -> string,
                    newUserId: Id, signIn: Validators.SignInForm -> SignInOutcome)
    returns (res: ActionResult)
    requires db.Valid()
    modifies db
    ensures db.Valid()
    ensures db.products == old(db.products) && db.carts == old(db.carts)
    ensures db.orders == old(db.orders) && db.orderItems == old(db.orderItems)
    ensures Validators.SignUpIssues(form, isEmail) != [] ==>
      res == Failed(SchemaRejected) && db.users == old(db.users)
    ensures Validators.SignUpIssues(form, isEmail) == [] && UserIndex(old(db.users), newUserId).Some? ==>
      res == Failed(StoreRejected) && db.users == old(db.users)
    ensures Validators.SignUpIssues(form, isEmail) == [] && UserIndex(old(db.users), newUserId).None? ==>
      && db.users == old(db.users) + [User(newUserId, form.name, form.email, Some(hash(form.password)), DEFAULT_ROLE, None, None)]
      && res == AfterSignIn(signIn(Validators.SignInForm(form.email, form.password)), SIGNED_UP)
  {
    if Validators.SignUpIssues(form, isEmail) != [] {
      return Failed(SchemaRejected);
    }
    var plainPassword := form.password;
    var hashed := hash(form.password);
    if UserIndex(db.users, newUserId).Some? {
      return Failed(StoreRejected);
    }
    db.users := db.users + [User(newUserId, form.name, form.email, Some(hashed), DEFAULT_ROLE, None, None)];
    res := AfterSignIn(signIn(Validators.SignInForm(form.email, plainPassword)), SIGNED_UP);
  }

  /** `signInWithCredentials`: a form the schema refuses and a refused
      sign-in both give the same "Invalid email or password"; a redirect is
      passed on. */
  function SignInWithCredentials(form: Validators.SignInForm, isEmail: string -> bool,
                                 signIn: Validators.SignInForm -> SignInOutcome): (r: ActionResult)
    ensures r.Succeeded? <==> Validators.SignInIssues(form, isEmail) == [] && signIn(form) == SignInReturned
    ensures r == RedirectRethrown <==> Validators.SignInIssues(form, isEmail) == [] && signIn(form) == SignInRedirected
    ensures r.Succeeded? ==> r == Succeeded(SIGNED_IN, None)
    ensures !r.Succeeded? && r != RedirectRethrown ==> r == Declined(INVALID_CREDENTIALS, None)
  {
    if Validators.SignInIssues(form, isEmail) != [] then Declined(INVALID_CREDENTIALS, None)
    else match signIn(form)
      case SignInReturned => Succeeded(SIGNED_IN, None)
      case SignInRedirected => RedirectRethrown
      case SignInFailed => Declined(INVALID_CREDENTIALS, None)
  }
}

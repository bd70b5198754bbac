/** The Auth.js configuration of auth.ts: the credentials check, the `jwt`
    callback that fills the token and hands the browser's session cart to
    the user who signs in, the `session` callback, and the `authorized`
    callback that guards pages with unanchored patterns. */
module Auth {

  import opened Common
  import opened Records
  import opened Store
  import Text
  import Middleware
  import UserActions

  // ---------------------------------------------------------------------
  // authorize
  // ---------------------------------------------------------------------

  datatype Credentials = Credentials(email: string, password: string)

  /** What `authorize` hands Auth.js for a user it accepts. */
  datatype AuthUser = AuthUser(id: Id, name: string, email: string, role: string)

  /** `prisma.user.findFirst({where: {email}})`. */
  function UserByEmail(users: seq<User>, email: string): (r: Option<nat>)
    ensures r.Some? ==> r.value < |users| && users[r.value].email == email
    ensures r.Some? ==> forall j :: 0 <= j < r.value ==> users[j].email != email
    ensures r.None? <==> forall j :: 0 <= j < |users| ==> users[j].email != email
  {
    FindFirst(users, (u: User) => u.email == email)
  }

  /** The credentials provider's `authorize`: the first user with the e-mail,
      if that user has a (non-empty) stored hash that `compare` matches
      against the password typed; otherwise no one. */
  function Authorize(users: seq<User>, credentials: Option<Credentials>,
                     compare: (string, string) -> bool): (r: Option<AuthUser>)
    ensures credentials.None? ==> r.None?
    ensures r.Some? <==>
      && credentials.Some?
      && UserByEmail(users, credentials.value.email).Some?
      && Truthy(users[UserByEmail(users, credentials.value.email).value].password)
      && compare(credentials.value.password, users[UserByEmail(users, credentials.value.email).value].password.value)
    ensures r.Some? ==>
      var u := users[UserByEmail(users, credentials.value.email).value];
      r.value == AuthUser(u.id, u.name, u.email, u.role) && u.email == credentials.value.email
  {
    if credentials.None? then None
    else match UserByEmail(users, credentials.value.email)
      case None => None
      case Some(i) =>
        var u := users[i];
        if Truthy(u.password) && compare(credentials.value.password, u.password.value)
        then Some(AuthUser(u.id, u.name, u.email, u.role))
        else None
  }

  /** Signing up then signing in works: a user that sign-up appended, with
      the hash of the password, is accepted with that password, provided the
      e-mail was not taken and the hash check accepts its own hash. */
  lemma SignUpThenAuthorize(users: seq<User>, created: User, plain: string, hash: string -> string,
                            compare: (string, string) -> bool)
    requires forall j :: 0 <= j < |users| ==> users[j].email != created.email
    requires created.password == Some(hash(plain)) && hash(plain) != ""
    requires compare(plain, hash(plain))
    ensures Authorize(users + [created], Some(Credentials(created.email, plain)), compare)
         == Some(AuthUser(created.id, created.name, created.email, created.role))
  {
    var all := users + [created];
    var i := UserByEmail(all, created.email);
    assert all[|users|].email == created.email;
    assert i == Some(|users|);
  }

  // ---------------------------------------------------------------------
  // jwt: token fields and the name
  // ---------------------------------------------------------------------

  const NO_NAME := "NO_NAME"

  datatype Trigger = SignInTrigger | SignUpTrigger | UpdateTrigger

  /** The parts of the JWT the callbacks read and write. */
  datatype Token = Token(sub: Option<Id>, id: Option<Id>, role: Option<string>, name: Option<string>)

  /** The token name after the `if (user)` block: a user named "NO_NAME" is
      called by the part of the e-mail before the first "@". */
  function NameAfterSignIn(token: Token, user: AuthUser): (r: Option<string>)
    ensures user.name == NO_NAME ==> r == Some(Text.BeforeFirst(user.email, '@'))
    ensures user.name == NO_NAME ==> r.value <= user.email && '@' !in r.value
    ensures user.name != NO_NAME ==> r == token.name
  {
    if user.name == NO_NAME then Some(Text.BeforeFirst(user.email, '@')) else token.name
  }

  /** The token `jwt` returns: a signed-in user's id and role, the name as
      above, and, whenever there is a trigger, a non-empty name from the
      session update in its place. */
  function TokenAfter(token: Token, user: Option<AuthUser>, trigger: Option<Trigger>,
                      sessionName: Option<string>): (r: Token)
    ensures r.sub == token.sub
    ensures user.Some? ==> r.id == Some(user.value.id) && r.role == Some(user.value.role)
    ensures user.None? ==> r.id == token.id && r.role == token.role
    ensures Truthy(sessionName) && trigger.Some? ==> r.name == sessionName
    ensures !(Truthy(sessionName) && trigger.Some?) && user.Some? ==> r.name == NameAfterSignIn(token, user.value)
    ensures !(Truthy(sessionName) && trigger.Some?) && user.None? ==> r.name == token.name
  {
    var signedIn := if user.Some? then token.(id := Some(user.value.id), role := Some(user.value.role),
                                              name := NameAfterSignIn(token, user.value))
                    else token;
    if Truthy(sessionName) && trigger.Some? then signedIn.(name := sessionName) else signedIn
  }

  // ---------------------------------------------------------------------
  // jwt: handing the session cart to the user
  // ---------------------------------------------------------------------

  /** `prisma.cart.findFirst({where: {sessionCartId}})`. */
  function SessionCartIndex(carts: seq<Cart>, sessionCartId: Id): (r: Option<nat>)
    ensures r.Some? ==> r.value < |carts| && carts[r.value].sessionCartId == sessionCartId
    ensures r.Some? ==> forall j :: 0 <= j < r.value ==> carts[j].sessionCartId != sessionCartId
    ensures r.None? <==> forall j :: 0 <= j < |carts| ==> carts[j].sessionCartId != sessionCartId
  {
    FindFirst(carts, (c: Cart) => c.sessionCartId == sessionCartId)
  }

  /** `prisma.cart.deleteMany({where: {userId}})`, sparing the cart with key
      `spare` when one is given. */
  function DeleteOwned(carts: seq<Cart>, userId: Id, spare: Option<Id>): (r: seq<Cart>)
    ensures forall c :: c in r <==> c in carts && (c.userId != Some(userId) || Some(c.id) == spare)
    ensures DistinctCartIds(carts) ==> DistinctCartIds(r)
  {
    if carts == [] then []
    else
      var rest := DeleteOwned(carts[1..], userId, spare);
      if carts[0].userId != Some(userId) || Some(carts[0].id) == spare then
        assert DistinctCartIds(carts) ==> forall c :: c in rest ==> c.id != carts[0].id by {
          if DistinctCartIds(carts) {
            forall c | c in rest ensures c.id != carts[0].id {
              var m :| 1 <= m < |carts| && carts[m] == c;
            }
          }
        }
        [carts[0]] + rest
      else rest
  }

  /** The two steps of the handoff and whether the second went through. */
  datatype Handed = Handed(carts: seq<Cart>, updated: bool)

  /** The handoff as auth.ts writes it: with a session cart, every cart the
      user owns is deleted, and then the session cart is given to the user.
      When the session cart already belonged to the user, the first step
      deletes it, the `update` that follows finds no row and throws, and the
      deletion stays, since no transaction wraps the two. */
  function HandoffAsWritten(carts: seq<Cart>, sessionCartId: Id, userId: Id): (r: Handed)
    requires DistinctCartIds(carts)
    ensures SessionCartIndex(carts, sessionCartId).None? ==> r == Handed(carts, true)
    ensures SessionCartIndex(carts, sessionCartId).Some? ==>
      var i := SessionCartIndex(carts, sessionCartId).value;
      && (r.updated <==> carts[i].userId != Some(userId))
      && (forall c :: c in r.carts && c.userId == Some(userId) ==> r.updated && c.id == carts[i].id)
  {
    match SessionCartIndex(carts, sessionCartId)
    case None => Handed(carts, true)
    case Some(i) =>
      var rest := DeleteOwned(carts, userId, None);
      match CartIndex(rest, carts[i].id)
      case None => Handed(rest, false)
      case Some(j) =>
        assert rest[j] == carts[i] by {
          var m :| 0 <= m < |carts| && carts[m] == rest[j];
        }
        Handed(rest[j := rest[j].(userId := Some(userId))], true)
  }

  /** A user who signs out and back in on the same browser keeps the cookie
      of the cart they already own: the handoff as written deletes that cart
      and then fails. */
  lemma HandoffLosesOwnCart()
    ensures var own := Cart("c1", Some("u1"), "s1", [], Prices(0, 0, 0, 0));
      HandoffAsWritten([own], "s1", "u1") == Handed([], false)
  {
    var own := Cart("c1", Some("u1"), "s1", [], Prices(0, 0, 0, 0));
    assert SessionCartIndex([own], "s1") == Some(0);
    assert DeleteOwned([own], "u1", None) == [];
  }

  /** The handoff as intended: the user's other carts are deleted and the
      session cart, whoever owned it, becomes the user's. */
  function Handoff(carts: seq<Cart>, sessionCartId: Id, userId: Id): (r: seq<Cart>)
    requires DistinctCartIds(carts)
    ensures DistinctCartIds(r)
    ensures SessionCartIndex(carts, sessionCartId).None? ==> r == carts
    ensures SessionCartIndex(carts, sessionCartId).Some? ==>
      var i := SessionCartIndex(carts, sessionCartId).value;
      && (forall k :: 0 <= k < |r| ==> r[k] in carts || r[k] == carts[i].(userId := Some(userId)))
      && carts[i].(userId := Some(userId)) in r
      && (forall k :: 0 <= k < |r| && r[k].userId == Some(userId) ==> r[k] == carts[i].(userId := Some(userId)))
      && (forall c :: c in carts && c.userId != Some(userId) && c.id != carts[i].id ==> c in r)
  {
    match SessionCartIndex(carts, sessionCartId)
    case None => carts
    case Some(i) => HandOver(carts, i, userId)
  }

  /** The corrected handoff once the session cart `carts[i]` is found. */
  function HandOver(carts: seq<Cart>, i: nat, userId: Id): (r: seq<Cart>)
    requires DistinctCartIds(carts) && i < |carts|
    ensures DistinctCartIds(r)
    ensures forall k :: 0 <= k < |r| ==> r[k] in carts || r[k] == carts[i].(userId := Some(userId))
    ensures carts[i].(userId := Some(userId)) in r
    ensures forall k :: 0 <= k < |r| && r[k].userId == Some(userId) ==> r[k] == carts[i].(userId := Some(userId))
    ensures forall c :: c in carts && c.userId != Some(userId) && c.id != carts[i].id ==> c in r
  {
    var rest := DeleteOwned(carts, userId, Some(carts[i].id));
    assert carts[i] in rest;
    var j := CartIndex(rest, carts[i].id).value;
    assert rest[j] == carts[i] by {
      var m :| 0 <= m < |carts| && carts[m] == rest[j];
    }
    OnlySpareOwned(rest, j, userId);
    GiveCart(rest, j, userId)
  }

  /** After the deletion sparing `rest[j]`, no other row is the user's. */
  lemma OnlySpareOwned(rest: seq<Cart>, j: nat, userId: Id)
    requires DistinctCartIds(rest) && j < |rest|
    requires forall c :: c in rest ==> c.userId != Some(userId) || c.id == rest[j].id
    ensures forall k :: 0 <= k < |rest| && k != j ==> rest[k].userId != Some(userId)
  {
  }

  /** The `cart.update` step: row `j` becomes the user's. */
  function GiveCart(rest: seq<Cart>, j: nat, userId: Id): (r: seq<Cart>)
    requires DistinctCartIds(rest) && j < |rest|
    requires forall k :: 0 <= k < |rest| && k != j ==> rest[k].userId != Some(userId)
    ensures DistinctCartIds(r)
    ensures forall k :: 0 <= k < |r| ==> r[k] in rest || r[k] == rest[j].(userId := Some(userId))
    ensures rest[j].(userId := Some(userId)) in r
    ensures forall k :: 0 <= k < |r| && r[k].userId == Some(userId) ==> r[k] == rest[j].(userId := Some(userId))
    ensures forall c :: c in rest && c.userId != Some(userId) && c.id != rest[j].id ==> c in r
  {
    var r := rest[j := rest[j].(userId := Some(userId))];
    assert r[j] == rest[j].(userId := Some(userId));
    assert forall c :: c in rest && c.userId != Some(userId) && c.id != rest[j].id ==> c in r by {
      forall c | c in rest && c.userId != Some(userId) && c.id != rest[j].id ensures c in r {
        var m :| 0 <= m < |rest| && rest[m] == c;
        assert m != j && r[m] == c;
      }
    }
    r
  }

  lemma HandoffLeavesOneCart(carts: seq<Cart>, sessionCartId: Id, userId: Id)
    requires DistinctCartIds(carts)
    requires SessionCartIndex(carts, sessionCartId).Some?
    ensures var r := Handoff(carts, sessionCartId, userId);
      exists k :: 0 <= k < |r| && r[k].userId == Some(userId) && r[k].sessionCartId == sessionCartId
    ensures var r := Handoff(carts, sessionCartId, userId);
      forall k, l :: 0 <= k < |r| && 0 <= l < |r| && r[k].userId == Some(userId) && r[l].userId == Some(userId) ==> k == l
  {
    var r := Handoff(carts, sessionCartId, userId);
    var i := SessionCartIndex(carts, sessionCartId).value;
    var target := carts[i].(userId := Some(userId));
    var k :| 0 <= k < |r| && r[k] == target;
    forall k, l | 0 <= k < |r| && 0 <= l < |r| && r[k].userId == Some(userId) && r[l].userId == Some(userId)
      ensures k == l
    {
      assert r[k].id == r[l].id;
    }
  }

  /** The corrected handoff agrees with the written one whenever the session
      cart was not already the user's. */
  lemma HandoffCorrection(carts: seq<Cart>, sessionCartId: Id, userId: Id)
    requires DistinctCartIds(carts)
    requires SessionCartIndex(carts, sessionCartId).Some?
    requires carts[SessionCartIndex(carts, sessionCartId).value].userId != Some(userId)
    ensures HandoffAsWritten(carts, sessionCartId, userId) == Handed(Handoff(carts, sessionCartId, userId), true)
  {
    var i := SessionCartIndex(carts, sessionCartId).value;
    SpareUnowned(carts, userId, carts[i].id);
  }

  /** Sparing a cart the user does not own changes nothing. */
  lemma {:induction false} SpareUnowned(carts: seq<Cart>, userId: Id, spare: Id)
    requires forall c :: c in carts && c.id == spare ==> c.userId != Some(userId)
    ensures DeleteOwned(carts, userId, Some(spare)) == DeleteOwned(carts, userId, None)
  {
    if carts != [] {
      assert forall c :: c in carts[1..] ==> c in carts;
      SpareUnowned(carts[1..], userId, spare);
    }
  }

  /** The `jwt` callback. `cartCookie` is the `sessionCartId` cookie. With a
      user (at sign-in) it writes the token's name back to the user row,
      which must exist, and on "signIn" or "signUp" hands the session cart
      to the user, using the corrected handoff. */
  method Jwt(db: Db, token: Token, user: Option<AuthUser>, trigger: Option<Trigger>,
             sessionName: Option<string>, cartCookie: Option<string>)
    returns (r: Result<Token>)
    requires db.Valid()
    modifies db
    ensures db.Valid()
    ensures db.products == old(db.products) && db.orders == old(db.orders) && db.orderItems == old(db.orderItems)
    ensures user.None? ==>
      r == Ok(TokenAfter(token, user, trigger, sessionName)) && db.users == old(db.users) && db.carts == old(db.carts)
    ensures user.Some? && UserActions.UserIndex(old(db.users), user.value.id).None? ==>
      r == Err(StoreRejected) && db.users == old(db.users) && db.carts == old(db.carts)
    ensures user.Some? && UserActions.UserIndex(old(db.users), user.value.id).Some? ==>
      var i := UserActions.UserIndex(old(db.users), user.value.id).value;
      var name := NameAfterSignIn(token, user.value);
      && r == Ok(TokenAfter(token, user, trigger, sessionName))
      && db.users == (if name.Some? then old(db.users)[i := old(db.users)[i].(name := name.value)] else old(db.users))
      && db.carts == (if trigger in {Some(SignInTrigger), Some(SignUpTrigger)} && Truthy(cartCookie)
                      then Handoff(old(db.carts), cartCookie.value, user.value.id) else old(db.carts))
  {
    if user.Some? {
      var u := user.value;
      var name := NameAfterSignIn(token, u);
      var row := UserActions.UserIndex(db.users, u.id);
      if row.None? {
        return Err(StoreRejected);
      }
      if name.Some? {
        db.users := db.users[row.value := db.users[row.value].(name := name.value)];
      }
      if trigger == Some(SignInTrigger) || trigger == Some(SignUpTrigger) {
        if Truthy(cartCookie) {
          var carts := Handoff(db.carts, cartCookie.value, u.id);
          assert forall k :: 0 <= k < |carts| ==> UniqueLines(carts[k].items);
          db.carts := carts;
        }
      }
    }
    r := Ok(TokenAfter(token, user, trigger, sessionName));
  }

  // ---------------------------------------------------------------------
  // session
  // ---------------------------------------------------------------------

  datatype SessionUser = SessionUser(id: Option<Id>, role: Option<string>, name: Option<string>)

  /** The `session` callback: id from the token's subject, role and name from
      the token; on "update" the name is read from `user`, which the JWT
      strategy does not pass, so reading it throws. */
  function SessionCallback(token: Token, trigger: Option<Trigger>, user: Option<User>): (r: Result<SessionUser>)
    ensures trigger != Some(UpdateTrigger) ==> r == Ok(SessionUser(token.sub, token.role, token.name))
    ensures trigger == Some(UpdateTrigger) ==> (r.Err? <==> user.None?)
    ensures r.Err? ==> r.error == RuntimeError
    ensures trigger == Some(UpdateTrigger) && user.Some? ==>
      r == Ok(SessionUser(token.sub, token.role, Some(user.value.name)))
  {
    if trigger == Some(UpdateTrigger) then
      if user.None? then Err(RuntimeError) else Ok(SessionUser(token.sub, token.role, Some(user.value.name)))
    else Ok(SessionUser(token.sub, token.role, token.name))
  }

  /** A user with no name who signs in is shown by the part of the e-mail
      before the "@". */
  lemma NoNameShowsEmailPrefix(token: Token, user: AuthUser)
    requires user.name == NO_NAME
    ensures SessionCallback(TokenAfter(token, Some(user), Some(SignInTrigger), None), None, None)
         == Ok(SessionUser(token.sub, Some(user.role), Some(Text.BeforeFirst(user.email, '@'))))
  {
  }

  /** A name sent with a session update replaces the token's name. */
  lemma SessionUpdateRenames(token: Token, name: string)
    requires name != ""
    ensures TokenAfter(token, None, Some(UpdateTrigger), Some(name)).name == Some(name)
    ensures SessionCallback(TokenAfter(token, None, Some(UpdateTrigger), Some(name)), None, None).value.name == Some(name)
  {
  }

  // ---------------------------------------------------------------------
  // authorized
  // ---------------------------------------------------------------------

  /** The unanchored patterns of `authorized`, as the literals they look for
      anywhere in the path (`/\/user\/(.*)/` is "/user/" followed by
      anything). */
  const PROTECTED_PATTERNS: seq<string> :=
    ["/shipping-address", "/payment-method", "/place-order", "/profile", "/user/", "/order/", "/admin"]

  function SomeOccurs(patterns: seq<string>, path: string): (r: bool)
    ensures r <==> exists i :: 0 <= i < |patterns| && Text.Contains(path, patterns[i])
  {
    if patterns == [] then false
    else if Text.Contains(path, patterns[0]) then true
    else
      assert forall i :: 1 <= i < |patterns| ==> patterns[i] == patterns[1..][i - 1];
      SomeOccurs(patterns[1..], path)
  }

  datatype Authorization =
    | Deny
    | AllowSettingCartCookie(sessionCartId: string)
    | Allow

  /** The `authorized` callback: no session and a protected pattern anywhere
      in the path deny; otherwise a request without a `sessionCartId` cookie
      passes with a new one set, and any other passes. */
  function Authorized(pathname: string, signedIn: bool, cartCookie: Option<string>, newSessionCartId: string): (r: Authorization)
    ensures r == Deny <==> !signedIn && SomeOccurs(PROTECTED_PATTERNS, pathname)
    ensures r.AllowSettingCartCookie? <==> r != Deny && cartCookie.None?
    ensures r.AllowSettingCartCookie? ==> r.sessionCartId == newSessionCartId
  {
    if !signedIn && SomeOccurs(PROTECTED_PATTERNS, pathname) then Deny
    else if cartCookie.None? then AllowSettingCartCookie(newSessionCartId)
    else Allow
  }

  /** Every path the middleware guards, `authorized` guards too. */
  lemma AnchoredImpliesUnanchored(pathname: string)
    requires Middleware.IsProtected(pathname)
    ensures SomeOccurs(PROTECTED_PATTERNS, pathname)
  {
    var i :| 0 <= i < |Middleware.PROTECTED_PREFIXES| && Middleware.PROTECTED_PREFIXES[i] <= pathname;
    assert PROTECTED_PATTERNS[i] == Middleware.PROTECTED_PREFIXES[i];
    Text.PrefixOccurs(PROTECTED_PATTERNS[i], pathname);
  }

  /** The converse fails: a protected word inside another path is denied by
      `authorized` but let through by the middleware. */
  lemma UnanchoredReachesFurther()
    ensures !Middleware.IsProtected("/search/profile")
    ensures Authorized("/search/profile", false, Some("c"), "n") == Deny
  {
    var p := "/search/profile";
    assert Text.OccursAt("/profile", p, 7) by {
      assert p[7..15] == "/profile";
    }
    assert PROTECTED_PATTERNS[3] == "/profile";
    forall i | 0 <= i < |Middleware.PROTECTED_PREFIXES| ensures !(Middleware.PROTECTED_PREFIXES[i] <= p) {
      if i == 0 {
        Middleware.DiffersAt(Middleware.PROTECTED_PREFIXES[i], p, 2);
      } else {
        Middleware.DiffersAt(Middleware.PROTECTED_PREFIXES[i], p, 1);
      }
    }
  }
}

/** The handlers as they run: each reads the users table and rewrites at most one row of it. */
module AccountStore {
  import opened Clock
  import opened Accounts

  datatype LoginError = InvalidCredentials | EmailNotVerified

  class Service {
    var users: seq<User>
    var nextToken: nat
    /** Tokens carrying a valid signature, and who was sent a welcome or erased. */
    var issued: seq<Session>
    var welcomed: seq<nat>
    var erased: set<nat>

    function At(now: Time): World
      reads this
    {
      World(now, users, nextToken, issued, welcomed, erased)
    }

    /** What every handler may rely on and keeps: the invariant of the runs. */
    ghost predicate Valid()
      reads this
    {
      Good(At(0))
    }

    /** No account yet. */
    constructor ()
      ensures Valid() && forall now: Time :: At(now) == World(now, [], 0, [], [], {})
    {
      users, nextToken, issued, welcomed, erased := [], 0, [], [], {};
    }

    method IssueToken(user: nat, now: Time) returns (session: Session)
      requires user < |users|
      modifies this`issued
      ensures At(now) == Accounts.SignIn(old(At(now)), user) && session == NewSession(user, users[user].tokenVersion, now)
    {
      session := Session(user, users[user].tokenVersion, SecondsOf(now + TOKEN_TTL));
      issued := issued + [session];
    }

    method NewToken() returns (token: nat)
      modifies this`nextToken
      ensures token == old(nextToken) && nextToken == token + 1
    {
      token := nextToken;
      nextToken := nextToken + 1;
    }

    /** Answers alike for a new and a taken address, so it returns nothing. */
    method Signup(email: nat, password: nat, now: Time)
      requires Valid()
      modifies this
      ensures Valid()
      ensures At(now) == Apply(old(At(now)), Step.Signup(email, password))
    {
      StepGoodAtAnyTime(At(now), Step.Signup(email, password));
      var taken := ByEmail(users, Address(email));
      if taken == None {
        var token := NewToken();
        users := users + [User(Address(email), password, None, 0, Some(token), Some(now), None, None, None)];
      }
    }

    method VerifyEmail(token: nat, now: Time) returns (session: Option<Session>)
      requires Valid()
      modifies this
      ensures Valid()
      ensures At(now) == Apply(old(At(now)), Step.VerifyEmail(token))
      ensures session.Some? <==> ConfirmationRow(old(At(now)), token).Some?
      ensures session.Some? ==> Authenticates(At(now), session.value)
    {
      StepGoodAtAnyTime(At(now), Step.VerifyEmail(token));
      var row := ConfirmationRow(At(now), token);
      if row == None { return None; }
      var u := row.value;
      users := users[u := users[u].(verifiedAt := Coalesce(users[u].verifiedAt, now), confirmation := None)];
      welcomed := welcomed + [u];
      var s := IssueToken(u, now);
      session := Some(s);
    }

    method ResendVerification(email: nat, now: Time)
      requires Valid()
      modifies this
      ensures Valid()
      ensures At(now) == Apply(old(At(now)), Step.ResendVerification(email))
    {
      StepGoodAtAnyTime(At(now), Step.ResendVerification(email));
      var row := ByEmail(users, Address(email));
      if row == None || users[row.value].verifiedAt.Some? { return; }
      var sentAt := users[row.value].confirmationSentAt;
      if sentAt.Some? && now - sentAt.value < RESEND_COOLDOWN { return; }
      var token := NewToken();
      users := users[row.value := users[row.value].(confirmation := Some(token), confirmationSentAt := Some(now))];
    }

    /** The same refusal for an unknown address and a wrong password; an unconfirmed account is named only to its owner. */
    method Login(email: nat, password: nat, now: Time) returns (r: Result<Session, LoginError>)
      requires Valid()
      modifies this`issued
      ensures Valid()
      ensures At(now) == Apply(old(At(now)), Step.Login(email, password))
      ensures r.Ok? <==> exists u: nat :: Opens(old(At(now)), u, email, password)
      ensures r.Ok? ==> Authenticates(At(now), r.value) && Opens(At(now), r.value.user, email, password)
      ensures r == Err(EmailNotVerified) <==> exists u: nat :: OpensOnceConfirmed(old(At(now)), u, email, password)
    {
      StepGoodAtAnyTime(At(now), Step.Login(email, password));
      var row := ByEmail(users, Address(email));
      forall u: nat | u < |users| && users[u].email == Address(email) ensures row == Some(u) {
        OnlyRowOf(At(0), u, Address(email));
      }
      if row == None || users[row.value].password != password { return Err(InvalidCredentials); }
      if users[row.value].verifiedAt == None {
        assert OpensOnceConfirmed(At(now), row.value, email, password);
        return Err(EmailNotVerified);
      }
      assert Opens(At(now), row.value, email, password);
      var s := IssueToken(row.value, now);
      r := Ok(s);
    }

    method ForgotPassword(email: nat, now: Time)
      requires Valid()
      modifies this
      ensures Valid()
      ensures At(now) == Apply(old(At(now)), Step.ForgotPassword(email))
    {
      StepGoodAtAnyTime(At(now), Step.ForgotPassword(email));
      var row := ByEmail(users, Address(email));
      if row == None { return; }
      var reset := users[row.value].reset;
      if reset.Some? && now - reset.value.sentAt < RESET_COOLDOWN { return; }
      var token := NewToken();
      users := users[row.value := users[row.value].(reset := Some(Link(token, now)))];
    }

    method ResetPassword(token: nat, password: nat, now: Time) returns (session: Option<Session>)
      requires Valid()
      modifies this
      ensures Valid()
      ensures At(now) == Apply(old(At(now)), Step.ResetPassword(token, password))
      ensures session.Some? <==> Revoked(old(At(now)), Step.ResetPassword(token, password)).Some?
      ensures session.Some? ==> Authenticates(At(now), session.value)
    {
      StepGoodAtAnyTime(At(now), Step.ResetPassword(token, password));
      var row := ResetRow(At(now), token);
      if row == None || !CanBump(users[row.value]) { return None; }
      var u := row.value;
      var user := users[u];
      users := users[u := user.(password := password, reset := None, verifiedAt := Coalesce(user.verifiedAt, now),
                                tokenVersion := user.tokenVersion + 1)];
      var s := IssueToken(u, now);
      session := Some(s);
    }

    method ChangePassword(bearer: Session, current: nat, password: nat, now: Time) returns (session: Option<Session>)
      requires Valid()
      modifies this
      ensures Valid()
      ensures At(now) == Apply(old(At(now)), Step.ChangePassword(bearer, current, password))
      ensures session.Some? <==> Revoked(old(At(now)), Step.ChangePassword(bearer, current, password)).Some?
      ensures session.Some? ==> Authenticates(At(now), session.value) && !Authenticates(At(now), bearer)
    {
      StepGoodAtAnyTime(At(now), Step.ChangePassword(bearer, current, password));
      if !Authenticates(At(now), bearer) { return None; }
      var u := bearer.user;
      if users[u].password != current || password == current || !CanBump(users[u]) { return None; }
      users := users[u := users[u].(password := password, reset := None, tokenVersion := users[u].tokenVersion + 1)];
      var s := IssueToken(u, now);
      session := Some(s);
    }

    method ChangeEmail(bearer: Session, email: nat, password: nat, now: Time)
      requires Valid()
      modifies this
      ensures Valid()
      ensures At(now) == Apply(old(At(now)), Step.ChangeEmail(bearer, email, password))
    {
      StepGoodAtAnyTime(At(now), Step.ChangeEmail(bearer, email, password));
      if !Authenticates(At(now), bearer) || users[bearer.user].password != password { return; }
      if users[bearer.user].email == Address(email) { return; }
      var taken := ByEmail(users, Address(email));
      if taken.Some? { return; }
      var token := NewToken();
      var user := users[bearer.user];
      users := users[bearer.user := user.(pendingEmail := Some(Address(email)), emailChange := Some(Link(token, now)))];
    }

    method ConfirmEmailChange(token: nat, now: Time) returns (changed: bool)
      requires Valid()
      modifies this`users
      ensures Valid()
      ensures At(now) == Apply(old(At(now)), Step.ConfirmEmailChange(token))
      ensures changed <==> Revoked(old(At(now)), Step.ConfirmEmailChange(token)).Some?
    {
      StepGoodAtAnyTime(At(now), Step.ConfirmEmailChange(token));
      var row := EmailChangeRow(At(now), token);
      if row == None || !CanBump(users[row.value]) { return false; }
      var user := users[row.value];
      users := users[row.value := user.(email := user.pendingEmail.value, pendingEmail := None, emailChange := None,
                                        verifiedAt := Coalesce(user.verifiedAt, now), tokenVersion := user.tokenVersion + 1)];
      changed := true;
    }

    method DeleteAccount(bearer: Session, password: nat, subscribed: bool, unusable: nat, now: Time) returns (deleted: bool)
      requires Valid()
      modifies this
      ensures Valid()
      ensures At(now) == Apply(old(At(now)), Step.DeleteAccount(bearer, password, subscribed, unusable))
      ensures deleted ==> !Authenticates(At(now), bearer)
    {
      StepGoodAtAnyTime(At(now), Step.DeleteAccount(bearer, password, subscribed, unusable));
      if !Authenticates(At(now), bearer) || users[bearer.user].password != password { return false; }
      if subscribed || !CanBump(users[bearer.user]) { return false; }
      var user := users[bearer.user];
      users := users[bearer.user := user.(email := Erased(bearer.user), password := unusable, verifiedAt := None,
        confirmation := None, confirmationSentAt := None, tokenVersion := user.tokenVersion + 1)];
      erased := erased + {bearer.user};
      deleted := true;
    }
  }
}

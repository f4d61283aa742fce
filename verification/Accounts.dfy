/**
 The users table and the handlers that move it: sign-up, confirmation, sign-in, reset, change of
 password or address, and erasure, as steps that may come in any order.
 Passwords and tokens stand for their own hashes; tokens are drawn fresh.
 */
module Accounts {
  import opened Clock

  const VERIFICATION_VALID: int := 24 * HOUR
  const RESEND_COOLDOWN: int := 2 * MINUTE
  const RESET_VALID: int := 60 * MINUTE
  const RESET_COOLDOWN: int := 2 * MINUTE
  const EMAIL_CHANGE_VALID: int := 60 * MINUTE
  const TOKEN_TTL: int := 12 * HOUR
  const MAX_VERSION: int := 0x7FFF_FFFF

  /** An address someone can type, or the placeholder an erased row is left with. */
  datatype Email = Address(id: nat) | Erased(user: nat)

  datatype Link = Link(token: nat, sentAt: Time)

  datatype User = User(
    email: Email, password: nat, verifiedAt: Option<Time>, tokenVersion: int,
    confirmation: Option<nat>, confirmationSentAt: Option<Time>,
    reset: Option<Link>, pendingEmail: Option<Email>, emailChange: Option<Link>)

  /** The signed claims of a session cookie. */
  datatype Session = Session(user: nat, tokenVersion: int, expiresAt: int)

  /** `issued`, `welcomed` and `erased` record what has been sent out and to whom; the handlers never read them. */
  datatype World = World(
    now: Time, users: seq<User>, nextToken: nat, issued: seq<Session>, welcomed: seq<nat>, erased: set<nat>)

  datatype Step =
    | Wait(until: Time)
    | Signup(email: nat, password: nat)
    | VerifyEmail(token: nat)
    | ResendVerification(email: nat)
    | Login(email: nat, password: nat)
    | ForgotPassword(email: nat)
    | ResetPassword(token: nat, password: nat)
    | ChangePassword(session: Session, current: nat, password: nat)
    | ChangeEmail(session: Session, email: nat, password: nat)
    | ConfirmEmailChange(token: nat)
    | DeleteAccount(session: Session, password: nat, subscribed: bool, unusable: nat)

  // ------------------------------------------------------------------ reading the table

  /** The first row satisfying `p`. */
  function Row(users: seq<User>, p: User -> bool): (r: Option<nat>)
    ensures r.Some? ==> r.value < |users| && p(users[r.value]) && forall k | 0 <= k < r.value :: !p(users[k])
    ensures r == None ==> forall k | 0 <= k < |users| :: !p(users[k])
  {
    if |users| == 0 then None
    else if p(users[0]) then Some(0)
    else match Row(users[1..], p)
      case None => None
      case Some(i) => Some(i + 1)
  }

  function ByEmail(users: seq<User>, email: Email): Option<nat> {
    Row(users, (u: User) => u.email == email)
  }

  function SecondsOf(t: Time): int {
    t / SECOND
  }

  function NewSession(user: nat, tokenVersion: int, now: Time): Session {
    Session(user, tokenVersion, SecondsOf(now + TOKEN_TTL))
  }

  /** The extractor: a genuine unexpired token whose version is still the row's. */
  predicate Authenticates(w: World, s: Session) {
    && s in w.issued && s.expiresAt >= SecondsOf(w.now)
    && s.user < |w.users| && w.users[s.user].tokenVersion == s.tokenVersion
  }

  /** A bump past the column's range is an error, and the statement changes nothing. */
  predicate CanBump(u: User) {
    u.tokenVersion < MAX_VERSION
  }

  function ResetRow(w: World, token: nat): Option<nat> {
    Row(w.users, (u: User) => u.reset.Some? && u.reset.value.token == token && u.reset.value.sentAt > w.now - RESET_VALID)
  }

  function ConfirmationRow(w: World, token: nat): Option<nat> {
    Row(w.users, (u: User) => u.confirmation == Some(token)
      && u.confirmationSentAt.Some? && u.confirmationSentAt.value > w.now - VERIFICATION_VALID)
  }

  function EmailChangeRow(w: World, token: nat): Option<nat> {
    Row(w.users, (u: User) => u.emailChange.Some? && u.emailChange.value.token == token
      && u.emailChange.value.sentAt > w.now - EMAIL_CHANGE_VALID
      && u.pendingEmail.Some? && ByEmail(w.users, u.pendingEmail.value) == None)
  }

  function Coalesce(at: Option<Time>, now: Time): Option<Time> {
    if at.Some? then at else Some(now)
  }

  // ------------------------------------------------------------------ the handlers

  function SignIn(w: World, user: nat): World
    requires user < |w.users|
  {
    w.(issued := w.issued + [NewSession(user, w.users[user].tokenVersion, w.now)])
  }

  function Bump(u: User): User {
    u.(tokenVersion := u.tokenVersion + 1)
  }

  function DoSignup(w: World, email: nat, password: nat): World {
    if ByEmail(w.users, Address(email)).Some? then w else
    w.(users := w.users + [User(Address(email), password, None, 0, Some(w.nextToken), Some(w.now), None, None, None)],
       nextToken := w.nextToken + 1)
  }

  function DoVerifyEmail(w: World, token: nat): World {
    match ConfirmationRow(w, token)
    case None => w
    case Some(u) =>
      var user := w.users[u].(verifiedAt := Coalesce(w.users[u].verifiedAt, w.now), confirmation := None);
      SignIn(w.(users := w.users[u := user], welcomed := w.welcomed + [u]), u)
  }

  function DoResend(w: World, email: nat): World {
    match ByEmail(w.users, Address(email))
    case None => w
    case Some(u) =>
      var user := w.users[u];
      if user.verifiedAt.Some? then w
      else if user.confirmationSentAt.Some? && w.now - user.confirmationSentAt.value < RESEND_COOLDOWN then w
      else w.(users := w.users[u := user.(confirmation := Some(w.nextToken), confirmationSentAt := Some(w.now))],
              nextToken := w.nextToken + 1)
  }

  function DoLogin(w: World, email: nat, password: nat): World {
    match ByEmail(w.users, Address(email))
    case None => w
    case Some(u) => if w.users[u].password != password || w.users[u].verifiedAt == None then w else SignIn(w, u)
  }

  /** The row a reset link is issued for, past the cooldown. */
  function ForgotRow(w: World, email: nat): (r: Option<nat>)
    ensures r.Some? ==> r.value < |w.users|
  {
    match ByEmail(w.users, Address(email))
    case None => None
    case Some(u) =>
      if w.users[u].reset.Some? && w.now - w.users[u].reset.value.sentAt < RESET_COOLDOWN then None else Some(u)
  }

  function DoForgot(w: World, email: nat): World {
    match ForgotRow(w, email)
    case None => w
    case Some(u) =>
      w.(users := w.users[u := w.users[u].(reset := Some(Link(w.nextToken, w.now)))], nextToken := w.nextToken + 1)
  }

  function DoReset(w: World, token: nat, password: nat): World {
    match ResetRow(w, token)
    case None => w
    case Some(u) =>
      if !CanBump(w.users[u]) then w else
      var user := Bump(w.users[u]).(password := password, reset := None,
                                    verifiedAt := Coalesce(w.users[u].verifiedAt, w.now));
      SignIn(w.(users := w.users[u := user]), u)
  }

  /** The row a change of password takes effect on. */
  function ChangingRow(w: World, session: Session, current: nat, password: nat): (r: Option<nat>)
    ensures r.Some? ==> r.value < |w.users|
  {
    if Authenticates(w, session) && w.users[session.user].password == current && password != current
       && CanBump(w.users[session.user])
    then Some(session.user) else None
  }

  function DoChangePassword(w: World, session: Session, current: nat, password: nat): World {
    match ChangingRow(w, session, current, password)
    case None => w
    case Some(u) => SignIn(w.(users := w.users[u := Bump(w.users[u]).(password := password, reset := None)]), u)
  }

  function DoChangeEmail(w: World, session: Session, email: nat, password: nat): World {
    if !Authenticates(w, session) || w.users[session.user].password != password
       || w.users[session.user].email == Address(email) || ByEmail(w.users, Address(email)).Some? then w
    else
      var user := w.users[session.user].(pendingEmail := Some(Address(email)), emailChange := Some(Link(w.nextToken, w.now)));
      w.(users := w.users[session.user := user], nextToken := w.nextToken + 1)
  }

  function DoConfirmEmailChange(w: World, token: nat): World {
    match EmailChangeRow(w, token)
    case None => w
    case Some(u) =>
      if !CanBump(w.users[u]) then w else
      var user := Bump(w.users[u]).(email := w.users[u].pendingEmail.value, pendingEmail := None, emailChange := None,
                                    verifiedAt := Coalesce(w.users[u].verifiedAt, w.now));
      w.(users := w.users[u := user])
  }

  function ErasedRow(w: World, session: Session, password: nat, subscribed: bool): (r: Option<nat>)
    ensures r.Some? ==> r.value < |w.users|
  {
    if Authenticates(w, session) && w.users[session.user].password == password && !subscribed
       && CanBump(w.users[session.user])
    then Some(session.user) else None
  }

  function DoDelete(w: World, session: Session, password: nat, subscribed: bool, unusable: nat): World {
    match ErasedRow(w, session, password, subscribed)
    case None => w
    case Some(u) =>
      var user := Bump(w.users[u]).(email := Erased(u), password := unusable, verifiedAt := None,
                                    confirmation := None, confirmationSentAt := None);
      w.(users := w.users[u := user], erased := w.erased + {u})
  }

  function Apply(w: World, step: Step): World {
    match step
    case Wait(until) => if until < w.now then w else w.(now := until)
    case Signup(email, password) => DoSignup(w, email, password)
    case VerifyEmail(token) => DoVerifyEmail(w, token)
    case ResendVerification(email) => DoResend(w, email)
    case Login(email, password) => DoLogin(w, email, password)
    case ForgotPassword(email) => DoForgot(w, email)
    case ResetPassword(token, password) => DoReset(w, token, password)
    case ChangePassword(session, current, password) => DoChangePassword(w, session, current, password)
    case ChangeEmail(session, email, password) => DoChangeEmail(w, session, email, password)
    case ConfirmEmailChange(token) => DoConfirmEmailChange(w, token)
    case DeleteAccount(session, password, subscribed, unusable) => DoDelete(w, session, password, subscribed, unusable)
  }

  function Run(w: World, steps: seq<Step>): World {
    if |steps| == 0 then w else Apply(Run(w, steps[..|steps| - 1]), steps[|steps| - 1])
  }

  // ------------------------------------------------------------------ what every step keeps

  function UsedTokens(u: User): set<nat> {
    (if u.confirmation.Some? then {u.confirmation.value} else {})
    + (if u.reset.Some? then {u.reset.value.token} else {})
    + (if u.emailChange.Some? then {u.emailChange.value.token} else {})
  }

  /** Tokens in use were drawn, and no two rows hold the same one. */
  ghost predicate TokensDistinct(w: World) {
    && (forall u, t | 0 <= u < |w.users| && t in UsedTokens(w.users[u]) :: t < w.nextToken)
    && (forall u, v | 0 <= u < v < |w.users| :: UsedTokens(w.users[u]) !! UsedTokens(w.users[v]))
  }

  ghost predicate SessionsKnown(w: World) {
    forall s | s in w.issued :: s.user < |w.users| && s.tokenVersion <= w.users[s.user].tokenVersion
  }

  /** A welcomed account is confirmed and holds no confirmation link, so it cannot be welcomed again. */
  ghost predicate WelcomedOnce(w: World) {
    forall i | 0 <= i < |w.welcomed| ::
      && w.welcomed[i] < |w.users|
      && (w.welcomed[i] !in w.erased ==>
            && w.users[w.welcomed[i]].verifiedAt.Some? && w.users[w.welcomed[i]].confirmation == None
            && forall j | 0 <= j < i :: w.welcomed[j] != w.welcomed[i])
  }

  /** No address belongs to two rows; only an erased row has a placeholder, its own; what is pending is a real address. */
  ghost predicate AddressesDistinct(w: World) {
    && (forall u, v | 0 <= u < v < |w.users| :: w.users[u].email != w.users[v].email)
    && (forall u | 0 <= u < |w.users| :: OwnPlaceholder(w.users[u], u))
  }

  predicate OwnPlaceholder(user: User, u: nat) {
    && (user.email.Erased? ==> user.email == Erased(u))
    && (user.pendingEmail.Some? ==> user.pendingEmail.value.Address?)
  }

  /** A session of its row's present version belongs to a confirmed account. */
  ghost predicate SessionsConfirmed(w: World) {
    forall s | s in w.issued && s.user < |w.users| && s.tokenVersion == w.users[s.user].tokenVersion ::
      w.users[s.user].verifiedAt.Some?
  }

  ghost predicate Good(w: World) {
    TokensDistinct(w) && SessionsKnown(w) && WelcomedOnce(w) && AddressesDistinct(w) && SessionsConfirmed(w)
  }

  /** Rows stay, versions and the token counter only grow. */
  ghost predicate Progress(before: World, after: World) {
    && before.now <= after.now && before.nextToken <= after.nextToken && |before.users| <= |after.users|
    && before.issued <= after.issued && before.erased <= after.erased
    && forall u | 0 <= u < |before.users| :: before.users[u].tokenVersion <= after.users[u].tokenVersion
  }

  /** A step that rewrites one row, draws at most one token, and signs at most its own account in. */
  ghost predicate RowStep(w: World, w': World, u: nat) {
    && u < |w.users| && |w'.users| == |w.users| && w'.users == w.users[u := w'.users[u]]
    && w'.now == w.now && w.nextToken <= w'.nextToken && w.erased <= w'.erased
    && w.users[u].tokenVersion <= w'.users[u].tokenVersion
    && (forall t | t in UsedTokens(w'.users[u]) :: t in UsedTokens(w.users[u]) || (t == w.nextToken && t < w'.nextToken))
    && (w'.issued == w.issued || w'.issued == w.issued + [NewSession(u, w'.users[u].tokenVersion, w.now)])
    && (w'.welcomed == w.welcomed || (w'.welcomed == w.welcomed + [u] && w.users[u].confirmation.Some?))
    && (w.users[u].confirmation == None && w.users[u].verifiedAt.Some? && u !in w'.erased ==> Settled(w'.users[u]))
    && (w'.welcomed != w.welcomed ==> Settled(w'.users[u]))
  }

  predicate Settled(u: User) {
    u.verifiedAt.Some? && u.confirmation == None
  }

  lemma {:induction false} RowStepTokens(w: World, w': World, u: nat)
    requires TokensDistinct(w) && RowStep(w, w', u)
    ensures TokensDistinct(w')
  {
    forall a, b | 0 <= a < b < |w'.users| ensures UsedTokens(w'.users[a]) !! UsedTokens(w'.users[b]) {
      assert UsedTokens(w.users[a]) !! UsedTokens(w.users[b]);
    }
  }

  lemma {:induction false} RowStepSessions(w: World, w': World, u: nat)
    requires SessionsKnown(w) && RowStep(w, w', u)
    ensures SessionsKnown(w') && Progress(w, w')
  {
    forall s | s in w'.issued ensures s.user < |w'.users| && s.tokenVersion <= w'.users[s.user].tokenVersion {
      if s in w.issued { assert s.tokenVersion <= w.users[s.user].tokenVersion; }
    }
  }

  lemma {:induction false} RowStepWelcome(w: World, w': World, u: nat)
    requires WelcomedOnce(w) && RowStep(w, w', u)
    ensures WelcomedOnce(w')
  {
    forall i | 0 <= i < |w'.welcomed|
      ensures w'.welcomed[i] < |w'.users|
      ensures w'.welcomed[i] !in w'.erased ==>
        Settled(w'.users[w'.welcomed[i]]) && forall j | 0 <= j < i :: w'.welcomed[j] != w'.welcomed[i]
    {
      if i < |w.welcomed| { assert w'.welcomed[i] == w.welcomed[i]; }
    }
  }

  lemma {:induction false} RowStepGood(w: World, w': World, u: nat)
    requires Good(w) && RowStep(w, w', u)
    ensures TokensDistinct(w') && SessionsKnown(w') && WelcomedOnce(w') && Progress(w, w')
  {
    RowStepTokens(w, w', u);
    RowStepSessions(w, w', u);
    RowStepWelcome(w, w', u);
  }

  lemma {:induction false} SignupGood(w: World, email: nat, password: nat)
    requires Good(w)
    ensures var w' := DoSignup(w, email, password);
      TokensDistinct(w') && SessionsKnown(w') && WelcomedOnce(w') && Progress(w, w')
  {
    var w' := DoSignup(w, email, password);
    forall a, b | 0 <= a < b < |w'.users| ensures UsedTokens(w'.users[a]) !! UsedTokens(w'.users[b]) {
      if b < |w.users| { assert UsedTokens(w.users[a]) !! UsedTokens(w.users[b]); }
    }
  }

  /** The row a step rewrites, for the steps that rewrite one. */
  function RowTouched(w: World, step: Step): (r: Option<nat>)
    ensures r.Some? ==> r.value < |w.users|
  {
    match step
    case Wait(_) => None
    case Signup(_, _) => None
    case VerifyEmail(token) => ConfirmationRow(w, token)
    case ResendVerification(email) => ByEmail(w.users, Address(email))
    case Login(email, _) => ByEmail(w.users, Address(email))
    case ForgotPassword(email) => ForgotRow(w, email)
    case ResetPassword(token, _) => ResetRow(w, token)
    case ChangePassword(session, current, password) => ChangingRow(w, session, current, password)
    case ChangeEmail(session, _, _) => if Authenticates(w, session) then Some(session.user) else None
    case ConfirmEmailChange(token) => EmailChangeRow(w, token)
    case DeleteAccount(session, password, subscribed, _) => ErasedRow(w, session, password, subscribed)
  }

  ghost predicate MovesRow(w: World, w': World, r: Option<nat>) {
    match r
    case None => w' == w
    case Some(u) => RowStep(w, w', u)
  }

  lemma {:induction false} VerifyEmailMovesRow(w: World, token: nat)
    ensures MovesRow(w, DoVerifyEmail(w, token), ConfirmationRow(w, token))
  {
  }

  lemma {:induction false} ResendMovesRow(w: World, email: nat)
    ensures MovesRow(w, DoResend(w, email), ByEmail(w.users, Address(email)))
  {
  }

  lemma {:induction false} LoginMovesRow(w: World, email: nat, password: nat)
    ensures MovesRow(w, DoLogin(w, email, password), ByEmail(w.users, Address(email)))
  {
  }

  lemma {:induction false} ForgotMovesRow(w: World, email: nat)
    ensures MovesRow(w, DoForgot(w, email), ForgotRow(w, email))
  {
  }

  lemma {:induction false} ResetMovesRow(w: World, token: nat, password: nat)
    ensures MovesRow(w, DoReset(w, token, password), ResetRow(w, token))
  {
  }

  lemma {:induction false} ChangePasswordMovesRow(w: World, session: Session, current: nat, password: nat)
    ensures MovesRow(w, DoChangePassword(w, session, current, password), ChangingRow(w, session, current, password))
  {
  }

  lemma {:induction false} ChangeEmailMovesRow(w: World, session: Session, email: nat, password: nat)
    ensures MovesRow(w, DoChangeEmail(w, session, email, password), if Authenticates(w, session) then Some(session.user) else None)
  {
  }

  lemma {:induction false} ConfirmEmailChangeMovesRow(w: World, token: nat)
    ensures MovesRow(w, DoConfirmEmailChange(w, token), EmailChangeRow(w, token))
  {
  }

  lemma {:induction false} DeleteMovesRow(w: World, session: Session, password: nat, subscribed: bool, unusable: nat)
    ensures MovesRow(w, DoDelete(w, session, password, subscribed, unusable), ErasedRow(w, session, password, subscribed))
  {
  }

  lemma {:induction false} StepIsRowStep(w: World, step: Step)
    requires !step.Wait? && !step.Signup?
    ensures MovesRow(w, Apply(w, step), RowTouched(w, step))
  {
    match step {
      case VerifyEmail(token) => VerifyEmailMovesRow(w, token);
      case ResendVerification(email) => ResendMovesRow(w, email);
      case Login(email, password) => LoginMovesRow(w, email, password);
      case ForgotPassword(email) => ForgotMovesRow(w, email);
      case ResetPassword(token, password) => ResetMovesRow(w, token, password);
      case ChangePassword(session, current, password) => ChangePasswordMovesRow(w, session, current, password);
      case ChangeEmail(session, email, password) => ChangeEmailMovesRow(w, session, email, password);
      case ConfirmEmailChange(token) => ConfirmEmailChangeMovesRow(w, token);
      case DeleteAccount(session, password, subscribed, unusable) =>
        DeleteMovesRow(w, session, password, subscribed, unusable);
    }
  }

  lemma {:induction false} StepGood(w: World, step: Step)
    requires Good(w)
    ensures Good(Apply(w, step)) && Progress(w, Apply(w, step))
  {
    match step {
      case Wait(until) =>
      case Signup(email, password) => SignupGood(w, email, password);
      case _ =>
        StepIsRowStep(w, step);
        if RowTouched(w, step).Some? { RowStepGood(w, Apply(w, step), RowTouched(w, step).value); }
    }
    StepAddresses(w, step);
    StepConfirmed(w, step);
  }

  /** A row whose new address is its old one, its placeholder, or one nobody has. */
  ghost predicate AddressStep(w: World, w': World, u: nat) {
    && u < |w.users| && |w'.users| == |w.users| && w'.users == w.users[u := w'.users[u]]
    && OwnPlaceholder(w'.users[u], u)
    && (w'.users[u].email == w.users[u].email || w'.users[u].email == Erased(u)
        || (w'.users[u].email.Address? && ByEmail(w.users, w'.users[u].email) == None))
  }

  lemma {:induction false} AddressStepKeeps(w: World, w': World, u: nat)
    requires AddressesDistinct(w) && AddressStep(w, w', u)
    ensures AddressesDistinct(w')
  {
    forall a, b | 0 <= a < b < |w'.users| ensures w'.users[a].email != w'.users[b].email {
      assert OwnPlaceholder(w.users[a], a) && OwnPlaceholder(w.users[b], b);
      assert w.users[a].email != w.users[b].email;
    }
  }

  lemma {:induction false} SignupAddresses(w: World, email: nat, password: nat)
    requires AddressesDistinct(w)
    ensures AddressesDistinct(DoSignup(w, email, password))
  {
  }

  lemma {:induction false} TouchedAddress(w: World, step: Step)
    requires AddressesDistinct(w) && !step.Wait? && !step.Signup? && RowTouched(w, step).Some?
    ensures AddressStep(w, Apply(w, step), RowTouched(w, step).value)
  {
    assert OwnPlaceholder(w.users[RowTouched(w, step).value], RowTouched(w, step).value);
  }

  lemma {:induction false} StepAddresses(w: World, step: Step)
    requires AddressesDistinct(w)
    ensures AddressesDistinct(Apply(w, step))
  {
    match step {
      case Wait(until) =>
      case Signup(email, password) => SignupAddresses(w, email, password);
      case _ =>
        StepIsRowStep(w, step);
        if RowTouched(w, step).Some? {
          TouchedAddress(w, step);
          AddressStepKeeps(w, Apply(w, step), RowTouched(w, step).value);
        }
    }
  }

  /** A step that signs in only confirmed rows and takes no confirmation back without ending the row's sessions. */
  ghost predicate ConfirmedStep(w: World, w': World, u: nat) {
    && RowStep(w, w', u)
    && (w'.users[u].tokenVersion == w.users[u].tokenVersion && w.users[u].verifiedAt.Some? ==> w'.users[u].verifiedAt.Some?)
    && (w'.issued != w.issued ==> w'.users[u].verifiedAt.Some?)
  }

  lemma {:induction false} ConfirmedStepKeeps(w: World, w': World, u: nat)
    requires SessionsKnown(w) && SessionsConfirmed(w) && ConfirmedStep(w, w', u)
    ensures SessionsConfirmed(w')
  {
    forall s | s in w'.issued && s.user < |w'.users| && s.tokenVersion == w'.users[s.user].tokenVersion
      ensures w'.users[s.user].verifiedAt.Some?
    {
      if s in w.issued { assert s.tokenVersion <= w.users[s.user].tokenVersion; }
    }
  }

  lemma {:induction false} TouchedConfirmed(w: World, step: Step)
    requires SessionsConfirmed(w) && !step.Wait? && !step.Signup? && RowTouched(w, step).Some?
    requires RowStep(w, Apply(w, step), RowTouched(w, step).value)
    ensures ConfirmedStep(w, Apply(w, step), RowTouched(w, step).value)
  {
  }

  lemma {:induction false} StepConfirmed(w: World, step: Step)
    requires SessionsKnown(w) && SessionsConfirmed(w)
    ensures SessionsConfirmed(Apply(w, step))
  {
    match step {
      case Wait(until) =>
      case Signup(email, password) =>
      case _ =>
        StepIsRowStep(w, step);
        if RowTouched(w, step).Some? {
          TouchedConfirmed(w, step);
          ConfirmedStepKeeps(w, Apply(w, step), RowTouched(w, step).value);
        }
    }
  }

  lemma {:induction false} RunGood(w: World, steps: seq<Step>)
    requires Good(w)
    ensures Good(Run(w, steps)) && Progress(w, Run(w, steps))
  {
    if |steps| > 0 {
      RunGood(w, steps[..|steps| - 1]);
      StepGood(Run(w, steps[..|steps| - 1]), steps[|steps| - 1]);
    }
  }

  // ------------------------------------------------------------------ sessions end

  /** Whose sessions a step ends: a reset, a change of password, a confirmed change of address, an erasure. */
  function Revoked(w: World, step: Step): (r: Option<nat>)
    ensures r.Some? ==> r.value < |w.users|
  {
    match step
    case ResetPassword(token, _) =>
      if ResetRow(w, token).Some? && CanBump(w.users[ResetRow(w, token).value]) then ResetRow(w, token) else None
    case ChangePassword(session, current, password) => ChangingRow(w, session, current, password)
    case ConfirmEmailChange(token) =>
      if EmailChangeRow(w, token).Some? && CanBump(w.users[EmailChangeRow(w, token).value]) then EmailChangeRow(w, token) else None
    case DeleteAccount(session, password, subscribed, _) => ErasedRow(w, session, password, subscribed)
    case _ => None
  }

  /** Whatever happens afterwards, a session issued before its account was revoked never authenticates again. */
  lemma {:induction false} RevokedSessionsStayOut(w: World, step: Step, steps: seq<Step>, s: Session)
    requires Good(w) && s in w.issued && Revoked(w, step) == Some(s.user)
    ensures !Authenticates(Run(Apply(w, step), steps), s)
  {
    StepGood(w, step);
    assert Apply(w, step).users[s.user].tokenVersion == w.users[s.user].tokenVersion + 1;
    RunGood(Apply(w, step), steps);
  }

  /** And nothing else ends a session early: it authenticates until it expires or its account is revoked. */
  lemma {:induction false} SessionLastsUntilRevoked(w: World, step: Step, s: Session)
    requires Good(w) && Authenticates(w, s) && Revoked(w, step) != Some(s.user)
    ensures Authenticates(Apply(w, step), s) <==> s.expiresAt >= SecondsOf(Apply(w, step).now)
  {
    StepGood(w, step);
  }

  // ------------------------------------------------------------------ reset links

  predicate LinkWorks(w: World, token: nat) {
    ResetRow(w, token).Some?
  }

  /** A token nobody holds as a reset link and that was already drawn. */
  ghost predicate Spent(w: World, token: nat) {
    token < w.nextToken && forall u | 0 <= u < |w.users| :: w.users[u].reset.Some? ==> w.users[u].reset.value.token != token
  }

  lemma {:induction false} SpentStays(w: World, steps: seq<Step>, token: nat)
    requires Good(w) && Spent(w, token)
    ensures Spent(Run(w, steps), token) && !LinkWorks(Run(w, steps), token)
  {
    if |steps| > 0 {
      var before := Run(w, steps[..|steps| - 1]);
      SpentStays(w, steps[..|steps| - 1], token);
      RunGood(w, steps[..|steps| - 1]);
      StepGood(before, steps[|steps| - 1]);
      OneStepSpent(before, steps[|steps| - 1], token);
    }
  }

  lemma {:induction false} OneStepSpent(w: World, step: Step, token: nat)
    requires Good(w) && Spent(w, token)
    ensures Spent(Apply(w, step), token)
  {
  }

  /** What uses a link up: redeeming it, asking for a newer one, or changing the password of its account. */
  ghost predicate UsesUp(w: World, step: Step, u: nat, token: nat) {
    match step
    case ResetPassword(t, _) => t == token && Revoked(w, step) == Some(u)
    case ForgotPassword(email) => ForgotRow(w, email) == Some(u)
    case ChangePassword(_, _, _) => Revoked(w, step) == Some(u)
    case _ => false
  }

  /** Whether no step of the run used the link up. */
  ghost predicate Unused(w: World, steps: seq<Step>, u: nat, token: nat) {
    |steps| == 0 ||
    (Unused(w, steps[..|steps| - 1], u, token) && !UsesUp(Run(w, steps[..|steps| - 1]), steps[|steps| - 1], u, token))
  }

  ghost predicate Holds(w: World, u: nat, link: Link) {
    u < |w.users| && w.users[u].reset == Some(link)
  }

  lemma {:induction false} NobodyElseHolds(w: World, u: nat, link: Link, v: nat)
    requires Good(w) && Holds(w, u, link) && v < |w.users| && w.users[v].reset.Some?
    ensures w.users[v].reset.value.token == link.token ==> v == u
  {
    if u < v {
      assert UsedTokens(w.users[u]) !! UsedTokens(w.users[v]);
    } else if v < u {
      assert UsedTokens(w.users[v]) !! UsedTokens(w.users[u]);
    }
    assert link.token in UsedTokens(w.users[u]) && w.users[v].reset.value.token in UsedTokens(w.users[v]);
  }

  lemma {:induction false} HolderIsOnlyRow(w: World, u: nat, link: Link)
    requires Good(w) && Holds(w, u, link)
    ensures LinkWorks(w, link.token) <==> w.now < link.sentAt + RESET_VALID
    ensures LinkWorks(w, link.token) ==> ResetRow(w, link.token) == Some(u)
  {
    if ResetRow(w, link.token).Some? { NobodyElseHolds(w, u, link, ResetRow(w, link.token).value); }
  }

  lemma {:induction false} StepHoldsOrSpends(w: World, step: Step, u: nat, link: Link)
    requires Good(w) && Holds(w, u, link)
    ensures UsesUp(w, step, u, link.token) ==> Spent(Apply(w, step), link.token)
    ensures !UsesUp(w, step, u, link.token) ==> Holds(Apply(w, step), u, link)
  {
    HolderIsOnlyRow(w, u, link);
    assert link.token in UsedTokens(w.users[u]);
    forall v | 0 <= v < |w.users| && w.users[v].reset.Some? && v != u ensures w.users[v].reset.value.token != link.token {
      NobodyElseHolds(w, u, link, v);
    }
  }

  /**
   The whole life of a reset link, over any run that follows its issue: it works exactly while it is
   under an hour old and nobody has redeemed it, asked for a newer one, or changed the password.
   In particular it works at most once.
   */
  lemma {:induction false} ResetLinkLifetime(w: World, email: nat, u: nat, steps: seq<Step>)
    requires Good(w) && ForgotRow(w, email) == Some(u)
    ensures var issued, token := Apply(w, ForgotPassword(email)), w.nextToken;
      LinkWorks(Run(issued, steps), token) <==>
        Unused(issued, steps, u, token) && Run(issued, steps).now < w.now + RESET_VALID
  {
    var issued, token := Apply(w, ForgotPassword(email)), w.nextToken;
    StepGood(w, ForgotPassword(email));
    LinkHeldWhileUnused(issued, u, Link(token, w.now), steps);
    RunGood(issued, steps);
    if Unused(issued, steps, u, token) { HolderIsOnlyRow(Run(issued, steps), u, Link(token, w.now)); }
  }

  lemma {:induction false} LinkHeldWhileUnused(w: World, u: nat, link: Link, steps: seq<Step>)
    requires Good(w) && Holds(w, u, link) && link.token < w.nextToken
    ensures Unused(w, steps, u, link.token) ==> Holds(Run(w, steps), u, link)
    ensures !Unused(w, steps, u, link.token) ==> !LinkWorks(Run(w, steps), link.token) && Spent(Run(w, steps), link.token)
  {
    if |steps| > 0 {
      var most, last := steps[..|steps| - 1], steps[|steps| - 1];
      LinkHeldWhileUnused(w, u, link, most);
      RunGood(w, most);
      var before := Run(w, most);
      if Unused(w, most, u, link.token) {
        StepHoldsOrSpends(before, last, u, link);
      } else {
        OneStepSpent(before, last, link.token);
      }
    }
  }

  // ------------------------------------------------------------------ passwords

  /** The row has this address and exactly this password, and is confirmed. */
  predicate Opens(w: World, u: nat, email: nat, password: nat) {
    && u < |w.users| && w.users[u].email == Address(email)
    && w.users[u].password == password && w.users[u].verifiedAt.Some?
  }

  predicate OpensOnceConfirmed(w: World, u: nat, email: nat, password: nat) {
    && u < |w.users| && w.users[u].email == Address(email)
    && w.users[u].password == password && w.users[u].verifiedAt == None
  }

  lemma {:induction false} OnlyRowOf(w: World, u: nat, email: Email)
    requires AddressesDistinct(w) && u < |w.users| && w.users[u].email == email
    ensures ByEmail(w.users, email) == Some(u)
  {
    var v := ByEmail(w.users, email);
    assert v.Some?;
    TwoRowsTwoAddresses(w, u, v.value);
  }

  lemma TwoRowsTwoAddresses(w: World, u: nat, v: nat)
    requires AddressesDistinct(w) && u < |w.users| && v < |w.users|
    ensures u != v ==> w.users[u].email != w.users[v].email
  {
    assert u < v ==> w.users[u].email != w.users[v].email;
    assert v < u ==> w.users[v].email != w.users[u].email;
  }

  /** Signing in opens a twelve-hour session of the row that the address and password open, and does nothing without one. */
  lemma {:induction false} SignInIffItOpens(w: World, email: nat, password: nat)
    requires Good(w)
    ensures forall u: nat | Opens(w, u, email, password) ::
      Apply(w, Login(email, password)) ==
        w.(issued := w.issued + [Session(u, w.users[u].tokenVersion, (w.now + 12 * HOUR) / SECOND)])
    ensures (forall u: nat :: !Opens(w, u, email, password)) ==> Apply(w, Login(email, password)) == w
  {
    forall u: nat | Opens(w, u, email, password)
      ensures Apply(w, Login(email, password)) ==
        w.(issued := w.issued + [Session(u, w.users[u].tokenVersion, (w.now + 12 * HOUR) / SECOND)])
    {
      OnlyRowOf(w, u, Address(email));
    }
    var row := ByEmail(w.users, Address(email));
    if row.Some? && !Opens(w, row.value, email, password) { assert Apply(w, Login(email, password)) == w; }
  }

  ghost predicate SignsIn(w: World, email: nat, password: nat) {
    |Apply(w, Login(email, password)).issued| > |w.issued|
  }

  /** The step makes `p` the password of row `u`: a sign-up, a redeemed reset link, or a change. */
  ghost predicate SetsPassword(w: World, step: Step, u: nat, p: nat) {
    match step
    case Signup(email, q) => q == p && u == |w.users| && ByEmail(w.users, Address(email)) == None
    case ResetPassword(token, q) => q == p && u < |w.users| && ResetRow(w, token) == Some(u) && CanBump(w.users[u])
    case ChangePassword(session, current, q) => q == p && ChangingRow(w, session, current, q) == Some(u)
    case _ => false
  }

  /** No step of the run resets or changes the password of row `u`, or erases the row. */
  ghost predicate PasswordKept(w: World, steps: seq<Step>, u: nat) {
    |steps| == 0 ||
    var most, last := steps[..|steps| - 1], steps[|steps| - 1];
    PasswordKept(w, most, u) && !(Revoked(Run(w, most), last) == Some(u) && !last.ConfirmEmailChange?)
  }

  lemma {:induction false} StepKeepsPassword(w: World, step: Step, u: nat)
    requires u < |w.users| && !(Revoked(w, step) == Some(u) && !step.ConfirmEmailChange?)
    ensures u < |Apply(w, step).users| && Apply(w, step).users[u].password == w.users[u].password
    ensures w.users[u].verifiedAt.Some? ==> Apply(w, step).users[u].verifiedAt.Some?
  {
  }

  lemma {:induction false} RunKeepsPassword(w: World, steps: seq<Step>, u: nat)
    requires u < |w.users| && PasswordKept(w, steps, u)
    ensures u < |Run(w, steps).users| && Run(w, steps).users[u].password == w.users[u].password
    ensures w.users[u].verifiedAt.Some? ==> Run(w, steps).users[u].verifiedAt.Some?
  {
    if |steps| > 0 {
      RunKeepsPassword(w, steps[..|steps| - 1], u);
      StepKeepsPassword(Run(w, steps[..|steps| - 1]), steps[|steps| - 1], u);
    }
  }

  lemma {:induction false} PasswordIsSet(w: World, step: Step, u: nat, p: nat)
    requires Good(w) && SetsPassword(w, step, u, p)
    ensures u < |Apply(w, step).users| && Apply(w, step).users[u].password == p
    ensures !step.Signup? ==> Apply(w, step).users[u].verifiedAt.Some?
  {
  }

  lemma {:induction false} SignsInIffPassword(w: World, u: nat, email: nat, q: nat)
    requires Good(w) && u < |w.users| && w.users[u].email == Address(email)
    ensures SignsIn(w, email, q) <==> q == w.users[u].password && w.users[u].verifiedAt.Some?
  {
    SignInIffItOpens(w, email, q);
    OnlyRowOf(w, u, Address(email));
    if SignsIn(w, email, q) {
      var v: nat :| Opens(w, v, email, q);
      OnlyRowOf(w, v, Address(email));
    }
    if q == w.users[u].password && w.users[u].verifiedAt.Some? { assert Opens(w, u, email, q); }
  }

  /**
   A password counts from the moment it is set until the next one is, or the account is erased: over any run
   in between, signing in to the account, at whatever address it then has, takes exactly that password.
   */
  lemma {:induction false} PasswordStands(w: World, step: Step, steps: seq<Step>, u: nat, p: nat)
    requires Good(w) && SetsPassword(w, step, u, p) && PasswordKept(Apply(w, step), steps, u)
    ensures var end := Run(Apply(w, step), steps);
      && u < |end.users|
      && (!step.Signup? ==> end.users[u].verifiedAt.Some?)
      && forall email, q | end.users[u].email == Address(email) ::
           SignsIn(end, email, q) <==> q == p && end.users[u].verifiedAt.Some?
  {
    StepGood(w, step);
    RunGood(Apply(w, step), steps);
    PasswordIsSet(w, step, u, p);
    RunKeepsPassword(Apply(w, step), steps, u);
    var end := Run(Apply(w, step), steps);
    forall email, q | end.users[u].email == Address(email)
      ensures SignsIn(end, email, q) <==> q == p && end.users[u].verifiedAt.Some?
    {
      SignsInIffPassword(end, u, email, q);
    }
  }

  /** Changing the password, asking for another address and erasing the account all take the password again. */
  lemma {:induction false} SensitiveStepsNeedThePassword(w: World, session: Session, password: nat, p: nat, email: nat, subscribed: bool)
    requires Good(w)
    ensures Apply(w, ChangePassword(session, password, p)) != w <==>
      Authenticates(w, session) && w.users[session.user].password == password && p != password
      && w.users[session.user].tokenVersion < 2_147_483_647
    ensures Apply(w, ChangeEmail(session, email, password)) != w <==>
      Authenticates(w, session) && w.users[session.user].password == password
      && forall u | 0 <= u < |w.users| :: w.users[u].email != Address(email)
    ensures Apply(w, DeleteAccount(session, password, subscribed, p)) != w <==>
      Authenticates(w, session) && w.users[session.user].password == password && !subscribed
      && w.users[session.user].tokenVersion < 2_147_483_647
  {
  }

  // ------------------------------------------------------------------ when links are sent, and how long they work

  ghost predicate SomeRow(w: World, p: User -> bool) {
    exists u :: 0 <= u < |w.users| && p(w.users[u])
  }

  /** A link works while its row holds it and for so long: a day for a confirmation, an hour for the others. */
  lemma {:induction false} LinksWorkForSoLong(w: World, token: nat)
    ensures ConfirmationRow(w, token).Some? <==> SomeRow(w, (u: User) =>
      u.confirmation == Some(token) && u.confirmationSentAt.Some? && w.now < u.confirmationSentAt.value + 24 * HOUR)
    ensures ResetRow(w, token).Some? <==> SomeRow(w, (u: User) =>
      u.reset.Some? && u.reset.value.token == token && w.now < u.reset.value.sentAt + HOUR)
    ensures EmailChangeRow(w, token).Some? <==> SomeRow(w, (u: User) =>
      && u.emailChange.Some? && u.emailChange.value.token == token && w.now < u.emailChange.value.sentAt + HOUR
      && u.pendingEmail.Some? && !SomeRow(w, (v: User) => v.email == u.pendingEmail.value))
  {
  }

  /** A new link is drawn for an address exactly when its row is there, needs it, and had none in the last two minutes. */
  lemma {:induction false} LinksAreSentSparingly(w: World, email: nat)
    requires Good(w)
    ensures Apply(w, ForgotPassword(email)).nextToken > w.nextToken <==> SomeRow(w, (u: User) =>
      u.email == Address(email) && (u.reset.Some? ==> u.reset.value.sentAt + 2 * MINUTE <= w.now))
    ensures Apply(w, ResendVerification(email)).nextToken > w.nextToken <==> SomeRow(w, (u: User) =>
      && u.email == Address(email) && u.verifiedAt == None
      && (u.confirmationSentAt.Some? ==> u.confirmationSentAt.value + 2 * MINUTE <= w.now))
  {
    forall u | 0 <= u < |w.users| && w.users[u].email == Address(email) ensures ByEmail(w.users, Address(email)) == Some(u) {
      OnlyRowOf(w, u, Address(email));
    }
  }

  // ------------------------------------------------------------------ what the links do

  lemma {:induction false} RowsShareNoToken(w: World, u: nat, v: nat, token: nat)
    requires TokensDistinct(w) && u < |w.users| && v < |w.users| && u != v && token in UsedTokens(w.users[u])
    ensures token !in UsedTokens(w.users[v])
  {
    assert u < v ==> UsedTokens(w.users[u]) !! UsedTokens(w.users[v]);
    assert v < u ==> UsedTokens(w.users[v]) !! UsedTokens(w.users[u]);
  }

  lemma {:induction false} FreshToken(w: World, u: nat)
    requires TokensDistinct(w) && u < |w.users|
    ensures w.nextToken !in UsedTokens(w.users[u])
  {
  }

  /** A sign-up's link confirms the new row. */
  lemma {:induction false} SignupLinkWorks(w: World, email: nat, password: nat)
    requires Good(w) && ByEmail(w.users, Address(email)) == None
    ensures ConfirmationRow(Apply(w, Signup(email, password)), w.nextToken) == Some(|w.users|)
  {
    var after := Apply(w, Signup(email, password));
    forall u | 0 <= u < |w.users| ensures after.users[u].confirmation != Some(w.nextToken) { FreshToken(w, u); }
    assert after.users[|w.users|].confirmation == Some(w.nextToken);
  }

  /** A resent link confirms the row of its address. */
  lemma {:induction false} ResentLinkWorks(w: World, email: nat, u: nat)
    requires Good(w) && ByEmail(w.users, Address(email)) == Some(u)
    requires Apply(w, ResendVerification(email)).nextToken > w.nextToken
    ensures ConfirmationRow(Apply(w, ResendVerification(email)), w.nextToken) == Some(u)
  {
    var after := Apply(w, ResendVerification(email));
    forall v | 0 <= v < |w.users| && v != u ensures after.users[v].confirmation != Some(w.nextToken) { FreshToken(w, v); }
    assert after.users[u].confirmation == Some(w.nextToken);
  }

  /** An address-change link is for the address asked for. */
  lemma {:induction false} ChangeLinkWorks(w: World, session: Session, email: nat, password: nat)
    requires Good(w) && Apply(w, ChangeEmail(session, email, password)) != w
    ensures var after := Apply(w, ChangeEmail(session, email, password));
      && EmailChangeRow(after, w.nextToken) == Some(session.user)
      && after.users[session.user].pendingEmail == Some(Address(email))
  {
    var after := Apply(w, ChangeEmail(session, email, password));
    forall v | 0 <= v < |w.users| && v != session.user
      ensures after.users[v].emailChange.Some? ==> after.users[v].emailChange.value.token != w.nextToken
    {
      FreshToken(w, v);
    }
    forall v | 0 <= v < |after.users| ensures after.users[v].email != Address(email) { assert after.users[v].email == w.users[v].email; }
    assert ByEmail(after.users, Address(email)) == None;
    var user := after.users[session.user];
    assert user.emailChange == Some(Link(w.nextToken, w.now)) && user.pendingEmail == Some(Address(email));
    assert EmailChangeRow(after, w.nextToken).Some?;
  }

  /** An account is confirmed only through a link sent to its address; nobody is signed up confirmed. */
  lemma {:induction false} ConfirmedOnlyThroughALink(w: World, step: Step, u: nat)
    requires u < |Apply(w, step).users| && Apply(w, step).users[u].verifiedAt.Some?
    ensures u < |w.users|
    ensures w.users[u].verifiedAt == None ==>
      match step
      case VerifyEmail(token) => ConfirmationRow(w, token) == Some(u)
      case ResetPassword(token, _) => ResetRow(w, token) == Some(u)
      case ConfirmEmailChange(token) => EmailChangeRow(w, token) == Some(u)
      case _ => false
  {
  }

  /** A confirmation link confirms its row, signs it in, welcomes it, and is used up. */
  lemma {:induction false} ConfirmsOnce(w: World, token: nat, u: nat)
    requires Good(w) && ConfirmationRow(w, token) == Some(u)
    ensures var after := Apply(w, VerifyEmail(token));
      && after.users[u].verifiedAt.Some? && after.welcomed == w.welcomed + [u]
      && after.issued == w.issued + [Session(u, w.users[u].tokenVersion, (w.now + 12 * HOUR) / SECOND)]
      && ConfirmationRow(after, token) == None
  {
    var after := Apply(w, VerifyEmail(token));
    assert token in UsedTokens(w.users[u]);
    forall v: nat | v < |after.users| ensures after.users[v].confirmation != Some(token) {
      if v != u { RowsShareNoToken(w, u, v, token); }
    }
  }

  /** An address-change link moves its row to the pending address, ends its sessions, and is used up. */
  lemma {:induction false} MovesOnce(w: World, token: nat, u: nat)
    requires Good(w) && EmailChangeRow(w, token) == Some(u) && CanBump(w.users[u])
    ensures var after := Apply(w, ConfirmEmailChange(token));
      && Some(after.users[u].email) == w.users[u].pendingEmail
      && after.users[u].tokenVersion == w.users[u].tokenVersion + 1
      && after.users[u].verifiedAt.Some? && EmailChangeRow(after, token) == None
  {
    var after := Apply(w, ConfirmEmailChange(token));
    assert token in UsedTokens(w.users[u]);
    forall v: nat | v < |after.users|
      ensures after.users[v].emailChange.Some? ==> after.users[v].emailChange.value.token != token
    {
      if v != u { RowsShareNoToken(w, u, v, token); }
    }
  }

  /** What erasure leaves of a row: no address, a password nobody has, no confirmation, no way to confirm. */
  lemma {:induction false} ErasureClears(w: World, session: Session, password: nat, subscribed: bool, unusable: nat)
    requires Good(w) && Apply(w, DeleteAccount(session, password, subscribed, unusable)) != w
    ensures var after := Apply(w, DeleteAccount(session, password, subscribed, unusable));
      && session.user < |after.users| && session.user in after.erased
      && after.users[session.user].email == Erased(session.user) && after.users[session.user].password == unusable
      && after.users[session.user].verifiedAt == None && after.users[session.user].confirmation == None
      && after.users[session.user].confirmationSentAt == None
      && after.users[session.user].tokenVersion == w.users[session.user].tokenVersion + 1
  {
  }

  // ------------------------------------------------------------------ erased accounts

  /** The row keeps its placeholder address and nobody is signed in to it. */
  ghost predicate Gone(w: World, u: nat) {
    u < |w.users| && w.users[u].email == Erased(u) && forall s | s in w.issued && s.user == u :: !Authenticates(w, s)
  }

  ghost predicate GoneForGood(w: World, u: nat) {
    forall steps: seq<Step> :: Gone(Run(w, steps), u)
  }

  predicate ResetOutstanding(w: World, user: User) {
    CanBump(user) && user.reset.Some? && w.now < user.reset.value.sentAt + RESET_VALID
  }

  predicate ChangeOutstanding(w: World, user: User) {
    && CanBump(user) && user.emailChange.Some? && user.pendingEmail.Some?
    && w.now < user.emailChange.value.sentAt + EMAIL_CHANGE_VALID
  }

  /** A reset or address-change link of the row that is under an hour old. */
  predicate LinkOutstanding(w: World, user: User) {
    ResetOutstanding(w, user) || ChangeOutstanding(w, user)
  }

  /** Nothing is left that could bring the row back. */
  ghost predicate Quiet(w: World, u: nat) {
    && u < |w.users| && w.users[u].email == Erased(u) && w.users[u].confirmation == None
    && !LinkOutstanding(w, w.users[u])
    && forall s | s in w.issued && s.user == u :: s.tokenVersion < w.users[u].tokenVersion
  }

  /** A step that touches no more of the row than its clock, and signs nobody in to it. */
  ghost predicate LeavesRow(w: World, w': World, u: nat) {
    && u < |w.users| && u < |w'.users| && w'.users[u] == w.users[u] && w.now <= w'.now
    && forall s | s in w'.issued && s.user == u :: s in w.issued
  }

  lemma {:induction false} QuietStays(w: World, step: Step, u: nat)
    requires Quiet(w, u)
    ensures LeavesRow(w, Apply(w, step), u)
  {
    if !step.Wait? && !step.Signup? {
      StepIsRowStep(w, step);
      if RowTouched(w, step) == Some(u) { QuietIgnores(w, step, u); }
    }
  }

  lemma {:induction false} QuietIgnores(w: World, step: Step, u: nat)
    requires Quiet(w, u) && RowTouched(w, step) == Some(u)
    ensures Apply(w, step) == w
  {
  }

  lemma {:induction false} QuietIsGone(w: World, u: nat, steps: seq<Step>)
    requires Quiet(w, u)
    ensures Quiet(Run(w, steps), u) && Gone(Run(w, steps), u)
  {
    if |steps| > 0 {
      QuietIsGone(w, u, steps[..|steps| - 1]);
      QuietStays(Run(w, steps[..|steps| - 1]), steps[|steps| - 1], u);
    }
  }

  /** A reset link that was outstanding when its account was erased signs its bearer in to the erased row. */
  lemma {:induction false} ResetRevives(w: World, u: nat, password: nat)
    requires Good(w) && u < |w.users| && ResetOutstanding(w, w.users[u])
    ensures !Gone(Apply(w, ResetPassword(w.users[u].reset.value.token, password)), u)
  {
    var link := w.users[u].reset.value;
    HolderIsOnlyRow(w, u, link);
    var w' := Apply(w, ResetPassword(link.token, password));
    var s := NewSession(u, w'.users[u].tokenVersion, w.now);
    assert w'.issued == w.issued + [s];
    assert s in w'.issued && Authenticates(w', s);
  }

  lemma {:induction false} ChangeHolderIsOnlyRow(w: World, u: nat, v: nat)
    requires Good(w) && u < |w.users| && v < |w.users| && w.users[u].emailChange.Some? && w.users[v].emailChange.Some?
    requires w.users[u].emailChange.value.token == w.users[v].emailChange.value.token
    ensures u == v
  {
    assert u < v ==> UsedTokens(w.users[u]) !! UsedTokens(w.users[v]);
    assert v < u ==> UsedTokens(w.users[v]) !! UsedTokens(w.users[u]);
    var token := w.users[u].emailChange.value.token;
    assert token in UsedTokens(w.users[u]);
    assert token in UsedTokens(w.users[v]);
  }

  /** An address-change link gives the erased row a real address again. */
  lemma {:induction false} ChangeRevives(w: World, u: nat)
    requires Good(w) && u < |w.users| && ChangeOutstanding(w, w.users[u])
    requires ByEmail(w.users, w.users[u].pendingEmail.value) == None && w.users[u].pendingEmail != Some(Erased(u))
    ensures !Gone(Apply(w, ConfirmEmailChange(w.users[u].emailChange.value.token)), u)
  {
    var token := w.users[u].emailChange.value.token;
    assert EmailChangeRow(w, token).Some?;
    ChangeHolderIsOnlyRow(w, u, EmailChangeRow(w, token).value);
  }

  lemma RunOne(w: World, step: Step)
    ensures Run(w, [step]) == Apply(w, step)
  {
    assert [step][..0] == [];
  }

  lemma {:induction false} OutstandingRevives(w: World, u: nat)
    requires Good(w) && u < |w.users| && LinkOutstanding(w, w.users[u])
    requires w.users[u].pendingEmail.Some? ==> ByEmail(w.users, w.users[u].pendingEmail.value) == None
    ensures !GoneForGood(w, u)
  {
    assert OwnPlaceholder(w.users[u], u);
    var step: Step;
    if ResetOutstanding(w, w.users[u]) {
      step := ResetPassword(w.users[u].reset.value.token, 0);
      ResetRevives(w, u, 0);
    } else {
      step := ConfirmEmailChange(w.users[u].emailChange.value.token);
      ChangeRevives(w, u);
    }
    RunOne(w, step);
    assert !Gone(Run(w, [step]), u);
  }

  /**
   When erasure is final: the statement leaves links in the row, so the account stays gone in every
   later state exactly when no reset or address-change link of it is outstanding at that moment.
   A pending address that somebody holds is left aside here.
   */
  lemma {:induction false} ErasureIsFinalIffNoLinkOutstanding(
    w: World, session: Session, password: nat, subscribed: bool, unusable: nat, u: nat)
    requires Good(w) && ErasedRow(w, session, password, subscribed) == Some(u)
    requires w.users[u].pendingEmail.Some? ==> ByEmail(w.users, w.users[u].pendingEmail.value) == None
    ensures var w' := Apply(w, DeleteAccount(session, password, subscribed, unusable));
      u < |w'.users| && (GoneForGood(w', u) <==> !LinkOutstanding(w', w'.users[u]))
  {
    var step := DeleteAccount(session, password, subscribed, unusable);
    var w' := Apply(w, step);
    StepGood(w, step);
    assert OwnPlaceholder(w.users[u], u);
    if LinkOutstanding(w', w'.users[u]) {
      if w'.users[u].pendingEmail.Some? { StillFree(w, w', u, w'.users[u].pendingEmail.value); }
      OutstandingRevives(w', u);
    } else {
      assert forall s | s in w.issued && s.user == u :: s.tokenVersion <= w.users[u].tokenVersion;
      forall steps: seq<Step> ensures Gone(Run(w', steps), u) { QuietIsGone(w', u, steps); }
    }
  }

  lemma {:induction false} StillFree(w: World, w': World, u: nat, email: Email)
    requires u < |w.users| == |w'.users| && w'.users == w.users[u := w'.users[u]] && w'.users[u].email == Erased(u)
    requires email.Address? && ByEmail(w.users, email) == None
    ensures ByEmail(w'.users, email) == None
  {
    forall v | 0 <= v < |w'.users| ensures w'.users[v].email != email {
      if v != u { assert w'.users[v] == w.users[v]; }
    }
  }

  // ------------------------------------------------------------------ welcomes

  function WelcomesTo(welcomed: seq<nat>, u: nat): nat {
    if |welcomed| == 0 then 0
    else WelcomesTo(welcomed[..|welcomed| - 1], u) + (if welcomed[|welcomed| - 1] == u then 1 else 0)
  }

  lemma {:induction false} DistinctMeansAtMostOne(welcomed: seq<nat>, u: nat)
    requires forall i, j | 0 <= i < j < |welcomed| && welcomed[i] == u :: welcomed[j] != u
    ensures WelcomesTo(welcomed, u) <= 1
    ensures (forall i | 0 <= i < |welcomed| :: welcomed[i] != u) ==> WelcomesTo(welcomed, u) == 0
  {
    if |welcomed| > 0 { DistinctMeansAtMostOne(welcomed[..|welcomed| - 1], u); }
  }

  /** No account is welcomed twice before it is erased. */
  lemma {:induction false} WelcomedAtMostOnce(w: World, steps: seq<Step>, u: nat)
    requires Good(w) && u !in Run(w, steps).erased
    ensures WelcomesTo(Run(w, steps).welcomed, u) <= 1
  {
    RunGood(w, steps);
    DistinctMeansAtMostOne(Run(w, steps).welcomed, u);
  }

  // ------------------------------------------------------------------ the clock and the invariant

  /** The invariant does not read the clock, so it holds of a table whatever the time. */
  lemma {:induction false} GoodIgnoresClock(w: World, now: Time)
    requires Good(w)
    ensures Good(w.(now := now))
  {
    var v := w.(now := now);
    assert TokensDistinct(v) && SessionsKnown(v) && WelcomedOnce(v) && AddressesDistinct(v) && SessionsConfirmed(v);
  }

  lemma {:induction false} StepGoodAtAnyTime(w: World, step: Step)
    requires Good(w.(now := 0))
    ensures Good(Apply(w, step).(now := 0))
  {
    GoodIgnoresClock(w.(now := 0), w.now);
    StepGood(w, step);
    GoodIgnoresClock(Apply(w, step), 0);
  }
}

/** The `User` entity: an account with a balance, a status and the two tokens of the
    authentication flow (refresh token and password-reset token), each with an expiry. */
module UserEntity {
  import opened Wrappers
  import opened Text
  import opened Enums

  datatype UserError = EmailEmpty | EmailInvalid | NameEmpty | PasswordHashEmpty | NegativeBalance

  /** `ValidateAndNormalizeEmail`: a blank address is rejected; otherwise it is lower-cased
      and trimmed, and the normalised address must pass `isValidEmail`, which stands for
      the round trip through `System.Net.Mail.MailAddress`. */
  function ValidateAndNormalizeEmail(email: string, isValidEmail: string -> bool): (r: Result<string, UserError>)
    ensures r == Failure(EmailEmpty) <==> IsBlank(email)
    ensures r == Failure(EmailInvalid) <==> !IsBlank(email) && !isValidEmail(Trim(ToLower(email)))
    ensures r.Success? <==> !IsBlank(email) && isValidEmail(Trim(ToLower(email)))
    ensures r.Success? ==> r.value == Trim(ToLower(email)) && IsTrimmedText(r.value)
  {
    if IsBlank(email) then Failure(EmailEmpty)
    else
      var normalized := Trim(ToLower(email));
      ToLowerKeepsBlank(email);
      if !isValidEmail(normalized) then Failure(EmailInvalid) else Success(normalized)
  }

  /** `ValidateName`: a blank name is rejected, any other is trimmed. */
  function ValidateName(name: string): (r: Result<string, UserError>)
    ensures r.Success? <==> !IsBlank(name)
    ensures r.Failure? ==> r.error == NameEmpty
    ensures r.Success? ==> r.value == Trim(name) && IsTrimmedText(r.value)
  {
    if IsBlank(name) then Failure(NameEmpty) else Success(Trim(name))
  }

  /** `ValidatePasswordHash`: a blank hash is rejected, any other is kept as given. */
  function ValidatePasswordHash(passwordHash: string): (r: Result<string, UserError>)
    ensures r.Success? <==> !IsBlank(passwordHash)
    ensures r.Failure? ==> r.error == PasswordHashEmpty
    ensures r.Success? ==> r.value == passwordHash
  {
    if IsBlank(passwordHash) then Failure(PasswordHashEmpty) else Success(passwordHash)
  }

  /** The constructor's validations in source order: e-mail, name, password hash. */
  function CheckUser(email: string, name: string, passwordHash: string, isValidEmail: string -> bool)
    : (r: Outcome<UserError>)
    ensures r.Pass? <==>
      ValidateAndNormalizeEmail(email, isValidEmail).Success? && !IsBlank(name) && !IsBlank(passwordHash)
    ensures ValidateAndNormalizeEmail(email, isValidEmail).Failure? ==>
      r == Fail(ValidateAndNormalizeEmail(email, isValidEmail).error)
    ensures ValidateAndNormalizeEmail(email, isValidEmail).Success? && IsBlank(name) ==> r == Fail(NameEmpty)
  {
    var e := ValidateAndNormalizeEmail(email, isValidEmail);
    if e.Failure? then Fail(e.error)
    else if ValidateName(name).Failure? then Fail(NameEmpty)
    else if ValidatePasswordHash(passwordHash).Failure? then Fail(PasswordHashEmpty)
    else Pass
  }

  /** The rule shared by `IsRefreshTokenValid` and `IsPasswordResetTokenValid`: a stored,
      non-empty token equal to the one presented, whose expiry lies after `now`. */
  predicate TokenMatches(stored: Option<string>, expiry: Option<Ticks>, token: string, now: Ticks) {
    stored.Some? && stored.value != [] && stored.value == token && expiry.Some? && expiry.value > now
  }

  /** A token that has expired stays expired: validity at a later instant implies validity
      at every earlier one, and an empty token is never accepted. */
  lemma TokenExpiresForGood(stored: Option<string>, expiry: Option<Ticks>, token: string, earlier: Ticks, later: Ticks)
    requires earlier <= later
    ensures TokenMatches(stored, expiry, token, later) ==> TokenMatches(stored, expiry, token, earlier)
    ensures token == [] ==> !TokenMatches(stored, expiry, token, earlier)
  {
  }

  /** Everything a user record holds except the balance. */
  datatype UserProfile = UserProfile(
    id: Guid, email: string, name: string, passwordHash: string, status: UserStatus,
    createdAt: Ticks, lastLoginAt: Option<Ticks>, refreshToken: Option<string>,
    refreshTokenExpiry: Option<Ticks>, passwordResetToken: Option<string>,
    passwordResetTokenExpiry: Option<Ticks>)

  class User {
    var id: Guid
    var email: string
    var name: string
    var passwordHash: string
    var balance: real
    var status: UserStatus
    var createdAt: Ticks
    var lastLoginAt: Option<Ticks>
    var refreshToken: Option<string>
    var refreshTokenExpiry: Option<Ticks>
    var passwordResetToken: Option<string>
    var passwordResetTokenExpiry: Option<Ticks>

    /** The user's fields other than the balance. */
    function Profile(): UserProfile
      reads this
    {
      UserProfile(id, email, name, passwordHash, status, createdAt, lastLoginAt, refreshToken,
                  refreshTokenExpiry, passwordResetToken, passwordResetTokenExpiry)
    }

    /** The balance is never negative and the stored texts passed their validations. */
    predicate Valid()
      reads this
    {
      balance >= 0.0 && IsTrimmedText(email) && IsTrimmedText(name) && !IsBlank(passwordHash)
    }

    /** The domain constructor once its validations have passed: the e-mail is stored
        normalised and the name trimmed; a new user is active, with a zero balance, and has
        no login and no tokens. */
    constructor (id: Guid, email: string, name: string, passwordHash: string,
                 isValidEmail: string -> bool, now: Ticks)
      requires CheckUser(email, name, passwordHash, isValidEmail).Pass?
      ensures Valid()
      ensures this.id == id && this.email == Trim(ToLower(email)) && this.name == Trim(name)
      ensures this.passwordHash == passwordHash
      ensures balance == 0.0 && status == Active && createdAt == now && lastLoginAt.None?
      ensures refreshToken.None? && refreshTokenExpiry.None?
      ensures passwordResetToken.None? && passwordResetTokenExpiry.None?
    {
      var e := ValidateAndNormalizeEmail(email, isValidEmail).value;
      var n := ValidateName(name).value;
      assert IsTrimmedText(e) && IsTrimmedText(n);
      this.id := id;
      this.email := e;
      this.name := n;
      this.passwordHash := passwordHash;
      balance := 0.0;
      status := Active;
      createdAt := now;
      lastLoginAt := None;
      refreshToken := None;
      refreshTokenExpiry := None;
      passwordResetToken := None;
      passwordResetTokenExpiry := None;
    }

    /** `UpdateBalance`: the argument is the new balance, and a negative one is refused. */
    method UpdateBalance(amount: real) returns (r: Outcome<UserError>)
      modifies this
      ensures r.Pass? <==> amount >= 0.0
      ensures r.Fail? ==> r.error == NegativeBalance && unchanged(this)
      ensures r.Pass? ==> balance == amount
      ensures id == old(id) && email == old(email) && name == old(name) && passwordHash == old(passwordHash)
      ensures status == old(status) && createdAt == old(createdAt) && lastLoginAt == old(lastLoginAt)
      ensures refreshToken == old(refreshToken) && refreshTokenExpiry == old(refreshTokenExpiry)
      ensures passwordResetToken == old(passwordResetToken)
      ensures passwordResetTokenExpiry == old(passwordResetTokenExpiry)
      ensures old(Valid()) ==> Valid()
    {
      if amount < 0.0 {
        return Fail(NegativeBalance);
      }
      balance := amount;
      r := Pass;
    }

    /** `RecordLogin`, with the clock passed in: records the login and (re)activates. */
    method RecordLogin(now: Ticks)
      modifies this
      ensures lastLoginAt == Some(now) && status == Active
      ensures id == old(id) && email == old(email) && name == old(name) && passwordHash == old(passwordHash)
      ensures balance == old(balance) && createdAt == old(createdAt)
      ensures refreshToken == old(refreshToken) && refreshTokenExpiry == old(refreshTokenExpiry)
      ensures passwordResetToken == old(passwordResetToken)
      ensures passwordResetTokenExpiry == old(passwordResetTokenExpiry)
      ensures old(Valid()) ==> Valid()
    {
      lastLoginAt := Some(now);
      status := Active;
    }

    /** `IsRefreshTokenValid`, with the clock passed in. */
    predicate IsRefreshTokenValid(token: string, now: Ticks)
      reads this
    {
      TokenMatches(refreshToken, refreshTokenExpiry, token, now)
    }

    /** `IsPasswordResetTokenValid`, with the clock passed in. */
    predicate IsPasswordResetTokenValid(token: string, now: Ticks)
      reads this
    {
      TokenMatches(passwordResetToken, passwordResetTokenExpiry, token, now)
    }

    /** `SetRefreshToken`: from now on exactly the given token is accepted, and only
        before its expiry (an empty token is never accepted). */
    method SetRefreshToken(token: string, expiry: Ticks)
      modifies this
      ensures refreshToken == Some(token) && refreshTokenExpiry == Some(expiry)
      ensures forall t: string, now: Ticks {:trigger IsRefreshTokenValid(t, now)} ::
        IsRefreshTokenValid(t, now) <==> t == token && token != [] && now < expiry
      ensures id == old(id) && email == old(email) && name == old(name) && passwordHash == old(passwordHash)
      ensures balance == old(balance) && status == old(status) && createdAt == old(createdAt)
      ensures lastLoginAt == old(lastLoginAt)
      ensures passwordResetToken == old(passwordResetToken)
      ensures passwordResetTokenExpiry == old(passwordResetTokenExpiry)
      ensures old(Valid()) ==> Valid()
    {
      refreshToken := Some(token);
      refreshTokenExpiry := Some(expiry);
    }

    /** `ClearRefreshToken`: afterwards no refresh token is accepted. */
    method ClearRefreshToken()
      modifies this
      ensures refreshToken.None? && refreshTokenExpiry.None?
      ensures forall t: string, now: Ticks {:trigger IsRefreshTokenValid(t, now)} :: !IsRefreshTokenValid(t, now)
      ensures id == old(id) && email == old(email) && name == old(name) && passwordHash == old(passwordHash)
      ensures balance == old(balance) && status == old(status) && createdAt == old(createdAt)
      ensures lastLoginAt == old(lastLoginAt)
      ensures passwordResetToken == old(passwordResetToken)
      ensures passwordResetTokenExpiry == old(passwordResetTokenExpiry)
      ensures old(Valid()) ==> Valid()
    {
      refreshToken := None;
      refreshTokenExpiry := None;
    }

    /** `GeneratePasswordResetToken`: from now on exactly the given token resets the
        password, and only before its expiry. */
    method GeneratePasswordResetToken(token: string, expiry: Ticks)
      modifies this
      ensures passwordResetToken == Some(token) && passwordResetTokenExpiry == Some(expiry)
      ensures forall t: string, now: Ticks {:trigger IsPasswordResetTokenValid(t, now)} ::
        IsPasswordResetTokenValid(t, now) <==> t == token && token != [] && now < expiry
      ensures id == old(id) && email == old(email) && name == old(name) && passwordHash == old(passwordHash)
      ensures balance == old(balance) && status == old(status) && createdAt == old(createdAt)
      ensures lastLoginAt == old(lastLoginAt)
      ensures refreshToken == old(refreshToken) && refreshTokenExpiry == old(refreshTokenExpiry)
      ensures old(Valid()) ==> Valid()
    {
      passwordResetToken := Some(token);
      passwordResetTokenExpiry := Some(expiry);
    }

    /** `ResetPassword`: a blank hash is refused before anything changes; otherwise the
        hash is replaced and the reset token is spent, so it is not accepted again. */
    method ResetPassword(newPasswordHash: string) returns (r: Outcome<UserError>)
      modifies this
      ensures r.Pass? <==> !IsBlank(newPasswordHash)
      ensures r.Fail? ==>
        r.error == PasswordHashEmpty && passwordHash == old(passwordHash)
        && passwordResetToken == old(passwordResetToken)
        && passwordResetTokenExpiry == old(passwordResetTokenExpiry)
      ensures r.Pass? ==>
        passwordHash == newPasswordHash && passwordResetToken.None? && passwordResetTokenExpiry.None?
        && forall t: string, now: Ticks {:trigger IsPasswordResetTokenValid(t, now)} :: !IsPasswordResetTokenValid(t, now)
      ensures id == old(id) && email == old(email) && name == old(name)
      ensures balance == old(balance) && status == old(status) && createdAt == old(createdAt)
      ensures lastLoginAt == old(lastLoginAt)
      ensures refreshToken == old(refreshToken) && refreshTokenExpiry == old(refreshTokenExpiry)
      ensures old(Valid()) ==> Valid()
    {
      var h := ValidatePasswordHash(newPasswordHash);
      if h.Failure? {
        return Fail(h.error);
      }
      passwordHash := h.value;
      passwordResetToken := None;
      passwordResetTokenExpiry := None;
      r := Pass;
    }

    /** `ChangePassword`: a blank hash is refused; otherwise only the hash changes. */
    method ChangePassword(newPasswordHash: string) returns (r: Outcome<UserError>)
      modifies this
      ensures r.Pass? <==> !IsBlank(newPasswordHash)
      ensures r.Fail? ==> r.error == PasswordHashEmpty && passwordHash == old(passwordHash)
      ensures r.Pass? ==> passwordHash == newPasswordHash
      ensures id == old(id) && email == old(email) && name == old(name)
      ensures balance == old(balance) && status == old(status) && createdAt == old(createdAt)
      ensures lastLoginAt == old(lastLoginAt)
      ensures refreshToken == old(refreshToken) && refreshTokenExpiry == old(refreshTokenExpiry)
      ensures passwordResetToken == old(passwordResetToken)
      ensures passwordResetTokenExpiry == old(passwordResetTokenExpiry)
      ensures old(Valid()) ==> Valid()
    {
      var h := ValidatePasswordHash(newPasswordHash);
      if h.Failure? {
        return Fail(h.error);
      }
      passwordHash := h.value;
      r := Pass;
    }

    /** `Deactivate`: the user becomes inactive and loses the refresh token. */
    method Deactivate()
      modifies this
      ensures status == Inactive && refreshToken.None? && refreshTokenExpiry.None?
      ensures forall t: string, now: Ticks {:trigger IsRefreshTokenValid(t, now)} :: !IsRefreshTokenValid(t, now)
      ensures id == old(id) && email == old(email) && name == old(name) && passwordHash == old(passwordHash)
      ensures balance == old(balance) && createdAt == old(createdAt) && lastLoginAt == old(lastLoginAt)
      ensures passwordResetToken == old(passwordResetToken)
      ensures passwordResetTokenExpiry == old(passwordResetTokenExpiry)
      ensures old(Valid()) ==> Valid()
    {
      status := Inactive;
      ClearRefreshToken();
    }

    /** `ChangeEmail`: the new address goes through the constructor's e-mail rule; a
        rejected address changes nothing. */
    method ChangeEmail(newEmail: string, isValidEmail: string -> bool) returns (r: Outcome<UserError>)
      modifies this
      ensures r.Pass? <==> ValidateAndNormalizeEmail(newEmail, isValidEmail).Success?
      ensures r.Fail? ==> r.error == ValidateAndNormalizeEmail(newEmail, isValidEmail).error && email == old(email)
      ensures r.Pass? ==> email == Trim(ToLower(newEmail))
      ensures id == old(id) && name == old(name) && passwordHash == old(passwordHash)
      ensures balance == old(balance) && status == old(status) && createdAt == old(createdAt)
      ensures lastLoginAt == old(lastLoginAt)
      ensures refreshToken == old(refreshToken) && refreshTokenExpiry == old(refreshTokenExpiry)
      ensures passwordResetToken == old(passwordResetToken)
      ensures passwordResetTokenExpiry == old(passwordResetTokenExpiry)
      ensures old(Valid()) ==> Valid()
    {
      var e := ValidateAndNormalizeEmail(newEmail, isValidEmail);
      if e.Failure? {
        return Fail(e.error);
      }
      var normalized := e.value;
      assert IsTrimmedText(normalized);
      email := normalized;
      r := Pass;
    }
  }

  /** The public constructor: fails with the first failed validation, or builds a fresh,
      valid, active user with a zero balance. */
  method CreateUser(id: Guid, email: string, name: string, passwordHash: string,
                    isValidEmail: string -> bool, now: Ticks)
    returns (r: Result<User, UserError>)
    ensures r.Failure? <==> CheckUser(email, name, passwordHash, isValidEmail).Fail?
    ensures r.Failure? ==> r.error == CheckUser(email, name, passwordHash, isValidEmail).error
    ensures r.Success? ==>
      var u := r.value;
      && fresh(u) && u.Valid()
      && u.id == id && u.email == Trim(ToLower(email)) && u.name == Trim(name)
      && u.passwordHash == passwordHash && u.balance == 0.0 && u.status == Active
      && u.createdAt == now && u.lastLoginAt.None?
      && u.refreshToken.None? && u.refreshTokenExpiry.None?
      && u.passwordResetToken.None? && u.passwordResetTokenExpiry.None?
  {
    var check := CheckUser(email, name, passwordHash, isValidEmail);
    if check.Fail? {
      return Failure(check.error);
    }
    var u := new User(id, email, name, passwordHash, isValidEmail, now);
    r := Success(u);
  }
}

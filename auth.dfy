/** `AuthService`: one-time passwords by SMS, login by password or OTP with
    a lock after three wrong passwords, and rotating refresh tokens. The
    clock is `now`; `Math.random()` is the draw `draw`; `bcrypt.compare`,
    `jwtService.verify` and `jwtService.sign` are the parameters
    `passwordMatches`, `signatureValid` and `signed`. */
module Auth {
  import opened Common
  import opened Entities
  import opened Store

  /** OTPs expire five minutes after they are sent. */
  const OtpLifetimeMs: int := 5 * MsPerMinute
  /** Refresh tokens expire thirty days after they are issued. */
  const RefreshLifetimeMs: int := 30 * MsPerDay
  /** The wrong password that brings the count to this locks the account. */
  const MaxFailedLogins: int := 3

  const UserMissing := "User not found"
  const InvalidOtp := "Invalid or expired OTP"
  const AccountLocked := "Account is locked. Please use OTP to unlock."
  const PasswordNotSet := "Password not set for this account"
  const InvalidPassword := "Invalid password"
  const CredentialsMissing := "Either password or OTP code is required"
  const InvalidCredentials := "Invalid credentials"
  const InvalidRefreshToken := "Invalid refresh token"

  // ---------------------------------------------------------------------
  // Codes
  // ---------------------------------------------------------------------

  /** `Math.floor(100000 + Math.random() * 900000)`: always six digits. */
  function OtpNumber(draw: real): (n: int)
    requires 0.0 <= draw < 1.0
    ensures 100000 <= n <= 999999
  {
    (100000.0 + draw * 900000.0).Floor
  }

  function DigitChar(d: nat): char
    requires d < 10
  {
    "0123456789"[d]
  }

  /** `Number.prototype.toString()` of a natural number. */
  function Decimal(n: nat): string {
    if n < 10 then [DigitChar(n)] else Decimal(n / 10) + [DigitChar(n % 10)]
  }

  function Pow10(k: nat): (p: nat)
    ensures p >= 1
  {
    if k == 0 then 1 else 10 * Pow10(k - 1)
  }

  /** A number of k digits prints as k characters. */
  lemma {:induction false} DecimalLength(n: nat, k: nat)
    requires k >= 1 && Pow10(k - 1) <= n < Pow10(k)
    ensures |Decimal(n)| == k
  {
    if k > 1 {
      assert Pow10(k - 1) == 10 * Pow10(k - 2);
      DecimalLength(n / 10, k - 1);
    }
  }

  /** Every code sendOtp stores has the six characters the verification
      form demands. */
  lemma SentCodeHasSixDigits(draw: real)
    requires 0.0 <= draw < 1.0
    ensures |Decimal(OtpNumber(draw))| == 6
  {
    assert Pow10(5) == 100000 && Pow10(6) == 1000000 by {
      assert Pow10(1) == 10 && Pow10(2) == 100 && Pow10(3) == 1000 && Pow10(4) == 10000;
    }
    DecimalLength(OtpNumber(draw), 6);
  }

  // ---------------------------------------------------------------------
  // Lookups
  // ---------------------------------------------------------------------

  /** The unused OTP `findOne` returns for the phone number, code and type. */
  function OtpIndex(otps: seq<Otp>, phoneNumber: string, code: string, otpType: OtpType): Option<nat> {
    FirstIndex(otps, (o: Otp) => o.phoneNumber == phoneNumber && o.code == code && o.otpType == otpType && !o.isUsed)
  }

  /** The unrevoked refresh-token row for the token string. */
  function ActiveTokenIndex(tokens: seq<RefreshToken>, token: string): Option<nat> {
    FirstIndex(tokens, (t: RefreshToken) => t.token == token && !t.isRevoked)
  }

  /** The first refresh-token row for the token string, revoked or not. */
  function TokenIndex(tokens: seq<RefreshToken>, token: string): Option<nat> {
    FirstIndex(tokens, (t: RefreshToken) => t.token == token)
  }

  /** Once an OTP has been used, the same phone number, code and type can
      only reach a later unused row: a code is accepted once per row. */
  lemma UsedOtpNotFoundAgain(otps: seq<Otp>, phoneNumber: string, code: string, otpType: OtpType)
    requires OtpIndex(otps, phoneNumber, code, otpType).Some?
    ensures var i := OtpIndex(otps, phoneNumber, code, otpType).value;
            var again := OtpIndex(otps[i := otps[i].(isUsed := true)], phoneNumber, code, otpType);
            again.None? || again.value > i
  {
  }

  // ---------------------------------------------------------------------
  // The login counter
  // ---------------------------------------------------------------------

  /** A wrong password: one more failed attempt, stamped, and LOCKED once
      the count reaches three. */
  function FailedPassword(u: User, now: Instant): (v: User)
    ensures v.failedLoginAttempts == u.failedLoginAttempts + 1 && v.lastFailedLoginAt == Some(now)
    ensures v.status == Locked <==> u.status == Locked || u.failedLoginAttempts + 1 >= MaxFailedLogins
    ensures v.(failedLoginAttempts := u.failedLoginAttempts, lastFailedLoginAt := u.lastFailedLoginAt,
               status := u.status) == u
  {
    var w := u.(failedLoginAttempts := u.failedLoginAttempts + 1, lastFailedLoginAt := Some(now));
    if w.failedLoginAttempts >= MaxFailedLogins then w.(status := Locked) else w
  }

  /** Three wrong passwords in a row lock any account whose count starts
      at zero or more. */
  lemma ThreeFailuresLock(u: User, t1: Instant, t2: Instant, t3: Instant)
    requires u.failedLoginAttempts >= 0
    ensures FailedPassword(FailedPassword(FailedPassword(u, t1), t2), t3).status == Locked
  {
    var v := FailedPassword(FailedPassword(u, t1), t2);
    assert v.failedLoginAttempts == u.failedLoginAttempts + 2;
  }

  /** An existing user after an accepted code: a phone verification marks
      the phone verified, an account unlock reactivates the account and
      clears the failed attempts, a login code changes nothing. */
  function Verified(u: User, otpType: OtpType, now: Instant): User {
    match otpType
    case PhoneVerification => u.(isPhoneVerified := true, phoneVerifiedAt := Some(now))
    case AccountUnlock => u.(status := Active, failedLoginAttempts := 0)
    case Login => u
  }

  /** A new refresh-token row. */
  function IssuedToken(id: Id, signed: string, userId: Id, now: Instant): RefreshToken {
    RefreshToken(id, signed, userId, None, false, now + RefreshLifetimeMs)
  }

  datatype LoginResult = LoginResult(user: User, refreshToken: RefreshToken)

  class AuthService {
    const db: Database

    constructor (db: Database)
      ensures this.db == db
    {
      this.db := db;
    }

    /** `sendOtp`: LOGIN and ACCOUNT_UNLOCK codes go only to registered
        numbers; the stored code has six digits and lives five minutes. */
    method SendOtp(phoneNumber: string, otpType: OtpType, draw: real, now: Instant) returns (r: Result<Otp>)
      requires db.Valid() && 0.0 <= draw < 1.0
      modifies db`otps, db`nextId
      ensures db.Valid()
      ensures if (otpType == OtpType.Login || otpType == AccountUnlock) && UserByPhone(db.users, phoneNumber).None? then
                r == Err(Error(NotFound, UserMissing)) && db.otps == old(db.otps) && db.nextId == old(db.nextId)
              else
                r == Ok(Otp(old(db.nextId), phoneNumber, Decimal(OtpNumber(draw)), otpType, false, now + OtpLifetimeMs)) &&
                db.otps == old(db.otps) + [r.value]
      ensures r.Ok? ==> |r.value.code| == 6
    {
      if otpType == OtpType.Login || otpType == AccountUnlock {
        if UserByPhone(db.users, phoneNumber).None? {
          return Err(Error(NotFound, UserMissing));
        }
      }
      var id := db.Issue();
      var otp := Otp(id, phoneNumber, Decimal(OtpNumber(draw)), otpType, false, now + OtpLifetimeMs);
      SentCodeHasSixDigits(draw);
      db.otps := db.otps + [otp];
      r := Ok(otp);
    }

    /** `verifyOtp`: the first unused matching OTP that has not expired is
        marked used (even when the user lookup then fails). A
        PHONE_VERIFICATION code verifies the number, creating the user if
        needed; LOGIN returns the user; ACCOUNT_UNLOCK reactivates the user
        and clears the failed-login count. */
    method VerifyOtp(phoneNumber: string, code: string, otpType: OtpType, now: Instant) returns (r: Result<User>)
      requires db.Valid()
      modifies db`otps, db`users, db`nextId
      ensures db.Valid()
      ensures match OtpIndex(old(db.otps), phoneNumber, code, otpType)
              case None =>
                r == Err(Error(BadRequest, InvalidOtp)) && db.otps == old(db.otps) && db.users == old(db.users)
              case Some(i) =>
                if old(db.otps)[i].expiresAt < now then
                  r == Err(Error(BadRequest, InvalidOtp)) && db.otps == old(db.otps) && db.users == old(db.users)
                else
                  && db.otps == old(db.otps)[i := old(db.otps)[i].(isUsed := true)]
                  && match UserByPhone(old(db.users), phoneNumber)
                     case None =>
                       if otpType == PhoneVerification then
                         var u := NewUser(old(db.nextId), phoneNumber).(isPhoneVerified := true, phoneVerifiedAt := Some(now));
                         r == Ok(u) && db.users == old(db.users) + [u]
                       else r == Err(Error(NotFound, UserMissing)) && db.users == old(db.users)
                     case Some(j) =>
                       var v := Verified(old(db.users)[j], otpType, now);
                       r == Ok(v) && db.users == old(db.users)[j := v]
    {
      var i := OtpIndex(db.otps, phoneNumber, code, otpType);
      if i.None? || db.otps[i.value].expiresAt < now {
        return Err(Error(BadRequest, InvalidOtp));
      }
      var otp := db.otps[i.value];
      assert otp in db.otps;
      db.otps := db.otps[i.value := otp.(isUsed := true)];
      r := ApplyOtp(phoneNumber, otpType, now);
    }

    /** The user side of an accepted code: a phone verification creates the
        user when there is none; otherwise the user is updated as `Verified`
        says. */
    method ApplyOtp(phoneNumber: string, otpType: OtpType, now: Instant) returns (r: Result<User>)
      requires db.Valid()
      modifies db`users, db`nextId
      ensures db.Valid()
      ensures match UserByPhone(old(db.users), phoneNumber)
              case None =>
                if otpType == PhoneVerification then
                  var u := NewUser(old(db.nextId), phoneNumber).(isPhoneVerified := true, phoneVerifiedAt := Some(now));
                  r == Ok(u) && db.users == old(db.users) + [u]
                else r == Err(Error(NotFound, UserMissing)) && db.users == old(db.users)
              case Some(j) =>
                var v := Verified(old(db.users)[j], otpType, now);
                r == Ok(v) && db.users == old(db.users)[j := v]
    {
      var j := UserByPhone(db.users, phoneNumber);
      if j.None? {
        if otpType == PhoneVerification {
          var id := db.Issue();
          var u := NewUser(id, phoneNumber).(isPhoneVerified := true, phoneVerifiedAt := Some(now));
          db.users := db.users + [u];
          return Ok(u);
        }
        return Err(Error(NotFound, UserMissing));
      }
      var u := db.users[j.value];
      assert u in db.users;
      var v := Verified(u, otpType, now);
      db.users := db.users[j.value := v];
      r := Ok(v);
    }

    /** `generateRefreshToken`: stores the signed token for the user. */
    method IssueRefreshToken(userId: Id, signed: string, now: Instant) returns (t: RefreshToken)
      requires db.Valid()
      modifies db`tokens, db`nextId
      ensures db.Valid()
      ensures t == IssuedToken(old(db.nextId), signed, userId, now) && db.tokens == old(db.tokens) + [t]
    {
      var id := db.Issue();
      t := IssuedToken(id, signed, userId, now);
      db.tokens := db.tokens + [t];
    }

    /** `login`, after the user is found and not LOCKED: an OTP code when
        one is given, else a password, else BadRequest. A wrong password
        counts against the account and may lock it; a bad OTP does not
        count. A successful login stamps `lastLoginAt` and issues a
        refresh token. */
    method Login(phoneNumber: string, password: Option<string>, otpCode: Option<string>,
                 passwordMatches: bool, signed: string, now: Instant) returns (r: Result<LoginResult>)
      requires db.Valid()
      modifies db`users, db`otps, db`tokens, db`nextId
      ensures db.Valid()
      ensures r.Err? && r.error.kind != Unauthorized ==>
                db.users == old(db.users) && db.otps == old(db.otps) && db.tokens == old(db.tokens)
      ensures match UserByPhone(old(db.users), phoneNumber)
              case None => r == Err(Error(NotFound, UserMissing))
              case Some(j) =>
                var u := old(db.users)[j];
                if u.status == Locked then
                  r == Err(Error(Unauthorized, AccountLocked)) && db.users == old(db.users) && db.otps == old(db.otps) &&
                  db.tokens == old(db.tokens) && db.nextId == old(db.nextId)
                else if Truthy(otpCode) then
                  var k := OtpIndex(old(db.otps), phoneNumber, otpCode.value, OtpType.Login);
                  if k.Some? && old(db.otps)[k.value].expiresAt > now then
                    && db.otps == old(db.otps)[k.value := old(db.otps)[k.value].(isUsed := true)]
                    && db.users == old(db.users)[j := u.(lastLoginAt := Some(now))]
                    && r == Ok(LoginResult(u.(lastLoginAt := Some(now)), IssuedToken(old(db.nextId), signed, u.id, now)))
                    && db.tokens == old(db.tokens) + [r.value.refreshToken]
                  else
                    r == Err(Error(Unauthorized, InvalidCredentials)) &&
                    db.users == old(db.users) && db.otps == old(db.otps) && db.tokens == old(db.tokens)
                else if Truthy(password) then
                  if !Truthy(u.password) then r == Err(Error(BadRequest, PasswordNotSet))
                  else if passwordMatches then
                    && db.otps == old(db.otps)
                    && db.users == old(db.users)[j := u.(failedLoginAttempts := 0, lastLoginAt := Some(now))]
                    && r == Ok(LoginResult(u.(failedLoginAttempts := 0, lastLoginAt := Some(now)),
                                           IssuedToken(old(db.nextId), signed, u.id, now)))
                    && db.tokens == old(db.tokens) + [r.value.refreshToken]
                  else
                    r == Err(Error(Unauthorized, InvalidPassword)) &&
                    db.users == old(db.users)[j := FailedPassword(u, now)] &&
                    db.otps == old(db.otps) && db.tokens == old(db.tokens)
                else r == Err(Error(BadRequest, CredentialsMissing))
    {
      var j := UserByPhone(db.users, phoneNumber);
      if j.None? {
        return Err(Error(NotFound, UserMissing));
      }
      var u := db.users[j.value];
      assert u in db.users;
      if u.status == Locked {
        return Err(Error(Unauthorized, AccountLocked));
      }
      if Truthy(otpCode) {
        var k := OtpIndex(db.otps, phoneNumber, otpCode.value, OtpType.Login);
        if k.None? || db.otps[k.value].expiresAt <= now {
          return Err(Error(Unauthorized, InvalidCredentials));
        }
        var otp := db.otps[k.value];
        assert otp in db.otps;
        db.otps := db.otps[k.value := otp.(isUsed := true)];
      } else if Truthy(password) {
        if !Truthy(u.password) {
          return Err(Error(BadRequest, PasswordNotSet));
        }
        if passwordMatches {
          u := u.(failedLoginAttempts := 0);
        } else {
          db.users := db.users[j.value := FailedPassword(u, now)];
          return Err(Error(Unauthorized, InvalidPassword));
        }
      } else {
        return Err(Error(BadRequest, CredentialsMissing));
      }
      var result := SignIn(j.value, u, signed, now);
      r := Ok(result);
    }

    /** The end of a successful login: the user row, as the chosen method
        left it, is stamped with `now` and a refresh token is issued. */
    method SignIn(j: nat, u: User, signed: string, now: Instant) returns (result: LoginResult)
      requires db.Valid() && j < |db.users| && u.id == db.users[j].id
      modifies db`users, db`tokens, db`nextId
      ensures db.Valid()
      ensures db.users == old(db.users)[j := u.(lastLoginAt := Some(now))]
      ensures result == LoginResult(u.(lastLoginAt := Some(now)), IssuedToken(old(db.nextId), signed, u.id, now))
      ensures db.tokens == old(db.tokens) + [result.refreshToken]
    {
      assert db.users[j] in db.users;
      var v := u.(lastLoginAt := Some(now));
      db.users := db.users[j := v];
      var t := IssueRefreshToken(v.id, signed, now);
      result := LoginResult(v, t);
    }

    /** `refreshToken`: a token whose signature verifies, with an unrevoked
        row that has not expired, is revoked as 'replaced' and a new one is
        issued for the same user; any failure is Unauthorized. */
    method RefreshToken(token: string, signatureValid: bool, signed: string, now: Instant) returns (r: Result<RefreshToken>)
      requires db.Valid()
      modifies db`tokens, db`nextId
      ensures db.Valid()
      ensures r.Err? ==> r == Err(Error(Unauthorized, InvalidRefreshToken)) && db.tokens == old(db.tokens)
      ensures r.Ok? <==> signatureValid && ActiveTokenIndex(old(db.tokens), token).Some? &&
                         old(db.tokens)[ActiveTokenIndex(old(db.tokens), token).value].expiresAt >= now
      ensures r.Ok? ==>
                var i := ActiveTokenIndex(old(db.tokens), token).value;
                && r.value == IssuedToken(old(db.nextId), signed, old(db.tokens)[i].userId, now)
                && db.tokens == old(db.tokens)[i := old(db.tokens)[i].(isRevoked := true, reasonRevoked := Some("replaced"))]
                                + [r.value]
    {
      if !signatureValid {
        return Err(Error(Unauthorized, InvalidRefreshToken));
      }
      var i := ActiveTokenIndex(db.tokens, token);
      if i.None? || db.tokens[i.value].expiresAt < now {
        return Err(Error(Unauthorized, InvalidRefreshToken));
      }
      var row := db.tokens[i.value];
      assert row in db.tokens;
      db.tokens := db.tokens[i.value := row.(isRevoked := true, reasonRevoked := Some("replaced"))];
      var t := IssueRefreshToken(row.userId, signed, now);
      r := Ok(t);
    }

    /** `logout`: the first row with the token, revoked or not, is revoked
        as 'logout'; logging out always succeeds. */
    method Logout(token: string)
      requires db.Valid()
      modifies db`tokens
      ensures db.Valid()
      ensures match TokenIndex(old(db.tokens), token)
              case None => db.tokens == old(db.tokens)
              case Some(i) => db.tokens == old(db.tokens)[i := old(db.tokens)[i].(isRevoked := true, reasonRevoked := Some("logout"))]
    {
      var i := TokenIndex(db.tokens, token);
      if i.Some? {
        var row := db.tokens[i.value];
        assert row in db.tokens;
        db.tokens := db.tokens[i.value := row.(isRevoked := true, reasonRevoked := Some("logout"))];
      }
    }
  }
}

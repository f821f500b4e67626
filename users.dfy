/** `UsersService`: looking users up, completing the profile of a newly
    verified user, setting the password once, and stamping logins. The
    bcrypt hash of the new password is the parameter `hash`; the clock is
    `now`. */
module Users {
  import opened Common
  import opened Entities
  import opened Store

  const UserMissing := "User not found"
  const ProfileCompleted := "Profile already completed"
  const PasswordAlreadySet := "Password already set"

  /** The profile form: names, an optional birth date (already parsed to a
      day number) and an optional role. */
  datatype ProfileDetails = ProfileDetails(
    firstName: string,
    lastName: string,
    birthDate: Option<int>,
    role: Option<UserRole>)

  /** `completeProfile` on a found user: only a PENDING user completes the
      profile, which takes the names, the birth date and role when given,
      and makes the user ACTIVE. */
  function Completed(u: User, d: ProfileDetails): (r: Result<User>)
    ensures r.Err? <==> u.status != AwaitingProfile
    ensures r.Err? ==> r.error == Error(BadRequest, ProfileCompleted)
    ensures r.Ok? ==>
              && r.value.status == Active
              && r.value.firstName == Some(d.firstName) && r.value.lastName == Some(d.lastName)
              && r.value.birthDate == OrOpt(d.birthDate, u.birthDate)
              && r.value.role == (if d.role.Some? then d.role.value else u.role)
              && r.value.(status := u.status, firstName := u.firstName, lastName := u.lastName,
                          birthDate := u.birthDate, role := u.role) == u
  {
    if u.status != AwaitingProfile then Err(Error(BadRequest, ProfileCompleted))
    else Ok(u.(firstName := Some(d.firstName), lastName := Some(d.lastName),
               birthDate := OrOpt(d.birthDate, u.birthDate),
               role := if d.role.Some? then d.role.value else u.role,
               status := Active))
  }

  /** A profile is completed once: a second attempt is refused, whatever
      the form. */
  lemma CompletedOnce(u: User, d: ProfileDetails, e: ProfileDetails)
    requires Completed(u, d).Ok?
    ensures Completed(Completed(u, d).value, e) == Err(Error(BadRequest, ProfileCompleted))
  {
  }

  /** The form's role is taken as given, so any PENDING user can make
      themselves an ADMIN by completing the profile. */
  lemma SelfChosenRole(u: User, first: string, last: string)
    requires u.status == AwaitingProfile
    ensures Completed(u, ProfileDetails(first, last, None, Some(Admin))).Ok?
    ensures Completed(u, ProfileDetails(first, last, None, Some(Admin))).value.role == Admin
  {
  }

  /** `setPassword` on a found user: refused when a password is already
      set; otherwise the hash is stored. */
  function WithPassword(u: User, hash: string): (r: Result<User>)
    ensures r.Err? <==> Truthy(u.password)
    ensures r.Err? ==> r.error == Error(BadRequest, PasswordAlreadySet)
    ensures r.Ok? ==> r.value == u.(password := Some(hash))
  {
    if Truthy(u.password) then Err(Error(BadRequest, PasswordAlreadySet))
    else Ok(u.(password := Some(hash)))
  }

  /** A password is set once: a bcrypt hash is never empty, so after it is
      stored every later attempt is refused and the hash stays. */
  lemma PasswordSetOnce(u: User, hash: string, other: string)
    requires hash != "" && WithPassword(u, hash).Ok?
    ensures WithPassword(WithPassword(u, hash).value, other).Err?
    ensures WithPassword(u, hash).value.password == Some(hash)
  {
  }

  class UsersService {
    const db: Database

    constructor (db: Database)
      ensures this.db == db
    {
      this.db := db;
    }

    /** `findById`: the user with the id, or NotFound. */
    method FindById(id: Id) returns (r: Result<User>)
      ensures r.Ok? <==> UserExists(db.users, id)
      ensures r.Ok? ==> r.value in db.users && r.value.id == id
      ensures r.Err? ==> r == Err(Error(NotFound, UserMissing))
    {
      var j := UserIndex(db.users, id);
      if j.None? {
        return Err(Error(NotFound, UserMissing));
      }
      r := Ok(db.users[j.value]);
    }

    /** `findByPhoneNumber`: the user with the phone number, if any. */
    method FindByPhoneNumber(phoneNumber: string) returns (r: Option<User>)
      ensures r.Some? <==> exists j :: 0 <= j < |db.users| && db.users[j].phoneNumber == phoneNumber
      ensures r.Some? ==> r.value in db.users && r.value.phoneNumber == phoneNumber
    {
      var j := UserByPhone(db.users, phoneNumber);
      if j.None? {
        return None;
      }
      r := Some(db.users[j.value]);
    }

    /** `getProfile`: the same lookup as `findById`. */
    method GetProfile(userId: Id) returns (r: Result<User>)
      ensures r.Ok? <==> UserExists(db.users, userId)
      ensures r.Ok? ==> r.value in db.users && r.value.id == userId
      ensures r.Err? ==> r == Err(Error(NotFound, UserMissing))
    {
      r := FindById(userId);
    }

    /** `completeProfile`: the user with the id completes the profile as
        `Completed` says. */
    method CompleteProfile(userId: Id, d: ProfileDetails) returns (r: Result<User>)
      requires db.Valid()
      modifies db`users
      ensures db.Valid()
      ensures match UserIndex(old(db.users), userId)
              case None => r == Err(Error(NotFound, UserMissing)) && db.users == old(db.users)
              case Some(j) =>
                r == Completed(old(db.users)[j], d) &&
                db.users == if r.Ok? then old(db.users)[j := r.value] else old(db.users)
    {
      var j := UserIndex(db.users, userId);
      if j.None? {
        return Err(Error(NotFound, UserMissing));
      }
      var u := db.users[j.value];
      r := Completed(u, d);
      if r.Ok? {
        assert u in db.users;
        db.users := db.users[j.value := r.value];
      }
    }

    /** `setPassword`: the user with the id gets the hash as `WithPassword`
        says. */
    method SetPassword(userId: Id, hash: string) returns (o: Outcome)
      requires db.Valid()
      modifies db`users
      ensures db.Valid()
      ensures match UserIndex(old(db.users), userId)
              case None => o == Fail(Error(NotFound, UserMissing)) && db.users == old(db.users)
              case Some(j) =>
                match WithPassword(old(db.users)[j], hash)
                case Err(e) => o == Fail(e) && db.users == old(db.users)
                case Ok(v) => o == Pass && db.users == old(db.users)[j := v]
    {
      var j := UserIndex(db.users, userId);
      if j.None? {
        return Fail(Error(NotFound, UserMissing));
      }
      var u := db.users[j.value];
      var r := WithPassword(u, hash);
      if r.Err? {
        return Fail(r.error);
      }
      assert u in db.users;
      db.users := db.users[j.value := r.value];
      o := Pass;
    }

    /** `updateLastLogin`: the user's last login becomes `now`. */
    method UpdateLastLogin(userId: Id, now: Instant) returns (o: Outcome)
      requires db.Valid()
      modifies db`users
      ensures db.Valid()
      ensures match UserIndex(old(db.users), userId)
              case None => o == Fail(Error(NotFound, UserMissing)) && db.users == old(db.users)
              case Some(j) => o == Pass && db.users == old(db.users)[j := old(db.users)[j].(lastLoginAt := Some(now))]
    {
      var j := UserIndex(db.users, userId);
      if j.None? {
        return Fail(Error(NotFound, UserMissing));
      }
      var u := db.users[j.value];
      assert u in db.users;
      db.users := db.users[j.value := u.(lastLoginAt := Some(now))];
      o := Pass;
    }
  }
}

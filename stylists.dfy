/** `StylistsService`: a PROVIDER's salon profile and its review by an
    admin. A profile is created as DRAFT, submitted for approval
    (PENDING_APPROVAL), approved or rejected by an admin, and may be
    suspended by an admin at any time; editing it sends it back to DRAFT.
    Only an APPROVED profile is shown to the public and can be booked. */
module Stylists {
  import opened Common
  import opened Entities
  import opened Store

  const UserMissing := "User not found"
  const NotAProvider := "Only providers can create stylist profiles"
  const ProfileExists := "Stylist profile already exists"
  const ProfileMissing := "Stylist profile not found"
  const NotPublic := "Stylist profile not found or not approved"
  const EditWhilePending := "Cannot update profile while it is pending approval"
  const AlreadyApproved := "Profile is already approved"
  const AlreadyPending := "Profile is already pending approval"
  const ApproveForbidden := "Only admins can approve profiles"
  const SuspendForbidden := "Only admins can suspend profiles"
  const NotPending := "Only profiles pending approval can be approved/rejected"
  const ReasonRequired := "Rejection reason is required"

  /** The salon fields of the create and update forms; an absent field is
      `None`. */
  datatype ProfileForm = ProfileForm(
    salonAddress: Option<string>,
    latitude: Option<real>,
    longitude: Option<real>,
    instagramUsername: Option<string>)

  /** The table holds at most one profile per user. */
  predicate OneProfilePerUser(ps: seq<StylistProfile>) {
    forall i, j :: 0 <= i < j < |ps| ==> ps[i].userId != ps[j].userId
  }

  // ---------------------------------------------------------------------
  // The profile lifecycle, one step at a time
  // ---------------------------------------------------------------------

  /** The new row of `createProfile`: the form's fields, DRAFT, and nothing
      reviewed or submitted yet. */
  function NewProfile(id: Id, userId: Id, form: ProfileForm): (p: StylistProfile)
    ensures p.id == id && p.userId == userId && p.status == Draft
    ensures p.salonAddress == form.salonAddress && p.latitude == form.latitude
    ensures p.longitude == form.longitude && p.instagramUsername == form.instagramUsername
    ensures p.rejectionReason.None? && p.approvedBy.None? && p.approvedAt.None? && p.submittedForApprovalAt.None?
  {
    StylistProfile(id, userId, form.salonAddress, form.latitude, form.longitude, form.instagramUsername,
                   Draft, None, None, None, None)
  }

  /** `updateProfile` on the owner's profile: refused while it is pending;
      otherwise the given fields replace the stored ones and the profile
      goes back to DRAFT, whatever it was. */
  function Edited(p: StylistProfile, form: ProfileForm): (r: Result<StylistProfile>)
    ensures r.Err? <==> p.status == PendingApproval
    ensures r.Err? ==> r.error == Error(BadRequest, EditWhilePending)
    ensures r.Ok? ==>
              && r.value.status == Draft
              && r.value.salonAddress == OrOpt(form.salonAddress, p.salonAddress)
              && r.value.latitude == OrOpt(form.latitude, p.latitude)
              && r.value.longitude == OrOpt(form.longitude, p.longitude)
              && r.value.instagramUsername == OrOpt(form.instagramUsername, p.instagramUsername)
              && r.value.(status := p.status, salonAddress := p.salonAddress, latitude := p.latitude,
                          longitude := p.longitude, instagramUsername := p.instagramUsername) == p
  {
    if p.status == PendingApproval then Err(Error(BadRequest, EditWhilePending))
    else Ok(p.(salonAddress := OrOpt(form.salonAddress, p.salonAddress),
               latitude := OrOpt(form.latitude, p.latitude),
               longitude := OrOpt(form.longitude, p.longitude),
               instagramUsername := OrOpt(form.instagramUsername, p.instagramUsername),
               status := Draft))
  }

  /** `submitForApproval` on the owner's profile: refused when it is
      already approved or pending; otherwise it becomes PENDING_APPROVAL,
      stamped with the submission time. */
  function Submitted(p: StylistProfile, now: Instant): (r: Result<StylistProfile>)
    ensures r.Err? <==> p.status in {Approved, PendingApproval}
    ensures p.status == Approved ==> r == Err(Error(BadRequest, AlreadyApproved))
    ensures p.status == PendingApproval ==> r == Err(Error(BadRequest, AlreadyPending))
    ensures r.Ok? ==> r.value.status == PendingApproval && r.value.submittedForApprovalAt == Some(now)
    ensures r.Ok? ==> r.value.(status := p.status, submittedForApprovalAt := p.submittedForApprovalAt) == p
  {
    if p.status == Approved then Err(Error(BadRequest, AlreadyApproved))
    else if p.status == PendingApproval then Err(Error(BadRequest, AlreadyPending))
    else Ok(p.(status := PendingApproval, submittedForApprovalAt := Some(now)))
  }

  /** `adminApproveProfile` once the admin is known: only a pending profile
      is reviewed; a rejection needs a non-empty reason. The decision
      becomes the status (the form's enum is not limited to APPROVED and
      REJECTED), and the reviewing admin and time are recorded. */
  function Reviewed(p: StylistProfile, adminId: Id, decision: ProfileStatus, reason: Option<string>,
                    now: Instant): (r: Result<StylistProfile>)
    ensures r.Err? <==> p.status != PendingApproval || (decision == Rejected && !Truthy(reason))
    ensures p.status != PendingApproval ==> r == Err(Error(BadRequest, NotPending))
    ensures p.status == PendingApproval && r.Err? ==> r == Err(Error(BadRequest, ReasonRequired))
    ensures r.Ok? ==>
              && r.value.status == decision
              && r.value.approvedBy == Some(adminId) && r.value.approvedAt == Some(now)
              && (decision == Rejected ==> r.value.rejectionReason == reason && Truthy(reason))
              && (decision != Rejected ==> r.value.rejectionReason == p.rejectionReason)
              && r.value.(status := p.status, approvedBy := p.approvedBy, approvedAt := p.approvedAt,
                          rejectionReason := p.rejectionReason) == p
  {
    if p.status != PendingApproval then Err(Error(BadRequest, NotPending))
    else
      var q := p.(status := decision, approvedBy := Some(adminId), approvedAt := Some(now));
      if decision == Rejected then
        if !Truthy(reason) then Err(Error(BadRequest, ReasonRequired))
        else Ok(q.(rejectionReason := reason))
      else Ok(q)
  }

  /** `adminSuspendProfile` once the admin is known: any profile becomes
      SUSPENDED with the admin and time recorded; the reason replaces the
      stored one when given (an absent reason is not written by `save`). */
  function SuspendedProfile(p: StylistProfile, adminId: Id, reason: Option<string>, now: Instant): (q: StylistProfile)
    ensures q.status == Suspended && q.approvedBy == Some(adminId) && q.approvedAt == Some(now)
    ensures q.rejectionReason == OrOpt(reason, p.rejectionReason)
    ensures q.(status := p.status, approvedBy := p.approvedBy, approvedAt := p.approvedAt,
               rejectionReason := p.rejectionReason) == p
  {
    p.(status := Suspended, rejectionReason := OrOpt(reason, p.rejectionReason),
       approvedBy := Some(adminId), approvedAt := Some(now))
  }

  /** The steps a stored profile can take. */
  datatype ProfileAction =
    | Edit(form: ProfileForm)
    | Submit
    | Review(adminId: Id, decision: ProfileStatus, reason: Option<string>)
    | Suspend(adminId: Id, suspendReason: Option<string>)

  function Step(p: StylistProfile, a: ProfileAction, now: Instant): Result<StylistProfile> {
    match a
    case Edit(form) => Edited(p, form)
    case Submit => Submitted(p, now)
    case Review(adminId, decision, reason) => Reviewed(p, adminId, decision, reason, now)
    case Suspend(adminId, reason) => Ok(SuspendedProfile(p, adminId, reason, now))
  }

  /** A profile that was not approved becomes approved only through an
      admin's review of a pending profile, which records that admin. */
  lemma ApprovalOnlyByReview(p: StylistProfile, a: ProfileAction, now: Instant)
    requires p.status != Approved
    requires Step(p, a, now).Ok? && Step(p, a, now).value.status == Approved
    ensures a.Review? && a.decision == Approved && p.status == PendingApproval
    ensures Step(p, a, now).value.approvedBy == Some(a.adminId)
  {
    match a
    case Edit(form) =>
    case Submit =>
    case Review(adminId, decision, reason) =>
    case Suspend(adminId, reason) =>
  }

  /** No single step takes a DRAFT profile to APPROVED; submitting and then
      approving it does. */
  lemma DraftNeedsSubmission(p: StylistProfile, a: ProfileAction, adminId: Id, t1: Instant, t2: Instant)
    requires p.status == Draft
    ensures Step(p, a, t1).Ok? ==> Step(p, a, t1).value.status != Approved
    ensures var s := Step(p, Submit, t1);
            s.Ok? && Step(s.value, Review(adminId, Approved, None), t2).Ok? &&
            Step(s.value, Review(adminId, Approved, None), t2).value.status == Approved
  {
    if Step(p, a, t1).Ok? && Step(p, a, t1).value.status == Approved {
      ApprovalOnlyByReview(p, a, t1);
    }
  }

  /** A review that decides anything but PENDING_APPROVAL closes the
      review: the same profile cannot be reviewed again until it is
      resubmitted. */
  lemma ReviewIsFinal(p: StylistProfile, adminId: Id, decision: ProfileStatus, reason: Option<string>, now: Instant,
                      a: ProfileAction, later: Instant)
    requires decision != PendingApproval
    requires Reviewed(p, adminId, decision, reason, now).Ok?
    requires a.Review?
    ensures Step(Reviewed(p, adminId, decision, reason, now).value, a, later).Err?
  {
  }

  /** Every step, a review included, keeps the owner and the id of the profile. */
  lemma StepKeepsOwner(p: StylistProfile, a: ProfileAction, now: Instant)
    requires Step(p, a, now).Ok?
    ensures Step(p, a, now).value.userId == p.userId && Step(p, a, now).value.id == p.id
  {
    match a
    case Edit(form) =>
    case Submit =>
    case Review(adminId, decision, reason) =>
    case Suspend(adminId, reason) =>
  }

  // ---------------------------------------------------------------------
  // The profile table
  // ---------------------------------------------------------------------

  /** `getPublicProfile`'s query: the profile with this id, if APPROVED. */
  function PublicProfileIndex(ps: seq<StylistProfile>, profileId: Id): Option<nat> {
    FirstIndex(ps, (p: StylistProfile) => p.id == profileId && p.status == Approved)
  }

  /** Replacing a profile by one with the same owner keeps one profile per
      user. */
  lemma ReplaceKeepsOneProfile(ps: seq<StylistProfile>, i: nat, q: StylistProfile)
    requires OneProfilePerUser(ps) && i < |ps| && q.userId == ps[i].userId
    ensures OneProfilePerUser(ps[i := q])
  {
    var rs := ps[i := q];
    forall k, l | 0 <= k < l < |rs| ensures rs[k].userId != rs[l].userId {
      assert rs[k].userId == ps[k].userId && rs[l].userId == ps[l].userId;
    }
  }

  /** Removing a profile keeps one profile per user, and the removed
      owner has none left. */
  lemma RemoveKeepsOneProfile(ps: seq<StylistProfile>, i: nat)
    requires OneProfilePerUser(ps) && i < |ps|
    ensures OneProfilePerUser(ps[..i] + ps[i + 1..])
    ensures ProfileOfUser(ps[..i] + ps[i + 1..], ps[i].userId).None?
  {
    var rs := ps[..i] + ps[i + 1..];
    forall k, l | 0 <= k < l < |rs| ensures rs[k].userId != rs[l].userId {
      var k' := if k < i then k else k + 1;
      var l' := if l < i then l else l + 1;
      assert rs[k] == ps[k'] && rs[l] == ps[l'];
    }
    forall k | 0 <= k < |rs| ensures rs[k].userId != ps[i].userId {
      var k' := if k < i then k else k + 1;
      assert rs[k] == ps[k'];
    }
  }

  /** When the owner's only profile leaves APPROVED (edited, resubmitted
      or suspended), the owner is no longer a bookable stylist. */
  lemma LeavingApprovalWithdrawsStylist(ps: seq<StylistProfile>, i: nat, q: StylistProfile)
    requires OneProfilePerUser(ps) && i < |ps|
    requires q.userId == ps[i].userId && q.status != Approved
    ensures !ApprovedStylist(ps[i := q], ps[i].userId)
  {
    var rs := ps[i := q];
    forall k | 0 <= k < |rs| && k != i ensures rs[k].userId != ps[i].userId {
      assert rs[k] == ps[k];
    }
  }

  class StylistsService {
    const db: Database

    constructor (db: Database)
      ensures this.db == db
    {
      this.db := db;
    }

    /** `createProfile`: only an existing PROVIDER without a profile gets
        one, created as a DRAFT from the form. */
    method CreateProfile(userId: Id, form: ProfileForm) returns (r: Result<StylistProfile>)
      requires db.Valid()
      modifies db`profiles, db`nextId
      ensures db.Valid()
      ensures OneProfilePerUser(old(db.profiles)) ==> OneProfilePerUser(db.profiles)
      ensures r.Err? ==> db.profiles == old(db.profiles)
      ensures match UserIndex(db.users, userId)
              case None => r == Err(Error(NotFound, UserMissing))
              case Some(j) =>
                if db.users[j].role != Provider then r == Err(Error(BadRequest, NotAProvider))
                else if ProfileOfUser(old(db.profiles), userId).Some? then r == Err(Error(BadRequest, ProfileExists))
                else r == Ok(NewProfile(old(db.nextId), userId, form)) && db.profiles == old(db.profiles) + [r.value]
    {
      var j := UserIndex(db.users, userId);
      if j.None? {
        return Err(Error(NotFound, UserMissing));
      }
      if db.users[j.value].role != Provider {
        return Err(Error(BadRequest, NotAProvider));
      }
      if ProfileOfUser(db.profiles, userId).Some? {
        return Err(Error(BadRequest, ProfileExists));
      }
      var id := db.Issue();
      var p := NewProfile(id, userId, form);
      db.profiles := db.profiles + [p];
      r := Ok(p);
    }

    /** `getOwnProfile`: the caller's profile, whatever its status. */
    method GetOwnProfile(userId: Id) returns (r: Result<StylistProfile>)
      ensures r.Ok? <==> exists i :: 0 <= i < |db.profiles| && db.profiles[i].userId == userId
      ensures r.Ok? ==> r.value in db.profiles && r.value.userId == userId
      ensures r.Err? ==> r == Err(Error(NotFound, ProfileMissing))
    {
      var i := ProfileOfUser(db.profiles, userId);
      if i.None? {
        return Err(Error(NotFound, ProfileMissing));
      }
      r := Ok(db.profiles[i.value]);
    }

    /** `getPublicProfile`: a profile is shown to the public exactly when it
        is APPROVED. */
    method GetPublicProfile(profileId: Id) returns (r: Result<StylistProfile>)
      ensures r.Ok? <==> exists i :: 0 <= i < |db.profiles| && db.profiles[i].id == profileId &&
                                     db.profiles[i].status == Approved
      ensures r.Ok? ==> r.value in db.profiles && r.value.id == profileId && r.value.status == Approved
      ensures r.Err? ==> r == Err(Error(NotFound, NotPublic))
    {
      var i := PublicProfileIndex(db.profiles, profileId);
      if i.None? {
        return Err(Error(NotFound, NotPublic));
      }
      r := Ok(db.profiles[i.value]);
    }

    /** `updateProfile`: the owner's profile is edited as `Edited` says. */
    method UpdateProfile(userId: Id, form: ProfileForm) returns (r: Result<StylistProfile>)
      requires db.Valid()
      modifies db`profiles
      ensures db.Valid()
      ensures OneProfilePerUser(old(db.profiles)) ==> OneProfilePerUser(db.profiles)
      ensures match ProfileOfUser(old(db.profiles), userId)
              case None => r == Err(Error(NotFound, ProfileMissing)) && db.profiles == old(db.profiles)
              case Some(i) =>
                r == Edited(old(db.profiles)[i], form) &&
                db.profiles == if r.Ok? then old(db.profiles)[i := r.value] else old(db.profiles)
    {
      var i := ProfileOfUser(db.profiles, userId);
      if i.None? {
        return Err(Error(NotFound, ProfileMissing));
      }
      var p := db.profiles[i.value];
      r := Edited(p, form);
      if r.Ok? {
        assert p in db.profiles;
        if OneProfilePerUser(db.profiles) {
          ReplaceKeepsOneProfile(db.profiles, i.value, r.value);
        }
        db.profiles := db.profiles[i.value := r.value];
      }
    }

    /** `submitForApproval`: the owner's profile is submitted as
        `Submitted` says. */
    method SubmitForApproval(userId: Id, now: Instant) returns (r: Result<StylistProfile>)
      requires db.Valid()
      modifies db`profiles
      ensures db.Valid()
      ensures OneProfilePerUser(old(db.profiles)) ==> OneProfilePerUser(db.profiles)
      ensures match ProfileOfUser(old(db.profiles), userId)
              case None => r == Err(Error(NotFound, ProfileMissing)) && db.profiles == old(db.profiles)
              case Some(i) =>
                r == Submitted(old(db.profiles)[i], now) &&
                db.profiles == if r.Ok? then old(db.profiles)[i := r.value] else old(db.profiles)
    {
      var i := ProfileOfUser(db.profiles, userId);
      if i.None? {
        return Err(Error(NotFound, ProfileMissing));
      }
      var p := db.profiles[i.value];
      r := Submitted(p, now);
      if r.Ok? {
        assert p in db.profiles;
        if OneProfilePerUser(db.profiles) {
          ReplaceKeepsOneProfile(db.profiles, i.value, r.value);
        }
        db.profiles := db.profiles[i.value := r.value];
      }
    }

    /** `adminApproveProfile`: only an ADMIN reviews; the profile with the
        id is reviewed as `Reviewed` says. */
    method AdminApproveProfile(adminId: Id, profileId: Id, decision: ProfileStatus, reason: Option<string>,
                               now: Instant) returns (r: Result<StylistProfile>)
      requires db.Valid()
      modifies db`profiles
      ensures db.Valid()
      ensures OneProfilePerUser(old(db.profiles)) ==> OneProfilePerUser(db.profiles)
      ensures r.Err? ==> db.profiles == old(db.profiles)
      ensures var j := UserIndex(db.users, adminId);
              if j.None? || db.users[j.value].role != Admin then r == Err(Error(Forbidden, ApproveForbidden))
              else match ProfileIndex(old(db.profiles), profileId)
                   case None => r == Err(Error(NotFound, ProfileMissing))
                   case Some(i) =>
                     r == Reviewed(old(db.profiles)[i], adminId, decision, reason, now) &&
                     (r.Ok? ==> db.profiles == old(db.profiles)[i := r.value])
    {
      var j := UserIndex(db.users, adminId);
      if j.None? || db.users[j.value].role != Admin {
        return Err(Error(Forbidden, ApproveForbidden));
      }
      var i := ProfileIndex(db.profiles, profileId);
      if i.None? {
        return Err(Error(NotFound, ProfileMissing));
      }
      var p := db.profiles[i.value];
      r := Reviewed(p, adminId, decision, reason, now);
      if r.Ok? {
        assert p in db.profiles;
        if OneProfilePerUser(db.profiles) {
          ReplaceKeepsOneProfile(db.profiles, i.value, r.value);
        }
        db.profiles := db.profiles[i.value := r.value];
      }
    }

    /** `deleteProfile`: the owner's profile is removed, after which the
        owner may create a new one. */
    method DeleteProfile(userId: Id) returns (o: Outcome)
      requires db.Valid()
      modifies db`profiles
      ensures db.Valid()
      ensures OneProfilePerUser(old(db.profiles)) ==> OneProfilePerUser(db.profiles)
      ensures OneProfilePerUser(old(db.profiles)) ==> ProfileOfUser(db.profiles, userId).None?
      ensures match ProfileOfUser(old(db.profiles), userId)
              case None => o == Fail(Error(NotFound, ProfileMissing)) && db.profiles == old(db.profiles)
              case Some(i) => o == Pass && db.profiles == old(db.profiles)[..i] + old(db.profiles)[i + 1..]
    {
      var i := ProfileOfUser(db.profiles, userId);
      if i.None? {
        return Fail(Error(NotFound, ProfileMissing));
      }
      if OneProfilePerUser(db.profiles) {
        RemoveKeepsOneProfile(db.profiles, i.value);
      }
      db.profiles := db.profiles[..i.value] + db.profiles[i.value + 1..];
      o := Pass;
    }

    /** `adminSuspendProfile`: only an ADMIN suspends; any profile with the
        id is suspended as `SuspendedProfile` says. */
    method AdminSuspendProfile(adminId: Id, profileId: Id, reason: Option<string>, now: Instant)
      returns (r: Result<StylistProfile>)
      requires db.Valid()
      modifies db`profiles
      ensures db.Valid()
      ensures OneProfilePerUser(old(db.profiles)) ==> OneProfilePerUser(db.profiles)
      ensures var j := UserIndex(db.users, adminId);
              if j.None? || db.users[j.value].role != Admin then
                r == Err(Error(Forbidden, SuspendForbidden)) && db.profiles == old(db.profiles)
              else match ProfileIndex(old(db.profiles), profileId)
                   case None => r == Err(Error(NotFound, ProfileMissing)) && db.profiles == old(db.profiles)
                   case Some(i) =>
                     r == Ok(SuspendedProfile(old(db.profiles)[i], adminId, reason, now)) &&
                     db.profiles == old(db.profiles)[i := r.value]
    {
      var j := UserIndex(db.users, adminId);
      if j.None? || db.users[j.value].role != Admin {
        return Err(Error(Forbidden, SuspendForbidden));
      }
      var i := ProfileIndex(db.profiles, profileId);
      if i.None? {
        return Err(Error(NotFound, ProfileMissing));
      }
      var p := db.profiles[i.value];
      var q := SuspendedProfile(p, adminId, reason, now);
      assert p in db.profiles;
      if OneProfilePerUser(db.profiles) {
        ReplaceKeepsOneProfile(db.profiles, i.value, q);
      }
      db.profiles := db.profiles[i.value := q];
      r := Ok(q);
    }
  }
}

/** The account-side rows of the database: users, stylist profiles, one-time
    passwords and refresh tokens, with the enumerations they use. */
module Entities {
  import opened Common

  /** `UserRole`: USER (a customer who books), PROVIDER (a stylist), ADMIN. */
  datatype UserRole = Customer | Provider | Admin

  /** `UserStatus`: PENDING until the profile is completed, ACTIVE, LOCKED
      after repeated failed logins, INACTIVE. */
  datatype UserStatus = AwaitingProfile | Active | Locked | Inactive

  datatype User = User(
    id: Id,
    phoneNumber: string,
    password: Option<string>,        // a bcrypt hash
    firstName: Option<string>,
    lastName: Option<string>,
    birthDate: Option<int>,          // a calendar day number
    role: UserRole,
    status: UserStatus,
    failedLoginAttempts: int,
    lastFailedLoginAt: Option<Instant>,
    lastLoginAt: Option<Instant>,
    isPhoneVerified: bool,
    phoneVerifiedAt: Option<Instant>)

  /** A user row as the database completes it from the column defaults
      (role USER, status PENDING, no failed attempts, phone not verified). */
  function NewUser(id: Id, phoneNumber: string): (u: User)
    ensures u.id == id && u.phoneNumber == phoneNumber
    ensures u.role == Customer && u.status == AwaitingProfile
    ensures u.failedLoginAttempts == 0 && !u.isPhoneVerified && u.password.None?
  {
    User(id, phoneNumber, None, None, None, None, Customer, AwaitingProfile, 0, None, None, false, None)
  }

  /** `StylistProfileStatus`. */
  datatype ProfileStatus = Draft | PendingApproval | Approved | Rejected | Suspended

  datatype StylistProfile = StylistProfile(
    id: Id,
    userId: Id,
    salonAddress: Option<string>,
    latitude: Option<real>,
    longitude: Option<real>,
    instagramUsername: Option<string>,
    status: ProfileStatus,
    rejectionReason: Option<string>,
    approvedBy: Option<Id>,
    approvedAt: Option<Instant>,
    submittedForApprovalAt: Option<Instant>)

  /** `OtpType`. */
  datatype OtpType = PhoneVerification | Login | AccountUnlock

  datatype Otp = Otp(
    id: Id,
    phoneNumber: string,
    code: string,
    otpType: OtpType,
    isUsed: bool,
    expiresAt: Instant)

  datatype RefreshToken = RefreshToken(
    id: Id,
    token: string,
    userId: Id,
    reasonRevoked: Option<string>,
    isRevoked: bool,
    expiresAt: Instant)
}

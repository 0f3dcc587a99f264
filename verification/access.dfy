/** Signing up and signing in: the profile written at signup, the one
    administrator address, and the gate that lets only active accounts into
    the dashboard. */
module Access {
  import opened Wrappers
  import opened Text
  import opened Seqs
  import opened Calendar
  import opened Domain
  import Users

  // ---------------------------------------------------------------------------
  // Signup

  const AdminEmail := "theinsightfulsolutions@gmail.com"

  /** 2099-12-31, the administrator's validity date. */
  const AdminValidity: Day := 47481

  lemma AdminValidityIsLastDayOf2099()
    ensures YearOf(AdminValidity) == 2099 && YearOf(AdminValidity + 1) == 2100
  {
    // Era 5 starts on 2000-03-01; day 36464 of it is 2099-12-31, the 306th
    // day of the year 2099 counted from March, and the next day opens
    // January, which belongs to the following civil year.
    assert 766949 / 146097 == 5 && 766950 / 146097 == 5;
    assert 36464 / 1460 == 24 && 36464 / 36524 == 0 && 36464 / 146096 == 0;
    assert 36465 / 1460 == 24 && 36465 / 36524 == 0 && 36465 / 146096 == 0;
    assert 36440 / 365 == 99 && 36441 / 365 == 99;
    assert 1527 / 153 == 9 && 1532 / 153 == 10;
  }

  /** The address is the administrator's, ignoring the case of ASCII letters. */
  predicate IsAdminEmail(email: string) {
    Lower(email) == AdminEmail
  }

  /** The entry in the administrators' role collection. */
  datatype AdminRole = AdminRole(uid: string, role: Role)

  /** The documents a signup commits together. */
  datatype SignupBatch = SignupBatch(profile: UserProfile, adminRole: Option<AdminRole>)

  /** The signup of account `uid` on day `today`: the administrator's address
      gets an Active administrator profile with customer id "G-001" and
      validity 2099-12-31 together with its role document; any other address
      gets a Pending user profile without customer id or validity and no role
      document. */
  function Signup(uid: string, name: string, email: string, today: Day): (r: SignupBatch)
    ensures r.profile.id == uid && r.profile.name == name && r.profile.email == email
    ensures r.profile.signupDate == today && r.profile.address == "" && r.profile.mobileNo == ""
    ensures r.profile.role == Admin <==> IsAdminEmail(email)
    ensures r.adminRole.Some? <==> IsAdminEmail(email)
    ensures IsAdminEmail(email) ==>
      r.profile.status == Active && r.profile.customerId == Users.FirstCustomerId
      && r.profile.validityDate == Some(AdminValidity) && r.adminRole == Some(AdminRole(uid, Admin))
    ensures !IsAdminEmail(email) ==>
      r.profile.role == User && r.profile.status == Pending && r.profile.customerId == "" && r.profile.validityDate.None?
  {
    var admin := IsAdminEmail(email);
    var profile := UserProfile(
      uid, name, email,
      if admin then Admin else User,
      if admin then Active else Pending,
      today,
      if admin then Users.FirstCustomerId else "",
      None,
      if admin then Some(AdminValidity) else None,
      "", "");
    SignupBatch(profile, if admin then Some(AdminRole(uid, Admin)) else None)
  }

  /** Recognising the administrator ignores letter case: an address is the
      administrator's exactly when its lower-cased form is. */
  lemma AdminCheckIgnoresCase(email: string)
    ensures IsAdminEmail(email) <==> IsAdminEmail(Lower(email))
  {
    LowerIdempotent(email);
  }

  /** The administrator address itself, all lower case, is recognised. */
  lemma AdminAddressRecognised()
    ensures IsAdminEmail(AdminEmail)
  {
    assert forall i :: 0 <= i < |AdminEmail| ==> LowerChar(AdminEmail[i]) == AdminEmail[i];
  }

  /** With only the administrator on the roster, the first customer approved
      is given number 2. */
  lemma NextAfterAdminIsTwo(uid: string, name: string, today: Day)
    ensures var admin := Signup(uid, name, AdminEmail, today).profile;
      Users.IdNumber(Users.NextCustomerId([admin])) == Some(2)
  {
    var admin := Signup(uid, name, AdminEmail, today).profile;
    AdminAddressRecognised();
    assert admin.customerId == Users.FirstCustomerId;
    Users.FirstCustomerNumber();
    assert Users.CustomerNumber([admin][0]) == Some(1);
    var m := MaxOf([admin], Users.CustomerNumber);
    assert m == Some(1);
  }

  // ---------------------------------------------------------------------------
  // The sign-in gate

  const ApprovalMessage := "Your account requires admin approval."
  const InactiveMessage := "Your account is inactive or expired. Please contact an administrator."
  const NoRecordMessage := "No user record found. Please sign up."

  datatype LoginOutcome = Dashboard | SignedOut(message: string)

  /** What follows a sign-in, given the account's profile if it has one. */
  function Gate(profile: Option<UserProfile>): (r: LoginOutcome)
    ensures r.Dashboard? <==> profile.Some? && profile.value.status == Active
    ensures profile.None? ==> r == SignedOut(NoRecordMessage)
    ensures profile.Some? && profile.value.status in {Inactive, Expired} ==> r == SignedOut(InactiveMessage)
    ensures profile.Some? && profile.value.status == Pending ==> r == SignedOut(ApprovalMessage)
  {
    match profile
    case None => SignedOut(NoRecordMessage)
    case Some(p) =>
      if p.status == Active && (p.role.Admin? || p.role.User?) then Dashboard
      else if p.status == Inactive || p.status == Expired then SignedOut(InactiveMessage)
      else SignedOut(ApprovalMessage)
  }

  /** A new account: the administrator goes straight in, anyone else is turned
      away until approved, and approval (with a validity date) lets them in. */
  lemma SignupThenApproval(users: seq<UserProfile>, uid: string, name: string, email: string, today: Day, validity: Day)
    ensures var p := Signup(uid, name, email, today).profile;
      (Gate(Some(p)).Dashboard? <==> IsAdminEmail(email))
      && (!IsAdminEmail(email) ==> Gate(Some(p)) == SignedOut(ApprovalMessage))
      && Gate(Some(Users.Approve(users + [p], uid, Some(validity)).value[|users|])).Dashboard?
  {
  }

  /** Without approval a new non-administrator stays out however often they
      try: no step of the gate changes the profile. */
  lemma PendingStaysOut(uid: string, name: string, email: string, today: Day)
    requires !IsAdminEmail(email)
    ensures Gate(Some(Signup(uid, name, email, today).profile)) == SignedOut(ApprovalMessage)
  {
  }
}

/** User administration: the next customer id, approving a pending user, the
    users table an administrator or a user sees, and the approvals queue. Both
    the users screen and the approvals screen derive the customer id with the
    same rule, modelled once here as `NextCustomerId`. */
module Users {
  import opened Wrappers
  import opened Text
  import opened Seqs
  import opened Calendar
  import opened Domain

  // ---------------------------------------------------------------------------
  // Customer ids

  const CustomerPrefix := "G-"
  const FirstCustomerId := "G-001"

  /** `parseInt(id.substring(2), 10)` for a set customer id starting with "G-";
      None for an unset id, another prefix or a non-numeric suffix. */
  function IdNumber(id: string): Option<nat> {
    if id != "" && StartsWith(id, CustomerPrefix) then ParseLeadingInt(id[2..]) else None
  }

  function CustomerNumber(u: UserProfile): Option<nat> {
    IdNumber(u.customerId)
  }

  /** The id given to the next approved user: "G-001" when no user holds a
      parseable "G-" id, otherwise "G-" and one more than the largest such
      number, zero-padded to at least three digits. */
  function NextCustomerId(users: seq<UserProfile>): (r: string)
    ensures StartsWith(r, CustomerPrefix)
    ensures MaxOf(users, CustomerNumber).None? ==> r == FirstCustomerId
    ensures MaxOf(users, CustomerNumber).Some? ==>
      IdNumber(r) == Some(MaxOf(users, CustomerNumber).value + 1) && |r| >= 5
  {
    match MaxOf(users, CustomerNumber)
    case None => FirstCustomerId
    case Some(m) =>
      var digits := PadStart(NatToString(m + 1), 3, '0');
      PaddedNumberRoundTrip(m + 1, 3);
      assert (CustomerPrefix + digits)[2..] == digits;
      CustomerPrefix + digits
  }

  /** "G-001" reads back as customer number 1. */
  lemma FirstCustomerNumber()
    ensures IdNumber(FirstCustomerId) == Some(1)
  {
    var d := FirstCustomerId[2..];
    assert NatToString(1) == "1";
    assert Repeat('0', 2) == "00" by {
      assert Repeat('0', 1) == "0";
    }
    assert d == PadStart(NatToString(1), 3, '0');
    PaddedNumberRoundTrip(1, 3);
  }

  /** The new id differs from every id already held, so approvals never hand
      out an id twice. */
  lemma NextCustomerIdIsNew(users: seq<UserProfile>, i: int)
    requires 0 <= i < |users|
    ensures users[i].customerId != NextCustomerId(users)
  {
    var r := NextCustomerId(users);
    if users[i].customerId == r {
      assert CustomerNumber(users[i]) == IdNumber(r);
      if MaxOf(users, CustomerNumber).None? {
        FirstCustomerNumber();
      }
    }
  }

  // ---------------------------------------------------------------------------
  // Approval

  const ValidityMessage := "Please select a validity date."

  /** The user after approval with customer id `cid` and validity `validity`. */
  function Approved(u: UserProfile, cid: string, validity: Day): UserProfile {
    u.(status := Active, customerId := cid, validityDate := Some(validity))
  }

  /** Approving the selected user: without a validity date nothing is written;
      otherwise that user becomes Active with the next customer id and the
      chosen validity day, and every other user is unchanged. */
  function Approve(users: seq<UserProfile>, selectedId: string, validity: Option<Day>): (r: Result<seq<UserProfile>, string>)
    ensures r.Failure? <==> validity.None?
    ensures r.Failure? ==> r.error == ValidityMessage
    ensures r.Success? ==> |r.value| == |users|
    ensures r.Success? ==> forall i :: 0 <= i < |users| && users[i].id != selectedId ==> r.value[i] == users[i]
    ensures r.Success? ==> forall i :: 0 <= i < |users| && users[i].id == selectedId ==>
      r.value[i].status == Active && r.value[i].customerId == NextCustomerId(users)
      && r.value[i].validityDate == validity
      && r.value[i] == users[i].(status := Active, customerId := NextCustomerId(users), validityDate := validity)
  {
    match validity
    case None => Failure(ValidityMessage)
    case Some(v) =>
      var cid := NextCustomerId(users);
      Success(Map(users, (u: UserProfile) => if u.id == selectedId then Approved(u, cid, v) else u))
  }

  /** The table's action menu offers approval only to pending users. */
  predicate ApproveOffered(u: UserProfile) {
    u.status == Pending
  }

  function PendingTest(): UserProfile -> bool {
    (u: UserProfile) => u.status == Pending
  }

  /** The approvals queue: the pending users. */
  function PendingUsers(users: seq<UserProfile>): (r: seq<UserProfile>)
    ensures forall i :: 0 <= i < |r| ==> r[i] in users && r[i].status == Pending
    ensures forall i :: 0 <= i < |users| && users[i].status == Pending ==> users[i] in r
  {
    FilterMembers(users, PendingTest());
    Filter(users, PendingTest())
  }

  function IdIsNot(id: string): UserProfile -> bool {
    (u: UserProfile) => u.id != id
  }

  /** After an approval the approved user leaves the queue, no longer offered
      approval, and the rest of the queue is as before. */
  lemma ApprovalLeavesQueue(users: seq<UserProfile>, selectedId: string, validity: Day)
    ensures PendingUsers(Approve(users, selectedId, Some(validity)).value)
            == Filter(PendingUsers(users), IdIsNot(selectedId))
  {
    var after := Approve(users, selectedId, Some(validity)).value;
    PendingAfterApproval(users, after, selectedId);
    FilterCommute(users, IdIsNot(selectedId), PendingTest());
  }

  /** The pending users of the approved roster are the pending users of the old
      roster other than the approved one. */
  lemma PendingAfterApproval(users: seq<UserProfile>, after: seq<UserProfile>, selectedId: string)
    requires |after| == |users|
    requires forall i :: 0 <= i < |users| && users[i].id != selectedId ==> after[i] == users[i]
    requires forall i :: 0 <= i < |users| && users[i].id == selectedId ==> after[i].status == Active
    ensures Filter(after, PendingTest()) == Filter(Filter(users, IdIsNot(selectedId)), PendingTest())
  {
    FilterAfterUpdate(users, after, IdIsNot(selectedId), PendingTest());
  }

  /** Once approved, the user is no longer offered approval. */
  lemma ApprovedNotOffered(users: seq<UserProfile>, selectedId: string, validity: Day, i: int)
    requires 0 <= i < |users| && users[i].id == selectedId
    ensures !ApproveOffered(Approve(users, selectedId, Some(validity)).value[i])
  {
  }

  // ---------------------------------------------------------------------------
  // What each viewer sees

  /** The users table: the whole roster for an administrator, the viewer's own
      record for anyone else, nothing without a profile. */
  function UsersShown(viewer: Option<UserProfile>, users: seq<UserProfile>): (r: seq<UserProfile>)
    ensures viewer.Some? && viewer.value.role == Admin ==> r == users
    ensures viewer.Some? && viewer.value.role != Admin ==> r == [viewer.value]
    ensures viewer.None? ==> r == []
  {
    match viewer
    case None => []
    case Some(v) => if v.role == Admin then users else [v]
  }

  /** A user who is not an administrator sees no one else's record. */
  lemma NonAdminSeesOnlySelf(viewer: UserProfile, users: seq<UserProfile>)
    requires viewer.role != Admin
    ensures forall u :: u in UsersShown(Some(viewer), users) ==> u.id == viewer.id
  {
  }

  const AccessDeniedMessage := "You do not have permission to view this page."

  /** The approvals screen: the pending queue for an administrator, Access
      Denied for anyone else. */
  function ApprovalsView(viewer: Option<UserProfile>, users: seq<UserProfile>): (r: Result<seq<UserProfile>, string>)
    ensures r.Success? <==> viewer.Some? && viewer.value.role == Admin
    ensures r.Failure? ==> r.error == AccessDeniedMessage
    ensures r.Success? ==> r.value == PendingUsers(users)
  {
    if viewer.Some? && viewer.value.role == Admin then Success(PendingUsers(users))
    else Failure(AccessDeniedMessage)
  }
}

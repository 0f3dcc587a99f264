/** Maintenance-contract (AMC) renewals: a user's renewal request, the screen
    that holds back a second request while one awaits approval, and the
    administrator's approval, which extends the user's validity and closes the
    request in one batch. */
module Renewals {
  import opened Wrappers
  import opened Seqs
  import opened Calendar
  import opened Domain
  import Users

  // ---------------------------------------------------------------------------
  // The user's request

  const LoginMessage := "You must be logged in to submit a renewal."
  const InvalidMessage := "Please enter a valid amount and date."

  /** A renewal request from the signed-in user `uid`: it needs the user's
      profile, a positive amount and a payment date. The request starts
      Pending and carries the user's name and customer id. */
  function Request(uid: string, profile: Option<UserProfile>, amount: int, date: Option<Day>, mode: PaymentMode,
                   now: Instant, newId: string): (r: Result<AmcRenewal, string>)
    ensures profile.None? ==> r == Failure(LoginMessage)
    ensures profile.Some? ==> (r.Failure? <==> amount <= 0 || date.None?)
    ensures r.Failure? ==> r.error in {LoginMessage, InvalidMessage}
    ensures r.Success? ==>
      r.value.status == RenewalPending && r.value.userId == uid && r.value.amount == amount && r.value.amount > 0
      && Some(r.value.date) == date && r.value.userName == profile.value.name
      && r.value.customerId == profile.value.customerId && r.value.submittedAt == now
  {
    match profile
    case None => Failure(LoginMessage)
    case Some(p) =>
      if amount <= 0 || date.None? then Failure(InvalidMessage)
      else Success(AmcRenewal(newId, uid, p.name, p.customerId, date.value, amount, mode, RenewalPending, now))
  }

  function PendingTest(uid: string): AmcRenewal -> bool {
    (a: AmcRenewal) => a.userId == uid && a.status == RenewalPending
  }

  /** The user's requests still awaiting approval. */
  function PendingFor(renewals: seq<AmcRenewal>, uid: string): (r: seq<AmcRenewal>)
    ensures forall a :: a in r <==> a in renewals && a.userId == uid && a.status == RenewalPending
  {
    FilterMembers(renewals, PendingTest(uid));
    Filter(renewals, PendingTest(uid))
  }

  datatype RenewalScreen = RequestForm | AwaitingApproval(request: AmcRenewal)

  /** The renewal screen: while a request of the user's awaits approval it is
      shown instead of the form. */
  function Screen(renewals: seq<AmcRenewal>, uid: string): (r: RenewalScreen)
    ensures r.RequestForm? <==> forall a :: a in renewals ==> !(a.userId == uid && a.status == RenewalPending)
    ensures r.AwaitingApproval? ==> r.request in renewals && r.request.userId == uid && r.request.status == RenewalPending
  {
    var pending := PendingFor(renewals, uid);
    if |pending| == 0 then RequestForm
    else
      assert pending[0] in pending;
      AwaitingApproval(pending[0])
  }

  /** A request sent from the form leaves exactly one pending request of the
      user's, which the screen then shows in place of the form. */
  lemma RequestFromForm(renewals: seq<AmcRenewal>, request: AmcRenewal)
    requires Screen(renewals, request.userId).RequestForm?
    requires request.status == RenewalPending
    ensures PendingFor(renewals + [request], request.userId) == [request]
    ensures Screen(renewals + [request], request.userId) == AwaitingApproval(request)
  {
    var uid := request.userId;
    FilterAppend(renewals, [request], PendingTest(uid));
    FilterNone(renewals, PendingTest(uid));
    assert [request][..0] == [];
  }

  // ---------------------------------------------------------------------------
  // The administrator's approval

  const ValidityMessage := "Please select a new validity date."

  /** The user after the renewal is approved with validity `validity`. */
  function Renewed(u: UserProfile, validity: Day): UserProfile {
    u.(validityDate := Some(validity), status := Active)
  }

  /** Approving the selected request with a new validity date: without either
      nothing is written; otherwise, in one batch, the request's author
      becomes Active with the new validity date and the request becomes
      Approved, and every other user and request is unchanged. */
  function Approve(users: seq<UserProfile>, renewals: seq<AmcRenewal>, selected: Option<AmcRenewal>, validity: Option<Day>)
    : (r: Result<(seq<UserProfile>, seq<AmcRenewal>), string>)
    ensures r.Failure? <==> selected.None? || validity.None?
    ensures r.Failure? ==> r.error == ValidityMessage
    ensures r.Success? ==> |r.value.0| == |users| && |r.value.1| == |renewals|
    ensures r.Success? ==> forall i :: 0 <= i < |users| ==>
      r.value.0[i] == if users[i].id == selected.value.userId then Renewed(users[i], validity.value) else users[i]
    ensures r.Success? ==> forall i :: 0 <= i < |renewals| ==>
      r.value.1[i] == if renewals[i].id == selected.value.id then renewals[i].(status := Approved) else renewals[i]
  {
    if selected.None? || validity.None? then Failure(ValidityMessage)
    else
      var s := selected.value;
      var v := validity.value;
      Success((Map(users, (u: UserProfile) => if u.id == s.userId then Renewed(u, v) else u),
               Map(renewals, (a: AmcRenewal) => if a.id == s.id then a.(status := Approved) else a)))
  }

  /** The table offers Approve only on a Pending request. */
  predicate ApproveOffered(a: AmcRenewal) {
    a.status == RenewalPending
  }

  function IdIsNot(id: string): AmcRenewal -> bool {
    (a: AmcRenewal) => a.id != id
  }

  /** After approval the request leaves its author's pending requests and the
      author's other pending requests stay; an approved request is never
      offered for approval again. */
  lemma ApprovalClosesRequest(users: seq<UserProfile>, renewals: seq<AmcRenewal>, selected: AmcRenewal, validity: Day, uid: string)
    ensures var after := Approve(users, renewals, Some(selected), Some(validity)).value.1;
      PendingFor(after, uid) == Filter(PendingFor(renewals, uid), IdIsNot(selected.id))
      && forall i :: 0 <= i < |after| && renewals[i].id == selected.id ==> !ApproveOffered(after[i])
  {
    var after := Approve(users, renewals, Some(selected), Some(validity)).value.1;
    PendingAfterApproval(renewals, after, selected.id, uid);
  }

  /** A user's pending requests after an update that approves the requests
      with `id` and changes nothing else: the old ones without them. */
  lemma PendingAfterApproval(renewals: seq<AmcRenewal>, after: seq<AmcRenewal>, id: string, uid: string)
    requires |after| == |renewals|
    requires forall i :: 0 <= i < |renewals| ==>
      after[i] == if renewals[i].id == id then renewals[i].(status := Approved) else renewals[i]
    ensures Filter(after, PendingTest(uid)) == Filter(Filter(renewals, PendingTest(uid)), IdIsNot(id))
  {
    FilterAfterUpdate(renewals, after, IdIsNot(id), PendingTest(uid));
    FilterCommute(renewals, IdIsNot(id), PendingTest(uid));
  }

  /** The approved request's author is Active until the new validity date. */
  lemma ApprovalRenewsAuthor(users: seq<UserProfile>, renewals: seq<AmcRenewal>, selected: AmcRenewal, validity: Day, i: int)
    requires 0 <= i < |users| && users[i].id == selected.userId
    ensures var u := Approve(users, renewals, Some(selected), Some(validity)).value.0[i];
      u.status == Active && u.validityDate == Some(validity)
  {
  }

  /** The renewals screen: every request for an administrator, Access Denied
      for anyone else. */
  function RenewalsView(viewer: Option<UserProfile>, renewals: seq<AmcRenewal>): (r: Result<seq<AmcRenewal>, string>)
    ensures r.Success? <==> viewer.Some? && viewer.value.role == Admin
    ensures r.Failure? ==> r.error == Users.AccessDeniedMessage
    ensures r.Success? ==> r.value == renewals
  {
    if viewer.Some? && viewer.value.role == Admin then Success(renewals)
    else Failure(Users.AccessDeniedMessage)
  }
}

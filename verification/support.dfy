/** Support tickets: raising a ticket, the list a user sees, the
    administrator's searchable open and closed lists, and closing and
    re-opening a ticket. Times are instants in milliseconds. */
module Support {
  import opened Wrappers
  import opened Text
  import opened Seqs
  import opened Calendar
  import opened Domain

  /** Closed tickets drop out of view fifteen days after they were closed. */
  const FifteenDays := 15 * 86_400_000

  // ---------------------------------------------------------------------------
  // Raising a ticket

  const LoginMessage := "You must be logged in."
  const FieldsMessage := "Please fill out all fields."

  /** A new ticket: the signed-in user (uid `uid`, profile `profile`) must have
      a profile, and the subject and description must be filled in. The
      ticket starts Open and not closed, carries the user's id, name, email
      and customer id (None while the profile has none), and is stamped `now`. */
  function Raise(uid: string, profile: Option<UserProfile>, subject: string, description: string, now: Instant, newId: string)
    : (r: Result<SupportTicket, string>)
    ensures profile.None? ==> r == Failure(LoginMessage)
    ensures profile.Some? ==> (r.Failure? <==> subject == "" || description == "")
    ensures r.Failure? ==> r.error in {LoginMessage, FieldsMessage}
    ensures r.Success? ==>
      r.value.status == Open && r.value.closedAt.None? && r.value.submittedAt == now
      && r.value.userId == uid && r.value.userName == profile.value.name && r.value.userEmail == profile.value.email
      && r.value.subject == subject && r.value.description == description
      && (profile.value.customerId != "" <==> r.value.customerId == Some(profile.value.customerId))
  {
    match profile
    case None => Failure(LoginMessage)
    case Some(p) =>
      if subject == "" || description == "" then Failure(FieldsMessage)
      else
        var cid := if p.customerId == "" then None else Some(p.customerId);
        Success(SupportTicket(newId, uid, p.name, p.email, cid, subject, description, Open, now, None))
  }

  // ---------------------------------------------------------------------------
  // The user's list

  /** A ticket stays in view unless it was closed at or before fifteen days
      ago; a Closed ticket without a closing time stays in view. */
  predicate Visible(t: SupportTicket, now: Instant) {
    if t.status == Closed && t.closedAt.Some? then t.closedAt.value > now - FifteenDays else true
  }

  function MineAndVisible(uid: string, now: Instant): SupportTicket -> bool {
    (t: SupportTicket) => t.userId == uid && Visible(t, now)
  }

  function Submitted(t: SupportTicket): int {
    t.submittedAt
  }

  /** The user's tickets in view, newest first; tickets submitted at the same
      instant keep their order. */
  function VisibleTickets(tickets: seq<SupportTicket>, uid: string, now: Instant): (r: seq<SupportTicket>)
    ensures forall t :: t in r <==> t in tickets && t.userId == uid && Visible(t, now)
    ensures multiset(r) == multiset(Filter(tickets, MineAndVisible(uid, now)))
    ensures forall i, j :: 0 <= i < j < |r| ==> r[i].submittedAt >= r[j].submittedAt
    ensures forall k :: Filter(r, KeyIs(Negated(Submitted), k))
                        == Filter(Filter(tickets, MineAndVisible(uid, now)), KeyIs(Negated(Submitted), k))
  {
    var mine := Filter(tickets, MineAndVisible(uid, now));
    FilterMembers(tickets, MineAndVisible(uid, now));
    SortPermutes(mine, Negated(Submitted));
    SortIsStableEverywhere(mine, Negated(Submitted));
    SortMembers(mine, Negated(Submitted));
    SortedDescending(SortByKey(mine, Negated(Submitted)), Submitted);
    SortByKey(mine, Negated(Submitted))
  }

  /** A ticket raised now is in its author's list. */
  lemma RaisedTicketVisible(tickets: seq<SupportTicket>, uid: string, profile: UserProfile, subject: string,
                            description: string, now: Instant, newId: string)
    requires subject != "" && description != ""
    ensures Raise(uid, Some(profile), subject, description, now, newId).value
            in VisibleTickets(tickets + [Raise(uid, Some(profile), subject, description, now, newId).value], uid, now)
  {
  }

  // ---------------------------------------------------------------------------
  // The administrator's lists

  /** The search over a ticket's author name, email, subject and customer id,
      ignoring case. */
  predicate TicketMatches(t: SupportTicket, term: string) {
    || ContainsIgnoreCase(t.userName, term)
    || ContainsIgnoreCase(t.userEmail, term)
    || ContainsIgnoreCase(t.subject, term)
    || (t.customerId.Some? && ContainsIgnoreCase(t.customerId.value, term))
  }

  function MatchTest(term: string): SupportTicket -> bool {
    (t: SupportTicket) => TicketMatches(t, term)
  }

  /** Every ticket for an empty search, otherwise the matching ones in order. */
  function Search(tickets: seq<SupportTicket>, term: string): (r: seq<SupportTicket>)
    ensures term == "" ==> r == tickets
    ensures term != "" ==> forall t :: t in r <==> t in tickets && TicketMatches(t, term)
  {
    if term == "" then tickets
    else
      FilterMembers(tickets, MatchTest(term));
      Filter(tickets, MatchTest(term))
  }

  function IsOpen(): SupportTicket -> bool {
    (t: SupportTicket) => t.status == Open
  }

  /** A Closed ticket with a closing time within the last fifteen days. */
  predicate RecentlyClosed(t: SupportTicket, now: Instant) {
    t.status == Closed && t.closedAt.Some? && t.closedAt.value > now - FifteenDays
  }

  function RecentlyClosedTest(now: Instant): SupportTicket -> bool {
    (t: SupportTicket) => RecentlyClosed(t, now)
  }

  function ClosedKey(t: SupportTicket): int {
    t.closedAt.GetOr(0)
  }

  /** The open tab: the Open tickets, newest submission first; tickets
      submitted at the same instant keep their order. */
  function OpenTickets(tickets: seq<SupportTicket>): (r: seq<SupportTicket>)
    ensures forall t :: t in r <==> t in tickets && t.status == Open
    ensures multiset(r) == multiset(Filter(tickets, IsOpen()))
    ensures forall i, j :: 0 <= i < j < |r| ==> r[i].submittedAt >= r[j].submittedAt
    ensures forall k :: Filter(r, KeyIs(Negated(Submitted), k))
                        == Filter(Filter(tickets, IsOpen()), KeyIs(Negated(Submitted), k))
  {
    var open := Filter(tickets, IsOpen());
    FilterMembers(tickets, IsOpen());
    SortPermutes(open, Negated(Submitted));
    SortIsStableEverywhere(open, Negated(Submitted));
    SortMembers(open, Negated(Submitted));
    SortedDescending(SortByKey(open, Negated(Submitted)), Submitted);
    SortByKey(open, Negated(Submitted))
  }

  /** The closed tab: the tickets closed within the last fifteen days, most
      recently closed first; tickets closed at the same instant keep their
      order. */
  function ClosedTickets(tickets: seq<SupportTicket>, now: Instant): (r: seq<SupportTicket>)
    ensures forall t :: t in r <==> t in tickets && RecentlyClosed(t, now)
    ensures multiset(r) == multiset(Filter(tickets, RecentlyClosedTest(now)))
    ensures forall i, j :: 0 <= i < j < |r| ==>
      r[i].closedAt.Some? && r[j].closedAt.Some? && r[i].closedAt.value >= r[j].closedAt.value
    ensures forall k :: Filter(r, KeyIs(Negated(ClosedKey), k))
                        == Filter(Filter(tickets, RecentlyClosedTest(now)), KeyIs(Negated(ClosedKey), k))
  {
    var closed := Filter(tickets, RecentlyClosedTest(now));
    FilterMembers(tickets, RecentlyClosedTest(now));
    SortPermutes(closed, Negated(ClosedKey));
    SortIsStableEverywhere(closed, Negated(ClosedKey));
    SortMembers(closed, Negated(ClosedKey));
    var r := SortByKey(closed, Negated(ClosedKey));
    SortedDescending(r, ClosedKey);
    assert forall i :: 0 <= i < |r| ==> r[i] in closed;
    r
  }

  /** No ticket is on both tabs. */
  lemma TabsDisjoint(tickets: seq<SupportTicket>, now: Instant)
    ensures forall t :: t in OpenTickets(tickets) ==> t !in ClosedTickets(tickets, now)
  {
  }

  /** The tabs hold exactly the tickets a user would still see, except a Closed
      ticket without a closing time, which a user sees and neither tab shows. */
  lemma TabsCoverVisible(tickets: seq<SupportTicket>, now: Instant, t: SupportTicket)
    requires t in tickets
    ensures t in OpenTickets(tickets) || t in ClosedTickets(tickets, now)
            <==> Visible(t, now) && !(t.status == Closed && t.closedAt.None?)
  {
  }

  // ---------------------------------------------------------------------------
  // Closing and re-opening

  /** The ticket after its status is set: closing stamps `now` as the closing
      time, re-opening clears it. */
  function SetStatus(t: SupportTicket, status: TicketStatus, now: Instant): (r: SupportTicket)
    ensures r.status == status
    ensures status == Closed <==> r.closedAt.Some?
    ensures status == Closed ==> r.closedAt == Some(now)
    ensures r.(status := t.status, closedAt := t.closedAt) == t
  {
    t.(status := status, closedAt := if status == Closed then Some(now) else None)
  }

  function UpdateStatus(tickets: seq<SupportTicket>, id: string, status: TicketStatus, now: Instant): (r: seq<SupportTicket>)
    ensures |r| == |tickets|
    ensures forall i :: 0 <= i < |r| ==> r[i] == if tickets[i].id == id then SetStatus(tickets[i], status, now) else tickets[i]
  {
    Map(tickets, (t: SupportTicket) => if t.id == id then SetStatus(t, status, now) else t)
  }

  /** Re-opening a ticket that was closed returns a newly raised ticket to the
      state it was raised in. */
  lemma ReopenUndoesClose(t: SupportTicket, closedAt: Instant, reopenedAt: Instant)
    requires t.status == Open && t.closedAt.None?
    ensures SetStatus(SetStatus(t, Closed, closedAt), Open, reopenedAt) == t
  {
  }

  /** A ticket just closed moves from the open tab to the closed tab. */
  lemma ClosingMovesTab(t: SupportTicket, now: Instant)
    ensures SetStatus(t, Closed, now) in ClosedTickets([SetStatus(t, Closed, now)], now)
    ensures SetStatus(t, Closed, now) !in OpenTickets([SetStatus(t, Closed, now)])
  {
  }

  datatype MenuAction = MarkClosed | Reopen

  /** The row menu: Close for an Open ticket, Re-open for a Closed one. */
  function Menu(t: SupportTicket): (r: seq<MenuAction>)
    ensures |r| == 1
    ensures r[0] == MarkClosed <==> t.status == Open
  {
    if t.status == Open then [MarkClosed] else [Reopen]
  }

  function ActionStatus(a: MenuAction): TicketStatus {
    if a == MarkClosed then Closed else Open
  }

  /** Every action the menu offers changes the ticket's status. */
  lemma MenuFlipsStatus(t: SupportTicket, now: Instant)
    ensures forall a :: a in Menu(t) ==> SetStatus(t, ActionStatus(a), now).status != t.status
  {
  }
}

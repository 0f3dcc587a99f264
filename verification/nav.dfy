/** The dashboard sidebar: which items a user is shown, which item is
    highlighted for the current path, and the count badges on the
    administrator's queues. */
module Nav {
  import opened Wrappers
  import opened Seqs
  import opened Text
  import opened Domain
  import Users
  import Renewals
  import Support

  /** A sidebar entry; `badge` names the queue whose count it may carry. */
  datatype NavItem = NavItem(href: string, title: string, badge: Option<Queue>)

  datatype Queue = UserApprovals | AmcRenewals | SupportTickets

  const DashboardHref := "/dashboard"

  const BaseItems := [
    NavItem(DashboardHref, "Dashboard", None),
    NavItem("/dashboard/movement", "Movement", None),
    NavItem("/dashboard/milk-records", "Milk Records", None),
    NavItem("/dashboard/finance", "Finance", None),
    NavItem("/dashboard/ledger", "Ledger", None),
    NavItem("/dashboard/reports", "Reports", None)
  ]

  const MasterItems := [
    NavItem("/dashboard/master/animals", "Animals", None),
    NavItem("/dashboard/master/accounts", "Accounts", None)
  ]

  const AdminItems := [
    NavItem("/dashboard/users", "Users", None),
    NavItem("/dashboard/user-approvals", "User Approvals", Some(UserApprovals)),
    NavItem("/dashboard/amc", "AMC Renewals", Some(AmcRenewals)),
    NavItem("/dashboard/support-tickets", "Support Tickets", Some(SupportTickets))
  ]

  const SupportItem := NavItem("/dashboard/support", "Support", None)
  const SettingsItem := NavItem("/dashboard/settings", "Settings", None)

  /** The main list: the base and master items, then the administrator's
      items for an administrator only. */
  function MainItems(isAdmin: bool): (r: seq<NavItem>)
    ensures |r| == |BaseItems| + |MasterItems| + (if isAdmin then |AdminItems| else 0)
    ensures r[..|BaseItems|] == BaseItems
    ensures r[|BaseItems|..|BaseItems| + |MasterItems|] == MasterItems
    ensures isAdmin ==> r[|BaseItems| + |MasterItems|..] == AdminItems
  {
    if isAdmin then BaseItems + MasterItems + AdminItems else BaseItems + MasterItems
  }

  /** A main-list item is highlighted on its own path and below it, except the
      dashboard home, which is highlighted only on its own path. */
  predicate IsActive(path: string, href: string) {
    path == href || (href != DashboardHref && StartsWith(path, href))
  }

  /** A footer item is highlighted only on its own path. */
  predicate FooterActive(path: string, href: string) {
    path == href
  }

  lemma DashboardActiveOnlyAtHome(path: string)
    ensures IsActive(path, DashboardHref) <==> path == DashboardHref
  {
  }

  /** On the admin's support-tickets path the Support Tickets item is lit,
      while the Support footer item, whose href begins that path, is not. */
  lemma SupportFooterNotLitOnTickets()
    ensures IsActive("/dashboard/support-tickets", AdminItems[3].href)
    ensures StartsWith("/dashboard/support-tickets", SupportItem.href)
    ensures !FooterActive("/dashboard/support-tickets", SupportItem.href)
  {
    assert "/dashboard/support-tickets"[..|SupportItem.href|] == SupportItem.href;
  }

  // ---------------------------------------------------------------------------
  // Badges

  /** The sizes of the administrator's three queues, all zero for anyone else
      (whose queries are never issued). */
  datatype Counts = Counts(pendingUsers: nat, pendingRenewals: nat, openTickets: nat)

  function IsPendingRenewal(): AmcRenewal -> bool {
    (a: AmcRenewal) => a.status == RenewalPending
  }

  function QueueCounts(isAdmin: bool, users: seq<UserProfile>, renewals: seq<AmcRenewal>, tickets: seq<SupportTicket>)
    : (r: Counts)
    ensures !isAdmin ==> r == Counts(0, 0, 0)
    ensures isAdmin ==> r.pendingUsers == Count(users, Users.PendingTest())
    ensures isAdmin ==> r.pendingRenewals == Count(renewals, IsPendingRenewal())
    ensures isAdmin ==> r.openTickets == Count(tickets, Support.IsOpen())
  {
    if !isAdmin then Counts(0, 0, 0)
    else Counts(|Users.PendingUsers(users)|, |Filter(renewals, IsPendingRenewal())|, |Filter(tickets, Support.IsOpen())|)
  }

  function QueueSize(c: Counts, q: Queue): nat {
    match q
    case UserApprovals => c.pendingUsers
    case AmcRenewals => c.pendingRenewals
    case SupportTickets => c.openTickets
  }

  /** The badge beside an item: the size of the item's queue, shown only when
      the queue is not empty. */
  function Badge(item: NavItem, c: Counts): (r: Option<nat>)
    ensures r.Some? <==> item.badge.Some? && QueueSize(c, item.badge.value) > 0
    ensures r.Some? ==> r.value == QueueSize(c, item.badge.value)
  {
    match item.badge
    case None => None
    case Some(q) => if QueueSize(c, q) > 0 then Some(QueueSize(c, q)) else None
  }

  /** Someone who is not an administrator sees no badge. */
  lemma NonAdminSeesNoBadge(users: seq<UserProfile>, renewals: seq<AmcRenewal>, tickets: seq<SupportTicket>)
    ensures forall item :: item in MainItems(false) ==> Badge(item, QueueCounts(false, users, renewals, tickets)).None?
  {
  }

  /** The User Approvals badge shows exactly the number of users the approvals
      screen lists, and appears exactly when that screen is not empty. */
  lemma ApprovalsBadgeMatchesQueue(admin: UserProfile, users: seq<UserProfile>, renewals: seq<AmcRenewal>, tickets: seq<SupportTicket>)
    requires admin.role == Admin
    ensures var b := Badge(AdminItems[1], QueueCounts(true, users, renewals, tickets));
      var screen := Users.ApprovalsView(Some(admin), users).value;
      (b.Some? <==> |screen| > 0) && (b.Some? ==> b.value == |screen|)
  {
  }

  /** The Support Tickets badge counts exactly the tickets on the open tab. */
  lemma TicketsBadgeMatchesOpenTab(users: seq<UserProfile>, renewals: seq<AmcRenewal>, tickets: seq<SupportTicket>)
    ensures QueueCounts(true, users, renewals, tickets).openTickets == |Support.OpenTickets(tickets)|
  {
  }
}

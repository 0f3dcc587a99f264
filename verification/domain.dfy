/** The documents the application stores (the entity types of the
    application's type definitions), with dates as calendar days or instants,
    amounts and quantities as integers in minor units, and optional fields as
    `Option`. A string field that the application writes as '' when unset is
    kept as a string with "" meaning unset. */
module Domain {
  import opened Wrappers
  import opened Calendar

  /** A form dialog either creates a new document or edits the document with
      this id. */
  datatype DialogMode = Create | Edit(selectedId: string)

  datatype Gender = Male | Female

  datatype HealthStatus = Healthy | Sick | UnderTreatment

  /** An animal of the herd register. `ownerId` is the uid of the owning user. */
  datatype Animal = Animal(
    id: string,
    ownerId: Option<string>,
    animalType: string,
    govtTagNo: string,
    breed: string,
    color: string,
    gender: Gender,
    yearOfBirth: int,
    healthStatus: HealthStatus,
    tagColor: string,
    identificationMark: Option<string>,
    imageUrl: Option<string>)

  datatype MovementType = Entry | Exit

  /** An arrival or departure of an animal; `date` is the full instant the
      application stores (an ISO timestamp), so movements on one day are
      ordered by time of day. */
  datatype Movement = Movement(
    id: string,
    animalId: string,
    kind: MovementType,
    date: Instant,
    reason: string)

  datatype Role = Admin | User

  datatype UserStatus = Pending | Active | Inactive | Expired

  /** A user profile. `customerId` is "" until an administrator approves the
      user; `validityDate` is None while it is the empty string. */
  datatype UserProfile = UserProfile(
    id: string,
    name: string,
    email: string,
    role: Role,
    status: UserStatus,
    signupDate: Day,
    customerId: string,
    photoURL: Option<string>,
    validityDate: Option<Day>,
    address: string,
    mobileNo: string)

  /** The transaction kinds. `Transfer` is not among the declared kinds, but the
      finance screen's edit path stores the form's kind, which can be it. */
  datatype RecordType = Receipt | Payment | Expense | MilkRecord | BankRecord | MilkSale | Transfer

  /** A transaction of the finance log. */
  datatype FinancialRecord = FinancialRecord(
    id: string,
    date: Day,
    recordType: RecordType,
    category: Option<string>,
    amount: int,
    description: string,
    customerName: Option<string>,
    quantity: Option<int>,
    rate: Option<int>,
    accountId: Option<string>,
    invoiceNo: Option<string>)

  datatype Session = Morning | Evening

  /** One animal's yield in one milking session. */
  datatype MilkEntry = MilkEntry(
    id: string,
    date: Day,
    animalId: string,
    animalTag: string,
    animalBreed: string,
    quantity: int,
    time: Session)

  datatype PaymentMode = RTGS | NEFT | UPI | Cash | Other

  datatype RenewalStatus = RenewalPending | Approved

  /** A request to renew a user's maintenance contract (AMC). */
  datatype AmcRenewal = AmcRenewal(
    id: string,
    userId: string,
    userName: string,
    customerId: string,
    date: Day,
    amount: int,
    transactionType: PaymentMode,
    status: RenewalStatus,
    submittedAt: Instant)

  datatype AccountType = Customer | Bank | ExpenseAccount

  /** A ledger account: a customer, a bank account or an expense head. */
  datatype Account = Account(id: string, name: string, accountType: AccountType)

  datatype TicketStatus = Open | Closed

  /** A support request; `closedAt` is None (null) unless it was closed. */
  datatype SupportTicket = SupportTicket(
    id: string,
    userId: string,
    userName: string,
    userEmail: string,
    customerId: Option<string>,
    subject: string,
    description: string,
    status: TicketStatus,
    submittedAt: Instant,
    closedAt: Option<Instant>)

  /** The stored spelling of the enumerated fields. */
  function GenderName(g: Gender): string {
    match g
    case Male => "Male"
    case Female => "Female"
  }

  function HealthName(h: HealthStatus): string {
    match h
    case Healthy => "Healthy"
    case Sick => "Sick"
    case UnderTreatment => "Under Treatment"
  }

  function AccountTypeName(t: AccountType): string {
    match t
    case Customer => "Customer"
    case Bank => "Bank"
    case ExpenseAccount => "Expense"
  }
}

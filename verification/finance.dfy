/** The finance screen: the type tabs, the account pickers, the transaction
    dialog (a receipt, a payment, or a transfer written as a payment and a
    receipt in one batch), the form an existing record is edited in, and the
    rule that locks transfers and milk sales against editing. */
module Finance {
  import opened Wrappers
  import opened Seqs
  import opened Calendar
  import opened Domain
  import Ledger

  const BankTransfer := "Bank Transfer"
  const RequiredFieldsMessage := "Please fill out all required fields."
  const TransferAccountsMessage := "Both \"From\" and \"To\" accounts are required for a transfer."
  const AccountMessage := "An account must be selected."
  const FailedMessage := "Failed to record transaction."

  // ---------------------------------------------------------------------------
  // Tabs and pickers

  function TypeTest(t: RecordType): FinancialRecord -> bool {
    (r: FinancialRecord) => r.recordType == t
  }

  /** A type tab (Receipts, Payments, Expenses): the records of that type in
      log order. */
  function Tab(records: seq<FinancialRecord>, t: RecordType): (r: seq<FinancialRecord>)
    ensures forall i :: 0 <= i < |r| ==> r[i] in records && r[i].recordType == t
    ensures forall i :: 0 <= i < |records| && records[i].recordType == t ==> records[i] in r
    ensures KeepsInOrder(records, TypeTest(t), r)
  {
    FilterMembers(records, TypeTest(t));
    FilterInOrder(records, TypeTest(t));
    Filter(records, TypeTest(t))
  }

  function AccountKinds(a: AccountType, b: AccountType): Account -> bool {
    (x: Account) => x.accountType == a || x.accountType == b
  }

  /** The accounts a "To" picker lists: customers and banks. */
  function ToAccounts(accounts: seq<Account>): (r: seq<Account>)
    ensures forall i :: 0 <= i < |r| ==> r[i] in accounts && r[i].accountType in {Customer, Bank}
    ensures forall i :: 0 <= i < |accounts| && accounts[i].accountType in {Customer, Bank} ==> accounts[i] in r
  {
    FilterMembers(accounts, AccountKinds(Customer, Bank));
    Filter(accounts, AccountKinds(Customer, Bank))
  }

  /** The accounts a "From" picker lists: expense heads and banks. */
  function FromAccounts(accounts: seq<Account>): (r: seq<Account>)
    ensures forall i :: 0 <= i < |r| ==> r[i] in accounts && r[i].accountType in {ExpenseAccount, Bank}
    ensures forall i :: 0 <= i < |accounts| && accounts[i].accountType in {ExpenseAccount, Bank} ==> accounts[i] in r
  {
    FilterMembers(accounts, AccountKinds(ExpenseAccount, Bank));
    Filter(accounts, AccountKinds(ExpenseAccount, Bank))
  }

  // ---------------------------------------------------------------------------
  // Account lookup

  /** `accounts.find(a => a.id === id)`: the first account with that id. */
  function FindAccount(accounts: seq<Account>, id: string): (r: Option<Account>)
    ensures r.None? <==> forall i :: 0 <= i < |accounts| ==> accounts[i].id != id
    ensures r.Some? ==> exists i :: (0 <= i < |accounts| && accounts[i] == r.value && r.value.id == id
                                     && forall j :: 0 <= j < i ==> accounts[j].id != id)
  {
    FirstWhere(accounts, AccountIdIs(id))
  }

  function AccountIdIs(id: string): Account -> bool {
    (a: Account) => a.id == id
  }

  /** The category a receipt or payment is filed under: the type of its
      account, absent when the id names no account. */
  function CategoryFor(accounts: seq<Account>, id: string): (c: Option<string>)
    ensures c.None? <==> FindAccount(accounts, id).None?
    ensures c.Some? ==> c.value == AccountTypeName(FindAccount(accounts, id).value.accountType)
  {
    match FindAccount(accounts, id)
    case None => None
    case Some(a) => Some(AccountTypeName(a.accountType))
  }

  /** The name a transfer's description uses: the account's name, or
      'account' when there is no such account or its name is empty. */
  function NameFor(accounts: seq<Account>, id: string): (n: string)
    ensures n != ""
    ensures FindAccount(accounts, id).None? ==> n == "account"
  {
    match FindAccount(accounts, id)
    case Some(a) => if a.name != "" then a.name else "account"
    case None => "account"
  }

  // ---------------------------------------------------------------------------
  // The dialog

  /** The dialog's fields. `recordType` is Receipt, Payment or Transfer in the
      form; `amount` 0 stands for an empty or zero amount field. */
  datatype TxForm = TxForm(
    date: Option<Day>,
    recordType: RecordType,
    fromAccount: Option<string>,
    toAccount: Option<string>,
    amount: int,
    description: string)

  /** The account a single record is booked to: `toAccount` for a receipt,
      `fromAccount` for anything else. */
  function BookedAccount(form: TxForm): Option<string> {
    if form.recordType == Receipt then form.toAccount else form.fromAccount
  }

  function Plain(date: Day, t: RecordType, accountId: Option<string>, amount: int, description: string,
                 category: Option<string>, id: string): FinancialRecord {
    FinancialRecord(id, date, t, category, amount, description, None, None, None, accountId, None)
  }

  /** The payment leg of a transfer, booked to the source account. */
  function PaymentLeg(form: TxForm, accounts: seq<Account>, id: string): (r: FinancialRecord)
    requires form.date.Some? && form.fromAccount.Some? && form.toAccount.Some?
    ensures r.recordType == Payment && r.accountId == form.fromAccount && r.amount == form.amount
    ensures r.category == Some(BankTransfer) && r.date == form.date.value
  {
    Plain(form.date.value, Payment, form.fromAccount, form.amount,
          "Transfer to " + NameFor(accounts, form.toAccount.value) + ": " + form.description, Some(BankTransfer), id)
  }

  /** The receipt leg of a transfer, booked to the destination account. */
  function ReceiptLeg(form: TxForm, accounts: seq<Account>, id: string): (r: FinancialRecord)
    requires form.date.Some? && form.fromAccount.Some? && form.toAccount.Some?
    ensures r.recordType == Receipt && r.accountId == form.toAccount && r.amount == form.amount
    ensures r.category == Some(BankTransfer) && r.date == form.date.value
  {
    Plain(form.date.value, Receipt, form.toAccount, form.amount,
          "Transfer from " + NameFor(accounts, form.fromAccount.value) + ": " + form.description, Some(BankTransfer), id)
  }

  /** Whether the receipt or payment is booked to a listed account, so that
      the category the write carries is defined. A write with an undefined
      field is refused by the store client, so the save fails. */
  predicate Categorised(form: TxForm, accounts: seq<Account>) {
    BookedAccount(form).Some? && CategoryFor(accounts, BookedAccount(form).value).Some?
  }

  /** The fields an edit overwrites; the record keeps its id and the fields
      the dialog does not show. */
  function Edited(r: FinancialRecord, form: TxForm, accounts: seq<Account>): FinancialRecord
    requires form.date.Some? && Categorised(form, accounts)
  {
    var acc := BookedAccount(form);
    r.(date := form.date.value, recordType := form.recordType, accountId := acc, amount := form.amount,
       description := form.description, category := CategoryFor(accounts, acc.value))
  }

  /** Saving the dialog. `ids` stands for the document ids the store
      generates. A receipt, payment or edit booked to no listed account
      carries an undefined category and fails as the write is built. */
  function Submit(store: seq<FinancialRecord>, form: TxForm, mode: DialogMode, accounts: seq<Account>, ids: nat -> string)
    : (r: Result<seq<FinancialRecord>, string>)
    ensures form.date.None? || form.amount == 0 ==> r == Failure(RequiredFieldsMessage)
    ensures form.date.Some? && form.amount != 0 && mode.Create? && form.recordType == Transfer ==>
      (r.Failure? <==> form.fromAccount.None? || form.toAccount.None?)
    ensures form.date.Some? && form.amount != 0 && mode.Create? && form.recordType != Transfer ==>
      (r.Failure? <==> !Categorised(form, accounts))
      && (BookedAccount(form).None? ==> r == Failure(AccountMessage))
      && (BookedAccount(form).Some? && r.Failure? ==> r == Failure(FailedMessage))
    ensures form.date.Some? && form.amount != 0 && mode.Edit? ==>
      (r.Failure? <==> !Categorised(form, accounts))
      && (r.Failure? ==> r == Failure(FailedMessage))
    ensures mode.Edit? && r.Success? ==> |r.value| == |store|
    ensures mode.Create? && r.Success? && form.recordType == Transfer ==>
      (|r.value| == |store| + 2 && r.value[..|store|] == store
       && r.value[|store|].recordType == Payment && r.value[|store|].accountId == form.fromAccount
       && r.value[|store| + 1].recordType == Receipt && r.value[|store| + 1].accountId == form.toAccount
       && r.value[|store|].amount == form.amount == r.value[|store| + 1].amount
       && r.value[|store|].date == r.value[|store| + 1].date
       && r.value[|store|].category == Some(BankTransfer) == r.value[|store| + 1].category)
    ensures mode.Create? && r.Success? && form.recordType != Transfer ==>
      (|r.value| == |store| + 1 && r.value[..|store|] == store
       && r.value[|store|].recordType == form.recordType && r.value[|store|].accountId == BookedAccount(form)
       && r.value[|store|].amount == form.amount
       && r.value[|store|].category == CategoryFor(accounts, BookedAccount(form).value))
  {
    if form.date.None? || form.amount == 0 then Failure(RequiredFieldsMessage)
    else
      match mode
      case Create =>
        if form.recordType == Transfer then
          if form.fromAccount.None? || form.toAccount.None? then Failure(TransferAccountsMessage)
          else Success(store + [PaymentLeg(form, accounts, ids(0)), ReceiptLeg(form, accounts, ids(1))])
        else
          (match BookedAccount(form)
           case None => Failure(AccountMessage)
           case Some(acc) =>
             if CategoryFor(accounts, acc).None? then Failure(FailedMessage)
             else Success(store + [Plain(form.date.value, form.recordType, Some(acc), form.amount, form.description,
                                         CategoryFor(accounts, acc), ids(0))]))
      case Edit(sel) =>
        if !Categorised(form, accounts) then Failure(FailedMessage)
        else Success(Map(store, (x: FinancialRecord) => if x.id == sel then Edited(x, form, accounts) else x))
  }

  /** An edit booked to a listed account changes only the selected record;
      any other edit changes nothing. */
  lemma EditTouchesOnlySelected(store: seq<FinancialRecord>, form: TxForm, sel: string, accounts: seq<Account>,
                                ids: nat -> string, i: int)
    requires form.date.Some? && form.amount != 0 && 0 <= i < |store|
    ensures Submit(store, form, Edit(sel), accounts, ids).Success? <==> Categorised(form, accounts)
    ensures Categorised(form, accounts) && store[i].id != sel ==>
      Submit(store, form, Edit(sel), accounts, ids).value[i] == store[i]
    ensures Categorised(form, accounts) && store[i].id == sel ==>
      Submit(store, form, Edit(sel), accounts, ids).value[i] == Edited(store[i], form, accounts)
  {
  }

  // ---------------------------------------------------------------------------
  // Editing an existing record

  /** The form an existing record opens in: receipts and payments keep their
      type and account side, anything else is shown as a transfer. */
  function EditForm(r: FinancialRecord): (f: TxForm)
    ensures f.recordType == (if r.recordType in {Payment, Receipt} then r.recordType else Transfer)
    ensures r.recordType == Payment && r.accountId.Some? && r.accountId.value != "" ==> f.fromAccount == r.accountId
    ensures r.recordType != Payment ==> f.fromAccount.None?
    ensures r.recordType == Receipt && r.accountId.Some? && r.accountId.value != "" ==> f.toAccount == r.accountId
    ensures r.recordType != Receipt ==> f.toAccount.None?
  {
    var acc := if r.accountId.Some? && r.accountId.value != "" then r.accountId else None;
    TxForm(Some(r.date),
           if r.recordType == Payment || r.recordType == Receipt then r.recordType else Transfer,
           if r.recordType == Payment then acc else None,
           if r.recordType == Receipt then acc else None,
           r.amount, r.description)
  }

  /** Saving an unchanged edit form of a receipt or payment keeps the record's
      day, type, account, amount and description, and files it under its
      account's type; one whose account is no longer listed is not saved. */
  lemma EditRoundTrip(r: FinancialRecord, accounts: seq<Account>)
    requires r.recordType in {Payment, Receipt} && r.accountId.Some? && r.accountId.value != ""
    ensures Categorised(EditForm(r), accounts) <==> FindAccount(accounts, r.accountId.value).Some?
    ensures Categorised(EditForm(r), accounts) ==>
      var e := Edited(r, EditForm(r), accounts);
      e.id == r.id && e.date == r.date && e.recordType == r.recordType && e.accountId == r.accountId
      && e.amount == r.amount && e.description == r.description
      && e.category == CategoryFor(accounts, r.accountId.value)
  {
  }

  /** A record whose edit form books no account, such as a cash-customer milk
      sale or a transfer leg, cannot be saved from that form unchanged: the
      save fails and the store keeps the record as it was. */
  lemma UnbookedEditFails(store: seq<FinancialRecord>, r: FinancialRecord, accounts: seq<Account>, ids: nat -> string)
    requires r.amount != 0
    requires r.accountId.None? || r.accountId == Some("") || r.recordType !in {Payment, Receipt}
    ensures Submit(store, EditForm(r), Edit(r.id), accounts, ids) == Failure(FailedMessage)
  {
  }

  /** Transfers and milk sales cannot be edited or deleted from the table. */
  predicate Locked(r: FinancialRecord) {
    r.category == Some(BankTransfer) || r.recordType == MilkSale
  }

  /** Both legs of a transfer are locked, so a transfer cannot be half-edited. */
  lemma TransferLegsLocked(form: TxForm, accounts: seq<Account>, ids: nat -> string)
    requires form.date.Some? && form.fromAccount.Some? && form.toAccount.Some?
    ensures Locked(PaymentLeg(form, accounts, ids(0))) && Locked(ReceiptLeg(form, accounts, ids(1)))
  {
  }

  // ---------------------------------------------------------------------------
  // Transfers in the ledger

  /** Under the ledger's sign rule a transfer of A is -A for the source account
      and +A for the destination: the all-time balance of `from` falls by A and
      that of `to` rises by A. */
  lemma TransferMovesBalance(store: seq<FinancialRecord>, form: TxForm, accounts: seq<Account>, ids: nat -> string)
    requires form.date.Some? && form.amount != 0 && form.recordType == Transfer
    requires form.fromAccount.Some? && form.toAccount.Some?
    requires form.fromAccount.value != form.toAccount.value
    requires form.fromAccount.value !in {"", Ledger.CashCustomer} && form.toAccount.value !in {"", Ledger.CashCustomer}
    ensures Submit(store, form, Create, accounts, ids).Success?
    ensures Ledger.Compute(Submit(store, form, Create, accounts, ids).value, form.fromAccount.value, DateRange(None, None)).closing
         == Ledger.Compute(store, form.fromAccount.value, DateRange(None, None)).closing - form.amount
    ensures Ledger.Compute(Submit(store, form, Create, accounts, ids).value, form.toAccount.value, DateRange(None, None)).closing
         == Ledger.Compute(store, form.toAccount.value, DateRange(None, None)).closing + form.amount
  {
    var from := form.fromAccount.value;
    var to := form.toAccount.value;
    var p := PaymentLeg(form, accounts, ids(0));
    var q := ReceiptLeg(form, accounts, ids(1));
    assert Submit(store, form, Create, accounts, ids).value == store + [p, q];
    LegsClosing(store, p, q, from, -form.amount);
    LegsClosing(store, p, q, to, form.amount);
  }

  /** The all-time closing balance of an account after appending two records,
      of which exactly the one in the account's ledger contributes `delta`. */
  lemma LegsClosing(store: seq<FinancialRecord>, p: FinancialRecord, q: FinancialRecord, account: string, delta: int)
    requires account != ""
    requires (Ledger.InAccount(account, p) && !Ledger.InAccount(account, q) && Ledger.Net(p) == delta)
          || (Ledger.InAccount(account, q) && !Ledger.InAccount(account, p) && Ledger.Net(q) == delta)
    ensures Ledger.Compute(store + [p, q], account, DateRange(None, None)).closing
         == Ledger.Compute(store, account, DateRange(None, None)).closing + delta
  {
    Ledger.ClosingOverAllTime(store, account);
    Ledger.ClosingOverAllTime(store + [p, q], account);
    LegsNet(store, p, q, account, delta);
  }

  /** The net of an account after appending two records, of which exactly the
      one in the account's ledger contributes `delta`. */
  lemma LegsNet(store: seq<FinancialRecord>, p: FinancialRecord, q: FinancialRecord, account: string, delta: int)
    requires (Ledger.InAccount(account, p) && !Ledger.InAccount(account, q) && Ledger.Net(p) == delta)
          || (Ledger.InAccount(account, q) && !Ledger.InAccount(account, p) && Ledger.Net(q) == delta)
    ensures SumOf(Filter(store + [p, q], Ledger.AccountTest(account)), Ledger.Net)
         == SumOf(Filter(store, Ledger.AccountTest(account)), Ledger.Net) + delta
  {
    var t := Ledger.AccountTest(account);
    assert [p, q] == [p] + [q];
    FilterAppend(store, [p, q], t);
    FilterAppend([p], [q], t);
    FilterSingle(p, t);
    FilterSingle(q, t);
    var kept := if Ledger.InAccount(account, p) then p else q;
    assert Filter([p, q], t) == [kept];
    SumOfAppend(Filter(store, t), [kept], Ledger.Net);
    SumOfCons(kept, [], Ledger.Net);
    assert [kept] + [] == [kept];
  }

}

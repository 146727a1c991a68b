/** The book as the daemon sees it through the engine, and the messages that describe its
    entities on the wire. */
module Books {
  import opened Options
  import opened Numerics

  type Guid = nat

  /** An identifier field of a request: empty, text that does not parse, or a GUID. */
  datatype GuidText = NoGuid | Malformed(text: string) | Wire(guid: Guid)

  datatype CommodityId = CommodityId(space: string, mnemonic: string)

  type Day = int
  type Seconds = int

  /** A date field of a request: unset, not a calendar date, or a day. */
  datatype WireDate = NoDate | BadDate | Date(day: Day)

  datatype AccountType =
    | UnspecifiedType | Asset | Bank | Cash | Credit | Liability | Equity | Income | Expense
    | Stock | Mutual | Receivable | Payable | Trading | RootType

  /** The engine also knows types that the contract does not model. */
  datatype EngineType = Modelled(kind: AccountType) | Obsolete(code: nat)

  /** An enum field of a request may also hold a number that the contract does not know. */
  datatype ReconcileState =
    | UnspecifiedState | NotReconciled | Cleared | Reconciled | Frozen | Voided | UnknownState(code: int)

  // ---- entities

  /** lastReconciled is the stored slot: an instant, of which the contract shows the day. */
  datatype Account = Account(
    parent: Option<Guid>, name: string, kind: EngineType, commodity: Option<CommodityId>,
    code: string, description: string, placeholder: bool, hidden: bool,
    lastReconciled: Option<Seconds>)

  datatype Split = Split(
    guid: Guid, account: Guid, value: Value, quantity: Value,
    memo: string, action: string, reconcile: char)

  datatype Transaction = Transaction(
    currency: Option<CommodityId>, postDate: Option<Day>, enterTime: Seconds,
    num: string, description: string, splits: seq<Split>)

  datatype Price = Price(
    commodity: CommodityId, currency: CommodityId, time: Seconds, value: Value, source: string)

  /** commodities maps each known commodity to whether it is a currency. */
  datatype Book = Book(
    root: Guid,
    accounts: map<Guid, Account>,
    transactions: map<Guid, Transaction>,
    prices: map<Guid, Price>,
    commodities: map<CommodityId, bool>)

  // ---- conversions

  const SECONDS_PER_DAY := 86400
  const NEUTRAL_SECOND := 39540

  /** The engine's time of day that falls on the same calendar day in every timezone. */
  function NeutralTime(day: Day): (t: Seconds)
    ensures DayOf(t) == day
  {
    day * SECONDS_PER_DAY + NEUTRAL_SECOND
  }

  function DayOf(t: Seconds): Day {
    t / SECONDS_PER_DAY
  }

  function AccountTypeToProto(kind: EngineType): AccountType {
    match kind
    case Modelled(k) => k
    case Obsolete(_) => UnspecifiedType
  }

  function ReconcileStateFromProto(state: ReconcileState): Option<char> {
    match state
    case NotReconciled => Some('n')
    case Cleared => Some('c')
    case Reconciled => Some('y')
    case Frozen => Some('f')
    case Voided => Some('v')
    case UnspecifiedState => None
    case UnknownState(_) => None
  }

  function ReconcileStateToProto(flag: char): ReconcileState {
    if flag == 'n' then NotReconciled
    else if flag == 'c' then Cleared
    else if flag == 'y' then Reconciled
    else if flag == 'f' then Frozen
    else if flag == 'v' then Voided
    else UnspecifiedState
  }

  // ---- responses: the views of entities that replies carry and recovery compares

  datatype AccountView = AccountView(
    guid: Guid, parent: Option<Guid>, name: string, kind: AccountType,
    commodity: Option<CommodityId>, code: string, description: string,
    placeholder: bool, hidden: bool)

  datatype SplitView = SplitView(
    guid: Guid, account: Guid, value: Value, quantity: Value,
    memo: string, action: string, state: ReconcileState)

  datatype TransactionView = TransactionView(
    guid: Guid, currency: Option<CommodityId>, postDate: Option<Day>, enterTime: Seconds,
    num: string, description: string, splits: seq<SplitView>)

  /** reconciled stands for the engine's balance: the reconciled splits it is summed from. */
  datatype ReconcileView = ReconcileView(
    account: Guid, lastDay: Option<Day>, reconciled: map<Guid, seq<Split>>)

  datatype PriceView = PriceView(
    guid: Guid, commodity: CommodityId, currency: CommodityId, day: Day, value: Value, source: string)

  /** The message types of responses. */
  datatype Shape = AccountShape | TransactionShape | ReconcileShape | PriceShape | EmptyShape

  /** Misread is what the bytes of one response give when they parse as another message type. */
  datatype Response =
    | AccountReply(account: AccountView)
    | TransactionReply(transaction: TransactionView)
    | ReconcileReply(info: ReconcileView)
    | PriceReply(price: PriceView)
    | EmptyReply
    | Misread(shape: Shape, bytesOf: Response)

  function ShapeOf(r: Response): Shape {
    match r
    case AccountReply(_) => AccountShape
    case TransactionReply(_) => TransactionShape
    case ReconcileReply(_) => ReconcileShape
    case PriceReply(_) => PriceShape
    case EmptyReply => EmptyShape
    case Misread(shape, _) => shape
  }

  /** The bytes of r, read as a message of this type: itself, nothing at all for the empty
      message, or other content. */
  function ReadAs(shape: Shape, r: Response): Response {
    if ShapeOf(r) == shape then r
    else if shape == EmptyShape then EmptyReply
    else Misread(shape, r)
  }

  /** Bytes that cannot fail to parse: the message's own, any bytes as the empty message, which
      skips what it does not know, and no bytes at all as any message. */
  predicate MustParse(shape: Shape, r: Response) {
    ShapeOf(r) == shape || shape == EmptyShape || r == EmptyReply
  }

  function AccountToProto(g: Guid, a: Account): AccountView {
    AccountView(g, a.parent, a.name, AccountTypeToProto(a.kind), a.commodity, a.code,
                a.description, a.placeholder, a.hidden)
  }

  function SplitToProto(s: Split): SplitView {
    SplitView(s.guid, s.account, s.value, s.quantity, s.memo, s.action,
              ReconcileStateToProto(s.reconcile))
  }

  function SplitsToProto(splits: seq<Split>): seq<SplitView> {
    seq(|splits|, i requires 0 <= i < |splits| => SplitToProto(splits[i]))
  }

  function TransactionToProto(g: Guid, t: Transaction): TransactionView {
    TransactionView(g, t.currency, t.postDate, t.enterTime, t.num, t.description,
                    SplitsToProto(t.splits))
  }

  function ReconciledOf(splits: seq<Split>, account: Guid): seq<Split> {
    if splits == [] then []
    else if splits[0].account == account && splits[0].reconcile == 'y' then
      [splits[0]] + ReconciledOf(splits[1..], account)
    else ReconciledOf(splits[1..], account)
  }

  function ReconcileInfoToProto(b: Book, g: Guid): ReconcileView
    requires g in b.accounts
  {
    ReconcileView(g,
                  match b.accounts[g].lastReconciled case None => None case Some(t) => Some(DayOf(t)),
                  map t | t in b.transactions :: ReconciledOf(b.transactions[t].splits, g))
  }

  function PriceToProto(g: Guid, p: Price): PriceView {
    PriceView(g, p.commodity, p.currency, DayOf(p.time), p.value, p.source)
  }

  function Values(splits: seq<Split>): seq<Value> {
    seq(|splits|, i requires 0 <= i < |splits| => splits[i].value)
  }

  /** One split of the book, as a query lists it. */
  datatype Row = Row(transaction: Guid, index: nat)

  predicate IsRow(b: Book, row: Row) {
    row.transaction in b.transactions && row.index < |b.transactions[row.transaction].splits|
  }

  predicate AreRows(b: Book, rows: seq<Row>) {
    forall i :: 0 <= i < |rows| ==> IsRow(b, rows[i])
  }

  // ---- what the contract can observe of a book

  function ObserveTime(t: Option<Seconds>): Option<Seconds> {
    match t
    case None => None
    case Some(s) => Some(NeutralTime(DayOf(s)))
  }

  function ObserveAccount(a: Account): Account {
    a.(lastReconciled := ObserveTime(a.lastReconciled))
  }

  /** The book with every reconcile stamp reduced to the day that the contract shows. */
  function Observe(b: Book): Book {
    b.(accounts := map g | g in b.accounts :: ObserveAccount(b.accounts[g]))
  }
}

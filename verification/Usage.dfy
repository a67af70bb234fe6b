/** The prepaid-usage engine: every operation on a user's wallet, grants, reservations, ledger,
    chat requests and payment orders, and every step of the whole database. */
module Usage {
  import opened Common
  import opened JsMap
  import opened Funds
  import TaskBoard

  const USAGE_RESERVATION_LEASE_DURATION_MS := 90_000
  const USAGE_RESERVATION_REAP_BATCH_SIZE := 100
  const CHAT_RESPONSE_CACHE_MAX_BYTES := 512 * 1024
  const CHAT_SWEEP_BATCH_SIZE := 1000
  const HOUR_MS := 60 * 60 * 1000
  const DAY_MS := 24 * HOUR_MS
  const TRIAL_CENTS := 1000

  datatype Principal = Principal(key: string, admin: bool)

  // ---- Ledger ----

  datatype EntryKind = TrialCredit | Topup | PackPurchase | CreditGrant | UsageCharge

  /** What an entry says it is for. The usage reference text is made of sourceId, model and task. */
  datatype Detail =
    | Plain(reference: string)
    | UsageDetail(task: Option<nat>, sourceId: string, upstreamSourceId: string, model: string,
                  paymentDirection: string, commissionRateBps: int, commissionCents: int)

  datatype LedgerEntry = LedgerEntry(id: nat, kind: EntryKind, amount: int, wallet: int, credit: int, detail: Detail)

  /** Client keys and the keys of payment orders live in separate name spaces. */
  datatype LedgerKey = ClientKey(key: string) | PaymentOrderKey(order: nat)

  /** The task of a usage event; None is the literal task id 'chat'. */
  datatype UsageEvent = UsageEvent(idempotencyKey: string, task: Option<nat>, sourceId: string,
                                   upstreamSourceId: Option<string>, model: string, paymentDirection: string,
                                   inputTokens: int, outputTokens: int, costCents: int,
                                   commissionRateBps: Option<int>, commissionCents: Option<int>)

  // ---- Reservations, chat requests, payment orders ----

  datatype TaskExecution = TaskExecution(taskId: nat, executionId: nat)

  datatype ReservationStatus = Reserved | Settled | Released

  datatype Reservation = Reservation(amountCents: int, held: Split, execution: Option<TaskExecution>,
                                     status: ReservationStatus, leaseExpiresAt: int)

  datatype ChatStatus = Pending | Complete | Failed

  datatype ChatRecord = ChatRecord(fingerprint: string, executionId: Option<nat>, status: ChatStatus,
                                   payload: Option<string>, expiresAt: int)

  datatype Completion = Completion(requestKey: string, fingerprint: string, executionId: Option<nat>,
                                   payload: string, payloadBytes: nat)

  datatype OrderStatus = OrderPending | Paid | OrderFailed | OrderExpired | Refunded

  datatype PaymentOrder = PaymentOrder(amountCents: int, currency: string, channel: string, status: OrderStatus,
                                       providerPaymentId: Option<string>)

  datatype User = User(funds: Funds, ledger: seq<LedgerEntry>, idempotency: map<LedgerKey, LedgerEntry>,
                       reservations: Dict<Reservation>, chats: Dict<ChatRecord>,
                       packKeys: map<string, nat>, orders: map<nat, PaymentOrder>, orderKeys: map<string, nat>,
                       board: TaskBoard.Board)

  datatype Database = Database(users: Dict<User>, providerEvents: map<string, nat>, nextOrder: nat)

  const EmptyDatabase := Database([], map[], 0)

  datatype UsageError =
    | InvalidRequest | InsufficientBalance | IdempotencyConflict | CreditPackNotFound
    | InvalidReservation | ReservationConflict | ReservationLeaseExpired
    | TaskNotFound | TaskLeaseExpired
    | ChatKeyMismatch | ChatResponseTooLarge | ChatNotClaimed | ChatNotPending | ChatCacheInvalid
    | ChatBillingInconsistent
    | ProviderReused | OrderMismatch | ProviderConflict | PaymentLedgerMissing | OrderNotPending | OrderNotFound

  function NewUser(now: int): User {
    var trial := Grant("trial", TRIAL_CENTS, TRIAL_CENTS, now + 30 * DAY_MS, Active);
    var entry := LedgerEntry(0, TrialCredit, TRIAL_CENTS, 0, TRIAL_CENTS, Plain("新用户试用金"));
    User(Funds(0, [trial]), [entry], map[], [], [], map[], map[], map[], TaskBoard.EmptyBoard)
  }

  /** Put an entry in front of the ledger. */
  function Post(u: User, kind: EntryKind, wallet: int, credit: int, detail: Detail): User {
    u.(ledger := [LedgerEntry(|u.ledger|, kind, wallet + credit, wallet, credit, detail)] + u.ledger)
  }

  /** Put an entry in front of the ledger and remember it under a key. */
  function PostUnder(u: User, key: LedgerKey, kind: EntryKind, wallet: int, credit: int, detail: Detail): User {
    var u' := Post(u, kind, wallet, credit, detail);
    u'.(idempotency := u.idempotency[key := u'.ledger[0]])
  }

  // ---- Top-up and credit packs ----

  datatype TopupRequest = TopupRequest(key: string, amountCents: int, channel: string)

  predicate ValidTopup(r: TopupRequest) {
    0 < |r.key| <= 200 && 100 <= r.amountCents <= 1_000_000 && r.channel in {"pilot", "wechat", "alipay"}
  }

  predicate TopupMatches(entry: LedgerEntry, r: TopupRequest) {
    entry.kind == Topup && entry.amount == r.amountCents && entry.wallet == r.amountCents && entry.credit == 0
    && entry.detail == Plain(r.channel + ":" + r.key)
  }

  function TopUp(u: User, r: TopupRequest): (User, Result<LedgerEntry, UsageError>) {
    if !ValidTopup(r) then (u, Err(InvalidRequest))
    else if ClientKey(r.key) in u.idempotency then
      var existing := u.idempotency[ClientKey(r.key)];
      (u, if TopupMatches(existing, r) then Ok(existing) else Err(IdempotencyConflict))
    else
      var paid := u.(funds := u.funds.(balance := u.funds.balance + r.amountCents));
      var u' := PostUnder(paid, ClientKey(r.key), Topup, r.amountCents, 0, Plain(r.channel + ":" + r.key));
      (u', Ok(u'.ledger[0]))
  }

  datatype Pack = Pack(id: string, name: string, priceCents: int, creditCents: int)

  const CATALOG := [
    Pack("starter", "COD 入门卡时包", 2_000, 2_000),
    Pack("standard", "COD 标准卡时包", 10_000, 10_400),
    Pack("pro", "COD 进阶卡时包", 20_000, 21_200),
    Pack("team", "COD 团队卡时包", 40_000, 43_600)
  ]

  function FindPack(packs: seq<Pack>, id: string): (r: Option<Pack>)
    ensures r.Some? ==> r.value in packs
  {
    if packs == [] then None else if packs[0].id == id then Some(packs[0]) else FindPack(packs[1..], id)
  }

  /** Reading the credit summary marks expired grants. */
  function SummarizeCredit(u: User, now: int): User {
    u.(funds := u.funds.(grants := ExpireGrants(u.funds.grants, now)))
  }

  /** Returns the id of the grant that the key bought. */
  function PurchasePack(u: User, now: int, packId: string, key: string): (r: (User, Result<nat, UsageError>))
    ensures r.0.board == u.board
  {
    var found := FindPack(CATALOG, packId);
    if found.None? then (u, Err(CreditPackNotFound))
    else if |key| == 0 || |key| > 200 then (u, Err(InvalidRequest))
    else if key in u.packKeys then
      var id := u.packKeys[key];
      if id < |u.funds.grants| && u.funds.grants[id].packId != packId then (u, Err(IdempotencyConflict))
      else (SummarizeCredit(u, now), Ok(id))
    else if u.funds.balance < found.value.priceCents then (u, Err(UsageError.InsufficientBalance))
    else
      var pack := found.value;
      var id := |u.funds.grants|;
      var grant := Grant(pack.id, pack.creditCents, pack.creditCents, now + 180 * DAY_MS, Active);
      var bought := u.(funds := Funds(u.funds.balance - pack.priceCents, u.funds.grants + [grant]),
                       packKeys := u.packKeys[key := id]);
      var purchased := Post(bought, PackPurchase, -pack.priceCents, 0, Plain(pack.name));
      (SummarizeCredit(Post(purchased, CreditGrant, 0, pack.creditCents, Plain(pack.name)), now), Ok(id))
  }

  // ---- Usage ----

  predicate ValidEvent(e: UsageEvent) {
    && 0 < |e.idempotencyKey| <= 240
    && 0 <= e.inputTokens && 0 <= e.outputTokens && 0 <= e.costCents
    && (e.commissionRateBps.Some? ==> 0 <= e.commissionRateBps.value <= 10_000)
    && (e.commissionCents.Some? ==> 0 <= e.commissionCents.value)
  }

  function Billed(admin: bool, e: UsageEvent): UsageEvent {
    if admin then
      e.(costCents := 0, paymentDirection := "管理员测试免计费", commissionRateBps := Some(0), commissionCents := Some(0))
    else e
  }

  function OrElse<T>(o: Option<T>, default: T): T {
    if o.Some? then o.value else default
  }

  function DetailOf(e: UsageEvent): Detail {
    UsageDetail(e.task, e.sourceId, OrElse(e.upstreamSourceId, "ai-kai"), e.model, e.paymentDirection,
                OrElse(e.commissionRateBps, 0), OrElse(e.commissionCents, 0))
  }

  predicate UsageMatches(entry: LedgerEntry, e: UsageEvent) {
    entry.kind == UsageCharge && entry.amount == -e.costCents && entry.detail == DetailOf(e)
  }

  function RecordUsage(u: User, now: int, admin: bool, e: UsageEvent): (r: (User, Result<LedgerEntry, UsageError>))
    ensures r.0.board == u.board
  {
    var billed := Billed(admin, e);
    if !ValidEvent(e) then (u, Err(InvalidRequest))
    else if ClientKey(e.idempotencyKey) in u.idempotency then
      var existing := u.idempotency[ClientKey(e.idempotencyKey)];
      (u, if UsageMatches(existing, billed) then Ok(existing) else Err(IdempotencyConflict))
    else
      var (funds, r) := Allocate(u.funds, billed.costCents, now);
      match r
      case Err(_) => (u.(funds := funds), Err(UsageError.InsufficientBalance))
      case Ok(split) =>
        var u' := PostUnder(u.(funds := funds), ClientKey(e.idempotencyKey), UsageCharge,
                            -split.wallet, -SumAllocations(split.allocations), DetailOf(billed));
        (u', Ok(u'.ledger[0]))
  }

  // ---- Reservations ----

  function ExecutionRefusal(u: User, now: int, execution: TaskExecution): Option<UsageError> {
    match TaskBoard.AssertExecution(u.board, now, execution.taskId, execution.executionId)
    case Ok(_) => None
    case Err(e) => Some(if e.TaskNotFound? then TaskNotFound else TaskLeaseExpired)
  }

  /** Reserving, once expired reservations have been reaped. */
  function Reserve(u: User, now: int, admin: bool, id: string, amountCents: int, execution: Option<TaskExecution>)
    : (User, Result<(), UsageError>)
  {
    var existing := Get(u.reservations, id);
    if existing.Some? then
      if existing.value.execution != execution then (u, Err(ReservationConflict))
      else if existing.value.status != Reserved || existing.value.leaseExpiresAt <= now then
                (u, Err(ReservationLeaseExpired))
      else (u, Ok(()))
    else
      var refusal := if execution.Some? then ExecutionRefusal(u, now, execution.value) else None;
      if refusal.Some? then (u, Err(refusal.value))
      else
        var amount := if admin then 0 else amountCents;
        var (funds, r) := Allocate(u.funds, amount, now);
        match r
        case Err(_) => (u.(funds := funds), Err(UsageError.InsufficientBalance))
        case Ok(split) =>
          var reservation := Reservation(amount, split, execution, Reserved, now + USAGE_RESERVATION_LEASE_DURATION_MS);
          (u.(funds := funds, reservations := Put(u.reservations, id, reservation)), Ok(()))
  }

  function RenewReservation(u: User, now: int, id: string): (User, Result<(), UsageError>) {
    var k := IndexOf(u.reservations, id);
    if k == |u.reservations| then (u, Err(ReservationLeaseExpired))
    else
      var r := u.reservations[k].value;
      if r.status != Reserved || r.leaseExpiresAt <= now then (u, Err(ReservationLeaseExpired))
      else (SetReservation(u, k, r.(leaseExpiresAt := now + USAGE_RESERVATION_LEASE_DURATION_MS)), Ok(()))
  }

  function SetReservation(u: User, k: nat, r: Reservation): User
    requires k < |u.reservations|
  {
    u.(reservations := u.reservations[k := Entry(u.reservations[k].key, r)])
  }

  function GiveBack(f: Funds, held: Split, now: int): Funds {
    Funds(f.balance + held.wallet, RestoreAll(f.grants, held.allocations, now))
  }

  /** Give back all that a reservation holds. */
  function Release(u: User, k: nat, now: int): User
    requires k < |u.reservations|
  {
    var r := u.reservations[k].value;
    SetReservation(u.(funds := GiveBack(u.funds, r.held, now)), k, r.(status := Released))
  }

  function ReleaseIfHeld(u: User, now: int, id: string): User {
    var k := IndexOf(u.reservations, id);
    if k < |u.reservations| && u.reservations[k].value.status == Reserved then Release(u, k, now) else u
  }

  // ---- Settlement ----

  function ChatKey(requestKey: string, fingerprint: string): string {
    "chat:" + requestKey + ":" + fingerprint
  }

  function CompletionRefusal(u: User, e: UsageEvent, c: Completion): Option<UsageError> {
    var chat := Get(u.chats, c.requestKey);
    if e.idempotencyKey != ChatKey(c.requestKey, c.fingerprint) then Some(ChatKeyMismatch)
    else if c.payloadBytes > CHAT_RESPONSE_CACHE_MAX_BYTES then Some(ChatResponseTooLarge)
    else if chat.None? || chat.value.fingerprint != c.fingerprint || chat.value.executionId != c.executionId then
      Some(ChatNotClaimed)
    else if chat.value.status == Failed then Some(ChatNotPending)
    else None
  }

  function CompleteChat(u: User, now: int, c: Completion): User {
    u.(chats := Put(u.chats, c.requestKey,
                    ChatRecord(c.fingerprint, c.executionId, Complete, Some(c.payload), now + DAY_MS)))
  }

  predicate ChatIs(u: User, completion: Option<Completion>, status: ChatStatus) {
    completion.Some? && var chat := Get(u.chats, completion.value.requestKey);
                        chat.Some? && chat.value.status == status
  }

  /** Charge a live reservation and post the entry. */
  function ChargeReservation(u: User, now: int, k: nat, key: string, billed: UsageEvent)
    : (r: (User, Result<LedgerEntry, UsageError>))
    requires k < |u.reservations|
    ensures r.0.board == u.board
  {
    var r := u.reservations[k].value;
    var (funds, charged) := ChargeHeld(u.funds, r.held, billed.costCents, now);
    match charged
    case Err(_) => (u.(funds := funds), Err(UsageError.InsufficientBalance))
    case Ok(charge) =>
      var u' := PostUnder(u.(funds := funds), ClientKey(key), UsageCharge, -charge.wallet, -charge.credit,
                          DetailOf(billed));
      (SetReservation(u', k, r.(status := Settled)), Ok(u'.ledger[0]))
  }

  /** The checks of a settlement that come before its key is looked up. */
  function EarlyRefusal(u: User, id: string, e: UsageEvent, completion: Option<Completion>, executionId: Option<nat>)
    : Option<UsageError>
  {
    var k := IndexOf(u.reservations, id);
    var refusal := if completion.Some? then CompletionRefusal(u, e, completion.value) else None;
    if refusal.Some? then refusal
    else if e.task.Some?
            && (executionId.None? || k == |u.reservations|
                || u.reservations[k].value.execution != Some(TaskExecution(e.task.value, executionId.value))) then
      Some(ReservationConflict)
    else None
  }

  /** The checks of a settlement whose key is not yet in the books. */
  function LateRefusal(u: User, now: int, id: string, e: UsageEvent, completion: Option<Completion>,
                       executionId: Option<nat>)
    : Option<UsageError>
    requires e.task.Some? ==> executionId.Some?
  {
    var k := IndexOf(u.reservations, id);
    var lost := if e.task.Some? then ExecutionRefusal(u, now, TaskExecution(e.task.value, executionId.value)) else None;
    if lost.Some? then lost
    else if ChatIs(u, completion, Complete) then Some(ChatBillingInconsistent)
    else if k == |u.reservations| || u.reservations[k].value.status != Reserved
            || u.reservations[k].value.leaseExpiresAt <= now then
      Some(ReservationLeaseExpired)
    else None
  }

  /** Every ground on which a settlement is refused before any money moves. */
  function SettleRefusal(u: User, now: int, admin: bool, id: string, e: UsageEvent, completion: Option<Completion>,
                         executionId: Option<nat>): Option<UsageError>
  {
    var key := ClientKey(e.idempotencyKey);
    var early := EarlyRefusal(u, id, e, completion, executionId);
    if !ValidEvent(e) then Some(InvalidRequest)
    else if early.Some? then early
    else if key in u.idempotency then
      if UsageMatches(u.idempotency[key], Billed(admin, e)) then None else Some(IdempotencyConflict)
    else LateRefusal(u, now, id, e, completion, executionId)
  }

  /** Usage already billed: give the reservation back and complete a pending chat request. */
  function SettleReplay(u: User, now: int, id: string, completion: Option<Completion>): (u': User)
    ensures u'.board == u.board
  {
    var released := ReleaseIfHeld(u, now, id);
    if ChatIs(u, completion, Pending) then CompleteChat(released, now, completion.value) else released
  }

  /** Usage not yet billed: charge the reservation and complete the chat request. */
  function SettleCharge(u: User, now: int, k: nat, key: string, billed: UsageEvent, completion: Option<Completion>)
    : (r: (User, Result<LedgerEntry, UsageError>))
    requires k < |u.reservations|
    ensures r.0.board == u.board
  {
    var (u', r) := ChargeReservation(u, now, k, key, billed);
    (if r.Ok? && completion.Some? then CompleteChat(u', now, completion.value) else u', r)
  }

  function SettleUsage(u: User, now: int, admin: bool, id: string, e: UsageEvent, completion: Option<Completion>,
                       executionId: Option<nat>): (r: (User, Result<LedgerEntry, UsageError>))
    ensures r.0.board == u.board
  {
    var refusal := SettleRefusal(u, now, admin, id, e, completion, executionId);
    if refusal.Some? then (u, Err(refusal.value))
    else if ClientKey(e.idempotencyKey) in u.idempotency then
      (SettleReplay(u, now, id, completion), Ok(u.idempotency[ClientKey(e.idempotencyKey)]))
    else
      SettleCharge(u, now, IndexOf(u.reservations, id), e.idempotencyKey, Billed(admin, e), completion)
  }

  // ---- Chat requests ----

  datatype ChatClaim = Claimed | StillPending | Done(payload: string)

  /** Claiming, once expired records have been swept. */
  function ClaimChat(u: User, now: int, requestKey: string, fingerprint: string, executionId: Option<nat>)
    : (User, Result<ChatClaim, UsageError>)
  {
    var existing := Get(u.chats, requestKey);
    var claimed :=
      u.(chats := Put(u.chats, requestKey, ChatRecord(fingerprint, executionId, Pending, None, now + HOUR_MS)));
    if existing.None? then (claimed, Ok(Claimed))
    else if existing.value.fingerprint != fingerprint || existing.value.executionId != executionId then
      (u, Err(IdempotencyConflict))
    else match existing.value.status
      case Complete =>
        (u, if existing.value.payload.None? then Err(ChatCacheInvalid) else Ok(Done(existing.value.payload.value)))
      case Pending => (u, Ok(StillPending))
      case Failed => (claimed, Ok(Claimed))
  }

  function FailChat(u: User, now: int, requestKey: string, fingerprint: string, executionId: Option<nat>): User {
    var existing := Get(u.chats, requestKey);
    if existing.None? || existing.value.fingerprint != fingerprint || existing.value.executionId != executionId
       || existing.value.status != Pending || ClientKey(ChatKey(requestKey, fingerprint)) in u.idempotency then u
    else u.(chats := Put(u.chats, requestKey,
                         existing.value.(status := Failed, payload := None, expiresAt := now + HOUR_MS)))
  }

  /** Delete expired records in order, at most budget of them. */
  function SweepChats(chats: Dict<ChatRecord>, now: int, budget: nat): Dict<ChatRecord> {
    if budget == 0 || chats == [] then chats
    else if chats[0].value.expiresAt <= now then SweepChats(chats[1..], now, budget - 1)
    else [chats[0]] + SweepChats(chats[1..], now, budget)
  }

  lemma {:induction false} SweepBudget(chats: Dict<ChatRecord>, now: int, budget: nat)
    ensures |chats| - |SweepChats(chats, now, budget)| <= budget
    ensures |SweepChats(chats, now, budget)| <= |chats|
  {
    if budget > 0 && chats != [] {
      SweepBudget(chats[1..], now, if chats[0].value.expiresAt <= now then budget - 1 else budget);
    }
  }

  function SweepUsers(users: Dict<User>, now: int, budget: nat): (r: Dict<User>)
    ensures |r| == |users|
  {
    if users == [] then []
    else
      var u := users[0].value;
      var chats := SweepChats(u.chats, now, budget);
      SweepBudget(u.chats, now, budget);
      [Entry(users[0].key, u.(chats := chats))] + SweepUsers(users[1..], now, budget - (|u.chats| - |chats|))
  }

  // ---- Steps on one user ----

  datatype UserOp =
    | TopUpOp(topup: TopupRequest)
    | PurchasePackOp(packId: string, packKey: string)
    | SummaryOp
    | RecordOp(recorded: UsageEvent)
    | RenewReservationOp(renewed: string)
    | SettleOp(reservation: string, event: UsageEvent, completion: Option<Completion>, executionId: Option<nat>)
    | ReleaseOp(released: string)
    | FailChatOp(requestKey: string, fingerprint: string, chatExecution: Option<nat>)
    | BoardOp(op: TaskBoard.Op)

  function UserStep(u: User, now: int, admin: bool, op: UserOp): User {
    match op
    case TopUpOp(request) => TopUp(u, request).0
    case PurchasePackOp(packId, key) => PurchasePack(u, now, packId, key).0
    case SummaryOp => SummarizeCredit(u, now)
    case RecordOp(e) => RecordUsage(u, now, admin, e).0
    case RenewReservationOp(id) => RenewReservation(u, now, id).0
    case SettleOp(id, e, completion, executionId) => SettleUsage(u, now, admin, id, e, completion, executionId).0
    case ReleaseOp(id) => ReleaseIfHeld(u, now, id)
    case FailChatOp(requestKey, fingerprint, executionId) => FailChat(u, now, requestKey, fingerprint, executionId)
    case BoardOp(boardOp) => u.(board := TaskBoard.Step(u.board, now, boardOp))
  }

  // ---- The whole database ----

  /** Find or create the user of a principal. */
  function Open(users: Dict<User>, key: string, now: int): (r: Dict<User>)
    ensures IndexOf(r, key) < |r|
  {
    if Has(users, key) then users
    else
      var r := Put(users, key, NewUser(now));
      GetPut(users, key, NewUser(now), key);
      r
  }

  function SetUser(users: Dict<User>, i: nat, u: User): (r: Dict<User>)
    requires i < |users|
    ensures |r| == |users|
  {
    users[i := Entry(users[i].key, u)]
  }

  /** The operation is refused before the user is even looked up. */
  predicate RefusedUnseen(op: UserOp) {
    match op
    case TopUpOp(request) => !ValidTopup(request)
    case RecordOp(e) => !ValidEvent(e)
    case SettleOp(_, e, _, _) => !ValidEvent(e)
    case _ => false
  }

  // ---- Reaping ----

  datatype Candidate = Candidate(user: nat, reservation: nat, lease: int)

  predicate Overdue(r: Reservation, now: int) {
    r.status == Reserved && r.leaseExpiresAt <= now
  }

  function UserCandidates(rs: Dict<Reservation>, user: nat, now: int, n: nat): seq<Candidate>
    requires n <= |rs|
  {
    if n == 0 then []
    else UserCandidates(rs, user, now, n - 1)
         + if Overdue(rs[n - 1].value, now) then [Candidate(user, n - 1, rs[n - 1].value.leaseExpiresAt)] else []
  }

  function AllCandidates(users: Dict<User>, now: int, n: nat): seq<Candidate>
    requires n <= |users|
  {
    if n == 0 then []
    else AllCandidates(users, now, n - 1)
         + UserCandidates(users[n - 1].value.reservations, n - 1, now, |users[n - 1].value.reservations|)
  }

  /** Stable insertion by lease, from the back of the list to the front. */
  function InsertByLease(c: Candidate, sorted: seq<Candidate>): seq<Candidate> {
    if sorted == [] || c.lease <= sorted[0].lease then [c] + sorted
    else [sorted[0]] + InsertByLease(c, sorted[1..])
  }

  function SortByLease(cs: seq<Candidate>): seq<Candidate> {
    if cs == [] then [] else InsertByLease(cs[0], SortByLease(cs[1..]))
  }

  function BoundedLimit(limit: int): (r: nat)
    ensures 1 <= r <= USAGE_RESERVATION_REAP_BATCH_SIZE
  {
    Min(Max(limit, 1), USAGE_RESERVATION_REAP_BATCH_SIZE)
  }

  function Take<T>(s: seq<T>, n: nat): seq<T> {
    if |s| <= n then s else s[..n]
  }

  /** The batch that one reap releases. */
  function Batch(users: Dict<User>, now: int, limit: int): seq<Candidate> {
    Take(SortByLease(AllCandidates(users, now, |users|)), BoundedLimit(limit))
  }

  function ReleaseCandidate(users: Dict<User>, c: Candidate, now: int): (r: Dict<User>)
    ensures |r| == |users|
  {
    if c.user < |users| && c.reservation < |users[c.user].value.reservations|
       && Overdue(users[c.user].value.reservations[c.reservation].value, now) then
      SetUser(users, c.user, Release(users[c.user].value, c.reservation, now))
    else users
  }

  function ReleaseBatch(users: Dict<User>, batch: seq<Candidate>, now: int): (r: Dict<User>)
    ensures |r| == |users|
    decreases |batch|
  {
    if batch == [] then users else ReleaseBatch(ReleaseCandidate(users, batch[0], now), batch[1..], now)
  }

  function Reap(users: Dict<User>, now: int, limit: int): Dict<User> {
    ReleaseBatch(users, Batch(users, now, limit), now)
  }

  /** Reserving reaps a batch first, then finds or creates the user. */
  function ReserveUsage(db: Database, now: int, p: Principal, id: string, amountCents: int,
                        execution: Option<TaskExecution>)
    : (Database, Result<(), UsageError>)
  {
    if amountCents < 0 then (db, Err(InvalidReservation))
    else
      var users := Open(Reap(db.users, now, USAGE_RESERVATION_REAP_BATCH_SIZE), p.key, now);
      var i := IndexOf(users, p.key);
      var (u, r) := Reserve(users[i].value, now, p.admin, id, amountCents, execution);
      (db.(users := SetUser(users, i, u)), r)
  }

  function ClaimChatRequest(db: Database, now: int, p: Principal, requestKey: string, fingerprint: string,
                            executionId: Option<nat>): (Database, Result<ChatClaim, UsageError>)
  {
    if |requestKey| == 0 || |requestKey| > 240 then (db, Err(InvalidRequest))
    else
      var all := Open(db.users, p.key, now);
      var users := SweepUsers(all, now, CHAT_SWEEP_BATCH_SIZE);
      var i := IndexOf(all, p.key);
      var (u, r) := ClaimChat(users[i].value, now, requestKey, fingerprint, executionId);
      (db.(users := SetUser(users, i, u)), r)
  }

  // ---- Payment orders ----

  datatype OrderRequest = OrderRequest(amountCents: int, channel: string, key: string)

  datatype PaymentEvent = PaymentEvent(order: nat, amountCents: int, currency: string, channel: string,
                                       providerPaymentId: string, providerEventId: string)

  /** The answer to an order request that makes no new order. */
  function KnownOrder(u: User, r: OrderRequest): Option<Result<nat, UsageError>> {
    if |r.key| == 0 || |r.key| > 200 || r.amountCents < 100 || r.amountCents > 1_000_000
       || r.channel !in {"wechat", "alipay"} then Some(Err(InvalidRequest))
    else if r.key in u.orderKeys && u.orderKeys[r.key] in u.orders then
      var existing := u.orders[u.orderKeys[r.key]];
      if existing.amountCents != r.amountCents || existing.channel != r.channel then Some(Err(IdempotencyConflict))
      else Some(Ok(u.orderKeys[r.key]))
    else None
  }

  function AddOrder(u: User, id: nat, r: OrderRequest): User {
    u.(orders := u.orders[id := PaymentOrder(r.amountCents, "CNY", r.channel, OrderPending, None)],
       orderKeys := u.orderKeys[r.key := id])
  }

  function CreatePaymentOrder(db: Database, now: int, p: Principal, r: OrderRequest)
    : (Database, Result<nat, UsageError>)
  {
    var users := Open(db.users, p.key, now);
    var i := IndexOf(users, p.key);
    var known := KnownOrder(users[i].value, r);
    if known.Some? then (db.(users := users), known.value)
    else
      (Database(SetUser(users, i, AddOrder(users[i].value, db.nextOrder, r)), db.providerEvents, db.nextOrder + 1),
       Ok(db.nextOrder))
  }

  /** Some other order is already bound to this provider payment. */
  predicate ProviderBound(users: Dict<User>, event: PaymentEvent) {
    exists i | 0 <= i < |users| ::
      exists order | order in users[i].value.orders ::
        order != event.order && users[i].value.orders[order].providerPaymentId == Some(event.providerPaymentId)
  }

  /** The first user that has this order, or the number of users. */
  function OwnerOf(users: Dict<User>, order: nat): (i: nat)
    ensures i <= |users|
    ensures i < |users| ==> order in users[i].value.orders
    ensures forall j | 0 <= j < i :: order !in users[j].value.orders
  {
    if users == [] || order in users[0].value.orders then 0 else 1 + OwnerOf(users[1..], order)
  }

  function PayOrder(u: User, event: PaymentEvent): (User, Result<LedgerEntry, UsageError>)
    requires event.order in u.orders
  {
    var current := u.orders[event.order];
    var key := PaymentOrderKey(event.order);
    if current.amountCents != event.amountCents || current.currency != event.currency
       || current.channel != event.channel then
      (u, Err(OrderMismatch))
    else if current.status == Paid then
      if current.providerPaymentId != Some(event.providerPaymentId) then (u, Err(ProviderConflict))
      else if key !in u.idempotency then (u, Err(PaymentLedgerMissing))
      else (u, Ok(u.idempotency[key]))
    else if current.status != OrderPending then (u, Err(OrderNotPending))
    else
      var paid := u.(funds := u.funds.(balance := u.funds.balance + current.amountCents),
                     orders := u.orders[event.order := current.(status := Paid,
                                                                providerPaymentId := Some(event.providerPaymentId))]);
      var u' := PostUnder(paid, key, Topup, current.amountCents, 0,
                          Plain(event.channel + ":" + event.providerPaymentId));
      (u', Ok(u'.ledger[0]))
  }

  function CompletePaymentOrder(db: Database, event: PaymentEvent): (Database, Result<LedgerEntry, UsageError>) {
    if event.providerEventId in db.providerEvents && db.providerEvents[event.providerEventId] != event.order then
      (db, Err(ProviderReused))
    else if ProviderBound(db.users, event) then (db, Err(ProviderReused))
    else
      var i := OwnerOf(db.users, event.order);
      if i == |db.users| then (db, Err(OrderNotFound))
      else
        var u := db.users[i].value;
        var (u', r) := PayOrder(u, event);
        if r.Ok? && u.orders[event.order].status != Paid then
          (db.(users := SetUser(db.users, i, u'),
               providerEvents := db.providerEvents[event.providerEventId := event.order]), r)
        else (db, r)
  }

  // ---- Steps and runs of the whole database ----

  datatype Op =
    | UserCall(principal: Principal, userOp: UserOp)
    | ReserveOp(reserver: Principal, id: string, amountCents: int, execution: Option<TaskExecution>)
    | ReapOp(limit: int)
    | ClaimChatOp(claimant: Principal, chatKey: string, chatPrint: string, forExecution: Option<nat>)
    | CreateOrderOp(buyer: Principal, order: OrderRequest)
    | CompletePaymentOp(payment: PaymentEvent)

  function Step(db: Database, now: int, op: Op): Database {
    match op
    case UserCall(p, userOp) =>
      if RefusedUnseen(userOp) then db
      else
        var users := Open(db.users, p.key, now);
        var i := IndexOf(users, p.key);
        db.(users := SetUser(users, i, UserStep(users[i].value, now, p.admin, userOp)))
    case ReserveOp(p, id, amountCents, execution) => ReserveUsage(db, now, p, id, amountCents, execution).0
    case ReapOp(limit) => db.(users := Reap(db.users, now, limit))
    case ClaimChatOp(p, requestKey, fingerprint, executionId) =>
      ClaimChatRequest(db, now, p, requestKey, fingerprint, executionId).0
    case CreateOrderOp(p, request) => CreatePaymentOrder(db, now, p, request).0
    case CompletePaymentOp(event) => CompletePaymentOrder(db, event).0
  }

  type Call = Timed<Op>

  function Run(db: Database, calls: seq<Call>): Database
    decreases |calls|
  {
    if calls == [] then db else Run(Step(db, calls[0].now, calls[0].op), calls[1..])
  }
}

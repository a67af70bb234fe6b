/** The books of one user: keys and keyed ledger entries correspond one to one, the ledger is
    append-only, completed chat requests are billed, and paid orders are posted. */
module UsageBooks {
  import opened Common
  import opened JsMap
  import opened Funds
  import opened Usage
  import TaskBoard
  import opened UsageMoney

  predicate Keyed(kind: EntryKind) {
    kind == Topup || kind == UsageCharge
  }

  /** Entry ids count up from the oldest; every key names its own keyed entry. */
  ghost predicate RecordsInv(u: User) {
    && (forall i | 0 <= i < |u.ledger| :: u.ledger[i].id == |u.ledger| - 1 - i)
    && (forall key | key in u.idempotency :: u.idempotency[key] in u.ledger && Keyed(u.idempotency[key].kind))
    && (forall key, other | key in u.idempotency && other in u.idempotency
          && u.idempotency[key].id == u.idempotency[other].id :: key == other)
  }

  /** Every keyed entry has its key. */
  ghost predicate KeysComplete(u: User) {
    forall e | e in u.ledger && Keyed(e.kind) :: HasKey(u, e)
  }

  ghost predicate HasKey(u: User, e: LedgerEntry) {
    exists key :: key in u.idempotency && u.idempotency[key] == e
  }

  /** The key remembers a usage charge. */
  predicate BilledUnder(u: User, key: string) {
    ClientKey(key) in u.idempotency && u.idempotency[ClientKey(key)].kind == UsageCharge
  }

  /** A completed chat request has its answer and its usage charge. */
  ghost predicate ChatOk(u: User, requestKey: string, chat: ChatRecord) {
    chat.status == Complete ==> chat.payload.Some? && BilledUnder(u, ChatKey(requestKey, chat.fingerprint))
  }

  ghost predicate ChatsInv(u: User) {
    Distinct(u.chats) && forall k | 0 <= k < |u.chats| :: ChatOk(u, u.chats[k].key, u.chats[k].value)
  }

  /** An order is paid exactly when its ledger entry exists. */
  ghost predicate OrdersInv(u: User) {
    && (forall order | order in u.orders ::
          && 0 <= u.orders[order].amountCents
          && (u.orders[order].status == Paid <==> PaymentOrderKey(order) in u.idempotency))
    && (forall order | PaymentOrderKey(order) in u.idempotency :: order in u.orders)
  }

  ghost predicate BooksInv(u: User) {
    RecordsInv(u) && KeysComplete(u) && ChatsInv(u) && OrdersInv(u)
  }

  /** The ledger only grows at the front, and a remembered entry is never forgotten or changed. */
  ghost predicate Grows(u: User, u': User) {
    && |u.ledger| <= |u'.ledger|
    && u'.ledger[|u'.ledger| - |u.ledger|..] == u.ledger
    && forall key | key in u.idempotency :: key in u'.idempotency && u'.idempotency[key] == u.idempotency[key]
  }

  /** What every operation on a user does to the books. */
  ghost predicate BooksMove(u: User, u': User) {
    BooksInv(u') && Grows(u, u') && u'.orders == u.orders
  }

  lemma GrowsTransitive(a: User, b: User, c: User)
    requires Grows(a, b) && Grows(b, c)
    ensures Grows(a, c)
  {
    assert c.ledger[|c.ledger| - |a.ledger|..] == c.ledger[|c.ledger| - |b.ledger|..][|b.ledger| - |a.ledger|..];
  }

  lemma BooksMoveTransitive(a: User, b: User, c: User)
    requires BooksMove(a, b) && BooksMove(b, c)
    ensures BooksMove(a, c)
  {
    GrowsTransitive(a, b, c);
  }

  // ---- The kinds of move ----

  predicate SameBooks(u: User, u': User) {
    u'.ledger == u.ledger && u'.idempotency == u.idempotency && u'.chats == u.chats && u'.orders == u.orders
  }

  lemma SameBooksMove(u: User, u': User)
    requires BooksInv(u) && SameBooks(u, u')
    ensures BooksMove(u, u')
  {
    assert forall e | e in u'.ledger && Keyed(e.kind) :: HasKey(u, e) ==> HasKey(u', e);
  }

  lemma ChatMove(u: User, u': User, requestKey: string, chat: ChatRecord)
    requires BooksInv(u) && ChatOk(u, requestKey, chat)
    requires SameBooks(u.(chats := Put(u.chats, requestKey, chat)), u')
    ensures BooksMove(u, u')
  {
    PutKeepsDistinct(u.chats, requestKey, chat);
    assert forall e | e in u'.ledger && Keyed(e.kind) :: HasKey(u, e) ==> HasKey(u', e);
  }

  lemma PostRecords(u: User, u': User, kind: EntryKind, wallet: int, credit: int, detail: Detail)
    requires RecordsInv(u) && KeysComplete(u) && !Keyed(kind)
    requires u'.ledger == Post(u, kind, wallet, credit, detail).ledger && u'.idempotency == u.idempotency
    ensures RecordsInv(u') && KeysComplete(u') && Grows(u, u')
  {
    forall e | e in u'.ledger && Keyed(e.kind) ensures HasKey(u', e) {
      assert e in u.ledger;
      assert HasKey(u, e);
    }
  }

  lemma RecordedIds(u: User, key: LedgerKey)
    requires RecordsInv(u) && key in u.idempotency
    ensures u.idempotency[key].id < |u.ledger|
  {
    var i :| 0 <= i < |u.ledger| && u.ledger[i] == u.idempotency[key];
  }

  /** A new entry in front of the ledger, under a new key. */
  lemma EntryRecords(u: User, u': User, key: LedgerKey, e: LedgerEntry)
    requires RecordsInv(u) && key !in u.idempotency && Keyed(e.kind) && e.id == |u.ledger|
    requires u'.ledger == [e] + u.ledger && u'.idempotency == u.idempotency[key := e]
    ensures RecordsInv(u') && Grows(u, u')
  {
    forall other | other in u.idempotency ensures u.idempotency[other].id < |u.ledger| {
      RecordedIds(u, other);
    }
  }

  lemma PostUnderRecords(u: User, u': User, key: LedgerKey, kind: EntryKind, wallet: int, credit: int, detail: Detail)
    requires RecordsInv(u) && Keyed(kind) && key !in u.idempotency
    requires var posted := PostUnder(u, key, kind, wallet, credit, detail);
             u'.ledger == posted.ledger && u'.idempotency == posted.idempotency
    ensures RecordsInv(u') && Grows(u, u')
  {
    EntryRecords(u, u', key, LedgerEntry(|u.ledger|, kind, wallet + credit, wallet, credit, detail));
  }

  lemma PostUnderKeys(u: User, u': User, key: LedgerKey, kind: EntryKind, wallet: int, credit: int, detail: Detail)
    requires KeysComplete(u) && key !in u.idempotency
    requires var posted := PostUnder(u, key, kind, wallet, credit, detail);
             u'.ledger == posted.ledger && u'.idempotency == posted.idempotency
    ensures KeysComplete(u')
  {
    forall e | e in u'.ledger && Keyed(e.kind) ensures HasKey(u', e) {
      if e == u'.ledger[0] {
        assert u'.idempotency[key] == e;
      } else {
        assert e in u.ledger;
        assert HasKey(u, e);
        var k :| k in u.idempotency && u.idempotency[k] == e;
        assert u'.idempotency[k] == e;
      }
    }
  }

  /** An unkeyed entry. */
  lemma PostMove(u: User, u': User, kind: EntryKind, wallet: int, credit: int, detail: Detail)
    requires BooksInv(u) && !Keyed(kind) && SameBooks(Post(u, kind, wallet, credit, detail), u')
    ensures BooksMove(u, u')
  {
    PostRecords(u, u', kind, wallet, credit, detail);
    assert ChatsInv(u') && OrdersInv(u');
  }

  /** An entry under a new client key. */
  lemma ClientPostMove(u: User, u': User, key: string, kind: EntryKind, wallet: int, credit: int, detail: Detail)
    requires BooksInv(u) && Keyed(kind) && ClientKey(key) !in u.idempotency
    requires SameBooks(PostUnder(u, ClientKey(key), kind, wallet, credit, detail), u')
    ensures BooksMove(u, u') && ClientKey(key) in u'.idempotency && u'.idempotency[ClientKey(key)].kind == kind
  {
    PostUnderRecords(u, u', ClientKey(key), kind, wallet, credit, detail);
    PostUnderKeys(u, u', ClientKey(key), kind, wallet, credit, detail);
    assert ChatsInv(u');
    assert OrdersInv(u');
  }

  // ---- Operations ----

  lemma NewUserBooks(now: int)
    ensures BooksInv(NewUser(now))
  {
  }

  lemma TopUpBooks(u: User, r: TopupRequest)
    requires BooksInv(u)
    ensures BooksMove(u, TopUp(u, r).0)
  {
    if ValidTopup(r) && ClientKey(r.key) !in u.idempotency {
      ClientPostMove(u, TopUp(u, r).0, r.key, Topup, r.amountCents, 0, Plain(r.channel + ":" + r.key));
    } else {
      SameBooksMove(u, u);
    }
  }

  lemma PurchasePackBooks(u: User, now: int, packId: string, key: string)
    requires BooksInv(u)
    ensures BooksMove(u, PurchasePack(u, now, packId, key).0)
  {
    var u' := PurchasePack(u, now, packId, key).0;
    var found := FindPack(CATALOG, packId);
    PurchaseSteps(u, now, packId, key);
    if u' == u || u' == SummarizeCredit(u, now) {
      SameBooksMove(u, u');
    } else {
      var paid := PaidFor(u, found.value, key);
      PostMove(u, paid, PackPurchase, -found.value.priceCents, 0, Plain(found.value.name));
      PostMove(paid, u', CreditGrant, 0, found.value.creditCents, Plain(found.value.name));
      BooksMoveTransitive(u, paid, u');
    }
  }

  lemma RecordUsageBooks(u: User, now: int, admin: bool, e: UsageEvent)
    requires BooksInv(u)
    ensures var u' := RecordUsage(u, now, admin, e).0;
            && BooksMove(u, u') && |u'.ledger| <= |u.ledger| + 1
            && (|u'.ledger| > |u.ledger| ==>
                  ClientKey(e.idempotencyKey) !in u.idempotency && ClientKey(e.idempotencyKey) in u'.idempotency)
  {
    var u' := RecordUsage(u, now, admin, e).0;
    if ValidEvent(e) && ClientKey(e.idempotencyKey) !in u.idempotency {
      var r := Allocate(u.funds, Billed(admin, e).costCents, now).1;
      RecordUsageCases(u, now, admin, e);
      if r.Ok? {
        ClientPostMove(u, u', e.idempotencyKey, UsageCharge, -r.value.wallet, -SumAllocations(r.value.allocations),
                       DetailOf(Billed(admin, e)));
      } else {
        SameBooksMove(u, u');
      }
    } else {
      SameBooksMove(u, u');
    }
  }

  lemma ReserveBooks(u: User, now: int, admin: bool, id: string, amountCents: int, execution: Option<TaskExecution>)
    requires BooksInv(u)
    ensures BooksMove(u, Reserve(u, now, admin, id, amountCents, execution).0)
  {
    ReserveCases(u, now, admin, id, amountCents, execution);
    SameBooksMove(u, Reserve(u, now, admin, id, amountCents, execution).0);
  }

  lemma CompleteChatBooks(u: User, now: int, c: Completion)
    requires BooksInv(u) && BilledUnder(u, ChatKey(c.requestKey, c.fingerprint))
    ensures BooksMove(u, CompleteChat(u, now, c))
  {
    ChatMove(u, CompleteChat(u, now, c), c.requestKey,
             ChatRecord(c.fingerprint, c.executionId, Complete, Some(c.payload), now + DAY_MS));
  }

  lemma SettleReplayBooks(u: User, now: int, id: string, completion: Option<Completion>)
    requires BooksInv(u)
    requires completion.Some? ==> BilledUnder(u, ChatKey(completion.value.requestKey, completion.value.fingerprint))
    ensures BooksMove(u, SettleReplay(u, now, id, completion))
    ensures SettleReplay(u, now, id, completion).ledger == u.ledger
  {
    var released := ReleaseIfHeld(u, now, id);
    SameBooksMove(u, released);
    if ChatIs(u, completion, Pending) {
      CompleteChatBooks(released, now, completion.value);
      BooksMoveTransitive(u, released, SettleReplay(u, now, id, completion));
    }
  }

  lemma ChargeReservationBooks(u: User, now: int, k: nat, key: string, billed: UsageEvent)
    requires BooksInv(u) && k < |u.reservations| && ClientKey(key) !in u.idempotency
    ensures var (u', r) := ChargeReservation(u, now, k, key, billed);
            && BooksMove(u, u') && |u'.ledger| <= |u.ledger| + 1
            && (r.Ok? ==> BilledUnder(u', key)) && (r.Err? ==> u'.ledger == u.ledger)
  {
    var u' := ChargeReservation(u, now, k, key, billed).0;
    var charged := ChargeHeld(u.funds, u.reservations[k].value.held, billed.costCents, now).1;
    ChargeReservationCases(u, now, k, key, billed);
    if charged.Ok? {
      ClientPostMove(u, u', key, UsageCharge, -charged.value.wallet, -charged.value.credit, DetailOf(billed));
    } else {
      SameBooksMove(u, u');
    }
  }

  lemma SettleChargeBooks(u: User, now: int, k: nat, key: string, billed: UsageEvent, completion: Option<Completion>)
    requires BooksInv(u) && k < |u.reservations| && ClientKey(key) !in u.idempotency
    requires completion.Some? ==> key == ChatKey(completion.value.requestKey, completion.value.fingerprint)
    ensures var (u', r) := SettleCharge(u, now, k, key, billed, completion);
            && BooksMove(u, u') && |u'.ledger| <= |u.ledger| + 1
            && (|u'.ledger| > |u.ledger| ==> ClientKey(key) in u'.idempotency)
  {
    var (charged, r) := ChargeReservation(u, now, k, key, billed);
    ChargeReservationBooks(u, now, k, key, billed);
    if r.Ok? && completion.Some? {
      CompleteChatBooks(charged, now, completion.value);
      BooksMoveTransitive(u, charged, CompleteChat(charged, now, completion.value));
    }
  }

  lemma SettleUsageBooks(u: User, now: int, admin: bool, id: string, e: UsageEvent, completion: Option<Completion>,
                         executionId: Option<nat>)
    requires BooksInv(u)
    ensures var u' := SettleUsage(u, now, admin, id, e, completion, executionId).0;
            && BooksMove(u, u') && |u'.ledger| <= |u.ledger| + 1
            && (|u'.ledger| > |u.ledger| ==>
                  ClientKey(e.idempotencyKey) !in u.idempotency && ClientKey(e.idempotencyKey) in u'.idempotency)
  {
    if SettleRefusal(u, now, admin, id, e, completion, executionId).Some? {
      SameBooksMove(u, u);
    } else {
      SettleAccepted(u, now, admin, id, e, completion, executionId);
      if ClientKey(e.idempotencyKey) in u.idempotency {
        SettleReplayBooks(u, now, id, completion);
      } else {
        SettleChargeBooks(u, now, IndexOf(u.reservations, id), e.idempotencyKey, Billed(admin, e), completion);
      }
    }
  }

  lemma ClaimChatBooks(u: User, now: int, requestKey: string, fingerprint: string, executionId: Option<nat>)
    requires BooksInv(u)
    ensures BooksMove(u, ClaimChat(u, now, requestKey, fingerprint, executionId).0)
  {
    var u' := ClaimChat(u, now, requestKey, fingerprint, executionId).0;
    if u' == u {
      SameBooksMove(u, u);
    } else {
      ChatMove(u, u', requestKey, ChatRecord(fingerprint, executionId, Pending, None, now + HOUR_MS));
    }
  }

  lemma FailChatBooks(u: User, now: int, requestKey: string, fingerprint: string, executionId: Option<nat>)
    requires BooksInv(u)
    ensures BooksMove(u, FailChat(u, now, requestKey, fingerprint, executionId))
  {
    var u' := FailChat(u, now, requestKey, fingerprint, executionId);
    if u' == u {
      SameBooksMove(u, u);
    } else {
      ChatMove(u, u', requestKey,
               Get(u.chats, requestKey).value.(status := Failed, payload := None, expiresAt := now + HOUR_MS));
    }
  }

  lemma {:induction false} SweepIsPart(chats: Dict<ChatRecord>, now: int, budget: nat)
    requires Distinct(chats)
    ensures Distinct(SweepChats(chats, now, budget))
    ensures forall e | e in SweepChats(chats, now, budget) :: e in chats
  {
    if budget > 0 && chats != [] {
      var rest := SweepChats(chats[1..], now, if chats[0].value.expiresAt <= now then budget - 1 else budget);
      SweepIsPart(chats[1..], now, if chats[0].value.expiresAt <= now then budget - 1 else budget);
      forall k | 0 <= k < |rest| ensures rest[k] in chats && rest[k].key != chats[0].key {
        assert rest[k] in chats[1..];
      }
    }
  }

  lemma SweepBooks(u: User, now: int, budget: nat)
    requires BooksInv(u)
    ensures BooksMove(u, u.(chats := SweepChats(u.chats, now, budget)))
  {
    var chats := SweepChats(u.chats, now, budget);
    var u' := u.(chats := chats);
    SweepIsPart(u.chats, now, budget);
    forall k | 0 <= k < |chats| ensures ChatOk(u', chats[k].key, chats[k].value) {
      assert chats[k] in u.chats;
    }
    assert forall e | e in u'.ledger && Keyed(e.kind) :: HasKey(u, e) ==> HasKey(u', e);
  }

  // ---- Payment orders ----

  lemma NewOrderBooks(u: User, u': User, order: nat)
    requires BooksInv(u) && order !in u.orders
    requires order in u'.orders && u'.orders == u.orders[order := u'.orders[order]]
    requires u'.orders[order].status == OrderPending && 0 <= u'.orders[order].amountCents
    requires SameBooks(u.(orders := u'.orders), u')
    ensures BooksInv(u') && Grows(u, u')
  {
    assert forall e | e in u'.ledger && Keyed(e.kind) :: HasKey(u, e) ==> HasKey(u', e);
    assert OrdersInv(u');
  }

  lemma PayOrderBooks(u: User, event: PaymentEvent)
    requires BooksInv(u) && event.order in u.orders
    ensures BooksInv(PayOrder(u, event).0) && Grows(u, PayOrder(u, event).0)
    ensures PayOrder(u, event).1 != Err(PaymentLedgerMissing)
  {
    var u' := PayOrder(u, event).0;
    if u' == u {
      SameBooksMove(u, u);
    } else {
      var amount := u.orders[event.order].amountCents;
      var detail := Plain(event.channel + ":" + event.providerPaymentId);
      PostUnderRecords(u, u', PaymentOrderKey(event.order), Topup, amount, 0, detail);
      PostUnderKeys(u, u', PaymentOrderKey(event.order), Topup, amount, 0, detail);
      assert ChatsInv(u');
      assert OrdersInv(u');
    }
  }

  // ---- Every step on a user ----

  lemma SummaryStepBooks(u: User, now: int, admin: bool)
    requires BooksInv(u)
    ensures BooksMove(u, UserStep(u, now, admin, SummaryOp))
  {
    SameBooksMove(u, SummarizeCredit(u, now));
  }

  lemma RenewStepBooks(u: User, now: int, admin: bool, id: string)
    requires BooksInv(u)
    ensures BooksMove(u, UserStep(u, now, admin, RenewReservationOp(id)))
  {
    SameBooksMove(u, RenewReservation(u, now, id).0);
  }

  lemma ReleaseStepBooks(u: User, now: int, admin: bool, id: string)
    requires BooksInv(u)
    ensures BooksMove(u, UserStep(u, now, admin, ReleaseOp(id)))
  {
    SameBooksMove(u, ReleaseIfHeld(u, now, id));
  }

  lemma BoardStepBooks(u: User, now: int, admin: bool, op: TaskBoard.Op)
    requires BooksInv(u)
    ensures BooksMove(u, UserStep(u, now, admin, BoardOp(op)))
  {
    SameBooksMove(u, u.(board := TaskBoard.Step(u.board, now, op)));
  }

  lemma TopUpStepBooks(u: User, now: int, admin: bool, request: TopupRequest)
    requires BooksInv(u)
    ensures BooksMove(u, UserStep(u, now, admin, TopUpOp(request)))
  {
    TopUpBooks(u, request);
  }

  lemma FailChatStepBooks(u: User, now: int, admin: bool, requestKey: string, fingerprint: string,
                          executionId: Option<nat>)
    requires BooksInv(u)
    ensures BooksMove(u, UserStep(u, now, admin, FailChatOp(requestKey, fingerprint, executionId)))
  {
    FailChatBooks(u, now, requestKey, fingerprint, executionId);
  }

  lemma RecordStepBooks(u: User, now: int, admin: bool, e: UsageEvent)
    requires BooksInv(u)
    ensures BooksMove(u, UserStep(u, now, admin, RecordOp(e)))
  {
    RecordUsageBooks(u, now, admin, e);
  }

  lemma SettleStepBooks(u: User, now: int, admin: bool, id: string, e: UsageEvent, completion: Option<Completion>,
                        executionId: Option<nat>)
    requires BooksInv(u)
    ensures BooksMove(u, UserStep(u, now, admin, SettleOp(id, e, completion, executionId)))
  {
    assert UserStep(u, now, admin, SettleOp(id, e, completion, executionId))
           == SettleUsage(u, now, admin, id, e, completion, executionId).0;
    SettleUsageBooks(u, now, admin, id, e, completion, executionId);
  }

  lemma PurchasePackStepBooks(u: User, now: int, admin: bool, packId: string, key: string)
    requires BooksInv(u)
    ensures BooksMove(u, UserStep(u, now, admin, PurchasePackOp(packId, key)))
  {
    PurchasePackBooks(u, now, packId, key);
  }

  lemma UserStepBooks(u: User, now: int, admin: bool, op: UserOp)
    requires BooksInv(u)
    ensures BooksMove(u, UserStep(u, now, admin, op))
  {
    match op
    case TopUpOp(request) => TopUpStepBooks(u, now, admin, request);
    case PurchasePackOp(packId, key) => PurchasePackStepBooks(u, now, admin, packId, key);
    case SummaryOp => SummaryStepBooks(u, now, admin);
    case RecordOp(e) => RecordStepBooks(u, now, admin, e);
    case RenewReservationOp(id) => RenewStepBooks(u, now, admin, id);
    case SettleOp(id, e, completion, executionId) => SettleStepBooks(u, now, admin, id, e, completion, executionId);
    case ReleaseOp(id) => ReleaseStepBooks(u, now, admin, id);
    case FailChatOp(requestKey, fingerprint, executionId) =>
      FailChatStepBooks(u, now, admin, requestKey, fingerprint, executionId);
    case BoardOp(boardOp) => BoardStepBooks(u, now, admin, boardOp);
  }

}

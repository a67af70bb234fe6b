/** Safety over every run of the whole database: conservation of money for every user, an
    append-only ledger, exactly-once billing, and branches that can never be taken. */
module UsageRuns {
  import opened Common
  import opened JsMap
  import opened Funds
  import opened Usage
  import opened UsageFunds
  import opened UsageMoney
  import opened UsageBooks
  import TaskBoard
  import TaskTheorems

  // ---- The table of users ----

  ghost predicate AllUsers(users: Dict<User>, good: User -> bool) {
    forall i | 0 <= i < |users| :: good(users[i].value)
  }

  /** No two payment orders, of any users, are bound to one provider payment, and no order
      belongs to two users. */
  ghost predicate OrdersApart(users: Dict<User>) {
    forall i, j, order, other |
        0 <= i < |users| && 0 <= j < |users| && order in users[i].value.orders && other in users[j].value.orders ::
      && (order == other ==> i == j)
      && (users[i].value.orders[order].providerPaymentId.Some?
          && users[i].value.orders[order].providerPaymentId == users[j].value.orders[other].providerPaymentId
          ==> order == other)
  }

  ghost predicate TableInv(users: Dict<User>, good: User -> bool) {
    Distinct(users) && AllUsers(users, good) && OrdersApart(users)
  }

  /** Every user of the first table is in the second, at the same place, with grown books. */
  ghost predicate UsersGrow(users: Dict<User>, users': Dict<User>) {
    && |users| <= |users'|
    && forall i | 0 <= i < |users| :: users'[i].key == users[i].key && Grows(users[i].value, users'[i].value)
  }

  /** What a step does to the table. */
  ghost predicate TableMove(users: Dict<User>, users': Dict<User>, good: User -> bool) {
    TableInv(users', good) && UsersGrow(users, users')
  }

  lemma UsersGrowTransitive(a: Dict<User>, b: Dict<User>, c: Dict<User>)
    requires UsersGrow(a, b) && UsersGrow(b, c)
    ensures UsersGrow(a, c)
  {
    forall i | 0 <= i < |a| ensures c[i].key == a[i].key && Grows(a[i].value, c[i].value) {
      GrowsTransitive(a[i].value, b[i].value, c[i].value);
    }
  }

  lemma SameOrdersApart(users: Dict<User>, users': Dict<User>)
    requires OrdersApart(users) && |users'| == |users|
    requires forall i | 0 <= i < |users| :: users'[i].value.orders == users[i].value.orders
    ensures OrdersApart(users')
  {
  }

  /** Replacing every user, in place, by one with grown books and the same orders. */
  lemma InPlaceMove(users: Dict<User>, users': Dict<User>, good: User -> bool)
    requires TableInv(users, good) && |users'| == |users| && AllUsers(users', good)
    requires forall i | 0 <= i < |users| ::
               users'[i].key == users[i].key && users'[i].value.orders == users[i].value.orders
               && Grows(users[i].value, users'[i].value)
    ensures TableMove(users, users', good)
  {
    SameOrdersApart(users, users');
  }

  lemma StandStill(users: Dict<User>, good: User -> bool)
    requires TableInv(users, good)
    ensures TableMove(users, users, good)
  {
  }

  lemma SetUserMove(users: Dict<User>, i: nat, u: User, good: User -> bool)
    requires TableInv(users, good) && i < |users|
    requires good(u) && u.orders == users[i].value.orders && Grows(users[i].value, u)
    ensures TableMove(users, SetUser(users, i, u), good)
  {
    InPlaceMove(users, SetUser(users, i, u), good);
  }

  /** Replacing a user whose orders changed, as long as orders stay apart. */
  lemma SetOrdersMove(users: Dict<User>, i: nat, u: User, good: User -> bool, good': User -> bool)
    requires TableInv(users, good) && i < |users| && AllUsers(users, good')
    requires good'(u) && Grows(users[i].value, u) && OrdersApart(SetUser(users, i, u))
    ensures TableMove(users, SetUser(users, i, u), good')
  {
  }

  /** A new user without orders. */
  lemma AddedApart(users: Dict<User>, e: Entry<User>)
    requires OrdersApart(users) && e.value.orders == map[]
    ensures OrdersApart(users + [e])
  {
    assert forall i | 0 <= i < |users| :: (users + [e])[i] == users[i];
  }

  lemma AddedMove(users: Dict<User>, e: Entry<User>, good: User -> bool)
    requires TableInv(users, good) && good(e.value) && e.value.orders == map[]
    requires forall i | 0 <= i < |users| :: users[i].key != e.key
    ensures TableMove(users, users + [e], good)
  {
    AddedApart(users, e);
  }

  lemma OpenMove(users: Dict<User>, key: string, now: int, good: User -> bool)
    requires TableInv(users, good) && good(NewUser(now))
    ensures TableMove(users, Open(users, key, now), good)
  {
    if Has(users, key) {
      StandStill(users, good);
    } else {
      AddedMove(users, Entry(key, NewUser(now)), good);
    }
  }

  // ---- The invariant of the database ----

  ghost predicate GoodUser(u: User, nextOrder: nat) {
    && MoneyInv(u) && BooksInv(u) && TaskTheorems.Inv(u.board)
    && forall order | order in u.orders :: order < nextOrder
  }

  ghost function Good(nextOrder: nat): User -> bool {
    (u: User) => GoodUser(u, nextOrder)
  }

  ghost predicate DbInv(db: Database) {
    TableInv(db.users, Good(db.nextOrder))
  }

  ghost predicate DbMove(db: Database, db': Database) {
    DbInv(db') && UsersGrow(db.users, db'.users)
  }

  lemma NewUserGood(now: int, nextOrder: nat)
    ensures GoodUser(NewUser(now), nextOrder)
  {
    NewUserMoney(now);
    NewUserBooks(now);
    TaskTheorems.EmptyBoardInv();
  }

  lemma OpenGood(users: Dict<User>, key: string, now: int, nextOrder: nat)
    requires TableInv(users, Good(nextOrder))
    ensures TableMove(users, Open(users, key, now), Good(nextOrder))
  {
    NewUserGood(now, nextOrder);
    OpenMove(users, key, now, Good(nextOrder));
  }

  /** What an operation on one user does. */
  ghost predicate UserMove(u: User, u': User, nextOrder: nat) {
    GoodUser(u', nextOrder) && Grows(u, u') && u'.orders == u.orders
  }

  lemma MoveFromParts(u: User, u': User, nextOrder: nat)
    requires forall order | order in u.orders :: order < nextOrder
    requires MoneyInv(u') && BooksMove(u, u') && TaskTheorems.Inv(u'.board)
    ensures UserMove(u, u', nextOrder)
  {
  }

  /** Only board operations touch the board. */
  lemma BoardUntouched(u: User, now: int, admin: bool, op: UserOp)
    requires !op.BoardOp?
    ensures UserStep(u, now, admin, op).board == u.board
  {
  }

  lemma UserStepBoard(u: User, now: int, admin: bool, op: UserOp)
    requires TaskTheorems.Inv(u.board)
    ensures TaskTheorems.Inv(UserStep(u, now, admin, op).board)
  {
    if op.BoardOp? {
      TaskTheorems.StepGood(u.board, now, op.op);
    } else {
      BoardUntouched(u, now, admin, op);
    }
  }

  lemma UserStepMove(u: User, now: int, admin: bool, op: UserOp, nextOrder: nat)
    requires GoodUser(u, nextOrder)
    ensures UserMove(u, UserStep(u, now, admin, op), nextOrder)
  {
    UserStepMoney(u, now, admin, op);
    UserStepBooks(u, now, admin, op);
    UserStepBoard(u, now, admin, op);
    MoveFromParts(u, UserStep(u, now, admin, op), nextOrder);
  }

  // ---- Steps of the database ----

  /** Opening a user and then moving that user. */
  lemma OpenThenMove(users: Dict<User>, key: string, now: int, u: User, nextOrder: nat)
    requires TableInv(users, Good(nextOrder))
    requires var all := Open(users, key, now);
             UserMove(all[IndexOf(all, key)].value, u, nextOrder)
    ensures var all := Open(users, key, now);
            TableMove(users, SetUser(all, IndexOf(all, key), u), Good(nextOrder))
  {
    var all := Open(users, key, now);
    var i := IndexOf(all, key);
    OpenGood(users, key, now, nextOrder);
    SetUserMove(all, i, u, Good(nextOrder));
    UsersGrowTransitive(users, all, SetUser(all, i, u));
  }

  lemma OpenedIsGood(users: Dict<User>, key: string, now: int, nextOrder: nat)
    requires TableInv(users, Good(nextOrder))
    ensures var all := Open(users, key, now);
            GoodUser(all[IndexOf(all, key)].value, nextOrder)
  {
    OpenGood(users, key, now, nextOrder);
    var all := Open(users, key, now);
    assert Good(nextOrder)(all[IndexOf(all, key)].value);
  }

  lemma UserCallMove(db: Database, now: int, p: Principal, op: UserOp)
    requires DbInv(db)
    ensures DbMove(db, Step(db, now, UserCall(p, op)))
  {
    if RefusedUnseen(op) {
      StandStill(db.users, Good(db.nextOrder));
    } else {
      var all := Open(db.users, p.key, now);
      var u := all[IndexOf(all, p.key)].value;
      OpenedIsGood(db.users, p.key, now, db.nextOrder);
      UserStepMove(u, now, p.admin, op, db.nextOrder);
      OpenThenMove(db.users, p.key, now, UserStep(u, now, p.admin, op), db.nextOrder);
    }
  }

  lemma ReleaseMove(u: User, k: nat, now: int, nextOrder: nat)
    requires GoodUser(u, nextOrder) && k < |u.reservations| && u.reservations[k].value.status == Reserved
    ensures UserMove(u, Release(u, k, now), nextOrder)
  {
    ReleaseMoney(u, k, now);
    SameBooksMove(u, Release(u, k, now));
    MoveFromParts(u, Release(u, k, now), nextOrder);
  }

  lemma ReleaseCandidateMove(users: Dict<User>, c: Candidate, now: int, nextOrder: nat)
    requires TableInv(users, Good(nextOrder))
    ensures TableMove(users, ReleaseCandidate(users, c, now), Good(nextOrder))
  {
    if ReleaseCandidate(users, c, now) == users {
      StandStill(users, Good(nextOrder));
    } else {
      var u := users[c.user].value;
      assert Good(nextOrder)(u);
      ReleaseMove(u, c.reservation, now, nextOrder);
      SetUserMove(users, c.user, Release(u, c.reservation, now), Good(nextOrder));
    }
  }

  lemma {:induction false} ReleaseBatchMove(users: Dict<User>, batch: seq<Candidate>, now: int, nextOrder: nat)
    requires TableInv(users, Good(nextOrder))
    ensures TableMove(users, ReleaseBatch(users, batch, now), Good(nextOrder))
    decreases |batch|
  {
    if batch == [] {
      StandStill(users, Good(nextOrder));
    } else {
      var mid := ReleaseCandidate(users, batch[0], now);
      ReleaseCandidateMove(users, batch[0], now, nextOrder);
      ReleaseBatchMove(mid, batch[1..], now, nextOrder);
      UsersGrowTransitive(users, mid, ReleaseBatch(mid, batch[1..], now));
    }
  }

  lemma ReserveMove(u: User, now: int, admin: bool, id: string, amountCents: int, execution: Option<TaskExecution>,
                    nextOrder: nat)
    requires GoodUser(u, nextOrder) && 0 <= amountCents
    ensures UserMove(u, Reserve(u, now, admin, id, amountCents, execution).0, nextOrder)
  {
    ReserveMoney(u, now, admin, id, amountCents, execution);
    ReserveBooks(u, now, admin, id, amountCents, execution);
    ReserveCases(u, now, admin, id, amountCents, execution);
    MoveFromParts(u, Reserve(u, now, admin, id, amountCents, execution).0, nextOrder);
  }

  lemma ReserveUsageMove(db: Database, now: int, p: Principal, id: string, amountCents: int,
                         execution: Option<TaskExecution>)
    requires DbInv(db)
    ensures DbMove(db, ReserveUsage(db, now, p, id, amountCents, execution).0)
  {
    if amountCents < 0 {
      StandStill(db.users, Good(db.nextOrder));
    } else {
      var reaped := Reap(db.users, now, USAGE_RESERVATION_REAP_BATCH_SIZE);
      ReleaseBatchMove(db.users, Batch(db.users, now, USAGE_RESERVATION_REAP_BATCH_SIZE), now, db.nextOrder);
      var all := Open(reaped, p.key, now);
      var u := all[IndexOf(all, p.key)].value;
      OpenedIsGood(reaped, p.key, now, db.nextOrder);
      ReserveMove(u, now, p.admin, id, amountCents, execution, db.nextOrder);
      OpenThenMove(reaped, p.key, now, Reserve(u, now, p.admin, id, amountCents, execution).0, db.nextOrder);
      UsersGrowTransitive(db.users, reaped, ReserveUsage(db, now, p, id, amountCents, execution).0.users);
    }
  }

  lemma ChatsOnlyMoney(u: User, u': User, nextOrder: nat)
    requires GoodUser(u, nextOrder) && BooksMove(u, u') && u' == u.(chats := u'.chats)
    ensures UserMove(u, u', nextOrder)
  {
    assert SameMoney(u, u');
    MoveFromParts(u, u', nextOrder);
  }

  lemma SweepMove(u: User, now: int, budget: nat, nextOrder: nat)
    requires GoodUser(u, nextOrder)
    ensures UserMove(u, u.(chats := SweepChats(u.chats, now, budget)), nextOrder)
  {
    SweepBooks(u, now, budget);
    ChatsOnlyMoney(u, u.(chats := SweepChats(u.chats, now, budget)), nextOrder);
  }

  /** What a sweep does to one user, given what is left of its budget by then. */
  lemma {:induction false} SweepUsersAt(users: Dict<User>, now: int, budget: nat, i: nat) returns (left: nat)
    requires i < |users|
    ensures SweepUsers(users, now, budget)[i]
            == Entry(users[i].key, users[i].value.(chats := SweepChats(users[i].value.chats, now, left)))
    decreases |users|
  {
    var u := users[0].value;
    SweepBudget(u.chats, now, budget);
    if i == 0 {
      left := budget;
    } else {
      left := SweepUsersAt(users[1..], now, budget - (|u.chats| - |SweepChats(u.chats, now, budget)|), i - 1);
    }
  }

  lemma SweepUsersMove(users: Dict<User>, now: int, budget: nat, nextOrder: nat)
    requires TableInv(users, Good(nextOrder))
    ensures TableMove(users, SweepUsers(users, now, budget), Good(nextOrder))
  {
    var swept := SweepUsers(users, now, budget);
    forall i | 0 <= i < |users|
      ensures swept[i].key == users[i].key && swept[i].value.orders == users[i].value.orders
      ensures Grows(users[i].value, swept[i].value) && Good(nextOrder)(swept[i].value)
    {
      assert Good(nextOrder)(users[i].value);
      var left := SweepUsersAt(users, now, budget, i);
      SweepMove(users[i].value, now, left, nextOrder);
    }
    InPlaceMove(users, swept, Good(nextOrder));
  }

  lemma ClaimChatMove(u: User, now: int, requestKey: string, fingerprint: string, executionId: Option<nat>,
                      nextOrder: nat)
    requires GoodUser(u, nextOrder)
    ensures UserMove(u, ClaimChat(u, now, requestKey, fingerprint, executionId).0, nextOrder)
  {
    ClaimChatBooks(u, now, requestKey, fingerprint, executionId);
    ChatsOnlyMoney(u, ClaimChat(u, now, requestKey, fingerprint, executionId).0, nextOrder);
  }

  lemma ClaimChatRequestMove(db: Database, now: int, p: Principal, requestKey: string, fingerprint: string,
                             executionId: Option<nat>)
    requires DbInv(db)
    ensures DbMove(db, Step(db, now, ClaimChatOp(p, requestKey, fingerprint, executionId)))
  {
    if |requestKey| == 0 || |requestKey| > 240 {
      StandStill(db.users, Good(db.nextOrder));
    } else {
      var all := Open(db.users, p.key, now);
      var users := SweepUsers(all, now, CHAT_SWEEP_BATCH_SIZE);
      var i := IndexOf(all, p.key);
      OpenGood(db.users, p.key, now, db.nextOrder);
      SweepUsersMove(all, now, CHAT_SWEEP_BATCH_SIZE, db.nextOrder);
      assert Good(db.nextOrder)(users[i].value);
      var u := ClaimChat(users[i].value, now, requestKey, fingerprint, executionId).0;
      ClaimChatMove(users[i].value, now, requestKey, fingerprint, executionId, db.nextOrder);
      SetUserMove(users, i, u, Good(db.nextOrder));
      UsersGrowTransitive(db.users, all, users);
      UsersGrowTransitive(db.users, users, SetUser(users, i, u));
    }
  }

  // ---- Payment orders ----

  lemma AllGoodLater(users: Dict<User>, nextOrder: nat)
    requires AllUsers(users, Good(nextOrder))
    ensures AllUsers(users, Good(nextOrder + 1))
  {
    forall i | 0 <= i < |users| ensures Good(nextOrder + 1)(users[i].value) {
      assert Good(nextOrder)(users[i].value);
    }
  }

  lemma NewOrderGood(u: User, u': User, order: nat)
    requires GoodUser(u, order) && order in u'.orders && 0 <= u'.orders[order].amountCents
    requires u'.orders[order].status == OrderPending
    requires u' == u.(orders := u.orders[order := u'.orders[order]], orderKeys := u'.orderKeys)
    ensures GoodUser(u', order + 1) && Grows(u, u')
  {
    NewOrderBooks(u, u', order);
    assert SameMoney(u, u');
  }

  lemma NewOrderApart(users: Dict<User>, i: nat, u: User, order: nat)
    requires OrdersApart(users) && i < |users|
    requires forall j | 0 <= j < |users| :: order !in users[j].value.orders
    requires order in u.orders && u.orders == users[i].value.orders[order := u.orders[order]]
    requires u.orders[order].providerPaymentId.None?
    ensures OrdersApart(SetUser(users, i, u))
  {
  }

  lemma AddOrderMove(users: Dict<User>, i: nat, u: User, order: nat)
    requires TableInv(users, Good(order)) && i < |users|
    requires order in u.orders && 0 <= u.orders[order].amountCents
    requires u.orders[order].status == OrderPending && u.orders[order].providerPaymentId.None?
    requires u == users[i].value.(orders := users[i].value.orders[order := u.orders[order]], orderKeys := u.orderKeys)
    ensures TableMove(users, SetUser(users, i, u), Good(order + 1))
  {
    forall j | 0 <= j < |users| ensures order !in users[j].value.orders {
      assert Good(order)(users[j].value);
    }
    assert Good(order)(users[i].value);
    NewOrderGood(users[i].value, u, order);
    NewOrderApart(users, i, u, order);
    AllGoodLater(users, order);
    SetOrdersMove(users, i, u, Good(order), Good(order + 1));
  }

  /** A user that has gained a pending order of the next id. */
  ghost predicate AddsOrder(old_: User, u: User, order: nat) {
    && order in u.orders && 0 <= u.orders[order].amountCents
    && u.orders[order].status == OrderPending && u.orders[order].providerPaymentId.None?
    && u == old_.(orders := old_.orders[order := u.orders[order]], orderKeys := u.orderKeys)
  }

  /** Creating an order adds nothing, or a pending order of the next id. */
  lemma CreateOrderCases(db: Database, now: int, p: Principal, request: OrderRequest) returns (u: User)
    ensures var all := Open(db.users, p.key, now);
            var i := IndexOf(all, p.key);
            var db' := CreatePaymentOrder(db, now, p, request).0;
            || (db'.users == all && db'.nextOrder == db.nextOrder)
            || (db'.users == SetUser(all, i, u) && db'.nextOrder == db.nextOrder + 1
                && AddsOrder(all[i].value, u, db.nextOrder))
  {
    var i := IndexOf(Open(db.users, p.key, now), p.key);
    u := CreatePaymentOrder(db, now, p, request).0.users[i].value;
  }

  lemma OrderTableMove(users: Dict<User>, all: Dict<User>, i: nat, u: User, users': Dict<User>, order: nat)
    requires TableMove(users, all, Good(order)) && i < |all| && users' == SetUser(all, i, u)
    requires AddsOrder(all[i].value, u, order)
    ensures TableMove(users, users', Good(order + 1))
  {
    AddOrderMove(all, i, u, order);
    UsersGrowTransitive(users, all, users');
  }

  lemma CreateOrderMove(db: Database, now: int, p: Principal, request: OrderRequest)
    requires DbInv(db)
    ensures DbMove(db, CreatePaymentOrder(db, now, p, request).0)
  {
    var u := CreateOrderCases(db, now, p, request);
    OpenGood(db.users, p.key, now, db.nextOrder);
    var all := Open(db.users, p.key, now);
    var db' := CreatePaymentOrder(db, now, p, request).0;
    if db'.nextOrder == db.nextOrder + 1 {
      OrderTableMove(db.users, all, IndexOf(all, p.key), u, db'.users, db.nextOrder);
    }
  }

  lemma PayOrderElsewhere(u: User, event: PaymentEvent)
    requires event.order in u.orders
    ensures PayOrder(u, event).0.board == u.board && PayOrder(u, event).0.orders.Keys == u.orders.Keys
  {
  }

  lemma GoodAgain(u: User, u': User, nextOrder: nat)
    requires GoodUser(u, nextOrder) && MoneyInv(u') && BooksInv(u') && u'.board == u.board
             && u'.orders.Keys == u.orders.Keys
    ensures GoodUser(u', nextOrder)
  {
  }

  lemma PayOrderGood(u: User, event: PaymentEvent, nextOrder: nat, u': User)
    requires GoodUser(u, nextOrder) && event.order in u.orders && u' == PayOrder(u, event).0
    ensures GoodUser(u', nextOrder) && Grows(u, u')
  {
    PayOrderMoney(u, event);
    PayOrderBooks(u, event);
    PayOrderElsewhere(u, event);
    GoodAgain(u, u', nextOrder);
  }

  lemma PaidApart(users: Dict<User>, i: nat, u: User, event: PaymentEvent)
    requires OrdersApart(users) && i < |users| && event.order in users[i].value.orders
    requires !ProviderBound(users, event)
    requires event.order in u.orders && u.orders == users[i].value.orders[event.order := u.orders[event.order]]
    requires u.orders[event.order].providerPaymentId == Some(event.providerPaymentId)
    ensures OrdersApart(SetUser(users, i, u))
  {
    var users' := SetUser(users, i, u);
    forall j, order | 0 <= j < |users'| && order in users'[j].value.orders && order != event.order
      ensures j < |users| && order in users[j].value.orders
              && users'[j].value.orders[order] == users[j].value.orders[order]
      ensures users'[j].value.orders[order].providerPaymentId != Some(event.providerPaymentId)
    {
    }
    forall j | 0 <= j < |users'| && event.order in users'[j].value.orders ensures j == i {
      assert event.order in users[j].value.orders;
    }
  }

  lemma PaidMove(users: Dict<User>, i: nat, event: PaymentEvent, nextOrder: nat)
    requires TableInv(users, Good(nextOrder)) && i < |users| && event.order in users[i].value.orders
    requires !ProviderBound(users, event)
    requires PayOrder(users[i].value, event).1.Ok? && users[i].value.orders[event.order].status != Paid
    ensures TableMove(users, SetUser(users, i, PayOrder(users[i].value, event).0), Good(nextOrder))
  {
    var u := PayOrder(users[i].value, event).0;
    assert Good(nextOrder)(users[i].value);
    PayOrderGood(users[i].value, event, nextOrder, u);
    PaidApart(users, i, u, event);
    SetOrdersMove(users, i, u, Good(nextOrder), Good(nextOrder));
  }

  lemma CompletePaymentMove(db: Database, event: PaymentEvent, db': Database)
    requires DbInv(db) && db' == CompletePaymentOrder(db, event).0
    ensures DbMove(db, db')
  {
    if db' == db {
      StandStill(db.users, Good(db.nextOrder));
    } else {
      PaidMove(db.users, OwnerOf(db.users, event.order), event, db.nextOrder);
    }
  }

  // ---- Every step of the database, and every run ----

  lemma ReapMove(db: Database, now: int, limit: int)
    requires DbInv(db)
    ensures DbMove(db, Step(db, now, ReapOp(limit)))
  {
    ReleaseBatchMove(db.users, Batch(db.users, now, limit), now, db.nextOrder);
  }

  lemma ReserveStepMove(db: Database, now: int, p: Principal, id: string, amountCents: int,
                        execution: Option<TaskExecution>)
    requires DbInv(db)
    ensures DbMove(db, Step(db, now, ReserveOp(p, id, amountCents, execution)))
  {
    ReserveUsageMove(db, now, p, id, amountCents, execution);
  }

  lemma CompletePaymentStepMove(db: Database, now: int, event: PaymentEvent)
    requires DbInv(db)
    ensures DbMove(db, Step(db, now, CompletePaymentOp(event)))
  {
    CompletePaymentMove(db, event, Step(db, now, CompletePaymentOp(event)));
  }

  lemma CreateOrderStepMove(db: Database, now: int, p: Principal, request: OrderRequest)
    requires DbInv(db)
    ensures DbMove(db, Step(db, now, CreateOrderOp(p, request)))
  {
    assert Step(db, now, CreateOrderOp(p, request)) == CreatePaymentOrder(db, now, p, request).0;
    CreateOrderMove(db, now, p, request);
  }

  lemma StepMove(db: Database, now: int, op: Op)
    requires DbInv(db)
    ensures DbMove(db, Step(db, now, op))
  {
    match op
    case UserCall(p, userOp) => UserCallMove(db, now, p, userOp);
    case ReserveOp(p, id, amountCents, execution) => ReserveStepMove(db, now, p, id, amountCents, execution);
    case ReapOp(limit) => ReapMove(db, now, limit);
    case ClaimChatOp(p, requestKey, fingerprint, executionId) =>
      ClaimChatRequestMove(db, now, p, requestKey, fingerprint, executionId);
    case CreateOrderOp(p, request) => CreateOrderStepMove(db, now, p, request);
    case CompletePaymentOp(event) => CompletePaymentStepMove(db, now, event);
  }

  lemma {:induction false} RunMove(db: Database, calls: seq<Call>)
    requires DbInv(db)
    ensures DbMove(db, Run(db, calls))
    decreases |calls|
  {
    if calls == [] {
      StandStill(db.users, Good(db.nextOrder));
    } else {
      var mid := Step(db, calls[0].now, calls[0].op);
      StepMove(db, calls[0].now, calls[0].op);
      RunMove(mid, calls[1..]);
      UsersGrowTransitive(db.users, mid.users, Run(mid, calls[1..]).users);
    }
  }

  /** In every reachable state every user satisfies the invariants. */
  lemma ReachableUser(calls: seq<Call>, i: nat)
    requires i < |Run(EmptyDatabase, calls).users|
    ensures DbInv(Run(EmptyDatabase, calls))
    ensures GoodUser(Run(EmptyDatabase, calls).users[i].value, Run(EmptyDatabase, calls).nextOrder)
  {
    RunMove(EmptyDatabase, calls);
    var db := Run(EmptyDatabase, calls);
    assert Good(db.nextOrder)(db.users[i].value);
  }

  // ---- Main results ----

  /** Whatever calls are made, in whatever order and at whatever times, no user's money is
      created or lost: wallet plus held wallet amounts is the ledger's wallet total, grants
      plus held credit is its credit total, every entry adds up, nothing is negative, and no
      grant, even with all live holds put back, exceeds what it was issued with. */
  lemma MoneyIsConserved(calls: seq<Call>, i: nat)
    requires i < |Run(EmptyDatabase, calls).users|
    ensures var u := Run(EmptyDatabase, calls).users[i].value;
            && u.funds.balance + SumOf(HeldWallet, u.reservations) == SumOf(WalletPart, u.ledger)
            && SumOf(Remaining, u.funds.grants) + SumOf(HeldCredit, u.reservations) == SumOf(CreditPart, u.ledger)
            && (forall e | e in u.ledger :: e.amount == e.wallet + e.credit)
            && 0 <= u.funds.balance
            && forall g | 0 <= g < |u.funds.grants| ::
                 && 0 <= u.funds.grants[g].remaining
                 && u.funds.grants[g].remaining + SumOf(HeldFor(g), u.reservations) <= u.funds.grants[g].original
  {
    ReachableUser(calls, i);
    var u := Run(EmptyDatabase, calls).users[i].value;
    forall g | 0 <= g < |u.funds.grants|
      ensures u.funds.grants[g].remaining + SumOf(HeldFor(g), u.reservations) <= u.funds.grants[g].original
    {
      assert u.funds.grants[g].remaining + SumOf(HeldFor(g), u.reservations)
             + AmountFor([], g) <= u.funds.grants[g].original;
    }
  }

  /** The error branches that guard against inconsistent records are never taken in any
      reachable state. */
  lemma InconsistencyBranchesUnreachable(calls: seq<Call>, now: int, p: Principal, requestKey: string,
                                         fingerprint: string, chatExecution: Option<nat>, i: nat, id: string,
                                         e: UsageEvent, completion: Option<Completion>, executionId: Option<nat>,
                                         event: PaymentEvent)
    requires i < |Run(EmptyDatabase, calls).users|
    ensures var db := Run(EmptyDatabase, calls);
            && ClaimChatRequest(db, now, p, requestKey, fingerprint, chatExecution).1 != Err(ChatCacheInvalid)
            && SettleUsage(db.users[i].value, now, p.admin, id, e, completion,
                           executionId).1 != Err(ChatBillingInconsistent)
            && CompletePaymentOrder(db, event).1 != Err(PaymentLedgerMissing)
  {
    var db := Run(EmptyDatabase, calls);
    ReachableUser(calls, i);
    NoInvalidCacheAnywhere(db, now, p, requestKey, fingerprint, chatExecution);
    NoInconsistentBilling(db.users[i].value, now, p.admin, id, e, completion, executionId);
    NoMissingPayment(db, event);
  }

  /** In every reachable state a completed chat request has its answer, and its key remembers a
      usage charge that stands in the ledger. */
  lemma CompletedChatsAreBilled(calls: seq<Call>, i: nat, k: nat)
    requires i < |Run(EmptyDatabase, calls).users| && k < |Run(EmptyDatabase, calls).users[i].value.chats|
    ensures var u := Run(EmptyDatabase, calls).users[i].value;
            var (requestKey, chat) := (u.chats[k].key, u.chats[k].value);
            chat.status == Complete ==>
              && chat.payload.Some?
              && BilledUnder(u, ChatKey(requestKey, chat.fingerprint))
              && u.idempotency[ClientKey(ChatKey(requestKey, chat.fingerprint))] in u.ledger
  {
    ReachableUser(calls, i);
    var u := Run(EmptyDatabase, calls).users[i].value;
    assert ChatOk(u, u.chats[k].key, u.chats[k].value);
  }

  lemma PaidHasEntry(u: User, event: PaymentEvent, nextOrder: nat)
    requires Good(nextOrder)(u) && event.order in u.orders
    ensures PayOrder(u, event).1 != Err(PaymentLedgerMissing)
  {
    PayOrderBooks(u, event);
  }

  lemma NoMissingPayment(db: Database, event: PaymentEvent)
    requires DbInv(db)
    ensures CompletePaymentOrder(db, event).1 != Err(PaymentLedgerMissing)
  {
    var owner := OwnerOf(db.users, event.order);
    if owner < |db.users| {
      PaidHasEntry(db.users[owner].value, event, db.nextOrder);
    }
  }

  lemma NoInvalidCache(u: User, now: int, requestKey: string, fingerprint: string, executionId: Option<nat>)
    requires ChatsInv(u)
    ensures ClaimChat(u, now, requestKey, fingerprint, executionId).1 != Err(ChatCacheInvalid)
  {
    var k := IndexOf(u.chats, requestKey);
    if k < |u.chats| {
      assert ChatOk(u, u.chats[k].key, u.chats[k].value);
    }
  }

  lemma SweptIsGood(db: Database, now: int, key: string)
    requires DbInv(db)
    ensures var all := Open(db.users, key, now);
            var users := SweepUsers(all, now, CHAT_SWEEP_BATCH_SIZE);
            |users| == |all| && ChatsInv(users[IndexOf(all, key)].value)
  {
    var all := Open(db.users, key, now);
    OpenGood(db.users, key, now, db.nextOrder);
    SweepUsersMove(all, now, CHAT_SWEEP_BATCH_SIZE, db.nextOrder);
    assert Good(db.nextOrder)(SweepUsers(all, now, CHAT_SWEEP_BATCH_SIZE)[IndexOf(all, key)].value);
  }

  lemma NoInvalidCacheAnywhere(db: Database, now: int, p: Principal, requestKey: string, fingerprint: string,
                               executionId: Option<nat>)
    requires DbInv(db)
    ensures ClaimChatRequest(db, now, p, requestKey, fingerprint, executionId).1 != Err(ChatCacheInvalid)
  {
    var all := Open(db.users, p.key, now);
    var users := SweepUsers(all, now, CHAT_SWEEP_BATCH_SIZE);
    SweptIsGood(db, now, p.key);
    NoInvalidCache(users[IndexOf(all, p.key)].value, now, requestKey, fingerprint, executionId);
  }

  lemma NoInconsistentBilling(u: User, now: int, admin: bool, id: string, e: UsageEvent, completion: Option<Completion>,
                              executionId: Option<nat>)
    requires ChatsInv(u)
    ensures SettleUsage(u, now, admin, id, e, completion, executionId).1 != Err(ChatBillingInconsistent)
  {
    if SettleRefusal(u, now, admin, id, e, completion, executionId).Some? {
      NoInconsistentRefusal(u, now, admin, id, e, completion, executionId);
    } else {
      SettleAccepted(u, now, admin, id, e, completion, executionId);
      if ClientKey(e.idempotencyKey) !in u.idempotency {
        ChargeReservationCases(u, now, IndexOf(u.reservations, id), e.idempotencyKey, Billed(admin, e));
      }
    }
  }

  lemma NoInconsistentRefusal(u: User, now: int, admin: bool, id: string, e: UsageEvent, completion: Option<Completion>,
                              executionId: Option<nat>)
    requires ChatsInv(u)
    ensures SettleRefusal(u, now, admin, id, e, completion, executionId) != Some(ChatBillingInconsistent)
  {
    if completion.Some? {
      var k := IndexOf(u.chats, completion.value.requestKey);
      if k < |u.chats| {
        assert ChatOk(u, u.chats[k].key, u.chats[k].value);
      }
    }
  }

  /** One provider payment pays at most one order in any reachable state, and an order is paid
      exactly when its one ledger entry exists. */
  lemma PaymentsCreditedOnce(calls: seq<Call>, i: nat, j: nat, order: nat, other: nat)
    requires var users := Run(EmptyDatabase, calls).users;
             && i < |users| && j < |users|
             && order in users[i].value.orders && other in users[j].value.orders
    ensures var users := Run(EmptyDatabase, calls).users;
            var a, b := users[i].value.orders[order], users[j].value.orders[other];
            && (a.providerPaymentId.Some? && a.providerPaymentId == b.providerPaymentId ==> i == j && order == other)
            && (a.status == Paid <==> PaymentOrderKey(order) in users[i].value.idempotency)
  {
    ReachableUser(calls, i);
  }

  // ---- Exactly-once billing ----

  function UserAt(db: Database, userKey: string): Option<User> {
    Get(db.users, userKey)
  }

  function LedgerLength(db: Database, userKey: string): nat {
    if UserAt(db, userKey).Some? then |UserAt(db, userKey).value.ledger| else 0
  }

  /** The operation reports usage under this key. */
  predicate ReportsUnder(op: UserOp, key: string) {
    match op
    case RecordOp(e) => e.idempotencyKey == key
    case SettleOp(_, e, _, _) => e.idempotencyKey == key
    case _ => false
  }

  /** The call reports usage of this user under this key. */
  predicate Reports(op: Op, userKey: string, key: string) {
    op.UserCall? && op.principal.key == userKey && ReportsUnder(op.userOp, key)
  }

  /** How many entries a report under this key adds to this user's ledger, beyond the trial entry of a
      new user. */
  function EntriesCharged(db: Database, call: Call, userKey: string, key: string): nat {
    if !Reports(call.op, userKey, key) then 0
    else
      var before := if UserAt(db, userKey).Some? then LedgerLength(db, userKey) else 1;
      Max(0, LedgerLength(Step(db, call.now, call.op), userKey) - before)
  }

  /** The entries that all reports of a run under this key add to this user's ledger. */
  function ChargeCount(db: Database, calls: seq<Call>, userKey: string, key: string): nat
    decreases |calls|
  {
    if calls == [] then 0
    else EntriesCharged(db, calls[0], userKey, key)
         + ChargeCount(Step(db, calls[0].now, calls[0].op), calls[1..], userKey, key)
  }

  predicate Remembers(db: Database, userKey: string, key: string) {
    UserAt(db, userKey).Some? && ClientKey(key) in UserAt(db, userKey).value.idempotency
  }

  lemma GrowingUser(db: Database, db': Database, userKey: string)
    requires UsersGrow(db.users, db'.users) && UserAt(db, userKey).Some?
    requires Distinct(db'.users)
    ensures UserAt(db', userKey).Some? && Grows(UserAt(db, userKey).value, UserAt(db', userKey).value)
  {
    var i := IndexOf(db.users, userKey);
    IndexOfUnique(db'.users, i);
  }

  lemma ReportingBooks(u: User, now: int, admin: bool, op: UserOp, key: string)
    requires BooksInv(u) && ReportsUnder(op, key)
    ensures var u' := UserStep(u, now, admin, op);
            && |u'.ledger| <= |u.ledger| + 1
            && (|u'.ledger| > |u.ledger| ==> ClientKey(key) !in u.idempotency && ClientKey(key) in u'.idempotency)
  {
    match op
    case RecordOp(e) => RecordUsageBooks(u, now, admin, e);
    case SettleOp(id, e, completion, executionId) => SettleUsageBooks(u, now, admin, id, e, completion, executionId);
  }

  /** A call that charges adds one entry, does so under a key not yet remembered, and then it is
      remembered. */
  lemma ChargingRemembers(db: Database, call: Call, userKey: string, key: string)
    requires DbInv(db) && EntriesCharged(db, call, userKey, key) > 0
    ensures EntriesCharged(db, call, userKey, key) == 1
    ensures !Remembers(db, userKey, key) && Remembers(Step(db, call.now, call.op), userKey, key)
  {
    var p, op := call.op.principal, call.op.userOp;
    var all := Open(db.users, p.key, call.now);
    var i := IndexOf(all, p.key);
    var u := all[i].value;
    OpenedIsGood(db.users, p.key, call.now, db.nextOrder);
    SetUserIndex(all, i, UserStep(u, call.now, p.admin, op), p.key);
    OpenedUser(db, p.key, call.now);
    ReportingBooks(u, call.now, p.admin, op, key);
  }

  lemma OpenedUser(db: Database, key: string, now: int)
    ensures var all := Open(db.users, key, now);
            all[IndexOf(all, key)].value == if UserAt(db, key).Some? then UserAt(db, key).value else NewUser(now)
  {
    if !Has(db.users, key) {
      GetPut(db.users, key, NewUser(now), key);
    }
  }

  lemma SetUserIndex(users: Dict<User>, i: nat, u: User, key: string)
    requires i == IndexOf(users, key) < |users|
    ensures Get(SetUser(users, i, u), key) == Some(u)
  {
    GetPut(users, key, u, key);
    assert SetUser(users, i, u) == Put(users, key, u);
  }

  lemma {:induction false} NoChargeOnceRemembered(db: Database, calls: seq<Call>, userKey: string, key: string)
    requires DbInv(db) && Remembers(db, userKey, key)
    ensures ChargeCount(db, calls, userKey, key) == 0
    ensures Remembers(Run(db, calls), userKey, key)
    ensures UserAt(Run(db, calls), userKey).value.idempotency[ClientKey(key)]
            == UserAt(db, userKey).value.idempotency[ClientKey(key)]
    decreases |calls|
  {
    if calls != [] {
      var db' := Step(db, calls[0].now, calls[0].op);
      if EntriesCharged(db, calls[0], userKey, key) > 0 {
        ChargingRemembers(db, calls[0], userKey, key);
      }
      StepMove(db, calls[0].now, calls[0].op);
      GrowingUser(db, db', userKey);
      NoChargeOnceRemembered(db', calls[1..], userKey, key);
    }
  }

  /** Exactly-once billing: however often usage is reported under one key, through whatever
      reservations and mixed with whatever other calls, at most one entry is ever added for it. */
  lemma {:induction false} ChargedAtMostOnce(db: Database, calls: seq<Call>, userKey: string, key: string)
    requires DbInv(db)
    ensures ChargeCount(db, calls, userKey, key) <= 1
    decreases |calls|
  {
    if calls != [] {
      var db' := Step(db, calls[0].now, calls[0].op);
      StepMove(db, calls[0].now, calls[0].op);
      if EntriesCharged(db, calls[0], userKey, key) > 0 {
        ChargingRemembers(db, calls[0], userKey, key);
        NoChargeOnceRemembered(db', calls[1..], userKey, key);
      } else {
        ChargedAtMostOnce(db', calls[1..], userKey, key);
      }
    }
  }
}

/** What each call does to the database over all users: whose state changes, what is reaped or swept on
    the way, and that nobody else is touched. */
module DatabaseOutcomes {
  import opened Common
  import opened JsMap
  import opened Funds
  import opened Usage
  import opened UsageFunds
  import opened UsageMoney
  import opened UsageOutcomes

  // ---- Finding a user ----

  /** The user of a principal as the call finds it: on record, or new with the trial credit. */
  function Found(users: Dict<User>, key: string, now: int): User {
    match Get(users, key) case Some(u) => u case None => NewUser(now)
  }

  /** Only the user of this principal changes, or comes into being. */
  ghost predicate OnlyUser(users: Dict<User>, users': Dict<User>, key: string, u: User) {
    forall other :: Get(users', other) == if other == key then Some(u) else Get(users, other)
  }

  lemma OpenThenSet(users: Dict<User>, key: string, now: int, u: User)
    ensures var all := Open(users, key, now);
            && all[IndexOf(all, key)].value == Found(users, key, now)
            && OnlyUser(users, SetUser(all, IndexOf(all, key), u), key, u)
  {
    var all := Open(users, key, now);
    var i := IndexOf(all, key);
    assert SetUser(all, i, u) == Put(all, key, u);
    forall other ensures Get(Put(all, key, u), other) == if other == key then Some(u) else Get(users, other) {
      GetPut(all, key, u, other);
      GetPut(users, key, NewUser(now), other);
    }
    GetPut(users, key, NewUser(now), key);
  }

  /** What is refused for its input alone: a report with a key or a number out of range, a top-up with a
      key, an amount or a channel that is not allowed. */
  predicate Malformed(op: UserOp) {
    match op
    case TopUpOp(r) => !(1 <= |r.key| <= 200 && 100 <= r.amountCents <= 1_000_000
                         && r.channel in {"pilot", "wechat", "alipay"})
    case RecordOp(e) => !Reportable(e)
    case SettleOp(_, e, _, _) => !Reportable(e)
    case _ => false
  }

  lemma MalformedIsUnseen(op: UserOp)
    ensures Malformed(op) <==> RefusedUnseen(op)
  {
    if op.RecordOp? {
      ReportIsRead(false, op.recorded);
    } else if op.SettleOp? {
      ReportIsRead(false, op.event);
    }
  }

  /** A call on a principal's own records changes those as the call says, and nothing else; one that is
      refused for its input does not even make the user. */
  lemma CallChangesOwnRecords(db: Database, now: int, p: Principal, op: UserOp)
    ensures var db' := Step(db, now, UserCall(p, op));
            if Malformed(op) then db' == db
            else OnlyUser(db.users, db'.users, p.key, UserStep(Found(db.users, p.key, now), now, p.admin, op))
                 && db'.providerEvents == db.providerEvents && db'.nextOrder == db.nextOrder
  {
    MalformedIsUnseen(op);
    OpenThenSet(db.users, p.key, now, UserStep(Found(db.users, p.key, now), now, p.admin, op));
  }

  /** Usage that an ordinary principal reports, directly or by settling a reservation, costs that
      principal what is reported; an administrator's costs nothing. */
  lemma UsageIsChargedToItsPrincipal(db: Database, now: int, p: Principal, e: UsageEvent)
    requires MoneyInv(Found(db.users, p.key, now)) && Reportable(e)
    requires ClientKey(e.idempotencyKey) !in Found(db.users, p.key, now).idempotency
    ensures var u := Found(db.users, p.key, now);
            var cost := if p.admin then 0 else e.costCents;
            var u' := Get(Step(db, now, UserCall(p, RecordOp(e))).users, p.key);
            && u'.Some?
            && (cost <= CanSpend(u.funds, now) ==>
                  && |u'.value.ledger| == |u.ledger| + 1 && u'.value.ledger[0].amount == -cost
                  && Worth(u'.value.funds) == Worth(u.funds) - cost)
            && (cost > CanSpend(u.funds, now) ==>
                  u'.value.ledger == u.ledger && OnlyMarksExpired(u.funds, u'.value.funds, now))
  {
    CallChangesOwnRecords(db, now, p, RecordOp(e));
    NewUsageIsCharged(Found(db.users, p.key, now), now, p.admin, e);
  }

  lemma SettlementIsChargedToItsPrincipal(db: Database, now: int, p: Principal, id: string, e: UsageEvent,
                                          completion: Option<Completion>, executionId: Option<nat>)
    requires MoneyInv(Found(db.users, p.key, now))
    requires ClientKey(e.idempotencyKey) !in Found(db.users, p.key, now).idempotency
    requires SettleChecks(Found(db.users, p.key, now), now, p.admin, id, e, completion, executionId).found.None?
    ensures var u := Found(db.users, p.key, now);
            var cost := if p.admin then 0 else e.costCents;
            var u' := Get(Step(db, now, UserCall(p, SettleOp(id, e, completion, executionId))).users, p.key);
            && u'.Some? && Has(u.reservations, id)
            && var held := u.reservations[IndexOf(u.reservations, id)].value.held;
               && (cost <= HeldBy(held) + CanSpend(u.funds, now) ==>
                     && |u'.value.ledger| == |u.ledger| + 1 && u'.value.ledger[0].amount == -cost
                     && Worth(u'.value.funds) == Worth(u.funds) + HeldBy(held) - cost)
               && (cost > HeldBy(held) + CanSpend(u.funds, now) ==>
                     u'.value.ledger == u.ledger && OnlyMarksExpired(u.funds, u'.value.funds, now))
  {
    var u := Found(db.users, p.key, now);
    ReportIsRead(p.admin, e);
    CallChangesOwnRecords(db, now, p, SettleOp(id, e, completion, executionId));
    NewSettlementCharges(u, now, p.admin, id, e, completion, executionId);
  }

  // ---- Calls that go through all users first ----

  /** Reserving reaps up to a hundred overdue reservations, whoever they belong to, and then reserves for
      the principal; a negative amount is refused at once. */
  lemma ReservingReapsFirst(db: Database, now: int, p: Principal, id: string, amountCents: int,
                            execution: Option<TaskExecution>)
    ensures var (db', r) := ReserveUsage(db, now, p, id, amountCents, execution);
            if amountCents < 0 then db' == db && r == Err(InvalidReservation)
            else
              var reaped := Reap(db.users, now, 100);
              var (u, answer) := Reserve(Found(reaped, p.key, now), now, p.admin, id, amountCents, execution);
              r == answer && OnlyUser(reaped, db'.users, p.key, u)
              && db'.providerEvents == db.providerEvents && db'.nextOrder == db.nextOrder
  {
    var reaped := Reap(db.users, now, 100);
    OpenThenSet(reaped, p.key, now, Reserve(Found(reaped, p.key, now), now, p.admin, id, amountCents, execution).0);
  }

  function Expired(chats: Dict<ChatRecord>, now: int): nat {
    if chats == [] then 0 else (if chats[0].value.expiresAt <= now then 1 else 0) + Expired(chats[1..], now)
  }

  function AllExpired(users: Dict<User>, now: int): nat {
    if users == [] then 0 else Expired(users[0].value.chats, now) + AllExpired(users[1..], now)
  }

  /** How many chat records are gone. */
  function Dropped(users: Dict<User>, users': Dict<User>): int
    requires |users| == |users'|
  {
    if users == [] then 0
    else |users[0].value.chats| - |users'[0].value.chats| + Dropped(users[1..], users'[1..])
  }

  lemma {:induction false} SweepDrops(chats: Dict<ChatRecord>, now: int, budget: nat)
    ensures |chats| - |SweepChats(chats, now, budget)| == Min(budget, Expired(chats, now))
  {
    if budget > 0 && chats != [] {
      SweepDrops(chats[1..], now, if chats[0].value.expiresAt <= now then budget - 1 else budget);
    }
  }

  /** What is left of the budget once the expired records of the users before are dropped. */
  function LeftAfter(users: Dict<User>, now: int, budget: nat): nat {
    if AllExpired(users, now) < budget then budget - AllExpired(users, now) else 0
  }

  /** A sweep over all users drops expired chat records, at most its budget of them and as many as there
      are, those of the first users first, and changes nothing else. */
  lemma SweepTotal(users: Dict<User>, now: int, budget: nat)
    ensures var users' := SweepUsers(users, now, budget);
            && Dropped(users, users') == Min(budget, AllExpired(users, now))
            && forall i | 0 <= i < |users| ::
                 users'[i] == Entry(users[i].key, users[i].value.(
                                    chats := SweepChats(users[i].value.chats, now, LeftAfter(users[..i], now, budget))))
  {
    SweepCount(users, now, budget);
    forall i | 0 <= i < |users|
      ensures SweepUsers(users, now, budget)[i]
              == Entry(users[i].key, users[i].value.(
                       chats := SweepChats(users[i].value.chats, now, LeftAfter(users[..i], now, budget))))
    {
      SweepAt(users, now, budget, i);
    }
  }

  lemma {:induction false} SweepCount(users: Dict<User>, now: int, budget: nat)
    ensures Dropped(users, SweepUsers(users, now, budget)) == Min(budget, AllExpired(users, now))
  {
    if users != [] {
      var chats := SweepChats(users[0].value.chats, now, budget);
      SweepBudget(users[0].value.chats, now, budget);
      SweepDrops(users[0].value.chats, now, budget);
      var left := budget - (|users[0].value.chats| - |chats|);
      SweepCount(users[1..], now, left);
      assert SweepUsers(users, now, budget)[1..] == SweepUsers(users[1..], now, left);
    }
  }

  lemma {:induction false} SweepAt(users: Dict<User>, now: int, budget: nat, i: nat)
    requires i < |users|
    ensures SweepUsers(users, now, budget)[i]
            == Entry(users[i].key, users[i].value.(
                     chats := SweepChats(users[i].value.chats, now, LeftAfter(users[..i], now, budget))))
  {
    if i == 0 {
      assert users[..0] == [];
    } else {
      SweepBudget(users[0].value.chats, now, budget);
      SweepDrops(users[0].value.chats, now, budget);
      SweepAt(users[1..], now, budget - (|users[0].value.chats| - |SweepChats(users[0].value.chats, now, budget)|),
              i - 1);
      assert users[..i][1..] == users[1..][..i - 1];
    }
  }

  /** Claiming a chat request drops up to a thousand expired records of all users, and then answers from
      what is left of the principal's; a key of the wrong length is refused at once. */
  lemma ClaimingSweepsFirst(db: Database, now: int, p: Principal, requestKey: string, fingerprint: string,
                            executionId: Option<nat>)
    ensures var (db', r) := ClaimChatRequest(db, now, p, requestKey, fingerprint, executionId);
            if |requestKey| < 1 || |requestKey| > 240 then db' == db && r == Err(InvalidRequest)
            else
              var all := Open(db.users, p.key, now);
              var swept := SweepUsers(all, now, 1_000);
              var i := IndexOf(all, p.key);
              var (u, answer) := ClaimChat(swept[i].value, now, requestKey, fingerprint, executionId);
              && r == answer && all[i].value == Found(db.users, p.key, now)
              && db' == db.(users := swept[i := Entry(p.key, u)])
  {
    OpenThenSet(db.users, p.key, now, NewUser(now));
    SweepAt(Open(db.users, p.key, now), now, 1_000, IndexOf(Open(db.users, p.key, now), p.key));
  }

  /** An order request that nothing answers makes one order, under the next number, for its principal. */
  lemma OrderIsMadeOnce(db: Database, now: int, p: Principal, r: OrderRequest)
    ensures var (db', answer) := CreatePaymentOrder(db, now, p, r);
            var u := Found(db.users, p.key, now);
            var known := KnownOrder(u, r);
            && db'.providerEvents == db.providerEvents
            && (known.Some? ==>
                  answer == known.value && db'.nextOrder == db.nextOrder && OnlyUser(db.users, db'.users, p.key, u))
            && (known.None? ==>
                  answer == Ok(db.nextOrder) && db'.nextOrder == db.nextOrder + 1
                  && OnlyUser(db.users, db'.users, p.key, AddOrder(u, db.nextOrder, r)))
  {
    var u := Found(db.users, p.key, now);
    var all := Open(db.users, p.key, now);
    OpenThenSet(db.users, p.key, now, u);
    OpenThenSet(db.users, p.key, now, AddOrder(u, db.nextOrder, r));
    assert SetUser(all, IndexOf(all, p.key), u) == all;
  }
}

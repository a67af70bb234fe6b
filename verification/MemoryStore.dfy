/** The in-memory database: a map from user keys to user states, which its operations find or create
    and change in place. Every method does to the objects what the database operation of the same
    name does to the value they stand for. */
module MemoryStore {
  import opened Common
  import opened JsMap
  import opened Usage
  import UserState
  import Reaping
  import TaskBoard
  import UsageRuns

  type Users = Dict<UserState.State>

  /** The objects the users are made of. */
  ghost function Objects(users: Users): set<object> {
    set e | e in users :: e.value as object
  }

  ghost function Views(users: Users): (r: Dict<User>)
    reads Objects(users)
    ensures |r| == |users| && forall i | 0 <= i < |users| :: r[i] == Entry(users[i].key, users[i].value.View())
  {
    seq(|users|, i requires 0 <= i < |users| reads Objects(users) => Entry(users[i].key, users[i].value.View()))
  }

  /** No two keys share an object. */
  ghost predicate Separate(users: Users) {
    forall i, j | 0 <= i < j < |users| :: users[i].value != users[j].value
  }

  lemma {:induction false} SameIndex(users: Users, views: Dict<User>, key: string)
    requires |users| == |views| && forall i | 0 <= i < |users| :: users[i].key == views[i].key
    ensures IndexOf(users, key) == IndexOf(views, key)
  {
    if users != [] && users[0].key != key {
      SameIndex(users[1..], views[1..], key);
    }
  }

  /** Changing one user's object changes that user's entry only. */
  lemma OneChanged(users: Users, i: nat, views: Dict<User>)
    requires i < |users| == |views| && forall j | 0 <= j < |users| :: views[j].key == users[j].key
    requires forall j | 0 <= j < |users| && j != i :: users[j].value.View() == views[j].value
    ensures Views(users) == SetUser(views, i, users[i].value.View())
  {
  }

  /** The user of a key, found or created. */
  ghost function UserOf(db: Database, key: string, now: int): User {
    var users := Open(db.users, key, now);
    users[IndexOf(users, key)].value
  }

  /** The database after a call that leaves the user of a key as u. */
  ghost function WithUser(db: Database, key: string, now: int, u: User): Database {
    var users := Open(db.users, key, now);
    db.(users := SetUser(users, IndexOf(users, key), u))
  }

  class MemoryDatabase {
    var users: Users
    var providerEvents: map<string, nat>
    var nextOrder: nat

    ghost predicate Valid()
      reads this
    {
      Separate(users)
    }

    ghost function View(): Database
      reads this, Objects(users)
    {
      Database(Views(users), providerEvents, nextOrder)
    }

    constructor ()
      ensures Valid() && View() == EmptyDatabase
    {
      users, providerEvents, nextOrder := [], map[], 0;
    }

    /** Find or create the state of a user. */
    method State(key: string, now: int) returns (i: nat)
      requires Valid()
      modifies this`users
      ensures Valid() && Views(users) == Open(old(Views(users)), key, now) && i == IndexOf(Views(users), key) < |users|
      ensures forall e | e in users :: e in old(users) || fresh(e.value)
    {
      ghost var before := Views(users);
      i := IndexOf(users, key);
      SameIndex(users, before, key);
      if i == |users| {
        AddUser(key, now);
      }
      OpenedIs(before, key, now, i, Views(users));
    }

    method AddUser(key: string, now: int)
      requires Valid()
      modifies this`users
      ensures Valid() && Views(users) == old(Views(users)) + [Entry(key, NewUser(now))]
      ensures forall e | e in users :: e in old(users) || fresh(e.value)
    {
      var state := new UserState.State(now);
      AddedUser(users, key, state);
      users := users + [Entry(key, state)];
    }

    // ---- Calls on one user ----

    method TopUp(p: Principal, now: int, request: TopupRequest) returns (r: Result<LedgerEntry, UsageError>)
      requires Valid()
      modifies this, Objects(users)
      ensures Valid() && forall e | e in users :: e in old(users) || fresh(e.value)
      ensures !ValidTopup(request) ==> View() == old(View()) && r == Err(InvalidRequest)
      ensures ValidTopup(request) ==>
                var (u, result) := Usage.TopUp(UserOf(old(View()), p.key, now), request);
                View() == WithUser(old(View()), p.key, now, u) && r == result
    {
      if !ValidTopup(request) {
        return Err(InvalidRequest);
      }
      var i := State(p.key, now);
      ghost var views := Views(users);
      r := users[i].value.TopUp(request);
      OneChanged(users, i, views);
    }

    method PurchaseCreditPack(p: Principal, now: int, packId: string, key: string) returns (r: Result<nat, UsageError>)
      requires Valid()
      modifies this, Objects(users)
      ensures Valid() && forall e | e in users :: e in old(users) || fresh(e.value)
      ensures var (u, result) := PurchasePack(UserOf(old(View()), p.key, now), now, packId, key);
              View() == WithUser(old(View()), p.key, now, u) && r == result
    {
      var i := State(p.key, now);
      ghost var views := Views(users);
      r := users[i].value.PurchasePack(now, packId, key);
      OneChanged(users, i, views);
    }

    method GetCreditSummary(p: Principal, now: int)
      requires Valid()
      modifies this, Objects(users)
      ensures Valid() && forall e | e in users :: e in old(users) || fresh(e.value)
      ensures View() == WithUser(old(View()), p.key, now, SummarizeCredit(UserOf(old(View()), p.key, now), now))
    {
      var i := State(p.key, now);
      ghost var views := Views(users);
      users[i].value.SummarizeCredit(now);
      OneChanged(users, i, views);
    }

    method RecordUsage(p: Principal, now: int, e: UsageEvent) returns (r: Result<LedgerEntry, UsageError>)
      requires Valid()
      modifies this, Objects(users)
      ensures Valid() && forall e | e in users :: e in old(users) || fresh(e.value)
      ensures !ValidEvent(e) ==> View() == old(View()) && r == Err(InvalidRequest)
      ensures ValidEvent(e) ==>
                var (u, result) := Usage.RecordUsage(UserOf(old(View()), p.key, now), now, p.admin, e);
                View() == WithUser(old(View()), p.key, now, u) && r == result
    {
      if !ValidEvent(e) {
        return Err(InvalidRequest);
      }
      var i := State(p.key, now);
      ghost var views := Views(users);
      r := users[i].value.RecordUsage(now, p.admin, e);
      OneChanged(users, i, views);
    }

    method RenewUsageReservation(p: Principal, now: int, id: string) returns (r: Result<(), UsageError>)
      requires Valid()
      modifies this, Objects(users)
      ensures Valid() && forall e | e in users :: e in old(users) || fresh(e.value)
      ensures var (u, result) := RenewReservation(UserOf(old(View()), p.key, now), now, id);
              View() == WithUser(old(View()), p.key, now, u) && r == result
    {
      var i := State(p.key, now);
      ghost var views := Views(users);
      r := users[i].value.RenewReservation(now, id);
      OneChanged(users, i, views);
    }

    method SettleUsage(p: Principal, now: int, id: string, e: UsageEvent, completion: Option<Completion>,
                       executionId: Option<nat>)
      returns (r: Result<LedgerEntry, UsageError>)
      requires Valid()
      modifies this, Objects(users)
      ensures Valid() && forall e | e in users :: e in old(users) || fresh(e.value)
      ensures !ValidEvent(e) ==> View() == old(View()) && r == Err(InvalidRequest)
      ensures ValidEvent(e) ==>
                var (u, result) :=
                  Usage.SettleUsage(UserOf(old(View()), p.key, now), now, p.admin, id, e, completion, executionId);
                View() == WithUser(old(View()), p.key, now, u) && r == result
    {
      if !ValidEvent(e) {
        return Err(InvalidRequest);
      }
      var i := State(p.key, now);
      ghost var views := Views(users);
      r := users[i].value.SettleUsage(now, p.admin, id, e, completion, executionId);
      OneChanged(users, i, views);
    }

    method ReleaseUsage(p: Principal, now: int, id: string)
      requires Valid()
      modifies this, Objects(users)
      ensures Valid() && forall e | e in users :: e in old(users) || fresh(e.value)
      ensures View() == WithUser(old(View()), p.key, now, ReleaseIfHeld(UserOf(old(View()), p.key, now), now, id))
    {
      var i := State(p.key, now);
      ghost var views := Views(users);
      users[i].value.ReleaseUsage(now, id);
      OneChanged(users, i, views);
    }

    method FailChatRequest(p: Principal, now: int, requestKey: string, fingerprint: string, executionId: Option<nat>)
      requires Valid()
      modifies this, Objects(users)
      ensures Valid() && forall e | e in users :: e in old(users) || fresh(e.value)
      ensures View() == WithUser(old(View()), p.key, now,
                                 FailChat(UserOf(old(View()), p.key, now), now, requestKey, fingerprint, executionId))
    {
      var i := State(p.key, now);
      ghost var views := Views(users);
      users[i].value.FailChat(now, requestKey, fingerprint, executionId);
      OneChanged(users, i, views);
    }

    /** A call on the task board of a user. */
    method BoardCall(p: Principal, now: int, op: TaskBoard.Op)
      requires Valid()
      modifies this, Objects(users)
      ensures Valid() && forall e | e in users :: e in old(users) || fresh(e.value)
      ensures var u := UserOf(old(View()), p.key, now);
              View() == WithUser(old(View()), p.key, now, u.(board := TaskBoard.Step(u.board, now, op)))
    {
      var i := State(p.key, now);
      ghost var views := Views(users);
      users[i].value.BoardCall(now, op);
      OneChanged(users, i, views);
    }

    // ---- Reaping ----

    /** All overdue reservations, user by user. */
    method Candidates(now: int) returns (candidates: seq<Candidate>)
      ensures candidates == AllCandidates(Views(users), now, |users|)
    {
      candidates := [];
      for i := 0 to |users|
        invariant candidates == AllCandidates(Views(users), now, i)
      {
        var reservations := users[i].value.reservations;
        ghost var before := candidates;
        for j := 0 to |reservations|
          invariant candidates == before + UserCandidates(reservations, i, now, j)
        {
          var r := reservations[j].value;
          if r.status == Reserved && r.leaseExpiresAt <= now {
            candidates := candidates + [Candidate(i, j, r.leaseExpiresAt)];
          }
        }
      }
    }

    ghost predicate InRange(c: Candidate)
      reads this, Objects(users)
    {
      c.user < |users| && c.reservation < |users[c.user].value.reservations|
    }

    /** Release one candidate, if it is still overdue. */
    method ReleaseCandidate(c: Candidate, now: int) returns (released: bool)
      requires Valid() && InRange(c)
      modifies Objects(users)
      ensures Views(users) == Usage.ReleaseCandidate(old(Views(users)), c, now)
      ensures released == Overdue(old(users[c.user].value.reservations[c.reservation].value), now)
      ensures forall i | 0 <= i < |users| :: |users[i].value.reservations| == |old(users[i].value.reservations)|
    {
      var state := users[c.user].value;
      var r := state.reservations[c.reservation].value;
      if r.status != Reserved || r.leaseExpiresAt > now {
        return false;
      }
      ghost var views := Views(users);
      state.ReleaseReservation(c.reservation, now);
      OneChanged(users, c.user, views);
      assert forall i | 0 <= i < |users| :: Views(users)[i].value.reservations == users[i].value.reservations;
      return true;
    }

    /** Release candidates one by one; report how many were still overdue. */
    method ReleaseAll(batch: seq<Candidate>, now: int) returns (released: nat)
      requires Valid() && forall j | 0 <= j < |batch| :: InRange(batch[j])
      modifies Objects(users)
      ensures Views(users) == ReleaseBatch(old(Views(users)), batch, now)
      ensures released == Reaping.CountAll(old(Views(users)), now) - Reaping.CountAll(Views(users), now)
    {
      released := 0;
      ghost var before := Views(users);
      assert batch[0..] == batch;
      for k := 0 to |batch|
        invariant ReleaseBatch(Views(users), batch[k..], now) == ReleaseBatch(before, batch, now)
        invariant forall j | 0 <= j < |batch| :: InRange(batch[j])
        invariant Reaping.CountAll(Views(users), now) + released == Reaping.CountAll(before, now)
      {
        assert batch[k..][1..] == batch[k + 1..];
        ghost var views := Views(users);
        var done := ReleaseCandidate(batch[k], now);
        OneReleased(views, batch[k], now);
        if done {
          released := released + 1;
        }
      }
    }

    /** Release the overdue reservations, the longest overdue first, at most a batch of them. */
    method ReapExpiredUsageReservations(now: int, limit: int) returns (released: nat)
      requires Valid()
      modifies Objects(users)
      ensures Views(users) == Reap(old(Views(users)), now, limit)
      ensures released == Reaping.CountAll(old(Views(users)), now) - Reaping.CountAll(Views(users), now)
    {
      var candidates := Candidates(now);
      var batch := Take(SortByLease(candidates), BoundedLimit(limit));
      Reaping.BatchFacts(Views(users), now, limit);
      forall j | 0 <= j < |batch| ensures InRange(batch[j]) {
        assert Reaping.IsOverdue(Views(users), batch[j], now);
      }
      released := ReleaseAll(batch, now);
    }

    /** Reserving, once expired reservations have been reaped. */
    method Reserve(p: Principal, now: int, id: string, amountCents: int, execution: Option<TaskExecution>)
      returns (r: Result<(), UsageError>)
      requires Valid()
      modifies this, Objects(users)
      ensures Valid() && forall e | e in users :: e in old(users) || fresh(e.value)
      ensures var (u, result) :=
        Usage.Reserve(UserOf(old(View()), p.key, now), now, p.admin, id, amountCents, execution);
              View() == WithUser(old(View()), p.key, now, u) && r == result
    {
      var i := State(p.key, now);
      ghost var views := Views(users);
      r := users[i].value.Reserve(now, p.admin, id, amountCents, execution);
      OneChanged(users, i, views);
    }

    method ReserveUsage(p: Principal, now: int, id: string, amountCents: int, execution: Option<TaskExecution>)
      returns (r: Result<(), UsageError>)
      requires Valid()
      modifies this, Objects(users)
      ensures Valid() && forall e | e in users :: e in old(users) || fresh(e.value)
      ensures (View(), r) == Usage.ReserveUsage(old(View()), now, p, id, amountCents, execution)
    {
      if amountCents < 0 {
        return Err(InvalidReservation);
      }
      var _ := ReapExpiredUsageReservations(now, USAGE_RESERVATION_REAP_BATCH_SIZE);
      r := Reserve(p, now, id, amountCents, execution);
    }

    // ---- Chat requests ----

    /** Delete expired chat records over all users, at most a budget of them. */
    method SweepChats(now: int, budget: nat)
      requires Valid()
      modifies Objects(users)
      ensures Views(users) == SweepUsers(old(Views(users)), now, budget)
    {
      var removed: nat := 0;
      ghost var before := Views(users);
      SweepStart(before, now, budget);
      for i := 0 to |users|
        invariant Swept(before, Views(users), i, now, budget, removed)
      {
        ghost var views := Views(users);
        var n := SweepUser(i, now, budget - removed);
        SweepStep(before, views, Views(users), i, now, budget, removed, n);
        removed := removed + n;
      }
      SweepEnd(before, Views(users), now, budget, removed);
    }

    method SweepUser(i: nat, now: int, budget: nat) returns (removed: nat)
      requires Valid() && i < |users|
      modifies Objects(users)
      ensures var u := old(Views(users))[i].value;
              var chats := Usage.SweepChats(u.chats, now, budget);
              Views(users) == SetUser(old(Views(users)), i, u.(chats := chats)) && removed == |u.chats| - |chats|
    {
      ghost var views := Views(users);
      removed := users[i].value.SweepChats(now, budget);
      OneChanged(users, i, views);
    }

    method ClaimChatRequest(p: Principal, now: int, requestKey: string, fingerprint: string, executionId: Option<nat>)
      returns (r: Result<ChatClaim, UsageError>)
      requires Valid()
      modifies this, Objects(users)
      ensures Valid() && forall e | e in users :: e in old(users) || fresh(e.value)
      ensures (View(), r) == Usage.ClaimChatRequest(old(View()), now, p, requestKey, fingerprint, executionId)
    {
      if |requestKey| == 0 || |requestKey| > 240 {
        return Err(InvalidRequest);
      }
      var i := State(p.key, now);
      SweepChats(now, CHAT_SWEEP_BATCH_SIZE);
      r := ClaimFor(i, now, requestKey, fingerprint, executionId);
    }

    /** Claiming for a user, once expired records have been swept. */
    method ClaimFor(i: nat, now: int, requestKey: string, fingerprint: string, executionId: Option<nat>)
      returns (r: Result<ChatClaim, UsageError>)
      requires Valid() && i < |users|
      modifies Objects(users)
      ensures var (u, result) := ClaimChat(old(users[i].value.View()), now, requestKey, fingerprint, executionId);
              Views(users) == SetUser(old(Views(users)), i, u) && r == result
    {
      ghost var views := Views(users);
      r := users[i].value.ClaimChat(now, requestKey, fingerprint, executionId);
      OneChanged(users, i, views);
    }

    // ---- Payment orders ----

    method CreatePaymentOrder(p: Principal, now: int, request: OrderRequest) returns (r: Result<nat, UsageError>)
      requires Valid()
      modifies this, Objects(users)
      ensures Valid() && forall e | e in users :: e in old(users) || fresh(e.value)
      ensures (View(), r) == Usage.CreatePaymentOrder(old(View()), now, p, request)
    {
      ghost var db := View();
      var i := State(p.key, now);
      ghost var all := Views(users);
      r := OrderFor(i, request);
      OrderIs(db, now, p, request, all, i, Views(users), nextOrder, r);
    }

    /** Ordering for a user: what is known already, or a new order. */
    method OrderFor(i: nat, request: OrderRequest) returns (r: Result<nat, UsageError>)
      requires Valid() && i < |users|
      modifies this`nextOrder, users[i].value
      ensures Ordered(old(Views(users)), i, request, old(nextOrder), Views(users), nextOrder, r)
    {
      ghost var views := Views(users);
      var answer := users[i].value.KnownOrder(request);
      if answer.Some? {
        return answer.value;
      }
      r := Ok(nextOrder);
      users[i].value.AddOrder(nextOrder, request);
      nextOrder := nextOrder + 1;
      OneChanged(users, i, views);
    }

    /** Whether some other order is already bound to the provider payment of an event. */
    method BoundElsewhere(event: PaymentEvent) returns (yes: bool)
      ensures yes <==> ProviderBound(Views(users), event)
    {
      for i := 0 to |users|
        invariant forall j | 0 <= j < i :: !BoundBy(Views(users)[j].value, event)
      {
        var orders := users[i].value.orders;
        if exists order | order in orders ::
             order != event.order && orders[order].providerPaymentId == Some(event.providerPaymentId) {
          assert BoundBy(Views(users)[i].value, event);
          return true;
        }
      }
      return false;
    }

    /** The first user that has an order, or the number of users. */
    method FindOwner(order: nat) returns (i: nat)
      ensures i == OwnerOf(Views(users), order)
    {
      i := 0;
      while i < |users|
        invariant 0 <= i <= |users| && forall j | 0 <= j < i :: order !in Views(users)[j].value.orders
      {
        if order in users[i].value.orders {
          assert order in Views(users)[i].value.orders;
          OwnerIsFirst(Views(users), order, i);
          return;
        }
        i := i + 1;
      }
      NoOwner(Views(users), order);
    }

    method CompletePaymentOrder(event: PaymentEvent) returns (r: Result<LedgerEntry, UsageError>)
      requires Valid()
      modifies this`providerEvents, Objects(users)
      ensures (View(), r) == Usage.CompletePaymentOrder(old(View()), event)
    {
      ghost var db := View();
      if event.providerEventId in providerEvents && providerEvents[event.providerEventId] != event.order {
        return Err(ProviderReused);
      }
      var bound := BoundElsewhere(event);
      if bound {
        return Err(ProviderReused);
      }
      var i := FindOwner(event.order);
      if i == |users| {
        return Err(OrderNotFound);
      }
      r := Pay(i, event);
      PaymentIs(db, event, i, Views(users), providerEvents, r);
    }

    /** Pay an order of a user, and remember the event that paid it. */
    method Pay(i: nat, event: PaymentEvent) returns (r: Result<LedgerEntry, UsageError>)
      requires Valid() && i < |users| && event.order in users[i].value.orders
      modifies this`providerEvents, users[i].value
      ensures PaidBy(old(Views(users)), i, event, old(providerEvents), Views(users), providerEvents, r)
    {
      ghost var views := Views(users);
      var wasPaid := users[i].value.orders[event.order].status == Paid;
      r := users[i].value.PayOrder(event);
      OneChanged(users, i, views);
      if r.Ok? && !wasPaid {
        providerEvents := providerEvents[event.providerEventId := event.order];
      } else {
        UnpaidStays(views[i].value, event);
        assert Views(users) == views;
      }
    }

    // ---- Whole runs ----

    method CallOnUser(p: Principal, now: int, op: UserOp)
      requires Valid()
      modifies this, Objects(users)
      ensures Valid() && forall e | e in users :: e in old(users) || fresh(e.value)
      ensures View() == Step(old(View()), now, UserCall(p, op))
    {
      ghost var db := View();
      match op {
        case TopUpOp(request) => var _ := TopUp(p, now, request);
        case PurchasePackOp(packId, key) => var _ := PurchaseCreditPack(p, now, packId, key);
        case SummaryOp => GetCreditSummary(p, now);
        case RecordOp(e) => var _ := RecordUsage(p, now, e);
        case RenewReservationOp(id) => var _ := RenewUsageReservation(p, now, id);
        case SettleOp(id, e, completion, executionId) => var _ := SettleUsage(p, now, id, e, completion, executionId);
        case ReleaseOp(id) => ReleaseUsage(p, now, id);
        case FailChatOp(requestKey, fingerprint, executionId) =>
          FailChatRequest(p, now, requestKey, fingerprint, executionId);
        case BoardOp(boardOp) => BoardCall(p, now, boardOp);
      }
      UserCallFrom(db, now, p, op, View());
    }

    method Perform(call: Call)
      requires Valid()
      modifies this, Objects(users)
      ensures Valid() && forall e | e in users :: e in old(users) || fresh(e.value)
      ensures View() == Step(old(View()), call.now, call.op)
    {
      ghost var db := View();
      match call.op {
        case UserCall(p, op) => CallOnUser(p, call.now, op);
        case ReserveOp(p, id, amountCents, execution) => var _ := ReserveUsage(p, call.now, id, amountCents, execution);
        case ReapOp(limit) => var _ := ReapExpiredUsageReservations(call.now, limit);
        case ClaimChatOp(p, requestKey, fingerprint, executionId) =>
          var _ := ClaimChatRequest(p, call.now, requestKey, fingerprint, executionId);
        case CreateOrderOp(p, request) => var _ := CreatePaymentOrder(p, call.now, request);
        case CompletePaymentOp(event) => var _ := CompletePaymentOrder(event);
      }
      StepFrom(db, call.now, call.op, View());
    }

    /** Any calls, in any order and at any times, are a run of the database: what holds over all
        runs holds of this object. */
    method PerformAll(calls: seq<Call>)
      requires Valid()
      modifies this, Objects(users)
      ensures Valid() && forall e | e in users :: e in old(users) || fresh(e.value)
      ensures View() == Run(old(View()), calls)
      ensures UsageRuns.DbInv(old(View())) ==> UsageRuns.DbMove(old(View()), View())
    {
      ghost var before := View();
      assert calls[0..] == calls;
      for i := 0 to |calls|
        invariant Valid() && forall e | e in users :: e in old(users) || fresh(e.value)
        invariant Run(View(), calls[i..]) == Run(before, calls)
      {
        assert calls[i..][1..] == calls[i + 1..];
        Perform(calls[i]);
      }
      if UsageRuns.DbInv(before) {
        UsageRuns.RunMove(before, calls);
      }
    }
  }

  lemma AddedUser(users: Users, key: string, state: UserState.State)
    ensures Views(users + [Entry(key, state)]) == Views(users) + [Entry(key, state.View())]
  {
  }

  lemma OpenedIs(before: Dict<User>, key: string, now: int, i: nat, views: Dict<User>)
    requires i == IndexOf(before, key)
    requires views == if i < |before| then before else before + [Entry(key, NewUser(now))]
    ensures views == Open(before, key, now) && i == IndexOf(views, key) < |views|
  {
    if i == |before| {
      IndexOfLast(before, key, NewUser(now));
    }
  }

  lemma {:induction false} IndexOfLast(m: Dict<User>, key: string, u: User)
    requires IndexOf(m, key) == |m|
    ensures IndexOf(m + [Entry(key, u)], key) == |m|
  {
    if m == [] {
      assert m + [Entry(key, u)] == [Entry(key, u)];
    } else {
      assert m[0].key != key;
      assert (m + [Entry(key, u)])[1..] == m[1..] + [Entry(key, u)];
      IndexOfLast(m[1..], key, u);
    }
  }

  lemma UserCallFrom(db: Database, now: int, p: Principal, op: UserOp, db': Database)
    requires db' == if RefusedUnseen(op) then db
                    else WithUser(db, p.key, now, UserStep(UserOf(db, p.key, now), now, p.admin, op))
    ensures db' == Step(db, now, UserCall(p, op))
  {
  }

  /** A step that is not a call on one user is the database operation of its kind. */
  lemma StepFrom(db: Database, now: int, op: Op, db': Database)
    requires match op
             case UserCall(_, _) => db' == Step(db, now, op)
             case ReserveOp(p, id, amountCents, execution) =>
               db' == ReserveUsage(db, now, p, id, amountCents, execution).0
             case ReapOp(limit) => db' == db.(users := Reap(db.users, now, limit))
             case ClaimChatOp(p, requestKey, fingerprint, executionId) =>
               db' == ClaimChatRequest(db, now, p, requestKey, fingerprint, executionId).0
             case CreateOrderOp(p, request) => db' == CreatePaymentOrder(db, now, p, request).0
             case CompletePaymentOp(event) => db' == CompletePaymentOrder(db, event).0
    ensures db' == Step(db, now, op)
  {
  }

  /** A release counts as one exactly when the reservation was still overdue. */
  lemma OneReleased(views: Dict<User>, c: Candidate, now: int)
    ensures Reaping.CountAll(Usage.ReleaseCandidate(views, c, now), now)
            == Reaping.CountAll(views, now) - if Reaping.IsOverdue(views, c, now) then 1 else 0
  {
    if Reaping.IsOverdue(views, c, now) {
      Reaping.BatchCount(views, [c], now);
      assert [c][1..] == [];
    }
  }

  /** The first i users are swept; with a sweep of the others they make up the whole sweep. */
  ghost predicate Swept(before: Dict<User>, views: Dict<User>, i: nat, now: int, budget: nat, removed: nat) {
    && i <= |before| == |views| && removed <= budget && views[i..] == before[i..]
    && views[..i] + SweepUsers(before[i..], now, budget - removed) == SweepUsers(before, now, budget)
  }

  lemma SweepStart(before: Dict<User>, now: int, budget: nat)
    ensures Swept(before, before, 0, now, budget, 0)
  {
    assert before[0..] == before && before[..0] + SweepUsers(before, now, budget) == SweepUsers(before, now, budget);
  }

  lemma SweepEnd(before: Dict<User>, views: Dict<User>, now: int, budget: nat, removed: nat)
    requires Swept(before, views, |before|, now, budget, removed)
    ensures views == SweepUsers(before, now, budget)
  {
    assert views[..|before|] + [] == views;
  }

  /** Sweeping one more user. */
  lemma SweepStep(before: Dict<User>, views: Dict<User>, views': Dict<User>, i: nat, now: int, budget: nat,
                  removed: nat, n: nat)
    requires Swept(before, views, i, now, budget, removed) && i < |before|
    requires var u := views[i].value;
             var chats := Usage.SweepChats(u.chats, now, budget - removed);
             views' == SetUser(views, i, u.(chats := chats)) && n == |u.chats| - |chats|
    ensures removed + n <= budget && Swept(before, views', i + 1, now, budget, removed + n)
  {
    var u := views[i].value;
    var e := Entry(views[i].key, u.(chats := Usage.SweepChats(u.chats, now, budget - removed)));
    assert views[i] == views[i..][0] == before[i..][0] == before[i];
    SweepBudget(u.chats, now, budget - removed);
    SweepSplit(before, views, i, now, budget - removed, e);
    assert views[i := e][i + 1..] == views[i..][1..] == before[i..][1..] == before[i + 1..];
    assert views[i := e][..i + 1] == views[..i] + [e];
  }

  lemma SweepSplit(before: Dict<User>, views: Dict<User>, i: nat, now: int, budget: nat, e: Entry<User>)
    requires i < |before| == |views|
    requires var u := before[i].value;
             var chats := Usage.SweepChats(u.chats, now, budget);
             e == Entry(before[i].key, u.(chats := chats)) && 0 <= |u.chats| - |chats| <= budget
    ensures var left := budget - (|before[i].value.chats| - |e.value.chats|);
            views[..i] + SweepUsers(before[i..], now, budget)
              == (views[..i] + [e]) + SweepUsers(before[i + 1..], now, left)
  {
    assert before[i..][1..] == before[i + 1..];
  }

  ghost predicate Ordered(views: Dict<User>, i: nat, request: OrderRequest, next: nat, views': Dict<User>, next': nat,
                          r: Result<nat, UsageError>)
    requires i < |views|
  {
    var known := KnownOrder(views[i].value, request);
    if known.Some? then views' == views && next' == next && r == known.value
    else views' == SetUser(views, i, AddOrder(views[i].value, next, request)) && next' == next + 1 && r == Ok(next)
  }

  lemma OrderIs(db: Database, now: int, p: Principal, request: OrderRequest, all: Dict<User>, i: nat, views: Dict<User>,
                next: nat, r: Result<nat, UsageError>)
    requires all == Open(db.users, p.key, now) && i == IndexOf(all, p.key)
    requires Ordered(all, i, request, db.nextOrder, views, next, r)
    ensures CreatePaymentOrder(db, now, p, request) == (Database(views, db.providerEvents, next), r)
  {
  }

  ghost predicate PaidBy(views: Dict<User>, i: nat, event: PaymentEvent, events: map<string, nat>, views': Dict<User>,
                         events': map<string, nat>, r: Result<LedgerEntry, UsageError>)
    requires i < |views| && event.order in views[i].value.orders
  {
    && r == PayOrder(views[i].value, event).1
    && if r.Ok? && views[i].value.orders[event.order].status != Paid then
         views' == SetUser(views, i, PayOrder(views[i].value, event).0)
         && events' == events[event.providerEventId := event.order]
       else views' == views && events' == events
  }

  /** Completing an order that is not bound elsewhere is paying it, and remembering the event. */
  lemma PaymentIs(db: Database, event: PaymentEvent, i: nat, views: Dict<User>, events: map<string, nat>,
                  r: Result<LedgerEntry, UsageError>)
    requires !(event.providerEventId in db.providerEvents && db.providerEvents[event.providerEventId] != event.order)
    requires !ProviderBound(db.users, event) && i == OwnerOf(db.users, event.order) < |db.users|
    requires PaidBy(db.users, i, event, db.providerEvents, views, events, r)
    ensures CompletePaymentOrder(db, event) == (Database(views, events, db.nextOrder), r)
  {
  }

  ghost predicate BoundBy(u: User, event: PaymentEvent) {
    exists order | order in u.orders ::
        order != event.order && u.orders[order].providerPaymentId == Some(event.providerPaymentId)
  }

  lemma {:induction false} OwnerIsFirst(views: Dict<User>, order: nat, i: nat)
    requires i < |views| && order in views[i].value.orders && forall j | 0 <= j < i :: order !in views[j].value.orders
    ensures OwnerOf(views, order) == i
  {
  }

  lemma NoOwner(views: Dict<User>, order: nat)
    requires forall j | 0 <= j < |views| :: order !in views[j].value.orders
    ensures OwnerOf(views, order) == |views|
  {
  }

  /** A payment that is refused, or that was already made, changes nothing. */
  lemma UnpaidStays(u: User, event: PaymentEvent)
    requires event.order in u.orders
    requires PayOrder(u, event).1.Err? || u.orders[event.order].status == Paid
    ensures PayOrder(u, event).0 == u
  {
  }
}

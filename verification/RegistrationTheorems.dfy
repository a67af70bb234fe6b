/** What registration promises over every run. */
module RegistrationTheorems {
  import opened Common
  import opened JsMap
  import opened Registration
  import opened RegistrationSafety

  // ---- Uniqueness and budgets ----

  ghost predicate OnePendingEach(m: Dict<Challenge>) {
    forall i, j | 0 <= i < |m| && 0 <= j < |m| && i != j && m[i].value.status == Pending
      && m[j].value.status == Pending ::
      m[i].value.email != m[j].value.email && (m[i].value.phone.Some? ==> m[i].value.phone != m[j].value.phone)
  }

  ghost predicate WithinBudgets(m: Dict<Challenge>, limits: Limits) {
    forall i | 0 <= i < |m| ::
      var c := m[i].value;
      && (c.status == Pending ==> c.failed < limits.maxFailures)
      && c.emailSends <= limits.maxSends && c.phoneSends <= limits.maxSends
      && (c.status == Consumed ==> c.emailVerifiedAt != 0 && c.phoneVerifiedAt != 0)
  }

  lemma EmptyInv(limits: Limits)
    ensures DeskInv(EmptyDesk, limits)
  {
  }

  /** In every reachable state: at most one pending challenge per email and per phone, every
      challenge within its budgets, consumed only after both channels were verified, no idempotency
      key on two challenges, and no phone on two identities. */
  lemma RegistrationIsSafe(limits: Limits, calls: seq<Call>)
    requires Usable(limits)
    ensures var d := Run(EmptyDesk, limits, calls);
            && OnePendingEach(d.challenges)
            && WithinBudgets(d.challenges, limits)
            && PhonesUnique(d.identities)
            && forall i, j | 0 <= i < j < |d.challenges| && d.challenges[i].value.key.Some? ::
                 d.challenges[i].value.key != d.challenges[j].value.key
  {
    var d := Run(EmptyDesk, limits, calls);
    EmptyInv(limits);
    RunMoves(EmptyDesk, limits, calls);
    var m := d.challenges;
    forall i, j | 0 <= i < |m| && 0 <= j < |m| && i != j
      ensures !Clash(m[i].value, m[j].value)
    {
      assert !Clash(m[if i < j then i else j].value, m[if i < j then j else i].value);
    }
  }

  /** Along every run a record that is still there is a later form of itself: once finished it never
      changes, its counts never fall, and neither its phone nor what it verified is withdrawn. */
  lemma RecordsOnlyEvolve(d: Desk, limits: Limits, calls: seq<Call>, j: nat) returns (i: nat)
    requires DeskInv(d, limits) && Usable(limits)
    requires j < |Run(d, limits, calls).challenges| && Run(d, limits, calls).challenges[j].value.serial < d.next
    ensures i < |d.challenges| && Later(d.challenges[i].value, Run(d, limits, calls).challenges[j].value)
  {
    RunMoves(d, limits, calls);
    assert ComesFrom(d.challenges, Run(d, limits, calls).challenges[j].value);
    i :| 0 <= i < |d.challenges| && Later(d.challenges[i].value, Run(d, limits, calls).challenges[j].value);
  }

  /** Sending the email code again keeps the record and its wrong guesses; only its id, code and
      times are new. */
  lemma ResendKeepsTheCount(d: Desk, now: int, limits: Limits, s: EmailStart, k: nat)
    requires DeskInv(d, limits) && Usable(limits) && k == First(d.challenges, PendingFor(s.email)) < |d.challenges|
    requires StartEmail(d, now, limits, s).1.Ok? && d.challenges[k].value.expiresAt > now
    ensures var d' := StartEmail(d, now, limits, s).0;
            && Get(d'.challenges, s.id) == Some(Resent(d.challenges[k].value, s))
            && Resent(d.challenges[k].value, s).failed == d.challenges[k].value.failed
            && Resent(d.challenges[k].value, s).emailSends == d.challenges[k].value.emailSends + 1
  {
    var m, c := d.challenges, Resent(d.challenges[k].value, s);
    if m[k].key == s.id {
      assert IndexOf(Set(m, k, c), s.id) == k by {
        IndexOfUnique(Set(m, k, c), k);
      }
    } else {
      GetPut(Delete(m, k), s.id, c, s.id);
    }
  }

  // ---- Wrong guesses ----

  /** The call is a wrong guess at the record with this serial number: the record is live, the channel
      is up for verification, and the code it stores is another one. */
  predicate GuessesWrong(d: Desk, call: Call, serial: nat) {
    match call.op
    case VerifyEmailOp(id, email, code) =>
      var k := IndexOf(d.challenges, id);
      && k < |d.challenges| && d.challenges[k].value.serial == serial && d.challenges[k].value.email == email
      && d.challenges[k].value.status == Pending && call.now < d.challenges[k].value.expiresAt
      && d.challenges[k].value.emailVerifiedAt == 0 && d.challenges[k].value.emailCode != Some(code)
    case VerifyPhoneOp(id, email, phone, code) =>
      var k := IndexOf(d.challenges, id);
      && k < |d.challenges| && d.challenges[k].value.serial == serial && d.challenges[k].value.email == email
      && d.challenges[k].value.phone == Some(phone)
      && d.challenges[k].value.status == Pending && call.now < d.challenges[k].value.expiresAt
      && d.challenges[k].value.emailVerifiedAt != 0 && d.challenges[k].value.phoneVerifiedAt == 0
      && d.challenges[k].value.phoneCode != Some(code)
    case _ => false
  }

  ghost function WrongGuesses(d: Desk, limits: Limits, calls: seq<Call>, serial: nat): nat
    decreases |calls|
  {
    if calls == [] then 0
    else
      (if GuessesWrong(d, calls[0], serial) then 1 else 0)
      + WrongGuesses(Step(d, limits, calls[0].now, calls[0].op), limits, calls[1..], serial)
  }

  ghost predicate Gone(m: Dict<Challenge>, serial: nat) {
    forall i | 0 <= i < |m| :: m[i].value.serial != serial
  }

  /** A record that is gone never comes back. */
  lemma StaysGone(d: Desk, limits: Limits, call: Call, serial: nat)
    requires DeskInv(d, limits) && Usable(limits) && serial < d.next && Gone(d.challenges, serial)
    ensures var d1 := Step(d, limits, call.now, call.op);
            DeskInv(d1, limits) && serial < d1.next && Gone(d1.challenges, serial)
  {
    var d1 := Step(d, limits, call.now, call.op);
    StepMoves(d, limits, call.now, call.op);
    forall j | 0 <= j < |d1.challenges| ensures d1.challenges[j].value.serial != serial {
      if d1.challenges[j].value.serial < d.next {
        assert ComesFrom(d.challenges, d1.challenges[j].value);
      }
    }
  }

  lemma {:induction false} GoneForever(d: Desk, limits: Limits, calls: seq<Call>, serial: nat)
    requires DeskInv(d, limits) && Usable(limits) && serial < d.next && Gone(d.challenges, serial)
    ensures Gone(Run(d, limits, calls).challenges, serial) && WrongGuesses(d, limits, calls, serial) == 0
    decreases |calls|
  {
    if calls != [] {
      StaysGone(d, limits, calls[0], serial);
      GoneForever(Step(d, limits, calls[0].now, calls[0].op), limits, calls[1..], serial);
    }
  }

  lemma GuessCounts(d: Desk, limits: Limits, call: Call, i: nat)
    requires DeskInv(d, limits) && Usable(limits) && i < |d.challenges|
    requires GuessesWrong(d, call, d.challenges[i].value.serial)
    ensures var c, d' := d.challenges[i].value, Step(d, limits, call.now, call.op);
            && c.failed < limits.maxFailures
            && i < |d'.challenges| && d'.challenges[i].value.serial == c.serial
               && d'.challenges[i].value.failed == c.failed + 1
            && (d'.challenges[i].value.status == Locked <==> c.failed + 1 >= limits.maxFailures)
  {
    var k := if call.op.VerifyEmailOp? then IndexOf(d.challenges, call.op.id)
             else IndexOf(d.challenges, call.op.phoneId);
    assert Clash(d.challenges[i].value, d.challenges[k].value) && Clash(d.challenges[k].value, d.challenges[i].value);
    assert k == i;
  }

  /** Where the record of a serial number is after a step, if it is still there. */
  lemma Follow(d: Desk, d1: Desk, limits: Limits, i: nat, j: nat)
    requires DeskInv(d, limits) && Moves(d, d1, limits) && i < |d.challenges| && j < |d1.challenges|
    requires d1.challenges[j].value.serial == d.challenges[i].value.serial
    ensures d.challenges[i].value.failed <= d1.challenges[j].value.failed
  {
    assert ComesFrom(d.challenges, d1.challenges[j].value);
    var h :| 0 <= h < |d.challenges| && Later(d.challenges[h].value, d1.challenges[j].value);
    assert Clash(d.challenges[h].value, d.challenges[i].value) && Clash(d.challenges[i].value, d.challenges[h].value);
    assert h == i;
  }

  /** Over every run, no record is guessed at wrongly more often than the limit allows, over both
      channels and all its resends together; the guess that reaches the limit locks it. */
  lemma {:induction false} GuessesAreBounded(d: Desk, limits: Limits, calls: seq<Call>, i: nat)
    requires DeskInv(d, limits) && Usable(limits) && i < |d.challenges|
    ensures d.challenges[i].value.failed
            + WrongGuesses(d, limits, calls, d.challenges[i].value.serial) <= limits.maxFailures
    decreases |calls|
  {
    if calls != [] {
      var serial, d1 := d.challenges[i].value.serial, Step(d, limits, calls[0].now, calls[0].op);
      StepMoves(d, limits, calls[0].now, calls[0].op);
      if GuessesWrong(d, calls[0], serial) {
        GuessCounts(d, limits, calls[0], i);
        GuessesAreBounded(d1, limits, calls[1..], i);
      } else if j: nat :| j < |d1.challenges| && d1.challenges[j].value.serial == serial {
        Follow(d, d1, limits, i, j);
        GuessesAreBounded(d1, limits, calls[1..], j);
      } else {
        GoneForever(d1, limits, calls[1..], serial);
      }
    }
  }

  // ---- One idempotency key, one identity ----

  /** The challenge that carries a key, as long as it is remembered. */
  ghost predicate Held(d: Desk, key: string, fingerprint: string, identity: Identity, until: int) {
    exists i | 0 <= i < |d.challenges| :: Carries(d.challenges[i].value, key, fingerprint, identity, until)
  }

  predicate Carries(c: Challenge, key: string, fingerprint: string, identity: Identity, until: int) {
    && c.status == Consumed && c.key == Some(key) && c.fingerprint == Some(fingerprint)
    && c.identity == Some(identity) && c.replayUntil == Some(until)
  }

  /** A completion creates an identity exactly when no stored challenge carries its key, its
      challenge is live and verified, and neither email nor phone has an account. */
  lemma CompleteCreatesIff(d: Desk, now: int, a: Application)
    ensures var r, c := Complete(d, now, a).1, Get(d.challenges, a.id);
            r.Ok? && r.value.created <==>
            && (forall i | 0 <= i < |d.challenges| :: d.challenges[i].value.key != Some(a.key))
            && c.Some? && c.value.email == a.email && c.value.phone == Some(a.phone)
            && c.value.status == Pending && c.value.expiresAt > now
            && c.value.emailVerifiedAt != 0 && c.value.phoneVerifiedAt != 0
            && a.principalEmail == a.email && a.inviteValid
            && (Get(d.identities, a.email).Some? ==> !Get(d.identities, a.email).value.hasPassword)
            && (forall i | 0 <= i < |d.identities| :: d.identities[i].value.phone != Some(a.phone))
  {
    var replay, taken := First(d.challenges, WithKey(a.key)), First(d.identities, WithPhone(a.phone));
    if replay < |d.challenges| {
      assert d.challenges[replay].value.key == Some(a.key);
    } else {
      assert forall i | 0 <= i < |d.challenges| :: !WithKey(a.key)(d.challenges[i].value);
    }
    if taken < |d.identities| {
      assert d.identities[taken].value.phone == Some(a.phone);
    } else {
      assert forall i | 0 <= i < |d.identities| :: !WithPhone(a.phone)(d.identities[i].value);
    }
  }

  /** A completion that creates leaves its key with the record of its challenge, for a day. */
  lemma CreationIsHeld(d: Desk, now: int, a: Application)
    requires Complete(d, now, a).1.Ok? && Complete(d, now, a).1.value.created
    ensures var (d1, r) := Complete(d, now, a);
            var i := IndexOf(d.challenges, a.id);
            && i < |d.challenges| == |d1.challenges|
            && d1.challenges[i].value.serial == d.challenges[i].value.serial
            && Carries(d1.challenges[i].value, a.key, a.fingerprint, r.value.identity, now + REPLAY_MS)
  {
  }

  /** While a key is held, completing with it creates nothing, and with the same data it returns the
      same identity; the answer that its record is inconsistent is never given. */
  lemma HeldKeyReplays(d: Desk, limits: Limits, now: int, a: Application, fingerprint: string, identity: Identity,
                       until: int)
    requires DeskInv(d, limits) && Held(d, a.key, fingerprint, identity, until)
    ensures Complete(d, now, a)
            == (d, if a.fingerprint != fingerprint then Err(IdempotencyConflict)
                   else if until < now then Err(ChallengeConsumed)
                   else Ok(Outcome(identity, false)))
  {
    var i :| 0 <= i < |d.challenges| && Carries(d.challenges[i].value, a.key, fingerprint, identity, until);
    var replay := First(d.challenges, WithKey(a.key));
    assert WithKey(a.key)(d.challenges[i].value);
    assert Clash(d.challenges[i].value, d.challenges[replay].value)
           && Clash(d.challenges[replay].value, d.challenges[i].value);
    assert replay == i;
  }

  lemma ReplayIsConsistent(d: Desk, limits: Limits, now: int, a: Application)
    requires DeskInv(d, limits)
    ensures Complete(d, now, a).1 != Err(ReplayInconsistent)
  {
    var replay := First(d.challenges, WithKey(a.key));
    if replay < |d.challenges| {
      assert WithKey(a.key)(d.challenges[replay].value);
      assert Good(d.challenges[replay].value, limits);
    }
  }

  /** A cleanup acts on this record: it closes or deletes it. */
  predicate Due(c: Challenge, now: int) {
    (c.status == Pending && c.expiresAt <= now) || Forgotten(c, now)
  }

  function CountDue(m: Dict<Challenge>, now: int): nat {
    if m == [] then 0 else (if Due(m[0].value, now) then 1 else 0) + CountDue(m[1..], now)
  }

  /** The call loses the record of a key: a cleanup from the end of its day on that reaches it within
      its limit, or an email code that goes out under the id of its challenge. */
  predicate Loses(d: Desk, limits: Limits, call: Call, i: nat)
    requires i < |d.challenges| && d.challenges[i].value.replayUntil.Some?
  {
    match call.op
    case CleanupOp(limit) =>
      d.challenges[i].value.replayUntil.value <= call.now && CountDue(d.challenges[..i], call.now) < CleanLimit(limit)
    case StartEmailOp(s) => s.id == d.challenges[i].key && StartEmail(d, call.now, limits, s).1.Ok?
    case _ => false
  }

  /** A consumed challenge is not changed by whatever is tried on it. */
  lemma ConsumedStays(c: Challenge, now: int, limits: Limits, code: string)
    requires c.status == Consumed
    ensures TryEmail(c, now, limits, code).0 == c && TryPhone(c, now, limits, code).0 == c
    ensures Refusal(c, now).Some? && AfterRefusal(c, Refusal(c, now).value) == c
  {
  }

  /** The desk has this record at this place. */
  ghost function Keeps(i: nat, c: Challenge): Desk -> bool {
    (x: Desk) => i < |x.challenges| && x.challenges[i].value == c
  }

  lemma VerifyKeepsHeld(d: Desk, limits: Limits, now: int, id: string, email: string, phone: string, code: string,
                        i: nat)
    requires i < |d.challenges| && d.challenges[i].value.status == Consumed
    ensures Keeps(i, d.challenges[i].value)(VerifyEmail(d, now, limits, id, email, code).0)
    ensures Keeps(i, d.challenges[i].value)(VerifyPhone(d, now, limits, id, email, phone, code).0)
  {
    ConsumedStays(d.challenges[i].value, now, limits, code);
    VerifyCases(d, now, limits, id, email, phone, code, IndexOf(d.challenges, id), Keeps(i, d.challenges[i].value));
  }

  lemma StartPhoneKeepsHeld(d: Desk, limits: Limits, now: int, s: PhoneStart, i: nat)
    requires i < |d.challenges| && d.challenges[i].value.status == Consumed
    ensures Keeps(i, d.challenges[i].value)(StartPhone(d, now, limits, s).0)
  {
    ConsumedStays(d.challenges[i].value, now, limits, "");
    CloseStaleAt(d.challenges, s.id, s.phone, now);
    StartPhoneCases(d, now, limits, s, IndexOf(d.challenges, s.id), Keeps(i, d.challenges[i].value));
  }

  lemma CompleteKeepsHeld(d: Desk, now: int, a: Application, i: nat)
    requires i < |d.challenges| && d.challenges[i].value.status == Consumed
    ensures Keeps(i, d.challenges[i].value)(Complete(d, now, a).0)
  {
    ConsumedStays(d.challenges[i].value, now, Limits(1, 1), "");
    CompleteCases(d, now, a, IndexOf(d.challenges, a.id), Keeps(i, d.challenges[i].value));
  }

  lemma StepKeepsHeld(d: Desk, limits: Limits, call: Call, i: nat) returns (j: nat)
    requires DeskInv(d, limits) && Usable(limits) && i < |d.challenges|
    requires d.challenges[i].value.status == Consumed && !Loses(d, limits, call, i)
    ensures Keeps(j, d.challenges[i].value)(Step(d, limits, call.now, call.op))
  {
    j := i;
    match call.op
    case StartEmailOp(s) => j := StartEmailKeepsHeld(d, limits, call.now, s, i);
    case VerifyEmailOp(id, email, code) => VerifyKeepsHeld(d, limits, call.now, id, email, "", code, i);
    case StartPhoneOp(s) => StartPhoneKeepsHeld(d, limits, call.now, s, i);
    case VerifyPhoneOp(id, email, phone, code) => VerifyKeepsHeld(d, limits, call.now, id, email, phone, code, i);
    case CompleteOp(a) => CompleteKeepsHeld(d, call.now, a, i);
    case CleanupOp(limit) => j := CleanKeepsHeld(d.challenges, call.now, CleanLimit(limit), i);
    case InvalidateOp(_, _, _) =>
    case EnrolOp(_, _, _) =>
  }

  lemma SerialIsUnique(d: Desk, limits: Limits, i: nat)
    requires DeskInv(d, limits) && i < |d.challenges|
    ensures forall j | 0 <= j < |d.challenges| && d.challenges[j].value.serial == d.challenges[i].value.serial :: j == i
  {
    forall j | 0 <= j < |d.challenges| && j != i ensures d.challenges[j].value.serial != d.challenges[i].value.serial {
      assert !Clash(d.challenges[if i < j then i else j].value, d.challenges[if i < j then j else i].value);
    }
  }

  lemma PutElsewhere(m: Dict<Challenge>, id: string, c: Challenge, i: nat)
    requires i < |m| && m[i].key != id
    ensures i < |Put(m, id, c)| && Put(m, id, c)[i] == m[i]
  {
  }

  lemma StartEmailKeepsHeld(d: Desk, limits: Limits, now: int, s: EmailStart, i: nat) returns (j: nat)
    requires i < |d.challenges| && d.challenges[i].value.status == Consumed
    requires s.id != d.challenges[i].key || StartEmail(d, now, limits, s).1.Err?
    ensures var d' := StartEmail(d, now, limits, s).0;
            j < |d'.challenges| && d'.challenges[j].value == d.challenges[i].value
  {
    var m := d.challenges;
    var k := First(m, PendingFor(s.email));
    j := i;
    if StartEmail(d, now, limits, s).1.Ok? {
      if k == |m| {
        PutElsewhere(m, s.id, NewChallenge(d.next, s), i);
      } else if m[k].value.expiresAt <= now {
        PutElsewhere(Set(m, k, Close(m[k].value, Superseded)), s.id, NewChallenge(d.next, s), i);
      } else if m[k].key != s.id {
        j := if i < k then i else i - 1;
        PutElsewhere(Delete(m, k), s.id, Resent(m[k].value, s), j);
      }
    }
  }

  /** Putting another record in the place of one. */
  lemma PutOver(m: Dict<Challenge>, id: string, c: Challenge, serial: nat, i: nat)
    requires Distinct(m) && i < |m| && m[i].key == id && c.serial != serial
    requires forall j | 0 <= j < |m| && j != i :: m[j].value.serial != serial
    ensures Gone(Put(m, id, c), serial)
  {
    IndexOfUnique(m, i);
  }

  /** An email code under the id of the record puts another record in its place. */
  lemma StartEmailLoses(d: Desk, limits: Limits, now: int, s: EmailStart, i: nat)
    requires DeskInv(d, limits) && i < |d.challenges| && d.challenges[i].value.status == Consumed
    requires s.id == d.challenges[i].key && StartEmail(d, now, limits, s).1.Ok?
    ensures Gone(StartEmail(d, now, limits, s).0.challenges, d.challenges[i].value.serial)
  {
    var m, serial := d.challenges, d.challenges[i].value.serial;
    var k := First(m, PendingFor(s.email));
    SerialIsUnique(d, limits, i);
    if k == |m| {
      PutOver(m, s.id, NewChallenge(d.next, s), serial, i);
    } else if m[k].value.expiresAt <= now {
      PutOver(Set(m, k, Close(m[k].value, Superseded)), s.id, NewChallenge(d.next, s), serial, i);
    } else {
      PutOver(Delete(m, k), s.id, Resent(m[k].value, s), serial, if i < k then i else i - 1);
    }
  }

  lemma {:induction false} CleanKeepsHeld(m: Dict<Challenge>, now: int, budget: nat, i: nat) returns (j: nat)
    requires i < |m| && m[i].value.status == Consumed && m[i].value.replayUntil.Some?
    requires now < m[i].value.replayUntil.value || budget <= CountDue(m[..i], now)
    ensures j < |Clean(m, now, budget).0| && Clean(m, now, budget).0[j] == m[i]
  {
    if budget == 0 || i == 0 {
      j := i;
    } else {
      var due := Due(m[0].value, now);
      assert m[..i][0] == m[0] && m[..i][1..] == m[1..][..i - 1];
      var h := CleanKeepsHeld(m[1..], now, if due then budget - 1 else budget, i - 1);
      j := if due && m[0].value.status != Pending then h else h + 1;
    }
  }

  lemma {:induction false} CleanLoses(m: Dict<Challenge>, now: int, budget: nat, i: nat)
    requires i < |m| && m[i].value.status == Consumed && m[i].value.replayUntil.Some?
    requires m[i].value.replayUntil.value <= now && CountDue(m[..i], now) < budget
    requires forall j | 0 <= j < |m| && j != i :: m[j].value.serial != m[i].value.serial
    ensures Gone(Clean(m, now, budget).0, m[i].value.serial)
  {
    var r := Clean(m, now, budget).0;
    if i == 0 {
      forall j | 0 <= j < |r| ensures r[j].value.serial != m[0].value.serial {
        var h := CleanSource(m[1..], now, budget - 1, j);
        assert m[1..][h] == m[h + 1];
      }
    } else {
      var due := Due(m[0].value, now);
      assert m[..i][0] == m[0] && m[..i][1..] == m[1..][..i - 1];
      CleanLoses(m[1..], now, if due then budget - 1 else budget, i - 1);
    }
  }

  /** A step loses the record of a key in exactly the two ways. */
  lemma StepLosesIff(d: Desk, limits: Limits, call: Call, i: nat)
    requires DeskInv(d, limits) && Usable(limits) && i < |d.challenges| && d.challenges[i].value.status == Consumed
    ensures Gone(Step(d, limits, call.now, call.op).challenges, d.challenges[i].value.serial)
            <==> Loses(d, limits, call, i)
  {
    var m, serial := d.challenges, d.challenges[i].value.serial;
    if !Loses(d, limits, call, i) {
      var j := StepKeepsHeld(d, limits, call, i);
      assert Step(d, limits, call.now, call.op).challenges[j].value.serial == serial;
    } else if call.op.StartEmailOp? {
      StartEmailLoses(d, limits, call.now, call.op.start, i);
    } else {
      SerialIsUnique(d, limits, i);
      CleanLoses(m, call.now, CleanLimit(call.op.limit), i);
    }
  }

  /** No call of a run loses the record with this serial number. */
  ghost predicate NoneLoses(d: Desk, limits: Limits, calls: seq<Call>, serial: nat)
    decreases |calls|
  {
    calls == [] ||
    ((forall i | 0 <= i < |d.challenges| && d.challenges[i].value.serial == serial
                 && d.challenges[i].value.replayUntil.Some? :: !Loses(d, limits, calls[0], i))
     && NoneLoses(Step(d, limits, calls[0].now, calls[0].op), limits, calls[1..], serial))
  }

  /** Over a run the record of a key is still there at the end, unchanged, exactly when no call on
      the way loses it. */
  lemma {:induction false} RecordKeptIff(d: Desk, limits: Limits, calls: seq<Call>, i: nat) returns (j: nat)
    requires DeskInv(d, limits) && Usable(limits) && i < |d.challenges| && d.challenges[i].value.status == Consumed
    ensures var serial, d' := d.challenges[i].value.serial, Run(d, limits, calls);
            if NoneLoses(d, limits, calls, serial) then
                 j < |d'.challenges| && d'.challenges[j].value == d.challenges[i].value
            else Gone(d'.challenges, serial)
    decreases |calls|
  {
    j := i;
    if calls != [] {
      var serial, d1 := d.challenges[i].value.serial, Step(d, limits, calls[0].now, calls[0].op);
      StepMoves(d, limits, calls[0].now, calls[0].op);
      SerialIsUnique(d, limits, i);
      if Loses(d, limits, calls[0], i) {
        StepLosesIff(d, limits, calls[0], i);
        GoneForever(d1, limits, calls[1..], serial);
      } else {
        var h := StepKeepsHeld(d, limits, calls[0], i);
        j := RecordKeptIff(d1, limits, calls[1..], h);
      }
    }
  }

  /** The identities a run creates under a key. */
  ghost function CreatedUnder(d: Desk, limits: Limits, calls: seq<Call>, key: string): nat
    decreases |calls|
  {
    if calls == [] then 0
    else
      var here := calls[0].op.CompleteOp? && calls[0].op.application.key == key
                  && Complete(d, calls[0].now, calls[0].op.application).1.Ok?
                  && Complete(d, calls[0].now, calls[0].op.application).1.value.created;
      (if here then 1 else 0) + CreatedUnder(Step(d, limits, calls[0].now, calls[0].op), limits, calls[1..], key)
  }

  lemma {:induction false} NothingCreatedWhileHeld(d: Desk, limits: Limits, calls: seq<Call>, i: nat)
    requires DeskInv(d, limits) && Usable(limits) && i < |d.challenges| && d.challenges[i].value.status == Consumed
    requires NoneLoses(d, limits, calls, d.challenges[i].value.serial)
    ensures CreatedUnder(d, limits, calls, d.challenges[i].value.key.value) == 0
    decreases |calls|
  {
    if calls != [] {
      var c := d.challenges[i].value;
      StepMoves(d, limits, calls[0].now, calls[0].op);
      var j := StepKeepsHeld(d, limits, calls[0], i);
      if calls[0].op.CompleteOp? && calls[0].op.application.key == c.key.value {
        assert Carries(c, c.key.value, c.fingerprint.value, c.identity.value, c.replayUntil.value);
        HeldKeyReplays(d, limits, calls[0].now, calls[0].op.application, c.fingerprint.value, c.identity.value,
                       c.replayUntil.value);
      }
      NothingCreatedWhileHeld(Step(d, limits, calls[0].now, calls[0].op), limits, calls[1..], j);
    }
  }

  lemma CarriedThroughout(d: Desk, limits: Limits, calls: seq<Call>, i: nat, key: string, identity: Identity,
                          until: int, again: Application, later: int)
    requires DeskInv(d, limits) && Usable(limits) && i < |d.challenges| && again.key == key && later <= until
    requires Carries(d.challenges[i].value, key, again.fingerprint, identity, until)
    requires NoneLoses(d, limits, calls, d.challenges[i].value.serial)
    ensures CreatedUnder(d, limits, calls, key) == 0
    ensures Complete(Run(d, limits, calls), later, again).1 == Ok(Outcome(identity, false))
  {
    var j := RecordKeptIff(d, limits, calls, i);
    NothingCreatedWhileHeld(d, limits, calls, i);
    RunMoves(d, limits, calls);
    HeldKeyReplays(Run(d, limits, calls), limits, later, again, again.fingerprint, identity, until);
  }

  /** One idempotency key creates at most one identity, and a replay within a day returns it, over
      every run on which no call loses the record of the key: no cleanup reaches it from the end of
      the day on, and no email code goes out under its id. Once a call has lost it, the record is
      gone for good. */
  lemma OneIdentityPerKey(d: Desk, limits: Limits, now: int, a: Application, calls: seq<Call>, again: Application,
                          later: int)
    requires DeskInv(d, limits) && Usable(limits)
    requires Complete(d, now, a).1.Ok? && Complete(d, now, a).1.value.created
    requires again.key == a.key && again.fingerprint == a.fingerprint && later <= now + REPLAY_MS
    ensures var (d1, first) := Complete(d, now, a);
            var serial := Get(d.challenges, a.id).value.serial;
            if NoneLoses(d1, limits, calls, serial) then
              && CreatedUnder(d1, limits, calls, a.key) == 0
              && Complete(Run(d1, limits, calls), later, again).1 == Ok(Outcome(first.value.identity, false))
            else Gone(Run(d1, limits, calls).challenges, serial)
  {
    var (d1, first) := Complete(d, now, a);
    var i := IndexOf(d.challenges, a.id);
    CreationIsHeld(d, now, a);
    CompleteKeeps(d, now, limits, a);
    if NoneLoses(d1, limits, calls, d1.challenges[i].value.serial) {
      CarriedThroughout(d1, limits, calls, i, a.key, first.value.identity, now + REPLAY_MS, again, later);
    } else {
      var _ := RecordKeptIff(d1, limits, calls, i);
    }
  }

  /** The two channels verified, then the completion, all at one moment. */
  function Register(id: string, email: string, phone: string, at: int): seq<Call> {
    [ At(at, StartEmailOp(EmailStart(id, email, "e", at, at + 1000))),
      At(at, VerifyEmailOp(id, email, "e")),
      At(at, StartPhoneOp(PhoneStart(id, email, phone, "p", at, at + 1000))),
      At(at, VerifyPhoneOp(id, email, phone, "p")),
      At(at, CompleteOp(Application(id, email, phone, email, email, "key", "print", true))) ]
  }

  function Registered(email: string, phone: string, at: int, serial: nat): Challenge {
    Challenge(serial, email, Some(phone), None, None, Consumed, 0, 1, 1, at, at, at, at, at + 1000,
              Some("key"), Some("print"), Some(Identity(email, true, Some(phone))), Some(at + REPLAY_MS))
  }

  function Unverified(email: string, at: int, serial: nat): Challenge {
    NewChallenge(serial, EmailStart("", email, "e", at, at + 1000))
  }

  function EmailDone(email: string, at: int, serial: nat): Challenge {
    Unverified(email, at, serial).(emailVerifiedAt := at, emailCode := None)
  }

  function PhoneSent(email: string, phone: string, at: int, serial: nat): Challenge {
    SendPhone(EmailDone(email, at, serial), PhoneStart("", email, phone, "p", at, at + 1000))
  }

  function BothDone(email: string, phone: string, at: int, serial: nat): Challenge {
    PhoneSent(email, phone, at, serial).(phoneVerifiedAt := at, phoneCode := None)
  }

  lemma RegisterEmail(d: Desk, limits: Limits, id: string, email: string, at: int)
    requires Usable(limits) && d.challenges == [] && at > 0 && Get(d.identities, email).None?
    ensures StartEmail(d, at, limits, EmailStart(id, email, "e", at, at + 1000)).0
            == Desk([Entry(id, Unverified(email, at, d.next))], d.identities, d.next + 1)
    ensures VerifyEmail(Desk([Entry(id, Unverified(email, at, d.next))], d.identities, d.next + 1), at, limits, id,
                        email, "e").0
            == Desk([Entry(id, EmailDone(email, at, d.next))], d.identities, d.next + 1)
  {
  }

  lemma RegisterPhone(d: Desk, limits: Limits, id: string, email: string, phone: string, at: int, serial: nat)
    requires Usable(limits) && at > 0 && !PhoneTaken(d, phone)
    ensures StartPhone(d.(challenges := [Entry(id, EmailDone(email, at, serial))]), at, limits,
                       PhoneStart(id, email, phone, "p", at, at + 1000)).0
            == d.(challenges := [Entry(id, PhoneSent(email, phone, at, serial))])
    ensures VerifyPhone(d.(challenges := [Entry(id, PhoneSent(email, phone, at, serial))]), at, limits, id, email,
                        phone, "p").0
            == d.(challenges := [Entry(id, BothDone(email, phone, at, serial))])
  {
    var m := [Entry(id, EmailDone(email, at, serial))];
    CloseStaleAt(m, id, phone, at);
    assert CloseStale(m, id, phone, at) == m;
  }

  lemma RegisterLast(d: Desk, id: string, email: string, phone: string, at: int, serial: nat)
    requires at > 0 && Get(d.identities, email).None? && !PhoneTaken(d, phone)
    ensures Complete(d.(challenges := [Entry(id, BothDone(email, phone, at, serial))]), at,
                     Application(id, email, phone, email, email, "key", "print", true))
            == (Desk([Entry(id, Registered(email, phone, at, serial))],
                     Put(d.identities, email, Identity(email, true, Some(phone))), d.next),
                Ok(Outcome(Identity(email, true, Some(phone)), true)))
  {
    var m := [Entry(id, BothDone(email, phone, at, serial))];
    assert !WithKey("key")(m[0].value) && First(m, WithKey("key")) == 1;
    assert IndexOf(m, id) == 0;
    var a := Application(id, email, phone, email, email, "key", "print", true);
    assert Consume(m[0].value, at, a) == Registered(email, phone, at, serial);
    assert Set(m, 0, Registered(email, phone, at, serial)) == [Entry(id, Registered(email, phone, at, serial))];
  }

  /** One more call in front of a run. */
  lemma FirstCall(d: Desk, limits: Limits, call: Call, rest: seq<Call>, d1: Desk, key: string)
    requires Step(d, limits, call.now, call.op) == d1 && !call.op.CompleteOp?
    ensures Run(d, limits, [call] + rest) == Run(d1, limits, rest)
    ensures CreatedUnder(d, limits, [call] + rest, key) == CreatedUnder(d1, limits, rest, key)
  {
    assert ([call] + rest)[1..] == rest;
  }

  lemma LastCall(d: Desk, limits: Limits, now: int, a: Application)
    requires Complete(d, now, a).1.Ok? && Complete(d, now, a).1.value.created
    ensures Run(d, limits, [At(now, CompleteOp(a))]) == Complete(d, now, a).0
    ensures CreatedUnder(d, limits, [At(now, CompleteOp(a))], a.key) == 1
  {
    assert [At(now, CompleteOp(a))][1..] == [];
  }

  /** Five calls of which only the last completes. */
  lemma FiveCalls(limits: Limits, calls: seq<Call>, d0: Desk, d1: Desk, d2: Desk, d3: Desk, d4: Desk, a: Application)
    requires |calls| == 5 && !calls[0].op.CompleteOp? && !calls[1].op.CompleteOp? && !calls[2].op.CompleteOp?
    requires !calls[3].op.CompleteOp?
    requires Step(d0, limits, calls[0].now, calls[0].op) == d1 && Step(d1, limits, calls[1].now, calls[1].op) == d2
    requires Step(d2, limits, calls[2].now, calls[2].op) == d3 && Step(d3, limits, calls[3].now, calls[3].op) == d4
    requires calls[4].op == CompleteOp(a)
    requires Complete(d4, calls[4].now, a).1.Ok? && Complete(d4, calls[4].now, a).1.value.created
    ensures Run(d0, limits, calls) == Complete(d4, calls[4].now, a).0 && CreatedUnder(d0, limits, calls, a.key) == 1
  {
    FirstCall(d0, limits, calls[0], calls[1..], d1, a.key);
    FirstCall(d1, limits, calls[1], calls[2..], d2, a.key);
    FirstCall(d2, limits, calls[2], calls[3..], d3, a.key);
    FirstCall(d3, limits, calls[3], calls[4..], d4, a.key);
    LastCall(d4, limits, calls[4].now, a);
    assert calls == [calls[0]] + calls[1..] && calls[1..] == [calls[1]] + calls[2..];
    assert calls[2..] == [calls[2]] + calls[3..] && calls[3..] == [calls[3]] + calls[4..];
    assert calls[4..] == [At(calls[4].now, CompleteOp(a))];
  }

  /** The four calls before the completion, one by one. */
  lemma RegisterSteps(d: Desk, limits: Limits, id: string, email: string, phone: string, at: int)
    requires Usable(limits) && d.challenges == [] && at > 0 && Get(d.identities, email).None? && !PhoneTaken(d, phone)
    ensures var calls, after := Register(id, email, phone, at), d.(next := d.next + 1);
            && Step(d, limits, at, calls[0].op) == after.(challenges := [Entry(id, Unverified(email, at, d.next))])
            && Step(after.(challenges := [Entry(id, Unverified(email, at, d.next))]), limits, at, calls[1].op)
               == after.(challenges := [Entry(id, EmailDone(email, at, d.next))])
  {
    RegisterEmail(d, limits, id, email, at);
  }

  lemma RegisterMoreSteps(after: Desk, limits: Limits, id: string, email: string, phone: string, at: int, serial: nat)
    requires Usable(limits) && at > 0 && !PhoneTaken(after, phone)
    ensures var calls := Register(id, email, phone, at);
            && Step(after.(challenges := [Entry(id, EmailDone(email, at, serial))]), limits, at, calls[2].op)
               == after.(challenges := [Entry(id, PhoneSent(email, phone, at, serial))])
            && Step(after.(challenges := [Entry(id, PhoneSent(email, phone, at, serial))]), limits, at, calls[3].op)
               == after.(challenges := [Entry(id, BothDone(email, phone, at, serial))])
  {
    RegisterPhone(after, limits, id, email, phone, at, serial);
  }

  /** On a desk without challenges, a person unknown to it registers. */
  lemma RegisterCreates(d: Desk, limits: Limits, id: string, email: string, phone: string, at: int)
    requires Usable(limits) && d.challenges == [] && at > 0
    requires Get(d.identities, email).None? && !PhoneTaken(d, phone)
    ensures var calls := Register(id, email, phone, at);
            && CreatedUnder(d, limits, calls, "key") == 1
            && Run(d, limits, calls) == Desk([Entry(id, Registered(email, phone, at, d.next))],
                                             Put(d.identities, email, Identity(email, true, Some(phone))), d.next + 1)
  {
    var after := d.(next := d.next + 1);
    RegisterSteps(d, limits, id, email, phone, at);
    RegisterMoreSteps(after, limits, id, email, phone, at, d.next);
    RegisterLast(after, id, email, phone, at, d.next);
    FiveCalls(limits, Register(id, email, phone, at), d,
              after.(challenges := [Entry(id, Unverified(email, at, d.next))]),
              after.(challenges := [Entry(id, EmailDone(email, at, d.next))]),
              after.(challenges := [Entry(id, PhoneSent(email, phone, at, d.next))]),
              after.(challenges := [Entry(id, BothDone(email, phone, at, d.next))]),
              Application(id, email, phone, email, email, "key", "print", true));
  }

  lemma {:induction false} RunConcat(d: Desk, limits: Limits, a: seq<Call>, b: seq<Call>, key: string)
    ensures Run(d, limits, a + b) == Run(Run(d, limits, a), limits, b)
    ensures CreatedUnder(d, limits, a + b, key)
            == CreatedUnder(d, limits, a, key) + CreatedUnder(Run(d, limits, a), limits, b, key)
    decreases |a|
  {
    if a == [] {
      assert a + b == b;
    } else {
      assert (a + b)[1..] == a[1..] + b;
      RunConcat(Step(d, limits, a[0].now, a[0].op), limits, a[1..], b, key);
    }
  }

  /** Once a cleanup has dropped the record, the same key creates a second identity. */
  lemma KeyCreatesTwice(limits: Limits, id1: string, email1: string, phone1: string, id2: string, email2: string,
                        phone2: string, at: int)
    requires Usable(limits) && at > 0 && email1 != email2 && phone1 != phone2
    ensures var first, again := Register(id1, email1, phone1, at), Register(id2, email2, phone2, at + REPLAY_MS);
            CreatedUnder(EmptyDesk, limits, first + ([At(at + REPLAY_MS, CleanupOp(1))] + again), "key") == 2
  {
    var d2 := Desk([], [Entry(email1, Identity(email1, true, Some(phone1)))], 1);
    FirstIsCleaned(limits, id1, email1, phone1, at);
    OnlyPhone(email1, phone1, email2, phone2);
    RegisterCreates(d2, limits, id2, email2, phone2, at + REPLAY_MS);
    TwoCreations(limits, Register(id1, email1, phone1, at), Register(id2, email2, phone2, at + REPLAY_MS), d2,
                 At(at + REPLAY_MS, CleanupOp(1)));
  }

  lemma OnlyPhone(email1: string, phone1: string, email2: string, phone2: string)
    requires email1 != email2 && phone1 != phone2
    ensures var m := [Entry(email1, Identity(email1, true, Some(phone1)))];
            Get(m, email2).None? && First(m, WithPhone(phone2)) == 1
  {
    var m := [Entry(email1, Identity(email1, true, Some(phone1)))];
    assert !WithPhone(phone2)(m[0].value);
  }

  lemma FirstIsCleaned(limits: Limits, id: string, email: string, phone: string, at: int)
    requires Usable(limits) && at > 0
    ensures CreatedUnder(EmptyDesk, limits, Register(id, email, phone, at), "key") == 1
    ensures Step(Run(EmptyDesk, limits, Register(id, email, phone, at)), limits, at + REPLAY_MS, CleanupOp(1))
            == Desk([], [Entry(email, Identity(email, true, Some(phone)))], 1)
  {
    RegisterCreates(EmptyDesk, limits, id, email, phone, at);
    CleanRegistered(id, email, phone, at, 0);
  }

  lemma TwoCreations(limits: Limits, first: seq<Call>, again: seq<Call>, d2: Desk, clean: Call)
    requires CreatedUnder(EmptyDesk, limits, first, "key") == 1 && CreatedUnder(d2, limits, again, "key") == 1
    requires !clean.op.CompleteOp? && Step(Run(EmptyDesk, limits, first), limits, clean.now, clean.op) == d2
    ensures CreatedUnder(EmptyDesk, limits, first + ([clean] + again), "key") == 2
  {
    FirstCall(Run(EmptyDesk, limits, first), limits, clean, again, d2, "key");
    RunConcat(EmptyDesk, limits, first, [clean] + again, "key");
  }

  lemma CleanRegistered(id: string, email: string, phone: string, at: int, serial: nat)
    ensures Clean([Entry(id, Registered(email, phone, at, serial))], at + REPLAY_MS, 1).0 == []
  {
    var m := [Entry(id, Registered(email, phone, at, serial))];
    assert m[1..] == [];
  }
}

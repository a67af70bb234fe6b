/** What every step of registration keeps: the invariant, and how a challenge may change. */
module RegistrationSafety {
  import opened Common
  import opened JsMap
  import opened Registration

  // ---- The invariant ----

  /** A pending challenge is within its budgets; a consumed one had both channels verified. */
  predicate Good(c: Challenge, limits: Limits) {
    && (c.status == Pending ==> c.failed < limits.maxFailures)
    && c.failed <= limits.maxFailures
    && 1 <= c.emailSends <= limits.maxSends && c.phoneSends <= limits.maxSends
    && (c.emailVerifiedAt != 0 ==> c.emailCode == None)
    && (c.phoneVerifiedAt != 0 ==> c.phoneCode == None && c.emailVerifiedAt != 0 && c.phone.Some?)
    && (c.status != Pending ==> c.emailCode == None && c.phoneCode == None)
    && (c.status == Consumed ==> c.emailVerifiedAt != 0 && c.phoneVerifiedAt != 0)
    && (c.status == Consumed <==> c.key.Some?)
    && (c.status == Consumed <==> c.identity.Some?)
    && (c.status == Consumed <==> c.replayUntil.Some?)
    && (c.status == Consumed <==> c.fingerprint.Some?)
    && (c.status == Consumed ==> c.identity.value.phone == c.phone)
  }

  /** Two records that may not stand side by side. */
  predicate Clash(c: Challenge, o: Challenge) {
    || c.serial == o.serial
    || (c.status == Pending && o.status == Pending && c.email == o.email)
    || (c.status == Pending && o.status == Pending && c.phone.Some? && c.phone == o.phone)
    || (c.key.Some? && c.key == o.key)
  }

  ghost predicate Apart(m: Dict<Challenge>) {
    forall i, j | 0 <= i < j < |m| :: !Clash(m[i].value, m[j].value)
  }

  lemma ApartAt(m: Dict<Challenge>, i: nat, j: nat)
    requires Apart(m) && i < |m| && j < |m|
    ensures i == j || !Clash(m[i].value, m[j].value)
  {
    if i < j {
      assert !Clash(m[i].value, m[j].value);
    } else if j < i {
      assert !Clash(m[j].value, m[i].value);
    }
  }

  ghost predicate AllGood(m: Dict<Challenge>, limits: Limits, next: nat) {
    forall i | 0 <= i < |m| :: Good(m[i].value, limits) && m[i].value.serial < next
  }

  ghost predicate ChallengesInv(m: Dict<Challenge>, limits: Limits, next: nat) {
    Distinct(m) && Apart(m) && AllGood(m, limits, next)
  }

  /** No phone belongs to two identities. */
  ghost predicate PhonesUnique(m: Dict<Identity>) {
    forall i, j | 0 <= i < j < |m| && m[i].value.phone.Some? :: m[i].value.phone != m[j].value.phone
  }

  ghost predicate DeskInv(d: Desk, limits: Limits) {
    ChallengesInv(d.challenges, limits, d.next) && Distinct(d.identities) && PhonesUnique(d.identities)
  }

  /** The configuration allows at least one send and one guess. */
  predicate Usable(limits: Limits) {
    1 <= limits.maxSends && 1 <= limits.maxFailures
  }

  // ---- How a record may change ----

  /** A finished record never changes; a live one only ever counts up, and keeps its phone and what
      it has verified. */
  predicate Later(c: Challenge, o: Challenge) {
    && o.serial == c.serial && o.email == c.email
    && (c.status != Pending ==> o == c)
    && c.failed <= o.failed && c.emailSends <= o.emailSends && c.phoneSends <= o.phoneSends
    && (c.emailVerifiedAt != 0 ==> o.emailVerifiedAt == c.emailVerifiedAt)
    && (c.phoneVerifiedAt != 0 ==> o.phoneVerifiedAt == c.phoneVerifiedAt)
    && (c.phone.Some? ==> o.phone == c.phone)
  }

  ghost predicate ComesFrom(m: Dict<Challenge>, o: Challenge) {
    exists i | 0 <= i < |m| :: Later(m[i].value, o)
  }

  /** Every record is new or a later form of one that was there: none ever comes back. */
  ghost predicate Evolves(m: Dict<Challenge>, m': Dict<Challenge>, next: nat) {
    forall j | 0 <= j < |m'| :: m'[j].value.serial >= next || ComesFrom(m, m'[j].value)
  }

  ghost predicate Moves(d: Desk, d': Desk, limits: Limits) {
    DeskInv(d', limits) && d.next <= d'.next && Evolves(d.challenges, d'.challenges, d.next)
  }

  lemma EvolvesSelf(m: Dict<Challenge>, next: nat)
    ensures Evolves(m, m, next)
  {
    forall j | 0 <= j < |m| ensures ComesFrom(m, m[j].value) {
      assert Later(m[j].value, m[j].value);
    }
  }

  lemma EvolvesOn(m0: Dict<Challenge>, m1: Dict<Challenge>, m2: Dict<Challenge>, next0: nat, next1: nat)
    requires Evolves(m0, m1, next0) && Evolves(m1, m2, next1) && next0 <= next1
    ensures Evolves(m0, m2, next0)
  {
    forall j | 0 <= j < |m2| && m2[j].value.serial < next0 ensures ComesFrom(m0, m2[j].value) {
      var i :| 0 <= i < |m1| && Later(m1[i].value, m2[j].value);
      var h :| 0 <= h < |m0| && Later(m0[h].value, m1[i].value);
      assert Later(m0[h].value, m2[j].value);
    }
  }

  // ---- Changing, deleting, adding one record ----

  lemma SetKeeps(m: Dict<Challenge>, k: nat, c: Challenge, limits: Limits, next: nat)
    requires ChallengesInv(m, limits, next) && k < |m|
    requires Good(c, limits) && Later(m[k].value, c)
    requires forall j | 0 <= j < |m| && j != k :: !Clash(m[j].value, c)
    ensures ChallengesInv(Set(m, k, c), limits, next) && Evolves(m, Set(m, k, c), next)
  {
    var r := Set(m, k, c);
    forall i, j | 0 <= i < j < |r| ensures !Clash(r[i].value, r[j].value) {
    }
    forall j | 0 <= j < |r| ensures ComesFrom(m, r[j].value) {
      assert Later(m[j].value, r[j].value);
    }
  }

  /** A change that makes a record clash with nothing new. */
  predicate Tame(c: Challenge, o: Challenge) {
    && o.serial == c.serial && o.email == c.email && o.phone == c.phone && o.key == c.key
    && (o.status == Pending ==> c.status == Pending)
  }

  lemma TameKeeps(m: Dict<Challenge>, k: nat, c: Challenge, limits: Limits, next: nat)
    requires ChallengesInv(m, limits, next) && k < |m|
    requires Good(c, limits) && Later(m[k].value, c) && Tame(m[k].value, c)
    ensures ChallengesInv(Set(m, k, c), limits, next) && Evolves(m, Set(m, k, c), next)
  {
    forall j | 0 <= j < |m| && j != k ensures !Clash(m[j].value, c) {
      assert !Clash(m[if j < k then j else k].value, m[if j < k then k else j].value);
    }
    SetKeeps(m, k, c, limits, next);
  }

  lemma DeleteKeeps(m: Dict<Challenge>, k: nat, limits: Limits, next: nat)
    requires ChallengesInv(m, limits, next) && k < |m|
    ensures ChallengesInv(Delete(m, k), limits, next) && Evolves(m, Delete(m, k), next)
    ensures forall j | 0 <= j < |m| - 1 :: Delete(m, k)[j].value.serial != m[k].value.serial
  {
    var r := Delete(m, k);
    forall j | 0 <= j < |r| ensures ComesFrom(m, r[j].value) && r[j].value.serial != m[k].value.serial {
      var i := if j < k then j else j + 1;
      assert Later(m[i].value, r[j].value);
      assert !Clash(m[if i < k then i else k].value, m[if i < k then k else i].value);
    }
  }

  /** Setting a record under an id, where it clashes with no other, not even one it replaces. */
  lemma PutKeeps(m: Dict<Challenge>, id: string, c: Challenge, limits: Limits, next: nat)
    requires ChallengesInv(m, limits, next) && Good(c, limits) && c.serial < next
    requires forall j | 0 <= j < |m| :: !Clash(m[j].value, c)
    ensures ChallengesInv(Put(m, id, c), limits, next)
    ensures forall j | 0 <= j < |Put(m, id, c)| :: Put(m, id, c)[j].value == c || Put(m, id, c)[j] in m
  {
    var r := Put(m, id, c);
    PutKeepsDistinct(m, id, c);
    forall i, j | 0 <= i < j < |r| ensures !Clash(r[i].value, r[j].value) {
    }
  }

  lemma EvolvesPut(m0: Dict<Challenge>, m: Dict<Challenge>, id: string, c: Challenge, next: nat)
    requires Evolves(m0, m, next) && (c.serial >= next || ComesFrom(m0, c))
    ensures Evolves(m0, Put(m, id, c), next)
  {
  }

  // ---- Each operation ----

  lemma IssueKeeps(d: Desk, limits: Limits, s: EmailStart)
    requires DeskInv(d, limits) && Usable(limits)
    requires forall j | 0 <= j < |d.challenges| :: !PendingFor(s.email)(d.challenges[j].value)
    ensures Moves(d, Issue(d, s), limits)
  {
    var c := NewChallenge(d.next, s);
    assert AllGood(d.challenges, limits, d.next + 1);
    PutKeeps(d.challenges, s.id, c, limits, d.next + 1);
    EvolvesSelf(d.challenges, d.next);
    EvolvesPut(d.challenges, d.challenges, s.id, c, d.next);
  }

  lemma ResendKeeps(d: Desk, limits: Limits, k: nat, s: EmailStart)
    requires DeskInv(d, limits) && k < |d.challenges|
    requires var c := d.challenges[k].value;
             c.status == Pending && c.emailVerifiedAt == 0 && c.emailSends < limits.maxSends
    ensures Moves(d, Resend(d, k, s), limits)
  {
    var m, c := d.challenges, d.challenges[k].value;
    var c' := Resent(c, s);
    assert Later(c, c') && Tame(c, c') && Good(c', limits);
    if m[k].key == s.id {
      TameKeeps(m, k, c', limits, d.next);
    } else {
      DeleteKeeps(m, k, limits, d.next);
      var rest := Delete(m, k);
      forall j | 0 <= j < |rest| ensures !Clash(rest[j].value, c') {
        var i := if j < k then j else j + 1;
        assert !Clash(m[if i < k then i else k].value, m[if i < k then k else i].value);
      }
      PutKeeps(rest, s.id, c', limits, d.next);
      EvolvesPut(m, rest, s.id, c', d.next);
    }
  }

  /** Once the one pending challenge of an email is closed, none is left. */
  lemma NonePending(m: Dict<Challenge>, k: nat, email: string, status: Status)
    requires Apart(m) && k < |m| && PendingFor(email)(m[k].value) && status != Pending
    ensures var r := Set(m, k, Close(m[k].value, status)); forall j | 0 <= j < |r| :: !PendingFor(email)(r[j].value)
  {
    forall j | 0 <= j < |m| && j != k ensures !PendingFor(email)(m[j].value) {
      assert !Clash(m[if j < k then j else k].value, m[if j < k then k else j].value);
    }
  }

  /** The desk with one record changed. */
  function With(d: Desk, k: nat, c: Challenge): Desk
    requires k < |d.challenges|
  {
    d.(challenges := Set(d.challenges, k, c))
  }

  lemma MovesSelf(d: Desk, limits: Limits)
    requires DeskInv(d, limits)
    ensures Moves(d, d, limits)
  {
    EvolvesSelf(d.challenges, d.next);
  }

  lemma TameMoves(d: Desk, limits: Limits, k: nat, c: Challenge)
    requires DeskInv(d, limits) && k < |d.challenges|
    requires Good(c, limits) && Later(d.challenges[k].value, c) && Tame(d.challenges[k].value, c)
    ensures Moves(d, With(d, k, c), limits)
  {
    TameKeeps(d.challenges, k, c, limits, d.next);
  }

  lemma SetMoves(d: Desk, limits: Limits, k: nat, c: Challenge)
    requires DeskInv(d, limits) && k < |d.challenges|
    requires Good(c, limits) && Later(d.challenges[k].value, c)
    requires forall j | 0 <= j < |d.challenges| && j != k :: !Clash(d.challenges[j].value, c)
    ensures Moves(d, With(d, k, c), limits)
  {
    SetKeeps(d.challenges, k, c, limits, d.next);
  }

  lemma RefusalMoves(d: Desk, limits: Limits, k: nat, now: int)
    requires DeskInv(d, limits) && k < |d.challenges| && Refusal(d.challenges[k].value, now).Some?
    ensures Moves(d, With(d, k, AfterRefusal(d.challenges[k].value, Refusal(d.challenges[k].value, now).value)), limits)
  {
    TameMoves(d, limits, k, AfterRefusal(d.challenges[k].value, Refusal(d.challenges[k].value, now).value));
  }

  lemma MovesOn(d: Desk, d1: Desk, d2: Desk, limits: Limits)
    requires Moves(d, d1, limits) && Moves(d1, d2, limits)
    ensures Moves(d, d2, limits)
  {
    EvolvesOn(d.challenges, d1.challenges, d2.challenges, d.next, d1.next);
  }

  /** Whatever holds of all that starting an email code can lead to holds of what it leads to. */
  lemma StartEmailCases(d: Desk, now: int, limits: Limits, s: EmailStart, k: nat, ok: Desk -> bool)
    requires k == First(d.challenges, PendingFor(s.email)) && ok(d)
    requires k == |d.challenges| ==> ok(Issue(d, s))
    requires k < |d.challenges| ==> ok(Issue(With(d, k, Close(d.challenges[k].value, Superseded)), s))
    requires k < |d.challenges| ==> ok(With(d, k, Close(d.challenges[k].value, Locked)))
    requires k < |d.challenges| && d.challenges[k].value.emailVerifiedAt == 0
             && d.challenges[k].value.emailSends < limits.maxSends
             ==> ok(Resend(d, k, s))
    ensures ok(StartEmail(d, now, limits, s).0)
  {
  }

  lemma ReissueMoves(d: Desk, limits: Limits, s: EmailStart, k: nat)
    requires DeskInv(d, limits) && Usable(limits) && k < |d.challenges| && PendingFor(s.email)(d.challenges[k].value)
    ensures Moves(d, Issue(With(d, k, Close(d.challenges[k].value, Superseded)), s), limits)
  {
    var closed := With(d, k, Close(d.challenges[k].value, Superseded));
    TameMoves(d, limits, k, Close(d.challenges[k].value, Superseded));
    NonePending(d.challenges, k, s.email, Superseded);
    IssueKeeps(closed, limits, s);
    MovesOn(d, closed, Issue(closed, s), limits);
  }

  lemma StartEmailKeeps(d: Desk, now: int, limits: Limits, s: EmailStart)
    requires DeskInv(d, limits) && Usable(limits)
    ensures Moves(d, StartEmail(d, now, limits, s).0, limits)
  {
    var k := First(d.challenges, PendingFor(s.email));
    MovesSelf(d, limits);
    if k == |d.challenges| {
      IssueKeeps(d, limits, s);
    } else {
      ReissueMoves(d, limits, s, k);
      TameMoves(d, limits, k, Close(d.challenges[k].value, Locked));
      if d.challenges[k].value.emailVerifiedAt == 0 && d.challenges[k].value.emailSends < limits.maxSends {
        ResendKeeps(d, limits, k, s);
      }
    }
    StartEmailCases(d, now, limits, s, k, Allowed(d, limits));
  }

  lemma TryKeeps(c: Challenge, now: int, limits: Limits, code: string)
    requires Good(c, limits)
    ensures var c' := TryEmail(c, now, limits, code).0; Good(c', limits) && Later(c, c') && Tame(c, c')
    ensures c.phone.Some? ==> var c' := TryPhone(c, now, limits, code).0;
            Good(c', limits) && Later(c, c') && Tame(c, c')
  {
  }

  lemma VerifyCases(d: Desk, now: int, limits: Limits, id: string, email: string, phone: string, code: string, k: nat,
                    ok: Desk -> bool)
    requires k == IndexOf(d.challenges, id) && ok(d)
    requires k < |d.challenges| ==> ok(With(d, k, TryEmail(d.challenges[k].value, now, limits, code).0))
    requires k < |d.challenges| && d.challenges[k].value.phone.Some?
             ==> ok(With(d, k, TryPhone(d.challenges[k].value, now, limits, code).0))
    ensures ok(VerifyEmail(d, now, limits, id, email, code).0)
    ensures ok(VerifyPhone(d, now, limits, id, email, phone, code).0)
  {
  }

  lemma VerifyKeeps(d: Desk, now: int, limits: Limits, id: string, email: string, phone: string, code: string)
    requires DeskInv(d, limits)
    ensures Moves(d, VerifyEmail(d, now, limits, id, email, code).0, limits)
    ensures Moves(d, VerifyPhone(d, now, limits, id, email, phone, code).0, limits)
  {
    var k := IndexOf(d.challenges, id);
    MovesSelf(d, limits);
    if k < |d.challenges| {
      var c := d.challenges[k].value;
      TryKeeps(c, now, limits, code);
      TameMoves(d, limits, k, TryEmail(c, now, limits, code).0);
      if c.phone.Some? {
        TameMoves(d, limits, k, TryPhone(c, now, limits, code).0);
      }
    }
    VerifyCases(d, now, limits, id, email, phone, code, k, Allowed(d, limits));
  }

  lemma InvalidateKeeps(d: Desk, limits: Limits, id: string, onEmail: bool, code: string)
    requires DeskInv(d, limits)
    ensures Moves(d, InvalidateCode(d, id, onEmail, code), limits)
  {
    EvolvesSelf(d.challenges, d.next);
    var k := IndexOf(d.challenges, id);
    if k < |d.challenges| && InvalidateCode(d, id, onEmail, code) != d {
      var c := d.challenges[k].value;
      TameKeeps(d.challenges, k, if onEmail then Close(c, Superseded)
                else c.(phoneCode := None, phoneVerifiedAt := 0), limits, d.next);
    }
  }

  lemma CloseStaleKeeps(m: Dict<Challenge>, id: string, phone: string, now: int, limits: Limits, next: nat)
    requires ChallengesInv(m, limits, next)
    ensures var r := CloseStale(m, id, phone, now); ChallengesInv(r, limits, next) && Evolves(m, r, next)
  {
    var r := CloseStale(m, id, phone, now);
    CloseStaleAt(m, id, phone, now);
    forall j | 0 <= j < |r|
      ensures Later(m[j].value, r[j].value) && Tame(m[j].value, r[j].value) && Good(r[j].value, limits)
    {
    }
    forall j | 0 <= j < |r| ensures ComesFrom(m, r[j].value) {
      assert Later(m[j].value, r[j].value);
    }
    forall i, j | 0 <= i < j < |r| ensures !Clash(r[i].value, r[j].value) {
      assert !Clash(m[i].value, m[j].value);
    }
  }

  lemma TryPhoneStartKeeps(c: Challenge, now: int, limits: Limits, s: PhoneStart)
    requires Good(c, limits) && c.status == Pending && c.emailVerifiedAt != 0
             && (c.phone.Some? ==> c.phone == Some(s.phone))
    ensures var c' := TryPhoneStart(c, now, limits, s).0;
            && Good(c', limits) && Later(c, c')
            && c'.key == c.key && (c'.phone == c.phone || c'.phone == Some(s.phone))
  {
  }

  lemma StartPhoneCases(d: Desk, now: int, limits: Limits, s: PhoneStart, k: nat, ok: Desk -> bool)
    requires k == IndexOf(d.challenges, s.id) && ok(d)
    requires k < |d.challenges| && Refusal(d.challenges[k].value, now).Some?
             ==> ok(With(d, k, AfterRefusal(d.challenges[k].value, Refusal(d.challenges[k].value, now).value)))
    requires var m := CloseStale(d.challenges, s.id, s.phone, now);
             && ok(d.(challenges := m))
             && (k < |d.challenges| && PhoneReady(d.challenges[k].value, s) && NoRival(m, s, now)
                 ==> ok(d.(challenges := Set(m, k, TryPhoneStart(m[k].value, now, limits, s).0))))
    ensures ok(StartPhone(d, now, limits, s).0)
  {
  }

  predicate PhoneReady(c: Challenge, s: PhoneStart) {
    c.status == Pending && c.emailVerifiedAt != 0 && (c.phone.Some? ==> c.phone == Some(s.phone))
  }

  ghost predicate NoRival(m: Dict<Challenge>, s: PhoneStart, now: int) {
    forall j | 0 <= j < |m| :: !Rival(m[j], s.id, s.phone, now)
  }

  lemma CloseStaleMoves(d: Desk, limits: Limits, s: PhoneStart, now: int)
    requires DeskInv(d, limits)
    ensures Moves(d, d.(challenges := CloseStale(d.challenges, s.id, s.phone, now)), limits)
  {
    CloseStaleKeeps(d.challenges, s.id, s.phone, now, limits, d.next);
  }

  lemma StartPhoneKeeps(d: Desk, now: int, limits: Limits, s: PhoneStart)
    requires DeskInv(d, limits)
    ensures Moves(d, StartPhone(d, now, limits, s).0, limits)
  {
    var k := IndexOf(d.challenges, s.id);
    var m := CloseStale(d.challenges, s.id, s.phone, now);
    MovesSelf(d, limits);
    CloseStaleMoves(d, limits, s, now);
    if k < |d.challenges| {
      if Refusal(d.challenges[k].value, now).Some? {
        RefusalMoves(d, limits, k, now);
      }
      if PhoneReady(d.challenges[k].value, s) && NoRival(m, s, now) {
        PhoneFree(d, now, limits, s, k, m);
      }
    }
    StartPhoneCases(d, now, limits, s, k, Allowed(d, limits));
  }

  /** With no rival left for the phone, the code goes out and nothing clashes. */
  lemma PhoneFree(d: Desk, now: int, limits: Limits, s: PhoneStart, k: nat, m: Dict<Challenge>)
    requires DeskInv(d, limits) && k < |d.challenges| && d.challenges[k].key == s.id
    requires m == CloseStale(d.challenges, s.id, s.phone, now) && Moves(d, d.(challenges := m), limits)
    requires NoRival(m, s, now) && PhoneReady(d.challenges[k].value, s)
    ensures Moves(d, d.(challenges := Set(m, k, TryPhoneStart(m[k].value, now, limits, s).0)), limits)
  {
    var c' := TryPhoneStart(m[k].value, now, limits, s).0;
    CloseStaleAt(d.challenges, s.id, s.phone, now);
    TryPhoneStartKeeps(m[k].value, now, limits, s);
    forall j | 0 <= j < |m| && j != k ensures !Clash(m[j].value, c') {
      NoClashAt(m, s, now, k, j, c');
    }
    SetMoves(d.(challenges := m), limits, k, c');
    MovesOn(d, d.(challenges := m), With(d.(challenges := m), k, c'), limits);
  }

  lemma NoClashAt(m: Dict<Challenge>, s: PhoneStart, now: int, k: nat, j: nat, c': Challenge)
    requires Distinct(m) && Apart(m) && k < |m| && j < |m| && j != k && m[k].key == s.id && m[k].value.status == Pending
    requires !Rival(m[j], s.id, s.phone, now) && !Stale(m[j].value, s.phone, now)
    requires Later(m[k].value, c') && c'.key == m[k].value.key
             && (c'.phone == m[k].value.phone || c'.phone == Some(s.phone))
    ensures !Clash(m[j].value, c')
  {
    assert !Clash(m[if j < k then j else k].value, m[if j < k then k else j].value);
  }

  lemma ConsumeKeeps(d: Desk, now: int, limits: Limits, a: Application, k: nat)
    requires DeskInv(d, limits) && k < |d.challenges| && First(d.challenges, WithKey(a.key)) == |d.challenges|
    requires var c := d.challenges[k].value;
             c.status == Pending && c.phone == Some(a.phone) && c.emailVerifiedAt != 0 && c.phoneVerifiedAt != 0
    ensures var r := Set(d.challenges, k, Consume(d.challenges[k].value, now, a));
            ChallengesInv(r, limits, d.next) && Evolves(d.challenges, r, d.next)
  {
    var m, c := d.challenges, Consume(d.challenges[k].value, now, a);
    forall j | 0 <= j < |m| && j != k ensures !Clash(m[j].value, c) {
      assert !Clash(m[if j < k then j else k].value, m[if j < k then k else j].value);
      assert !WithKey(a.key)(m[j].value);
    }
    SetKeeps(m, k, c, limits, d.next);
  }

  lemma IdentityKeeps(m: Dict<Identity>, email: string, x: Identity)
    requires Distinct(m) && PhonesUnique(m)
    requires x.phone.Some?
             ==> First(m, WithPhone(x.phone.value)) == |m| || Get(m, email) == Some(x.(hasPassword := false))
    ensures Distinct(Put(m, email, x)) && PhonesUnique(Put(m, email, x))
  {
    PutKeepsDistinct(m, email, x);
    if x.phone.Some? && First(m, WithPhone(x.phone.value)) == |m| {
      assert forall j | 0 <= j < |m| :: !WithPhone(x.phone.value)(m[j].value);
    }
  }

  lemma CompleteCases(d: Desk, now: int, a: Application, k: nat, ok: Desk -> bool)
    requires k == IndexOf(d.challenges, a.id) && ok(d)
    requires k < |d.challenges| && Refusal(d.challenges[k].value, now).Some?
             ==> ok(With(d, k, AfterRefusal(d.challenges[k].value, Refusal(d.challenges[k].value, now).value)))
    requires k < |d.challenges| && First(d.challenges, WithKey(a.key)) == |d.challenges|
             && PhonesReady(d, d.challenges[k].value, a)
             ==> ok(Completed(d, k, now, a))
    ensures ok(Complete(d, now, a).0)
  {
  }

  predicate PhonesReady(d: Desk, c: Challenge, a: Application) {
    c.status == Pending && c.phone == Some(a.phone) && c.emailVerifiedAt != 0 && c.phoneVerifiedAt != 0
      && !PhoneTaken(d, a.phone)
  }

  function Completed(d: Desk, k: nat, now: int, a: Application): Desk
    requires k < |d.challenges|
  {
    Desk(Set(d.challenges, k, Consume(d.challenges[k].value, now, a)),
         Put(d.identities, a.email, Identity(a.user, true, Some(a.phone))), d.next)
  }

  lemma CompletedMoves(d: Desk, now: int, limits: Limits, a: Application, k: nat)
    requires DeskInv(d, limits) && k < |d.challenges| && First(d.challenges, WithKey(a.key)) == |d.challenges|
    requires PhonesReady(d, d.challenges[k].value, a)
    ensures Moves(d, Completed(d, k, now, a), limits)
  {
    ConsumeKeeps(d, now, limits, a, k);
    IdentityKeeps(d.identities, a.email, Identity(a.user, true, Some(a.phone)));
  }

  lemma RefusalOptions(d: Desk, now: int, limits: Limits, k: nat)
    requires DeskInv(d, limits)
    ensures Allowed(d, limits)(d)
    ensures k < |d.challenges| && Refusal(d.challenges[k].value, now).Some?
            ==> Allowed(d, limits)(With(d, k,
                                        AfterRefusal(d.challenges[k].value, Refusal(d.challenges[k].value, now).value)))
  {
    MovesSelf(d, limits);
    if k < |d.challenges| && Refusal(d.challenges[k].value, now).Some? {
      RefusalMoves(d, limits, k, now);
    }
  }

  lemma CompleteOptions(d: Desk, now: int, limits: Limits, a: Application, k: nat)
    requires DeskInv(d, limits)
    ensures k < |d.challenges| && First(d.challenges, WithKey(a.key)) == |d.challenges|
            && PhonesReady(d, d.challenges[k].value, a)
            ==> Allowed(d, limits)(Completed(d, k, now, a))
  {
    if k < |d.challenges| && First(d.challenges, WithKey(a.key)) == |d.challenges|
       && PhonesReady(d, d.challenges[k].value, a) {
      CompletedMoves(d, now, limits, a, k);
    }
  }

  lemma CompleteKeeps(d: Desk, now: int, limits: Limits, a: Application)
    requires DeskInv(d, limits)
    ensures Moves(d, Complete(d, now, a).0, limits)
  {
    var k := IndexOf(d.challenges, a.id);
    RefusalOptions(d, now, limits, k);
    CompleteOptions(d, now, limits, a, k);
    CompleteCases(d, now, a, k, Allowed(d, limits));
  }

  /** The desks a step may lead to. */
  ghost function Allowed(d: Desk, limits: Limits): Desk -> bool {
    (x: Desk) => Moves(d, x, limits)
  }

  lemma EnrolKeeps(d: Desk, limits: Limits, email: string, user: string, hasPassword: bool)
    requires DeskInv(d, limits)
    ensures Moves(d, Enrol(d, email, user, hasPassword), limits)
  {
    EvolvesSelf(d.challenges, d.next);
    var current := Get(d.identities, email);
    if current.None? {
      IdentityKeeps(d.identities, email, Identity(user, hasPassword, None));
    } else if hasPassword && !current.value.hasPassword {
      IdentityKeeps(d.identities, email, current.value.(hasPassword := true));
    }
  }

  // ---- Cleanup ----

  /** What cleaning leaves of a record. */
  predicate Cleaned(e: Entry<Challenge>, o: Entry<Challenge>, now: int) {
    o.key == e.key
      && (o == e || (e.value.status == Pending && e.value.expiresAt <= now && o.value == Close(e.value, Superseded)))
  }

  lemma {:induction false} CleanSource(m: Dict<Challenge>, now: int, budget: nat, j: nat) returns (i: nat)
    requires j < |Clean(m, now, budget).0|
    ensures i < |m| && Cleaned(m[i], Clean(m, now, budget).0[j], now)
  {
    var r := Clean(m, now, budget).0;
    if budget == 0 || m == [] {
      i := j;
    } else {
      var c := m[0].value;
      if c.status == Pending && c.expiresAt <= now {
        if j == 0 { i := 0; } else { var h := CleanSource(m[1..], now, budget - 1, j - 1); i := h + 1; }
      } else if Forgotten(c, now) {
        var h := CleanSource(m[1..], now, budget - 1, j);
        i := h + 1;
      } else {
        if j == 0 { i := 0; } else { var h := CleanSource(m[1..], now, budget, j - 1); i := h + 1; }
      }
    }
  }

  /** Cleaning goes through the map in order, so a later record comes from a later one. */
  lemma {:induction false} CleanKeeps(m: Dict<Challenge>, now: int, budget: nat, limits: Limits, next: nat)
    requires ChallengesInv(m, limits, next)
    ensures var r := Clean(m, now, budget).0; ChallengesInv(r, limits, next) && Evolves(m, r, next)
  {
    var r := Clean(m, now, budget).0;
    if budget == 0 || m == [] {
      EvolvesSelf(m, next);
    } else {
      var c := m[0].value;
      TailInv(m, limits, next);
      var closes := c.status == Pending && c.expiresAt <= now;
      var left := if closes || Forgotten(c, now) then budget - 1 else budget;
      CleanKeeps(m[1..], now, left, limits, next);
      var rest := Clean(m[1..], now, left).0;
      if closes || !Forgotten(c, now) {
        HeadKeeps(m, now, left, limits, next, if closes then Close(c, Superseded) else c);
        assert r == [Entry(m[0].key, if closes then Close(c, Superseded) else c)] + rest;
      }
      forall j | 0 <= j < |r| ensures ComesFrom(m, r[j].value) {
        var i := CleanSource(m, now, budget, j);
        assert Later(m[i].value, r[j].value);
      }
    }
  }

  lemma TailInv(m: Dict<Challenge>, limits: Limits, next: nat)
    requires ChallengesInv(m, limits, next) && m != []
    ensures ChallengesInv(m[1..], limits, next)
  {
  }

  lemma HeadKeeps(m: Dict<Challenge>, now: int, left: nat, limits: Limits, next: nat, c: Challenge)
    requires m != [] && ChallengesInv(m, limits, next) && Tame(m[0].value, c) && Good(c, limits)
    requires ChallengesInv(Clean(m[1..], now, left).0, limits, next)
    ensures ChallengesInv([Entry(m[0].key, c)] + Clean(m[1..], now, left).0, limits, next)
  {
    var rest := Clean(m[1..], now, left).0;
    forall j | 0 <= j < |rest| ensures rest[j].key != m[0].key && !Clash(c, rest[j].value) {
      var i := CleanSource(m[1..], now, left, j);
      assert !Clash(m[0].value, m[i + 1].value);
    }
  }

  // ---- Every step, every run ----

  lemma StepMoves(d: Desk, limits: Limits, now: int, op: Op)
    requires DeskInv(d, limits) && Usable(limits)
    ensures Moves(d, Step(d, limits, now, op), limits)
  {
    match op
    case StartEmailOp(s) => StartEmailKeeps(d, now, limits, s);
    case VerifyEmailOp(id, email, code) => VerifyKeeps(d, now, limits, id, email, "", code);
    case StartPhoneOp(s) => StartPhoneKeeps(d, now, limits, s);
    case VerifyPhoneOp(id, email, phone, code) => VerifyKeeps(d, now, limits, id, email, phone, code);
    case InvalidateOp(id, onEmail, code) => InvalidateKeeps(d, limits, id, onEmail, code);
    case CompleteOp(a) => CompleteKeeps(d, now, limits, a);
    case CleanupOp(limit) => CleanKeeps(d.challenges, now, CleanLimit(limit), limits, d.next);
    case EnrolOp(email, user, hasPassword) => EnrolKeeps(d, limits, email, user, hasPassword);
  }

  lemma {:induction false} RunMoves(d: Desk, limits: Limits, calls: seq<Call>)
    requires DeskInv(d, limits) && Usable(limits)
    ensures Moves(d, Run(d, limits, calls), limits)
    decreases |calls|
  {
    if calls == [] {
      EvolvesSelf(d.challenges, d.next);
    } else {
      var d1 := Step(d, limits, calls[0].now, calls[0].op);
      StepMoves(d, limits, calls[0].now, calls[0].op);
      RunMoves(d1, limits, calls[1..]);
      EvolvesOn(d.challenges, d1.challenges, Run(d, limits, calls).challenges, d.next, d1.next);
    }
  }
}

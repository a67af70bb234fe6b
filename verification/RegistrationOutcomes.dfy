/** What each registration call answers and changes, told by the records as they stand, the codes they
    store, the moment of the call and what it carries. */
module RegistrationOutcomes {
  import opened Common
  import opened JsMap
  import opened Registration
  import opened RegistrationSafety

  // ---- The terms ----

  predicate Live(c: Challenge, now: int) {
    c.status == Pending && now < c.expiresAt
  }

  /** The record at k is what the email is waiting on. */
  predicate Awaits(d: Desk, k: nat, email: string) {
    k < |d.challenges| && d.challenges[k].value.status == Pending && d.challenges[k].value.email == email
  }

  /** The challenge that a call names by id and email, with its place. */
  predicate Names(d: Desk, k: nat, id: string, email: string) {
    k < |d.challenges| && d.challenges[k] == Entry(id, d.challenges[k].value) && d.challenges[k].value.email == email
  }

  /** One record of the desk is changed, in its place. */
  predicate Changes(d: Desk, d': Desk, k: nat, c: Challenge) {
    k < |d.challenges| && d' == Desk(d.challenges[k := Entry(d.challenges[k].key, c)], d.identities, d.next)
  }

  /** A record that is over: its status, and no code left. */
  function Ended(c: Challenge, status: Status): Challenge {
    c.(status := status, emailCode := None, phoneCode := None)
  }

  /** The record after one more wrong guess, which closes it once the limit is reached. */
  function Missed(c: Challenge, limits: Limits): Challenge {
    if c.failed + 1 < limits.maxFailures then c.(failed := c.failed + 1)
    else c.(failed := c.failed + 1, status := Locked, emailCode := None, phoneCode := None)
  }

  /** How a challenge that is not live answers: what it is closed as, and why. */
  function NotLive(c: Challenge): (Challenge, Error) {
    match c.status
    case Consumed => (c, ChallengeConsumed)
    case Locked => (c, ChallengeLocked)
    case _ => (Ended(c, Superseded), ChallengeExpired)
  }

  // ---- The email code goes out ----

  /** An email code goes out exactly when the email has no account and what it waits on, if anything,
      has run out or is unverified, past its resend time and within the number of sends. */
  lemma EmailCodeGoesOutIff(d: Desk, now: int, limits: Limits, s: EmailStart)
    requires DeskInv(d, limits)
    ensures StartEmail(d, now, limits, s).1.Ok? <==>
            && !Has(d.identities, s.email)
            && forall k: nat | Awaits(d, k, s.email) ::
                 var c := d.challenges[k].value;
                 now < c.expiresAt ==>
                   c.emailVerifiedAt == 0 && c.emailResendAt <= now && c.emailSends < limits.maxSends
  {
    var k := First(d.challenges, PendingFor(s.email));
    if k < |d.challenges| {
      assert Awaits(d, k, s.email);
      forall i: nat | Awaits(d, i, s.email) ensures i == k {
        ApartAt(d.challenges, i, k);
      }
    } else {
      forall i: nat ensures !Awaits(d, i, s.email) {
        assert i < |d.challenges| ==> !PendingFor(s.email)(d.challenges[i].value);
      }
    }
  }

  /** Before its resend time nothing goes out and nothing changes. */
  lemma NoCodeBeforeResendTime(d: Desk, now: int, limits: Limits, s: EmailStart, k: nat)
    requires DeskInv(d, limits) && Awaits(d, k, s.email)
    requires now < d.challenges[k].value.expiresAt && now < d.challenges[k].value.emailResendAt
    ensures StartEmail(d, now, limits, s).0 == d && StartEmail(d, now, limits, s).1.Err?
    ensures !Has(d.identities, s.email) && d.challenges[k].value.emailVerifiedAt == 0
            ==> StartEmail(d, now, limits, s).1 == Err(RateLimited)
  {
    WaitsOnOne(d, limits, s.email, k);
  }

  lemma WaitsOnOne(d: Desk, limits: Limits, email: string, k: nat)
    requires DeskInv(d, limits) && Awaits(d, k, email)
    ensures First(d.challenges, PendingFor(email)) == k
  {
    var i := First(d.challenges, PendingFor(email));
    assert PendingFor(email)(d.challenges[k].value);
    ApartAt(d.challenges, i, k);
  }

  /** Every other answer when the email waits on a record: accounts first, a verified email, the resend
      time, and at the limit of sends the record is locked. */
  lemma EmailStartRefusals(d: Desk, now: int, limits: Limits, s: EmailStart, k: nat)
    requires DeskInv(d, limits) && Awaits(d, k, s.email) && now < d.challenges[k].value.expiresAt
    ensures var (d', r) := StartEmail(d, now, limits, s);
            var c := d.challenges[k].value;
            var account := Get(d.identities, s.email);
            var refused := Checks(None)
                .Then(account.Some? && account.value.hasPassword, EmailRegistered)
                .Then(account.Some?, LegacyMigrationRequired)
                .Then(c.emailVerifiedAt != 0, EmailAlreadyVerified)
                .Then(now < c.emailResendAt, RateLimited)
                .Then(limits.maxSends <= c.emailSends, ChallengeLocked).found;
            && (refused.Some? ==> r == Err(refused.value))
            && (refused.Some? && refused != Some(ChallengeLocked) ==> d' == d)
            && (refused == Some(ChallengeLocked) ==> Changes(d, d', k, Ended(c, Locked)))
            && (refused.None? ==> r == Ok(s.id))
  {
    WaitsOnOne(d, limits, s.email, k);
  }

  /** A code that goes out again keeps the record, with its wrong guesses and its phone; what is new is
      the code, the count of sends and the times, under the id of this call. */
  lemma CodeGoesOutAgain(d: Desk, now: int, limits: Limits, s: EmailStart, k: nat)
    requires DeskInv(d, limits) && Awaits(d, k, s.email) && now < d.challenges[k].value.expiresAt
    requires StartEmail(d, now, limits, s).1.Ok?
    ensures var d', c := StartEmail(d, now, limits, s).0, d.challenges[k].value;
            && Get(d'.challenges, s.id)
               == Some(c.(emailCode := Some(s.code), emailSends := c.emailSends + 1, emailResendAt := s.resendAfter,
                          expiresAt := s.expiresAt))
            && (d.challenges[k].key != s.id ==> !Has(d'.challenges, d.challenges[k].key))
            && (forall id | id != s.id && id != d.challenges[k].key :: Get(d'.challenges, id) == Get(d.challenges, id))
            && d'.identities == d.identities && d'.next == d.next
  {
    WaitsOnOne(d, limits, s.email, k);
    var m, key := d.challenges, d.challenges[k].key;
    var c := Resent(m[k].value, s);
    assert IndexOf(m, key) == k by {
      IndexOfUnique(m, k);
    }
    if key == s.id {
      assert Set(m, k, c) == Put(m, s.id, c);
      forall id ensures Get(Set(m, k, c), id) == if id == s.id then Some(c) else Get(m, id) {
        GetPut(m, s.id, c, id);
      }
    } else {
      var rest := Delete(m, k);
      forall id ensures Get(Put(rest, s.id, c), id) == if id == s.id then Some(c) else Get(rest, id) {
        GetPut(rest, s.id, c, id);
      }
      forall id ensures Get(rest, id) == if id == key then None else Get(m, id) {
        GetDelete(m, k, id);
      }
    }
  }

  lemma GetDelete<V>(m: Dict<V>, k: nat, id: string)
    requires Distinct(m) && k < |m|
    ensures Get(Delete(m, k), id) == if id == m[k].key then None else Get(m, id)
  {
    var rest, i, j := Delete(m, k), IndexOf(m, id), IndexOf(Delete(m, k), id);
    if id == m[k].key {
      assert forall h | 0 <= h < |rest| :: rest[h].key != id;
    } else if i < |m| {
      var h := if i < k then i else i - 1;
      assert rest[h] == m[i];
      assert Distinct(rest);
      IndexOfUnique(rest, h);
    } else {
      assert forall h | 0 <= h < |rest| :: rest[h].key != id;
    }
  }

  /** A first code, and one after the last challenge ran out, starts a new record with nothing verified
      and nothing guessed; what ran out is closed. */
  lemma FirstCodeStartsARecord(d: Desk, now: int, limits: Limits, s: EmailStart)
    requires DeskInv(d, limits) && StartEmail(d, now, limits, s).1.Ok?
    requires forall k: nat | Awaits(d, k, s.email) :: d.challenges[k].value.expiresAt <= now
    ensures var d' := StartEmail(d, now, limits, s).0;
            && Get(d'.challenges, s.id)
               == Some(Challenge(d.next, s.email, None, Some(s.code), None, Pending, 0, 1, 0, 0, 0, s.resendAfter, 0,
                                 s.expiresAt, None, None, None, None))
            && d'.next == d.next + 1 && d'.identities == d.identities
            && forall id | id != s.id ::
                 Get(d'.challenges, id)
                 == match Get(d.challenges, id)
                    case Some(c) =>
                      if c.status == Pending && c.email == s.email then Some(Ended(c, Superseded)) else Some(c)
                    case None => None
  {
    var m, k := d.challenges, First(d.challenges, PendingFor(s.email));
    var closed := if k < |m| then Set(m, k, Close(m[k].value, Superseded)) else m;
    if k < |m| {
      assert Awaits(d, k, s.email);
    }
    forall id
      ensures Get(closed, id) == match Get(m, id)
                                 case Some(c) => if c.status == Pending && c.email == s.email
                                                 then Some(Ended(c, Superseded)) else Some(c)
                                 case None => None
    {
      ClosedAt(d, limits, s.email, k, id);
    }
    forall id ensures Get(Put(closed, s.id, NewChallenge(d.next, s)), id)
                      == if id == s.id then Some(NewChallenge(d.next, s)) else Get(closed, id)
    {
      GetPut(closed, s.id, NewChallenge(d.next, s), id);
    }
  }

  lemma ClosedAt(d: Desk, limits: Limits, email: string, k: nat, id: string)
    requires DeskInv(d, limits) && k == First(d.challenges, PendingFor(email))
    ensures var m := d.challenges;
            var closed := if k < |m| then Set(m, k, Close(m[k].value, Superseded)) else m;
            Get(closed, id) == match Get(m, id)
                               case Some(c) =>
                                 if c.status == Pending && c.email == email then Some(Ended(c, Superseded)) else Some(c)
                               case None => None
  {
    var m, i := d.challenges, IndexOf(d.challenges, id);
    if k < |m| {
      var closed := Set(m, k, Close(m[k].value, Superseded));
      GetPut(m, m[k].key, Close(m[k].value, Superseded), id);
      IndexOfUnique(m, k);
      assert Put(m, m[k].key, Close(m[k].value, Superseded)) == closed;
      if i < |m| && Awaits(d, i, email) {
        WaitsOnOne(d, limits, email, i);
      }
    } else if i < |m| {
      assert !PendingFor(email)(m[i].value);
    }
  }

  // ---- The email code comes back ----

  /** A live email is verified exactly by the code that is stored; any other code counts as a wrong
      guess, and the guess that reaches the limit locks. */
  lemma EmailVerifiedIffCode(d: Desk, now: int, limits: Limits, id: string, email: string, code: string, k: nat)
    requires DeskInv(d, limits) && Names(d, k, id, email)
    requires Live(d.challenges[k].value, now) && d.challenges[k].value.emailVerifiedAt == 0
    ensures var (d', r) := VerifyEmail(d, now, limits, id, email, code);
            var c := d.challenges[k].value;
            && (r.Ok? <==> c.emailCode == Some(code))
            && (r.Ok? ==> Changes(d, d', k, c.(emailVerifiedAt := now, emailCode := None)))
            && (r.Err? ==>
                  && Changes(d, d', k, Missed(c, limits))
                  && r.error == if c.failed + 1 < limits.maxFailures then InvalidCode else ChallengeLocked)
  {
    IndexOfUnique(d.challenges, k);
  }

  /** Every other answer: an unknown challenge, one that is not live, and a verified email, on which
      no code counts any more. */
  lemma EmailVerificationElse(d: Desk, now: int, limits: Limits, id: string, email: string, code: string, k: nat)
    requires DeskInv(d, limits)
    ensures var (d', r) := VerifyEmail(d, now, limits, id, email, code);
            && ((forall i: nat :: !Names(d, i, id, email)) ==> d' == d && r == Err(InvalidChallenge))
            && (Names(d, k, id, email) && !Live(d.challenges[k].value, now) ==>
                  && Changes(d, d', k, NotLive(d.challenges[k].value).0)
                  && r == Err(NotLive(d.challenges[k].value).1))
            && (Names(d, k, id, email) && Live(d.challenges[k].value, now) && d.challenges[k].value.emailVerifiedAt != 0
                ==> d' == d && r == Ok(()))
  {
    NamedIsFound(d, limits, id, email, k);
  }

  lemma NamedIsFound(d: Desk, limits: Limits, id: string, email: string, k: nat)
    requires DeskInv(d, limits)
    ensures Names(d, k, id, email) ==> IndexOf(d.challenges, id) == k
    ensures (forall i: nat :: !Names(d, i, id, email)) ==>
              var i := IndexOf(d.challenges, id); i == |d.challenges| || d.challenges[i].value.email != email
    ensures k < |d.challenges| ==> d.challenges[k := Entry(d.challenges[k].key, d.challenges[k].value)] == d.challenges
  {
    if Names(d, k, id, email) {
      IndexOfUnique(d.challenges, k);
    }
    var i := IndexOf(d.challenges, id);
    assert i < |d.challenges| && d.challenges[i].value.email == email ==> Names(d, i, id, email);
  }

  // ---- The phone code goes out ----

  /** Another live challenge is waiting on the phone. */
  ghost predicate PhoneAwaited(d: Desk, id: string, phone: string, now: int) {
    exists j | 0 <= j < |d.challenges| :: AwaitsPhone(d.challenges[j], id, phone, now)
  }

  predicate AwaitsPhone(e: Entry<Challenge>, id: string, phone: string, now: int) {
    e.key != id && Live(e.value, now) && e.value.phone == Some(phone)
  }

  ghost predicate PhoneHasAccount(d: Desk, phone: string) {
    exists j | 0 <= j < |d.identities| :: d.identities[j].value.phone == Some(phone)
  }

  /** The grounds on which a live challenge gets no phone code, in the order in which they answer. */
  ghost function PhoneChecks(d: Desk, now: int, limits: Limits, s: PhoneStart, c: Challenge): Checks<Error> {
    Checks(None)
    .Then(c.emailVerifiedAt == 0, EmailVerificationRequired)
    .Then(c.phone.Some? && c.phone != Some(s.phone), PhoneMismatch)
    .Then(PhoneHasAccount(d, s.phone), PhoneRegistered)
    .Then(PhoneAwaited(d, s.id, s.phone, now), PhonePending)
    .Then(c.phoneVerifiedAt != 0, PhoneAlreadyVerified)
    .Then(c.phoneSends > 0 && c.phoneResendAt != 0 && now < c.phoneResendAt, RateLimited)
    .Then(limits.maxSends <= c.phoneSends, ChallengeLocked)
  }

  /** A phone code goes out exactly when nothing speaks against it; the record then has phone, code,
      one more send and the new times. At the limit of sends it is locked, and else it stays. */
  lemma PhoneCodeGoesOutIff(d: Desk, now: int, limits: Limits, s: PhoneStart, k: nat)
    requires DeskInv(d, limits) && Names(d, k, s.id, s.email) && Live(d.challenges[k].value, now)
    ensures var (d', r) := StartPhone(d, now, limits, s);
            var c := d.challenges[k].value;
            var refused := PhoneChecks(d, now, limits, s, c).found;
            && r == (if refused.Some? then Err(refused.value) else Ok(s.id))
            && |d'.challenges| == |d.challenges|
            && d'.challenges[k]
               == Entry(s.id, if refused.None? then
                                c.(phone := Some(s.phone), phoneCode := Some(s.code), phoneSends := c.phoneSends + 1,
                                   phoneResendAt := s.resendAfter, expiresAt := s.expiresAt)
                              else if refused == Some(ChallengeLocked) then Ended(c, Locked) else c)
  {
    IndexOfUnique(d.challenges, k);
    CloseStaleAt(d.challenges, s.id, s.phone, now);
    TakenMeansAccount(d, s.phone);
    RivalMeansAwaited(d, s, now, CloseStale(d.challenges, s.id, s.phone, now));
  }

  /** On the way, exactly the challenges of the same phone that ran out are closed, once nothing before
      that refuses; no other record, and no account, is touched. */
  lemma PhoneStartElsewhere(d: Desk, now: int, limits: Limits, s: PhoneStart, k: nat, j: nat)
    requires DeskInv(d, limits) && Names(d, k, s.id, s.email) && Live(d.challenges[k].value, now)
    requires j < |d.challenges| && j != k
    ensures var d', c, o := StartPhone(d, now, limits, s).0, d.challenges[k].value, d.challenges[j].value;
            var swept := c.emailVerifiedAt != 0 && (c.phone.None? || c.phone == Some(s.phone))
                         && !PhoneHasAccount(d, s.phone);
            && d'.identities == d.identities && d'.next == d.next && |d'.challenges| == |d.challenges|
            && d'.challenges[j]
               == if swept && o.status == Pending && o.phone == Some(s.phone) && o.expiresAt <= now then
                    Entry(d.challenges[j].key, Ended(o, Superseded))
                  else d.challenges[j]
  {
    IndexOfUnique(d.challenges, k);
    CloseStaleAt(d.challenges, s.id, s.phone, now);
    TakenMeansAccount(d, s.phone);
  }

  lemma PhoneStartNotLive(d: Desk, now: int, limits: Limits, s: PhoneStart, k: nat)
    requires DeskInv(d, limits)
    ensures var (d', r) := StartPhone(d, now, limits, s);
            && ((forall i: nat :: !Names(d, i, s.id, s.email)) ==> d' == d && r == Err(InvalidChallenge))
            && (Names(d, k, s.id, s.email) && !Live(d.challenges[k].value, now) ==>
                  && Changes(d, d', k, NotLive(d.challenges[k].value).0)
                  && r == Err(NotLive(d.challenges[k].value).1))
  {
    NamedIsFound(d, limits, s.id, s.email, k);
  }

  lemma TakenMeansAccount(d: Desk, phone: string)
    ensures PhoneTaken(d, phone) <==> PhoneHasAccount(d, phone)
  {
    var i := First(d.identities, WithPhone(phone));
    if i < |d.identities| {
      assert d.identities[i].value.phone == Some(phone);
    } else {
      assert forall j | 0 <= j < |d.identities| :: !WithPhone(phone)(d.identities[j].value);
    }
  }

  ghost predicate HasRival(m: Dict<Challenge>, s: PhoneStart, now: int) {
    exists j | 0 <= j < |m| :: Rival(m[j], s.id, s.phone, now)
  }

  lemma RivalMeansAwaited(d: Desk, s: PhoneStart, now: int, m: Dict<Challenge>)
    requires m == CloseStale(d.challenges, s.id, s.phone, now)
    ensures HasRival(m, s, now) <==> PhoneAwaited(d, s.id, s.phone, now)
  {
    CloseStaleAt(d.challenges, s.id, s.phone, now);
    forall j | 0 <= j < |m|
      ensures Rival(m[j], s.id, s.phone, now) <==> AwaitsPhone(d.challenges[j], s.id, s.phone, now)
    {
      assert m[j] == CloseIfStale(d.challenges[j], s.id, s.phone, now);
    }
    if PhoneAwaited(d, s.id, s.phone, now) {
      var j :| 0 <= j < |d.challenges| && AwaitsPhone(d.challenges[j], s.id, s.phone, now);
      assert Rival(m[j], s.id, s.phone, now);
    }
  }

  // ---- The phone code comes back ----

  /** A live phone, its email verified, is verified exactly by the code that is stored. */
  lemma PhoneVerifiedIffCode(d: Desk, now: int, limits: Limits, id: string, email: string, phone: string, code: string,
                             k: nat)
    requires DeskInv(d, limits) && Names(d, k, id, email) && d.challenges[k].value.phone == Some(phone)
    requires Live(d.challenges[k].value, now) && d.challenges[k].value.phoneVerifiedAt == 0
    ensures var (d', r) := VerifyPhone(d, now, limits, id, email, phone, code);
            var c := d.challenges[k].value;
            if c.emailVerifiedAt == 0 then d' == d && r == Err(EmailVerificationRequired)
            else
              && (r.Ok? <==> c.phoneCode == Some(code))
              && (r.Ok? ==> Changes(d, d', k, c.(phoneVerifiedAt := now, phoneCode := None)))
              && (r.Err? ==>
                    && Changes(d, d', k, Missed(c, limits))
                    && r.error == if c.failed + 1 < limits.maxFailures then InvalidCode else ChallengeLocked)
  {
    IndexOfUnique(d.challenges, k);
    NamedIsFound(d, limits, id, email, k);
  }

  lemma PhoneVerificationElse(d: Desk, now: int, limits: Limits, id: string, email: string, phone: string,
                              code: string, k: nat)
    requires DeskInv(d, limits)
    ensures var (d', r) := VerifyPhone(d, now, limits, id, email, phone, code);
            && ((forall i: nat :: !Names(d, i, id, email)) ==> d' == d && r == Err(InvalidChallenge))
            && (Names(d, k, id, email) ==>
                  var c := d.challenges[k].value;
                  && (c.phone != Some(phone) ==> d' == d && r == Err(InvalidChallenge))
                  && (c.phone == Some(phone) && !Live(c, now)
                      ==> Changes(d, d', k, NotLive(c).0) && r == Err(NotLive(c).1))
                  && (c.phone == Some(phone) && Live(c, now) && c.emailVerifiedAt != 0 && c.phoneVerifiedAt != 0
                      ==> d' == d && r == Ok(())))
  {
    NamedIsFound(d, limits, id, email, k);
  }

  // ---- Ready, completed, withdrawn ----

  /** A challenge is ready exactly while it is live with both channels verified. */
  lemma ReadyIff(d: Desk, limits: Limits, now: int, id: string, email: string, phone: string, k: nat)
    requires DeskInv(d, limits)
    ensures var r := AssertVerified(d, now, id, email, phone);
            && ((forall i: nat :: !Names(d, i, id, email)) ==> r == Err(InvalidChallenge))
            && (Names(d, k, id, email) ==>
                  var c := d.challenges[k].value;
                  var refused := Checks(None)
                      .Then(c.phone != Some(phone), InvalidChallenge)
                      .Then(c.status == Locked, ChallengeLocked)
                      .Then(c.status != Consumed && !Live(c, now), ChallengeExpired)
                      .Then(c.status != Consumed && (c.emailVerifiedAt == 0 || c.phoneVerifiedAt == 0),
                            VerificationRequired).found;
                  r == if refused.Some? then Err(refused.value)
                       else Ok(if c.status == Consumed then WasConsumed else IsReady))
  {
    NamedIsFound(d, limits, id, email, k);
  }

  /** A completion that creates gives the email an account with a password and the phone, uses the
      challenge up and remembers key, data and account for a day; it touches nothing else. */
  lemma CreationChanges(d: Desk, limits: Limits, now: int, a: Application)
    requires DeskInv(d, limits) && Complete(d, now, a).1.Ok? && Complete(d, now, a).1.value.created
    ensures var (d', r) := Complete(d, now, a);
            var k, account := IndexOf(d.challenges, a.id), Identity(a.user, true, Some(a.phone));
            && r.value.identity == account
            && k < |d.challenges| && d'.next == d.next
            && d'.challenges
               == d.challenges[k := Entry(a.id, Ended(d.challenges[k].value, Consumed).(
                                            key := Some(a.key), fingerprint := Some(a.fingerprint),
                                            identity := Some(account), replayUntil := Some(now + 86_400_000)))]
            && forall email ::
                 Get(d'.identities, email) == if email == a.email then Some(account) else Get(d.identities, email)
  {
    forall email ensures Get(Put(d.identities, a.email, Identity(a.user, true, Some(a.phone))), email)
                         == if email == a.email then Some(Identity(a.user, true, Some(a.phone)))
                            else Get(d.identities, email)
    {
      GetPut(d.identities, a.email, Identity(a.user, true, Some(a.phone)), email);
    }
  }

  /** Any other completion leaves the desk as it is, except that a challenge that ran out is closed. */
  lemma RefusedCompletion(d: Desk, limits: Limits, now: int, a: Application)
    requires DeskInv(d, limits)
    requires !(Complete(d, now, a).1.Ok? && Complete(d, now, a).1.value.created)
    ensures var (d', r) := Complete(d, now, a);
            var k := IndexOf(d.challenges, a.id);
            if r == Err(ChallengeExpired) then
              k < |d.challenges| && !Live(d.challenges[k].value, now)
              && d.challenges[k].value.status in {Pending, Superseded}
              && Changes(d, d', k, Ended(d.challenges[k].value, Superseded))
            else d' == d
  {
    NamedIsFound(d, limits, a.id, a.email, IndexOf(d.challenges, a.id));
  }

  /** The first ground on which a completion under a key not stored is refused. */
  lemma CompletionAnswers(d: Desk, limits: Limits, now: int, a: Application, k: nat)
    requires DeskInv(d, limits) && Names(d, k, a.id, a.email)
    requires forall i | 0 <= i < |d.challenges| :: d.challenges[i].value.key != Some(a.key)
    ensures var c, account := d.challenges[k].value, Get(d.identities, a.email);
            var refused := Checks(None)
                .Then(c.phone != Some(a.phone), InvalidChallenge)
                .Then(!Live(c, now), NotLive(c).1)
                .Then(c.emailVerifiedAt == 0 || c.phoneVerifiedAt == 0, VerificationRequired)
                .Then(a.principalEmail != a.email, PrincipalMismatch)
                .Then(account.Some? && account.value.hasPassword, EmailRegistered)
                .Then(PhoneHasAccount(d, a.phone), PhoneRegistered)
                .Then(!a.inviteValid, InvalidInvite).found;
            Complete(d, now, a).1 == if refused.Some? then Err(refused.value)
                                     else Ok(Outcome(Identity(a.user, true, Some(a.phone)), true))
  {
    NamedIsFound(d, limits, a.id, a.email, k);
    TakenMeansAccount(d, a.phone);
    NoneCarries(d, a.key);
  }

  lemma NoneCarries(d: Desk, key: string)
    requires forall i | 0 <= i < |d.challenges| :: d.challenges[i].value.key != Some(key)
    ensures First(d.challenges, WithKey(key)) == |d.challenges|
  {
  }

  /** A code that could not be delivered is withdrawn exactly while it is the one that counts: with an
      email code the challenge is closed, with a phone code only the code goes. */
  lemma WithdrawnIffStored(d: Desk, limits: Limits, id: string, onEmail: bool, code: string, k: nat)
    requires DeskInv(d, limits) && k < |d.challenges| && d.challenges[k].key == id
    ensures var d', c := InvalidateCode(d, id, onEmail, code), d.challenges[k].value;
            if c.status == Pending && (if onEmail then c.emailCode else c.phoneCode) == Some(code) then
              Changes(d, d', k, if onEmail then Ended(c, Superseded) else c.(phoneCode := None, phoneVerifiedAt := 0))
            else d' == d
  {
    IndexOfUnique(d.challenges, k);
  }

  // ---- Cleanup ----

  datatype Fate = Stays | Closes | Goes

  /** What a cleanup does to a record it reaches: one that waited too long is closed, one that was used
      goes when its day of replays is over, one that was closed goes a day after it ran out. */
  function FateOf(c: Challenge, now: int): Fate {
    match c.status
    case Pending => if c.expiresAt <= now then Closes else Stays
    case Consumed => if c.replayUntil.Some? && c.replayUntil.value <= now then Goes else Stays
    case _ => if c.expiresAt + 86_400_000 <= now then Goes else Stays
  }

  function Count(m: Dict<Challenge>, now: int): nat {
    if m == [] then 0 else (if FateOf(m[0].value, now) == Stays then 0 else 1) + Count(m[1..], now)
  }

  /** What is left of a record after its fate. */
  function Handled(e: Entry<Challenge>, now: int): Dict<Challenge> {
    match FateOf(e.value, now)
    case Stays => [e]
    case Closes => [Entry(e.key, Ended(e.value, Superseded))]
    case Goes => []
  }

  /** The records after each has met its fate. */
  function Fated(m: Dict<Challenge>, now: int): Dict<Challenge> {
    if m == [] then [] else Handled(m[0], now) + Fated(m[1..], now)
  }

  /** A cleanup handles records in order up to its limit, at most a thousand, counts them, and leaves
      everything behind the last one alone. */
  lemma CleanupHandles(d: Desk, now: int, limit: int) returns (p: nat)
    ensures var (d', n) := Cleanup(d, now, limit);
            var bound := if limit < 1 then 1 else if limit > 1000 then 1000 else limit;
            && p <= |d.challenges| && d' == d.(challenges := Fated(d.challenges[..p], now) + d.challenges[p..])
            && n == Count(d.challenges[..p], now) <= bound && (n < bound ==> p == |d.challenges|)
  {
    p := CleanHandles(d.challenges, now, CleanLimit(limit));
  }

  lemma {:induction false} CleanHandles(m: Dict<Challenge>, now: int, budget: nat) returns (p: nat)
    ensures var (r, n) := Clean(m, now, budget);
            && p <= |m| && r == Fated(m[..p], now) + m[p..]
            && n == Count(m[..p], now) <= budget && (n < budget ==> p == |m|)
  {
    if budget == 0 || m == [] {
      p := 0;
      assert m[..0] == [];
    } else {
      var left := if FateOf(m[0].value, now) == Stays then budget else budget - 1;
      var q := CleanHandles(m[1..], now, left);
      p := q + 1;
      var front, rest := m[1..][..q], m[1..][q..];
      assert m[..p] == [m[0]] + front && m[p..] == rest;
      CleanUnfold(m, now, budget, left);
      FatedUnfold(m, m[..p], front, now);
      Joined(Handled(m[0], now), Fated(front, now), rest);
    }
  }

  lemma Joined(a: Dict<Challenge>, b: Dict<Challenge>, c: Dict<Challenge>)
    ensures a + (b + c) == a + b + c
  {
  }

  /** One record of a cleanup. */
  lemma CleanUnfold(m: Dict<Challenge>, now: int, budget: nat, left: nat)
    requires budget > 0 && m != [] && left == if FateOf(m[0].value, now) == Stays then budget else budget - 1
    ensures Clean(m, now, budget).0 == Handled(m[0], now) + Clean(m[1..], now, left).0
    ensures Clean(m, now, budget).1
            == Clean(m[1..], now, left).1 + if FateOf(m[0].value, now) == Stays then 0 else 1
  {
  }

  lemma FatedUnfold(m: Dict<Challenge>, front: Dict<Challenge>, rest: Dict<Challenge>, now: int)
    requires m != [] && front == [m[0]] + rest
    ensures Fated(front, now) == Handled(m[0], now) + Fated(rest, now)
    ensures Count(front, now) == Count(rest, now) + if FateOf(m[0].value, now) == Stays then 0 else 1
  {
    assert front[1..] == rest;
  }

  /** Another sign-up route gives an account to an email without one, and a password to an account
      without one; it never takes either away. */
  lemma EnrolmentGives(d: Desk, email: string, user: string, hasPassword: bool, other: string)
    ensures var d', before := Enrol(d, email, user, hasPassword), Get(d.identities, other);
            && d'.challenges == d.challenges && d'.next == d.next
            && Get(d'.identities, other)
               == if other != email then before
                  else if before.None? then Some(Identity(user, hasPassword, None))
                  else Some(Identity(before.value.user, before.value.hasPassword || hasPassword, before.value.phone))
  {
    var before := Get(d.identities, email);
    GetPut(d.identities, email, Identity(user, hasPassword, None), other);
    if before.Some? {
      GetPut(d.identities, email, before.value.(hasPassword := true), other);
    }
  }
}

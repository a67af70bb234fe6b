/** Registration challenges: an email code, then a phone code, then one identity. */
module Registration {
  import opened Common
  import opened JsMap

  const REPLAY_MS := 24 * 60 * 60 * 1000

  datatype Status = Pending | Locked | Superseded | Consumed

  datatype Identity = Identity(user: string, hasPassword: bool, phone: Option<string>)

  /** A challenge under its id. A time of zero stands for a channel not verified, or a resend never
      held back. The serial number stands for the record itself, which a resend keeps although it
      gives it a new id. */
  datatype Challenge = Challenge(
    serial: nat, email: string, phone: Option<string>, emailCode: Option<string>, phoneCode: Option<string>,
    status: Status, failed: nat, emailSends: nat, phoneSends: nat, emailVerifiedAt: int, phoneVerifiedAt: int,
    emailResendAt: int, phoneResendAt: int, expiresAt: int, key: Option<string>, fingerprint: Option<string>,
    identity: Option<Identity>, replayUntil: Option<int>)

  datatype Desk = Desk(challenges: Dict<Challenge>, identities: Dict<Identity>, next: nat)

  datatype Limits = Limits(maxSends: nat, maxFailures: nat)

  datatype Error =
    | EmailRegistered | LegacyMigrationRequired | EmailAlreadyVerified | RateLimited | ChallengeLocked
    | InvalidChallenge | ChallengeConsumed | ChallengeExpired | InvalidCode
    | EmailVerificationRequired | PhoneMismatch | PhoneRegistered | PhonePending | PhoneAlreadyVerified
    | VerificationRequired | PrincipalMismatch | InvalidInvite | IdempotencyConflict | ReplayInconsistent

  // ---- Searching and closing ----

  /** The position of the first value with a property, or the size of the map. */
  function First<V>(m: Dict<V>, p: V -> bool): (i: nat)
    ensures i <= |m|
    ensures i < |m| ==> p(m[i].value)
    ensures forall j | 0 <= j < i :: !p(m[j].value)
  {
    if m == [] || p(m[0].value) then 0 else 1 + First(m[1..], p)
  }

  function Set<V>(m: Dict<V>, i: nat, v: V): (r: Dict<V>)
    requires i < |m|
    ensures |r| == |m| && forall j | 0 <= j < |m| :: r[j] == if j == i then Entry(m[i].key, v) else m[j]
  {
    m[i := Entry(m[i].key, v)]
  }

  function Delete<V>(m: Dict<V>, i: nat): (r: Dict<V>)
    requires i < |m|
    ensures |r| == |m| - 1 && forall j | 0 <= j < |r| :: r[j] == m[if j < i then j else j + 1]
  {
    m[..i] + m[i + 1..]
  }

  function Close(c: Challenge, status: Status): Challenge {
    c.(status := status, emailCode := None, phoneCode := None)
  }

  function PendingFor(email: string): Challenge -> bool {
    (c: Challenge) => c.status == Pending && c.email == email
  }

  function WithKey(key: string): Challenge -> bool {
    (c: Challenge) => c.key == Some(key)
  }

  function WithPhone(phone: string): Identity -> bool {
    (x: Identity) => x.phone == Some(phone)
  }

  predicate PhoneTaken(d: Desk, phone: string) {
    First(d.identities, WithPhone(phone)) < |d.identities|
  }

  predicate Over(c: Challenge, now: int) {
    c.status != Pending || c.expiresAt <= now
  }

  // ---- Email code ----

  datatype EmailStart = EmailStart(id: string, email: string, code: string, resendAfter: int, expiresAt: int)

  function NewChallenge(serial: nat, s: EmailStart): Challenge {
    Challenge(serial, s.email, None, Some(s.code), None, Pending, 0, 1, 0, 0, 0, s.resendAfter, 0, s.expiresAt,
              None, None, None, None)
  }

  function Issue(d: Desk, s: EmailStart): Desk {
    d.(challenges := Put(d.challenges, s.id, NewChallenge(d.next, s)), next := d.next + 1)
  }

  function Resent(c: Challenge, s: EmailStart): Challenge {
    c.(emailCode := Some(s.code), emailSends := c.emailSends + 1, emailResendAt := s.resendAfter,
       expiresAt := s.expiresAt)
  }

  /** A resend moves the record to a new id, at the end of the map. */
  function Resend(d: Desk, k: nat, s: EmailStart): Desk
    requires k < |d.challenges|
  {
    var c := Resent(d.challenges[k].value, s);
    d.(challenges := if d.challenges[k].key == s.id then Set(d.challenges, k, c)
       else Put(Delete(d.challenges, k), s.id, c))
  }

  function StartEmail(d: Desk, now: int, limits: Limits, s: EmailStart): (Desk, Result<string, Error>) {
    var registered := Get(d.identities, s.email);
    if registered.Some? then (d, Err(if registered.value.hasPassword then EmailRegistered else LegacyMigrationRequired))
    else
      var k := First(d.challenges, PendingFor(s.email));
      if k == |d.challenges| then (Issue(d, s), Ok(s.id))
      else
        var c := d.challenges[k].value;
        if c.expiresAt <= now then
          (Issue(d.(challenges := Set(d.challenges, k, Close(c, Superseded))), s), Ok(s.id))
        else if c.emailVerifiedAt != 0 then (d, Err(EmailAlreadyVerified))
        else if c.emailResendAt > now then (d, Err(RateLimited))
        else if c.emailSends >= limits.maxSends then
          (d.(challenges := Set(d.challenges, k, Close(c, Locked))), Err(ChallengeLocked))
        else (Resend(d, k, s), Ok(s.id))
  }

  /** The answer to a wrong code: one more failure, and a lock once there are too many. */
  function WrongGuess(c: Challenge, limits: Limits): (Challenge, Error) {
    var failed := c.(failed := c.failed + 1);
    if failed.failed >= limits.maxFailures then (Close(failed, Locked), ChallengeLocked) else (failed, InvalidCode)
  }

  /** The grounds on which a challenge in hand is refused, before its own checks. */
  function Refusal(c: Challenge, now: int): Option<Error> {
    if c.status == Consumed then Some(ChallengeConsumed)
    else if c.status == Locked then Some(ChallengeLocked)
    else if Over(c, now) then Some(ChallengeExpired)
    else None
  }

  /** A refused challenge is closed if it is over. */
  function AfterRefusal(c: Challenge, e: Error): Challenge {
    if e == ChallengeExpired then Close(c, Superseded) else c
  }

  function TryEmail(c: Challenge, now: int, limits: Limits, code: string): (Challenge, Result<(), Error>) {
    var refusal := Refusal(c, now);
    if refusal.Some? then (AfterRefusal(c, refusal.value), Err(refusal.value))
    else if c.emailVerifiedAt != 0 then (c, Ok(()))
    else if c.emailCode != Some(code) then (WrongGuess(c, limits).0, Err(WrongGuess(c, limits).1))
    else (c.(emailVerifiedAt := now, emailCode := None), Ok(()))
  }

  function VerifyEmail(d: Desk, now: int, limits: Limits, id: string, email: string, code: string)
    : (Desk, Result<(), Error>)
  {
    var k := IndexOf(d.challenges, id);
    if k == |d.challenges| || d.challenges[k].value.email != email then (d, Err(InvalidChallenge))
    else
      var (c, r) := TryEmail(d.challenges[k].value, now, limits, code);
      (d.(challenges := Set(d.challenges, k, c)), r)
  }

  // ---- Phone code ----

  datatype PhoneStart = PhoneStart(id: string, email: string, phone: string, code: string, resendAfter: int,
                                   expiresAt: int)

  predicate Stale(c: Challenge, phone: string, now: int) {
    c.status == Pending && c.phone == Some(phone) && c.expiresAt <= now
  }

  /** Close every other challenge of a phone that has run out. */
  function CloseStale(m: Dict<Challenge>, id: string, phone: string, now: int): (r: Dict<Challenge>)
    ensures |r| == |m|
  {
    if m == [] then [] else [CloseIfStale(m[0], id, phone, now)] + CloseStale(m[1..], id, phone, now)
  }

  function CloseIfStale(e: Entry<Challenge>, id: string, phone: string, now: int): Entry<Challenge> {
    if e.key != id && Stale(e.value, phone, now) then Entry(e.key, Close(e.value, Superseded)) else e
  }

  lemma {:induction false} CloseStaleAt(m: Dict<Challenge>, id: string, phone: string, now: int)
    ensures forall j | 0 <= j < |m| :: CloseStale(m, id, phone, now)[j] == CloseIfStale(m[j], id, phone, now)
  {
    if m != [] {
      CloseStaleAt(m[1..], id, phone, now);
    }
  }

  predicate Rival(e: Entry<Challenge>, id: string, phone: string, now: int) {
    e.key != id && e.value.status == Pending && e.value.phone == Some(phone) && e.value.expiresAt > now
  }

  function SendPhone(c: Challenge, s: PhoneStart): Challenge {
    c.(phone := Some(s.phone), phoneCode := Some(s.code), phoneSends := c.phoneSends + 1,
       phoneResendAt := s.resendAfter, expiresAt := s.expiresAt)
  }

  /** Sending a phone code, once the challenge and the phone are free. */
  function TryPhoneStart(c: Challenge, now: int, limits: Limits, s: PhoneStart): (Challenge, Result<string, Error>) {
    if c.phoneVerifiedAt != 0 then (c, Err(PhoneAlreadyVerified))
    else if c.phoneSends > 0 && c.phoneResendAt != 0 && c.phoneResendAt > now then (c, Err(RateLimited))
    else if c.phoneSends >= limits.maxSends then (Close(c, Locked), Err(ChallengeLocked))
    else (SendPhone(c, s), Ok(s.id))
  }

  function StartPhone(d: Desk, now: int, limits: Limits, s: PhoneStart): (Desk, Result<string, Error>) {
    var k := IndexOf(d.challenges, s.id);
    if k == |d.challenges| || d.challenges[k].value.email != s.email then (d, Err(InvalidChallenge))
    else
      var c := d.challenges[k].value;
      var refusal := Refusal(c, now);
      if refusal.Some? then
        (d.(challenges := Set(d.challenges, k, AfterRefusal(c, refusal.value))), Err(refusal.value))
      else if c.emailVerifiedAt == 0 then (d, Err(EmailVerificationRequired))
      else if c.phone.Some? && c.phone != Some(s.phone) then (d, Err(PhoneMismatch))
      else if PhoneTaken(d, s.phone) then (d, Err(PhoneRegistered))
      else
        var challenges := CloseStale(d.challenges, s.id, s.phone, now);
        if exists j | 0 <= j < |challenges| :: Rival(challenges[j], s.id, s.phone, now) then
          (d.(challenges := challenges), Err(PhonePending))
        else
          var (c', r) := TryPhoneStart(challenges[k].value, now, limits, s);
          (d.(challenges := Set(challenges, k, c')), r)
  }

  function TryPhone(c: Challenge, now: int, limits: Limits, code: string): (Challenge, Result<(), Error>) {
    var refusal := Refusal(c, now);
    if refusal.Some? then (AfterRefusal(c, refusal.value), Err(refusal.value))
    else if c.emailVerifiedAt == 0 then (c, Err(EmailVerificationRequired))
    else if c.phoneVerifiedAt != 0 then (c, Ok(()))
    else if c.phoneCode != Some(code) then (WrongGuess(c, limits).0, Err(WrongGuess(c, limits).1))
    else (c.(phoneVerifiedAt := now, phoneCode := None), Ok(()))
  }

  function VerifyPhone(d: Desk, now: int, limits: Limits, id: string, email: string, phone: string, code: string)
    : (Desk, Result<(), Error>)
  {
    var k := IndexOf(d.challenges, id);
    if k == |d.challenges| || d.challenges[k].value.email != email || d.challenges[k].value.phone != Some(phone) then
      (d, Err(InvalidChallenge))
    else
      var (c, r) := TryPhone(d.challenges[k].value, now, limits, code);
      (d.(challenges := Set(d.challenges, k, c)), r)
  }

  /** A code that could not be delivered: the email challenge is closed, the phone code withdrawn. */
  function InvalidateCode(d: Desk, id: string, onEmail: bool, code: string): Desk {
    var k := IndexOf(d.challenges, id);
    if k == |d.challenges| then d
    else
      var c := d.challenges[k].value;
      if c.status != Pending then d
      else if (if onEmail then c.emailCode else c.phoneCode) != Some(code) then d
      else d.(challenges := Set(d.challenges, k, if onEmail then Close(c, Superseded)
                                else c.(phoneCode := None, phoneVerifiedAt := 0)))
  }

  // ---- Completion ----

  datatype Ready = IsReady | WasConsumed

  function AssertVerified(d: Desk, now: int, id: string, email: string, phone: string): Result<Ready, Error> {
    var c := Get(d.challenges, id);
    if c.None? || c.value.email != email || c.value.phone != Some(phone) then Err(InvalidChallenge)
    else
      var refusal := Refusal(c.value, now);
      if refusal == Some(ChallengeConsumed) then Ok(WasConsumed)
      else if refusal.Some? then Err(refusal.value)
      else if c.value.emailVerifiedAt == 0 || c.value.phoneVerifiedAt == 0 then Err(VerificationRequired)
      else Ok(IsReady)
  }

  datatype Application = Application(id: string, email: string, phone: string, user: string, principalEmail: string,
                                     key: string, fingerprint: string, inviteValid: bool)

  datatype Outcome = Outcome(identity: Identity, created: bool)

  /** The answer when some challenge already carries the idempotency key. */
  function Replay(c: Challenge, now: int, a: Application): Result<Outcome, Error> {
    if c.fingerprint != Some(a.fingerprint) then Err(IdempotencyConflict)
    else if c.identity.None? then Err(ReplayInconsistent)
    else if c.replayUntil.Some? && c.replayUntil.value < now then Err(ChallengeConsumed)
    else Ok(Outcome(c.identity.value, false))
  }

  function Consume(c: Challenge, now: int, a: Application): Challenge {
    Close(c, Consumed).(key := Some(a.key), fingerprint := Some(a.fingerprint),
                        identity := Some(Identity(a.user, true, Some(a.phone))), replayUntil := Some(now + REPLAY_MS))
  }

  /** The grounds on which a verified challenge is still not completed. */
  function CompletionRefusal(d: Desk, c: Challenge, a: Application): Option<Error> {
    var registered := Get(d.identities, a.email);
    if c.emailVerifiedAt == 0 || c.phoneVerifiedAt == 0 then Some(VerificationRequired)
    else if a.principalEmail != a.email then Some(PrincipalMismatch)
    else if registered.Some? && registered.value.hasPassword then Some(EmailRegistered)
    else if PhoneTaken(d, a.phone) then Some(PhoneRegistered)
    else if !a.inviteValid then Some(InvalidInvite)
    else None
  }

  function Complete(d: Desk, now: int, a: Application): (Desk, Result<Outcome, Error>) {
    var replay := First(d.challenges, WithKey(a.key));
    if replay < |d.challenges| then (d, Replay(d.challenges[replay].value, now, a))
    else
      var k := IndexOf(d.challenges, a.id);
      if k == |d.challenges| || d.challenges[k].value.email != a.email
         || d.challenges[k].value.phone != Some(a.phone) then
        (d, Err(InvalidChallenge))
      else
        var c := d.challenges[k].value;
        var refusal := Refusal(c, now);
        if refusal.Some? then
             (d.(challenges := Set(d.challenges, k, AfterRefusal(c, refusal.value))), Err(refusal.value))
        else
          var refused := CompletionRefusal(d, c, a);
          if refused.Some? then (d, Err(refused.value))
          else
            var identity := Identity(a.user, true, Some(a.phone));
            (Desk(Set(d.challenges, k, Consume(c, now, a)), Put(d.identities, a.email, identity), d.next),
             Ok(Outcome(identity, true)))
  }

  // ---- Cleanup ----

  predicate Forgotten(c: Challenge, now: int) {
    || (c.status == Consumed && c.replayUntil.Some? && c.replayUntil.value <= now)
    || (c.status != Pending && c.status != Consumed && c.expiresAt <= now - REPLAY_MS)
  }

  /** Close what ran out and delete what is a day past its end, in order, at most budget of them. */
  function Clean(m: Dict<Challenge>, now: int, budget: nat): (Dict<Challenge>, nat) {
    if budget == 0 || m == [] then (m, 0)
    else
      var c := m[0].value;
      if c.status == Pending && c.expiresAt <= now then
        var (rest, n) := Clean(m[1..], now, budget - 1);
        ([Entry(m[0].key, Close(c, Superseded))] + rest, n + 1)
      else if Forgotten(c, now) then
        var (rest, n) := Clean(m[1..], now, budget - 1);
        (rest, n + 1)
      else
        var (rest, n) := Clean(m[1..], now, budget);
        ([m[0]] + rest, n)
  }

  function CleanLimit(limit: int): (r: nat)
    ensures 1 <= r <= 1000
  {
    Max(1, Min(1000, if limit == 0 then 1 else limit))
  }

  function Cleanup(d: Desk, now: int, limit: int): (Desk, nat) {
    var (challenges, n) := Clean(d.challenges, now, CleanLimit(limit));
    (d.(challenges := challenges), n)
  }

  // ---- Other ways to get an account ----

  /** Another sign-up route gives an email an account, or an account without password a password. */
  function Enrol(d: Desk, email: string, user: string, hasPassword: bool): Desk {
    var current := Get(d.identities, email);
    if current.None? then d.(identities := Put(d.identities, email, Identity(user, hasPassword, None)))
    else if hasPassword && !current.value.hasPassword then
      d.(identities := Put(d.identities, email, current.value.(hasPassword := true)))
    else d
  }

  // ---- Steps and runs ----

  datatype Op =
    | StartEmailOp(start: EmailStart)
    | VerifyEmailOp(id: string, email: string, code: string)
    | StartPhoneOp(phoneStart: PhoneStart)
    | VerifyPhoneOp(phoneId: string, phoneEmail: string, phone: string, phoneCode: string)
    | InvalidateOp(invalidId: string, onEmail: bool, invalidCode: string)
    | CompleteOp(application: Application)
    | CleanupOp(limit: int)
    | EnrolOp(enrolled: string, user: string, hasPassword: bool)

  function Step(d: Desk, limits: Limits, now: int, op: Op): Desk {
    match op
    case StartEmailOp(s) => StartEmail(d, now, limits, s).0
    case VerifyEmailOp(id, email, code) => VerifyEmail(d, now, limits, id, email, code).0
    case StartPhoneOp(s) => StartPhone(d, now, limits, s).0
    case VerifyPhoneOp(id, email, phone, code) => VerifyPhone(d, now, limits, id, email, phone, code).0
    case InvalidateOp(id, onEmail, code) => InvalidateCode(d, id, onEmail, code)
    case CompleteOp(a) => Complete(d, now, a).0
    case CleanupOp(limit) => Cleanup(d, now, limit).0
    case EnrolOp(email, user, hasPassword) => Enrol(d, email, user, hasPassword)
  }

  type Call = Timed<Op>

  const EmptyDesk := Desk([], [], 0)

  function Run(d: Desk, limits: Limits, calls: seq<Call>): Desk
    decreases |calls|
  {
    if calls == [] then d else Run(Step(d, limits, calls[0].now, calls[0].op), limits, calls[1..])
  }
}

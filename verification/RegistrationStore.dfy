/** The registration part of the in-memory database as an object that its operations change in
    place. Every method does to the object what the registration operation does to a desk. */
module RegistrationStore {
  import opened Common
  import opened JsMap
  import opened Registration

  class RegistrationDesk {
    var challenges: Dict<Challenge>
    var identities: Dict<Identity>
    var next: nat

    ghost function View(): Desk
      reads this
    {
      Desk(challenges, identities, next)
    }

    constructor ()
      ensures View() == EmptyDesk
    {
      challenges, identities, next := [], [], 0;
    }

    // ---- Searches ----

    method FindPending(email: string) returns (k: nat)
      ensures k == First(challenges, PendingFor(email))
    {
      k := 0;
      while k < |challenges| && !(challenges[k].value.email == email && challenges[k].value.status == Pending)
        invariant k <= |challenges| && forall j | 0 <= j < k :: !PendingFor(email)(challenges[j].value)
      {
        k := k + 1;
      }
    }

    method FindKey(key: string) returns (k: nat)
      ensures k == First(challenges, WithKey(key))
    {
      k := 0;
      while k < |challenges| && challenges[k].value.key != Some(key)
        invariant k <= |challenges| && forall j | 0 <= j < k :: !WithKey(key)(challenges[j].value)
      {
        k := k + 1;
      }
    }

    method IsPhoneTaken(phone: string) returns (yes: bool)
      ensures yes <==> PhoneTaken(View(), phone)
    {
      for k := 0 to |identities|
        invariant forall j | 0 <= j < k :: !WithPhone(phone)(identities[j].value)
      {
        if identities[k].value.phone == Some(phone) {
          assert WithPhone(phone)(identities[k].value);
          return true;
        }
      }
      return false;
    }

    method SetChallenge(k: nat, c: Challenge)
      requires k < |challenges|
      modifies this`challenges
      ensures View() == old(View()).(challenges := Set(old(challenges), k, c))
    {
      challenges := challenges[k := Entry(challenges[k].key, c)];
    }

    // ---- Email code ----

    method IssueChallenge(s: EmailStart)
      modifies this
      ensures View() == Issue(old(View()), s)
    {
      challenges := Put(challenges, s.id, NewChallenge(next, s));
      next := next + 1;
    }

    method ResendEmail(k: nat, s: EmailStart)
      requires k < |challenges|
      modifies this`challenges
      ensures View() == Resend(old(View()), k, s)
    {
      var current := challenges[k].value;
      current := current.(emailCode := Some(s.code), emailSends := current.emailSends + 1,
                          emailResendAt := s.resendAfter, expiresAt := s.expiresAt);
      if challenges[k].key != s.id {
        challenges := challenges[..k] + challenges[k + 1..];
        challenges := Put(challenges, s.id, current);
      } else {
        challenges := challenges[k := Entry(s.id, current)];
      }
    }

    method StartEmailRegistration(now: int, limits: Limits, s: EmailStart) returns (r: Result<string, Error>)
      modifies this
      ensures (View(), r) == StartEmail(old(View()), now, limits, s)
    {
      var registered := Get(identities, s.email);
      if registered.Some? {
        return Err(if registered.value.hasPassword then EmailRegistered else LegacyMigrationRequired);
      }
      var k := FindPending(s.email);
      if k == |challenges| {
        IssueChallenge(s);
        return Ok(s.id);
      }
      var current := challenges[k].value;
      if current.expiresAt <= now {
        SetChallenge(k, Close(current, Superseded));
        IssueChallenge(s);
        return Ok(s.id);
      }
      if current.emailVerifiedAt != 0 {
        return Err(EmailAlreadyVerified);
      }
      if current.emailResendAt > now {
        return Err(RateLimited);
      }
      if current.emailSends >= limits.maxSends {
        SetChallenge(k, Close(current, Locked));
        return Err(ChallengeLocked);
      }
      ResendEmail(k, s);
      return Ok(s.id);
    }

    /** The checks every use of a challenge begins with; one that is over is closed. */
    method CheckUsable(k: nat, now: int) returns (refusal: Option<Error>)
      requires k < |challenges|
      modifies this`challenges
      ensures refusal == Refusal(old(challenges)[k].value, now)
      ensures |challenges| == |old(challenges)| && challenges[k].key == old(challenges)[k].key
      ensures View() == if refusal.Some? then
                          old(View()).(challenges := Set(old(challenges), k,
                                                         AfterRefusal(old(challenges)[k].value, refusal.value)))
                        else old(View())
    {
      var item := challenges[k].value;
      if item.status == Consumed {
        refusal := Some(ChallengeConsumed);
      } else if item.status == Locked {
        refusal := Some(ChallengeLocked);
      } else if item.status != Pending || item.expiresAt <= now {
        SetChallenge(k, item.(status := Superseded, emailCode := None, phoneCode := None));
        return Some(ChallengeExpired);
      } else {
        return None;
      }
      assert challenges == Set(challenges, k, item);
    }

    /** Count a wrong guess, and lock the challenge once there are too many. */
    method CountFailure(k: nat, limits: Limits) returns (e: Error)
      requires k < |challenges|
      modifies this`challenges
      ensures e == WrongGuess(old(challenges)[k].value, limits).1
      ensures View()
              == old(View()).(challenges := Set(old(challenges), k, WrongGuess(old(challenges)[k].value, limits).0))
    {
      var item := challenges[k].value;
      item := item.(failed := item.failed + 1);
      if item.failed >= limits.maxFailures {
        SetChallenge(k, item.(status := Locked, emailCode := None, phoneCode := None));
        return ChallengeLocked;
      }
      SetChallenge(k, item);
      return InvalidCode;
    }

    method VerifyRegistrationEmail(now: int, limits: Limits, id: string, email: string, code: string)
      returns (r: Result<(), Error>)
      modifies this`challenges
      ensures (View(), r) == VerifyEmail(old(View()), now, limits, id, email, code)
    {
      var k := IndexOf(challenges, id);
      if k == |challenges| || challenges[k].value.email != email {
        return Err(InvalidChallenge);
      }
      var refusal := CheckUsable(k, now);
      if refusal.Some? {
        return Err(refusal.value);
      }
      var item := challenges[k].value;
      if item.emailVerifiedAt != 0 {
        assert challenges == Set(challenges, k, item);
        return Ok(());
      }
      if item.emailCode != Some(code) {
        var e := CountFailure(k, limits);
        return Err(e);
      }
      SetChallenge(k, item.(emailVerifiedAt := now, emailCode := None));
      return Ok(());
    }

    // ---- Phone code ----

    method SupersedeStale(id: string, phone: string, now: int)
      modifies this`challenges
      ensures View() == old(View()).(challenges := CloseStale(old(challenges), id, phone, now))
    {
      CloseStaleAt(challenges, id, phone, now);
      for j := 0 to |challenges|
        invariant |challenges| == |old(challenges)|
        invariant forall i | 0 <= i < |challenges| ::
                    challenges[i] == if i < j then CloseIfStale(old(challenges)[i], id, phone, now)
                      else old(challenges)[i]
      {
        var other := challenges[j].value;
        if challenges[j].key != id && other.status == Pending && other.phone == Some(phone) && other.expiresAt <= now {
          challenges := challenges[j := Entry(challenges[j].key,
                                              other.(status := Superseded, emailCode := None, phoneCode := None))];
        }
      }
    }

    method HasRival(id: string, phone: string, now: int) returns (yes: bool)
      ensures yes <==> exists j | 0 <= j < |challenges| :: Rival(challenges[j], id, phone, now)
    {
      for j := 0 to |challenges|
        invariant forall i | 0 <= i < j :: !Rival(challenges[i], id, phone, now)
      {
        if Rival(challenges[j], id, phone, now) {
          return true;
        }
      }
      return false;
    }

    method SendPhoneCode(k: nat, now: int, limits: Limits, s: PhoneStart) returns (r: Result<string, Error>)
      requires k < |challenges|
      modifies this`challenges
      ensures View() == old(View()).(challenges := Set(old(challenges), k,
                                                       TryPhoneStart(old(challenges)[k].value, now, limits, s).0))
      ensures r == TryPhoneStart(old(challenges)[k].value, now, limits, s).1
    {
      var item := challenges[k].value;
      assert challenges == Set(challenges, k, item);
      if item.phoneVerifiedAt != 0 {
        return Err(PhoneAlreadyVerified);
      }
      if item.phoneSends > 0 && item.phoneResendAt != 0 && item.phoneResendAt > now {
        return Err(RateLimited);
      }
      if item.phoneSends >= limits.maxSends {
        SetChallenge(k, Close(item, Locked));
        return Err(ChallengeLocked);
      }
      SetChallenge(k, item.(phone := Some(s.phone), phoneCode := Some(s.code), phoneSends := item.phoneSends + 1,
                            phoneResendAt := s.resendAfter, expiresAt := s.expiresAt));
      return Ok(s.id);
    }

    method StartPhoneRegistration(now: int, limits: Limits, s: PhoneStart) returns (r: Result<string, Error>)
      modifies this`challenges
      ensures (View(), r) == StartPhone(old(View()), now, limits, s)
    {
      var k := IndexOf(challenges, s.id);
      if k == |challenges| || challenges[k].value.email != s.email {
        return Err(InvalidChallenge);
      }
      var refusal := CheckUsable(k, now);
      if refusal.Some? {
        return Err(refusal.value);
      }
      var item := challenges[k].value;
      if item.emailVerifiedAt == 0 {
        return Err(EmailVerificationRequired);
      }
      if item.phone.Some? && item.phone != Some(s.phone) {
        return Err(PhoneMismatch);
      }
      var taken := IsPhoneTaken(s.phone);
      if taken {
        return Err(PhoneRegistered);
      }
      SupersedeStale(s.id, s.phone, now);
      var rival := HasRival(s.id, s.phone, now);
      if rival {
        return Err(PhonePending);
      }
      r := SendPhoneCode(k, now, limits, s);
    }

    method VerifyRegistrationPhone(now: int, limits: Limits, id: string, email: string, phone: string, code: string)
      returns (r: Result<(), Error>)
      modifies this`challenges
      ensures (View(), r) == VerifyPhone(old(View()), now, limits, id, email, phone, code)
    {
      var k := IndexOf(challenges, id);
      if k == |challenges| || challenges[k].value.email != email || challenges[k].value.phone != Some(phone) {
        return Err(InvalidChallenge);
      }
      var refusal := CheckUsable(k, now);
      if refusal.Some? {
        return Err(refusal.value);
      }
      var item := challenges[k].value;
      assert challenges == Set(challenges, k, item);
      if item.emailVerifiedAt == 0 {
        return Err(EmailVerificationRequired);
      }
      if item.phoneVerifiedAt != 0 {
        return Ok(());
      }
      if item.phoneCode != Some(code) {
        var e := CountFailure(k, limits);
        return Err(e);
      }
      SetChallenge(k, item.(phoneVerifiedAt := now, phoneCode := None));
      return Ok(());
    }

    method InvalidateRegistrationCode(id: string, onEmail: bool, code: string)
      modifies this`challenges
      ensures View() == InvalidateCode(old(View()), id, onEmail, code)
    {
      var k := IndexOf(challenges, id);
      if k == |challenges| || challenges[k].value.status != Pending {
        return;
      }
      var item := challenges[k].value;
      var stored := if onEmail then item.emailCode else item.phoneCode;
      if stored != Some(code) {
        return;
      }
      if onEmail {
        SetChallenge(k, item.(status := Superseded, emailCode := None, phoneCode := None));
      } else {
        SetChallenge(k, item.(phoneCode := None, phoneVerifiedAt := 0));
      }
    }

    // ---- Completion ----

    method AssertVerifiedRegistration(now: int, id: string, email: string, phone: string)
      returns (r: Result<Ready, Error>)
      ensures r == AssertVerified(View(), now, id, email, phone)
    {
      var k := IndexOf(challenges, id);
      if k == |challenges| || challenges[k].value.email != email || challenges[k].value.phone != Some(phone) {
        return Err(InvalidChallenge);
      }
      var item := challenges[k].value;
      if item.status == Consumed {
        return Ok(WasConsumed);
      }
      if item.status == Locked {
        return Err(ChallengeLocked);
      }
      if item.status != Pending || item.expiresAt <= now {
        return Err(ChallengeExpired);
      }
      if item.emailVerifiedAt == 0 || item.phoneVerifiedAt == 0 {
        return Err(VerificationRequired);
      }
      return Ok(IsReady);
    }

    /** The checks of a completion on a live challenge. */
    method CheckCompletion(k: nat, a: Application) returns (refusal: Option<Error>)
      requires k < |challenges|
      ensures refusal == CompletionRefusal(View(), challenges[k].value, a)
    {
      var item := challenges[k].value;
      if item.emailVerifiedAt == 0 || item.phoneVerifiedAt == 0 {
        return Some(VerificationRequired);
      }
      if a.principalEmail != a.email {
        return Some(PrincipalMismatch);
      }
      var registered := Get(identities, a.email);
      if registered.Some? && registered.value.hasPassword {
        return Some(EmailRegistered);
      }
      var taken := IsPhoneTaken(a.phone);
      if taken {
        return Some(PhoneRegistered);
      }
      return if a.inviteValid then None else Some(InvalidInvite);
    }

    method CompleteVerifiedRegistration(now: int, a: Application) returns (r: Result<Outcome, Error>)
      modifies this
      ensures (View(), r) == Complete(old(View()), now, a)
    {
      var replay := FindKey(a.key);
      if replay < |challenges| {
        var c := challenges[replay].value;
        if c.fingerprint != Some(a.fingerprint) {
          return Err(IdempotencyConflict);
        }
        if c.identity.None? {
          return Err(ReplayInconsistent);
        }
        if c.replayUntil.Some? && c.replayUntil.value < now {
          return Err(ChallengeConsumed);
        }
        return Ok(Outcome(c.identity.value, false));
      }
      var k := IndexOf(challenges, a.id);
      if k == |challenges| || challenges[k].value.email != a.email || challenges[k].value.phone != Some(a.phone) {
        return Err(InvalidChallenge);
      }
      var refusal := CheckUsable(k, now);
      if refusal.Some? {
        return Err(refusal.value);
      }
      var refused := CheckCompletion(k, a);
      if refused.Some? {
        return Err(refused.value);
      }
      var identity := Identity(a.user, true, Some(a.phone));
      identities := Put(identities, a.email, identity);
      SetChallenge(k, challenges[k].value.(status := Consumed, emailCode := None, phoneCode := None, key := Some(a.key),
                                           fingerprint := Some(a.fingerprint), identity := Some(identity),
                                           replayUntil := Some(now + REPLAY_MS)));
      return Ok(Outcome(identity, true));
    }

    // ---- Cleanup ----

    method CleanupRegistrationChallenges(now: int, limit: int) returns (affected: nat)
      modifies this`challenges
      ensures (View(), affected) == Cleanup(old(View()), now, limit)
    {
      var maximum := CleanLimit(limit);
      var kept: Dict<Challenge> := [];
      affected := 0;
      var i := 0;
      ghost var d := View();
      CleaningStart(challenges, now, maximum);
      while i < |challenges| && affected < maximum
        invariant challenges == d.challenges && Cleaning(challenges, kept, i, now, maximum, affected)
      {
        var item := challenges[i].value;
        CleaningStep(challenges, kept, i, now, maximum, affected);
        if item.status == Pending && item.expiresAt <= now {
          kept := kept + [Entry(challenges[i].key, item.(status := Superseded, emailCode := None, phoneCode := None))];
          affected := affected + 1;
        } else if (item.status == Consumed && item.replayUntil.Some? && item.replayUntil.value <= now)
                  || (item.status != Pending && item.status != Consumed && item.expiresAt <= now - REPLAY_MS) {
          affected := affected + 1;
        } else {
          kept := kept + [challenges[i]];
        }
        i := i + 1;
      }
      CleaningEnd(challenges, kept, i, now, maximum, affected);
      challenges := kept + challenges[i..];
      assert Cleanup(d, now, limit) == (d.(challenges := challenges), affected);
    }

    // ---- Other ways to get an account ----

    method EnrolIdentity(email: string, user: string, hasPassword: bool)
      modifies this`identities
      ensures View() == Enrol(old(View()), email, user, hasPassword)
    {
      var current := Get(identities, email);
      if current.None? {
        identities := Put(identities, email, Identity(user, hasPassword, None));
      } else if hasPassword && !current.value.hasPassword {
        identities := Put(identities, email, current.value.(hasPassword := true));
      }
    }
  }

  // ---- A cleanup under way ----

  /** What is kept of the first i records, with a cleaning of the others, makes up the whole. */
  ghost predicate Cleaning(m: Dict<Challenge>, kept: Dict<Challenge>, i: nat, now: int, budget: nat, affected: nat) {
    && i <= |m| && affected <= budget
    && var rest := Clean(m[i..], now, budget - affected);
       Clean(m, now, budget) == (kept + rest.0, affected + rest.1)
  }

  lemma CleaningStart(m: Dict<Challenge>, now: int, budget: nat)
    ensures Cleaning(m, [], 0, now, budget, 0)
  {
    assert m[0..] == m && [] + Clean(m, now, budget).0 == Clean(m, now, budget).0;
  }

  lemma CleaningStep(m: Dict<Challenge>, kept: Dict<Challenge>, i: nat, now: int, budget: nat, affected: nat)
    requires Cleaning(m, kept, i, now, budget, affected) && i < |m| && affected < budget
    ensures var c := m[i].value;
            if c.status == Pending && c.expiresAt <= now then
              Cleaning(m, kept + [Entry(m[i].key, Close(c, Superseded))], i + 1, now, budget, affected + 1)
            else if Forgotten(c, now) then Cleaning(m, kept, i + 1, now, budget, affected + 1)
            else Cleaning(m, kept + [m[i]], i + 1, now, budget, affected)
  {
    var c := m[i].value;
    assert m[i..][1..] == m[i + 1..];
    var closes := c.status == Pending && c.expiresAt <= now;
    var rest := Clean(m[i + 1..], now, if closes || Forgotten(c, now) then budget - affected - 1
                      else budget - affected).0;
    var e := if closes then Entry(m[i].key, Close(c, Superseded)) else m[i];
    assert kept + ([e] + rest) == (kept + [e]) + rest;
  }

  lemma CleaningEnd(m: Dict<Challenge>, kept: Dict<Challenge>, i: nat, now: int, budget: nat, affected: nat)
    requires Cleaning(m, kept, i, now, budget, affected) && (i == |m| || affected == budget)
    ensures Clean(m, now, budget) == (kept + m[i..], affected)
  {
  }
}

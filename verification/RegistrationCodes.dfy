/** Over every run, an email or a phone is verified only by the code that was last sent to it. */
module RegistrationCodes {
  import opened Common
  import opened JsMap
  import opened Registration
  import opened RegistrationSafety
  import opened RegistrationOutcomes
  import opened RegistrationTheorems

  // ---- The terms ----

  datatype Channel = Email | Phone

  function CodeOf(c: Challenge, channel: Channel): Option<string> {
    if channel.Email? then c.emailCode else c.phoneCode
  }

  function VerifiedAt(c: Challenge, channel: Channel): int {
    if channel.Email? then c.emailVerifiedAt else c.phoneVerifiedAt
  }

  /** A code that goes out, and the record it is for. */
  datatype Sending = Sending(serial: nat, code: string)

  /** What a call sends over a channel: the code it carries, for the record its id then stands for. */
  function Sent(d: Desk, limits: Limits, call: Call, channel: Channel): Option<Sending> {
    match call.op
    case StartEmailOp(s) =>
      var (d', r) := StartEmail(d, call.now, limits, s);
      if channel.Phone? || r.Err? then None else ToRecord(Get(d'.challenges, s.id), s.code)
    case StartPhoneOp(s) =>
      var (d', r) := StartPhone(d, call.now, limits, s);
      if channel.Email? || r.Err? then None else ToRecord(Get(d'.challenges, s.id), s.code)
    case _ => None
  }

  function ToRecord(c: Option<Challenge>, code: string): Option<Sending> {
    if c.Some? then Some(Sending(c.value.serial, code)) else None
  }

  /** The code the first n calls of a run last sent for a record. */
  function LastSent(limits: Limits, calls: seq<Call>, n: nat, serial: nat, channel: Channel): Option<string>
    requires n <= |calls|
  {
    if n == 0 then None
    else
      var sent := Sent(Run(EmptyDesk, limits, calls[..n - 1]), limits, calls[n - 1], channel);
      if sent.Some? && sent.value.serial == serial then Some(sent.value.code)
      else LastSent(limits, calls, n - 1, serial, channel)
  }

  /** The call brings this code back for the record at i. */
  predicate Brings(d: Desk, call: Call, i: nat, channel: Channel, code: string) {
    i < |d.challenges|
    && match call.op
       case VerifyEmailOp(id, _, given) => channel.Email? && id == d.challenges[i].key && given == code
       case VerifyPhoneOp(id, _, _, given) => channel.Phone? && id == d.challenges[i].key && given == code
       case _ => false
  }

  // ---- Where codes and verifications come from, in one step ----

  predicate Blank(c: Challenge, channel: Channel) {
    CodeOf(c, channel).None? && VerifiedAt(c, channel) == 0
  }

  predicate Inherits(c: Challenge, o: Challenge, channel: Channel) {
    && o.serial == c.serial
    && (CodeOf(o, channel).None? || CodeOf(o, channel) == CodeOf(c, channel))
    && (VerifiedAt(o, channel) == 0 || VerifiedAt(o, channel) == VerifiedAt(c, channel))
  }

  predicate IsSent(sent: Option<Sending>, o: Challenge, channel: Channel) {
    sent.Some? && CodeOf(o, channel) == Some(sent.value.code) && o.serial == sent.value.serial
    && VerifiedAt(o, channel) == 0
  }

  predicate IsVerified(d: Desk, call: Call, i: nat, o: Challenge, channel: Channel) {
    i < |d.challenges| && d.challenges[i].value.serial == o.serial && CodeOf(o, channel).None?
    && VerifiedAt(o, channel) == call.now && CodeOf(d.challenges[i].value, channel).Some?
    && Brings(d, call, i, channel, CodeOf(d.challenges[i].value, channel).value)
  }

  ghost predicate Inherited(d: Desk, o: Challenge, channel: Channel) {
    exists i | 0 <= i < |d.challenges| :: Inherits(d.challenges[i].value, o, channel)
  }

  ghost predicate From(d: Desk, sent: Option<Sending>, call: Call, o: Challenge, channel: Channel) {
    || Blank(o, channel)
    || IsSent(sent, o, channel)
    || Inherited(d, o, channel)
    || (exists i: nat :: IsVerified(d, call, i, o, channel))
  }

  ghost predicate AllFrom(d: Desk, sent: Option<Sending>, call: Call, d': Desk, channel: Channel) {
    forall j | 0 <= j < |d'.challenges| :: From(d, sent, call, d'.challenges[j].value, channel)
  }

  /** Nothing is sent or verified: every record keeps what it had, or loses it. */
  ghost predicate AllInherit(d: Desk, d': Desk, channel: Channel) {
    forall j | 0 <= j < |d'.challenges| :: Inherited(d, d'.challenges[j].value, channel)
  }

  lemma InheritsSelf(d: Desk, channel: Channel)
    ensures AllInherit(d, d, channel)
  {
    forall j | 0 <= j < |d.challenges| ensures Inherited(d, d.challenges[j].value, channel) {
      assert Inherits(d.challenges[j].value, d.challenges[j].value, channel);
    }
  }

  lemma ChangeInherits(d: Desk, d': Desk, k: nat, c: Challenge, channel: Channel)
    requires Changes(d, d', k, c) && Inherits(d.challenges[k].value, c, channel)
    ensures AllInherit(d, d', channel)
  {
    forall j | 0 <= j < |d'.challenges| ensures Inherited(d, d'.challenges[j].value, channel) {
      assert Inherits(d.challenges[j].value, d'.challenges[j].value, channel);
    }
  }

  lemma InheritedIsFrom(d: Desk, sent: Option<Sending>, call: Call, d': Desk, channel: Channel)
    requires AllInherit(d, d', channel)
    ensures AllFrom(d, sent, call, d', channel)
  {
  }

  // ---- Each operation ----

  /** One record changes: it keeps what it had, or is verified. */
  lemma ChangeFrom(d: Desk, call: Call, d': Desk, k: nat, c: Challenge, channel: Channel)
    requires Changes(d, d', k, c) && (Inherits(d.challenges[k].value, c, channel) || IsVerified(d, call, k, c, channel))
    ensures AllFrom(d, None, call, d', channel)
  {
    forall j | 0 <= j < |d'.challenges| ensures From(d, None, call, d'.challenges[j].value, channel) {
      assert j != k ==> Inherits(d.challenges[j].value, d'.challenges[j].value, channel);
    }
  }

  lemma TriedEmail(d: Desk, limits: Limits, call: Call, k: nat, code: string, channel: Channel)
    requires DeskInv(d, limits) && k < |d.challenges| && call.op.VerifyEmailOp? && call.op.code == code
    requires call.op.id == d.challenges[k].key
    ensures var c := TryEmail(d.challenges[k].value, call.now, limits, code).0;
            Inherits(d.challenges[k].value, c, channel) || IsVerified(d, call, k, c, channel)
  {
  }

  lemma TriedPhone(d: Desk, limits: Limits, call: Call, k: nat, code: string, channel: Channel)
    requires DeskInv(d, limits) && k < |d.challenges| && call.op.VerifyPhoneOp? && call.op.phoneCode == code
    requires call.op.phoneId == d.challenges[k].key
    ensures var c := TryPhone(d.challenges[k].value, call.now, limits, code).0;
            Inherits(d.challenges[k].value, c, channel) || IsVerified(d, call, k, c, channel)
  {
  }

  lemma VerifyFrom(d: Desk, limits: Limits, call: Call, channel: Channel)
    requires DeskInv(d, limits) && (call.op.VerifyEmailOp? || call.op.VerifyPhoneOp?)
    ensures AllFrom(d, None, call, Step(d, limits, call.now, call.op), channel)
  {
    var d' := Step(d, limits, call.now, call.op);
    if d' == d {
      InheritsSelf(d, channel);
    } else if call.op.VerifyEmailOp? {
      var k := IndexOf(d.challenges, call.op.id);
      TriedEmail(d, limits, call, k, call.op.code, channel);
      ChangeFrom(d, call, d', k, TryEmail(d.challenges[k].value, call.now, limits, call.op.code).0, channel);
    } else {
      var k := IndexOf(d.challenges, call.op.phoneId);
      TriedPhone(d, limits, call, k, call.op.phoneCode, channel);
      ChangeFrom(d, call, d', k, TryPhone(d.challenges[k].value, call.now, limits, call.op.phoneCode).0, channel);
    }
  }

  lemma PhoneRecordFrom(d: Desk, limits: Limits, call: Call, s: PhoneStart, channel: Channel, d': Desk, j: nat)
    requires DeskInv(d, limits) && Usable(limits) && call.op == StartPhoneOp(s)
    requires d' == StartPhone(d, call.now, limits, s).0 && j < |d'.challenges|
    ensures j < |d.challenges|
    ensures Inherits(d.challenges[j].value, d'.challenges[j].value, channel)
            || IsSent(Sent(d, limits, call, channel), d'.challenges[j].value, channel)
  {
    var k := IndexOf(d.challenges, s.id);
    CloseStaleAt(d.challenges, s.id, s.phone, call.now);
    PhoneSendsTo(d, limits, call, s, channel, d', k);
    if j != k || StartPhone(d, call.now, limits, s).1.Err? {
      PhoneRecordKeeps(d, limits, call.now, s, channel, d', j);
    }
  }

  lemma PhoneRecordKeeps(d: Desk, limits: Limits, now: int, s: PhoneStart, channel: Channel, d': Desk, j: nat)
    requires DeskInv(d, limits) && d' == StartPhone(d, now, limits, s).0 && j < |d.challenges| == |d'.challenges|
    requires j != IndexOf(d.challenges, s.id) || StartPhone(d, now, limits, s).1.Err?
    ensures Inherits(d.challenges[j].value, d'.challenges[j].value, channel)
  {
    CloseStaleAt(d.challenges, s.id, s.phone, now);
  }

  /** The record a phone code goes out for. */
  lemma PhoneSendsTo(d: Desk, limits: Limits, call: Call, s: PhoneStart, channel: Channel, d': Desk, k: nat)
    requires DeskInv(d, limits) && Usable(limits) && call.op == StartPhoneOp(s)
    requires d' == StartPhone(d, call.now, limits, s).0 && k == IndexOf(d.challenges, s.id)
    ensures |d'.challenges| == |d.challenges|
    ensures StartPhone(d, call.now, limits, s).1.Ok? ==>
              && k < |d.challenges| && Get(d'.challenges, s.id) == Some(d'.challenges[k].value)
              && (Inherits(d.challenges[k].value, d'.challenges[k].value, channel)
                  || IsSent(Sent(d, limits, call, channel), d'.challenges[k].value, channel))
  {
    if StartPhone(d, call.now, limits, s).1.Ok? {
      var c := d.challenges[k].value;
      assert Names(d, k, s.id, s.email) && Live(c, call.now);
      PhoneCodeGoesOutIff(d, call.now, limits, s, k);
      StepMoves(d, limits, call.now, call.op);
      IndexOfUnique(d'.challenges, k);
    }
  }

  lemma StartPhoneFrom(d: Desk, limits: Limits, call: Call, s: PhoneStart, channel: Channel)
    requires DeskInv(d, limits) && Usable(limits) && call.op == StartPhoneOp(s)
    ensures AllFrom(d, Sent(d, limits, call, channel), call, Step(d, limits, call.now, call.op), channel)
  {
    var d', sent := Step(d, limits, call.now, call.op), Sent(d, limits, call, channel);
    forall j | 0 <= j < |d'.challenges| ensures From(d, sent, call, d'.challenges[j].value, channel) {
      PhoneRecordFrom(d, limits, call, s, channel, d', j);
    }
  }

  lemma RefusedEmailFrom(d: Desk, limits: Limits, now: int, s: EmailStart, d': Desk, channel: Channel)
    requires StartEmail(d, now, limits, s).1.Err? && d' == StartEmail(d, now, limits, s).0
    ensures AllInherit(d, d', channel)
  {
    if d' == d {
      InheritsSelf(d, channel);
    } else {
      var k := First(d.challenges, PendingFor(s.email));
      ChangeInherits(d, d', k, Close(d.challenges[k].value, Locked), channel);
    }
  }

  lemma StartEmailFrom(d: Desk, limits: Limits, call: Call, s: EmailStart, channel: Channel)
    requires DeskInv(d, limits) && Usable(limits) && call.op == StartEmailOp(s)
    ensures AllFrom(d, Sent(d, limits, call, channel), call, Step(d, limits, call.now, call.op), channel)
  {
    var d', sent := Step(d, limits, call.now, call.op), Sent(d, limits, call, channel);
    StepMoves(d, limits, call.now, call.op);
    if StartEmail(d, call.now, limits, s).1.Err? {
      RefusedEmailFrom(d, limits, call.now, s, d', channel);
      InheritedIsFrom(d, sent, call, d', channel);
    } else {
      forall j | 0 <= j < |d'.challenges| ensures From(d, sent, call, d'.challenges[j].value, channel) {
        EachSentFrom(d, limits, call, s, channel, sent, d', j);
      }
    }
  }

  lemma EachSentFrom(d: Desk, limits: Limits, call: Call, s: EmailStart, channel: Channel, sent: Option<Sending>,
                     d': Desk, j: nat)
    requires DeskInv(d, limits) && call.op == StartEmailOp(s) && StartEmail(d, call.now, limits, s).1.Ok?
    requires sent == Sent(d, limits, call, channel) && d' == StartEmail(d, call.now, limits, s).0
    requires Distinct(d'.challenges) && j < |d'.challenges|
    ensures From(d, sent, call, d'.challenges[j].value, channel)
  {
    IndexOfUnique(d'.challenges, j);
    SentFrom(d, limits, call, s, channel, d'.challenges[j].key);
  }

  /** After an email code went out, what stands under an id was sent, is blank, or stood there before. */
  lemma SentFrom(d: Desk, limits: Limits, call: Call, s: EmailStart, channel: Channel, id: string)
    requires DeskInv(d, limits) && call.op == StartEmailOp(s) && StartEmail(d, call.now, limits, s).1.Ok?
    ensures var o := Get(StartEmail(d, call.now, limits, s).0.challenges, id);
            o.Some? ==> From(d, Sent(d, limits, call, channel), call, o.value, channel)
  {
    var k := First(d.challenges, PendingFor(s.email));
    if k < |d.challenges| && call.now < d.challenges[k].value.expiresAt {
      SentAgainFrom(d, limits, call, s, channel, id, k);
    } else {
      NoneAwaits(d, limits, s.email, call.now);
      SentFirstFrom(d, limits, call, s, channel, id);
    }
  }

  lemma NoneAwaits(d: Desk, limits: Limits, email: string, now: int)
    requires DeskInv(d, limits)
    requires var k := First(d.challenges, PendingFor(email));
             k == |d.challenges| || d.challenges[k].value.expiresAt <= now
    ensures forall h: nat | Awaits(d, h, email) :: d.challenges[h].value.expiresAt <= now
  {
    forall h: nat | Awaits(d, h, email) ensures d.challenges[h].value.expiresAt <= now {
      WaitsOnOne(d, limits, email, h);
    }
  }

  lemma SentAgainFrom(d: Desk, limits: Limits, call: Call, s: EmailStart, channel: Channel, id: string, k: nat)
    requires DeskInv(d, limits) && call.op == StartEmailOp(s) && StartEmail(d, call.now, limits, s).1.Ok?
    requires Awaits(d, k, s.email) && call.now < d.challenges[k].value.expiresAt
    ensures var o := Get(StartEmail(d, call.now, limits, s).0.challenges, id);
            o.Some? ==> From(d, Sent(d, limits, call, channel), call, o.value, channel)
  {
    var o, i := Get(StartEmail(d, call.now, limits, s).0.challenges, id), IndexOf(d.challenges, id);
    WaitsOnOne(d, limits, s.email, k);
    CodeGoesOutAgain(d, call.now, limits, s, k);
    if id == s.id && channel.Phone? {
      assert Inherits(d.challenges[k].value, o.value, channel);
    } else if id != s.id && o.Some? {
      assert Inherits(d.challenges[i].value, o.value, channel);
    }
  }

  lemma SentFirstFrom(d: Desk, limits: Limits, call: Call, s: EmailStart, channel: Channel, id: string)
    requires DeskInv(d, limits) && call.op == StartEmailOp(s) && StartEmail(d, call.now, limits, s).1.Ok?
    requires forall k: nat | Awaits(d, k, s.email) :: d.challenges[k].value.expiresAt <= call.now
    ensures var o := Get(StartEmail(d, call.now, limits, s).0.challenges, id);
            o.Some? ==> From(d, Sent(d, limits, call, channel), call, o.value, channel)
  {
    var o, i := Get(StartEmail(d, call.now, limits, s).0.challenges, id), IndexOf(d.challenges, id);
    FirstCodeStartsARecord(d, call.now, limits, s);
    if id != s.id && o.Some? {
      assert Inherits(d.challenges[i].value, o.value, channel);
    }
  }

  lemma CompleteFrom(d: Desk, limits: Limits, call: Call, a: Application, channel: Channel)
    requires DeskInv(d, limits) && call.op == CompleteOp(a)
    ensures AllInherit(d, Step(d, limits, call.now, call.op), channel)
  {
    var d', k := Complete(d, call.now, a).0, IndexOf(d.challenges, a.id);
    forall j | 0 <= j < |d'.challenges| ensures Inherited(d, d'.challenges[j].value, channel) {
      assert Inherits(d.challenges[j].value, d'.challenges[j].value, channel);
    }
  }

  lemma CleanupFrom(d: Desk, limits: Limits, call: Call, channel: Channel)
    requires call.op.CleanupOp?
    ensures AllInherit(d, Step(d, limits, call.now, call.op), channel)
  {
    var m, d' := d.challenges, Step(d, limits, call.now, call.op);
    var p := CleanupHandles(d, call.now, call.op.limit);
    var handled := Fated(m[..p], call.now);
    forall j | 0 <= j < |d'.challenges| ensures Inherited(d, d'.challenges[j].value, channel) {
      if j < |handled| {
        var i := FatedFrom(m[..p], call.now, j, channel);
        assert m[..p][i] == m[i];
      } else {
        assert d'.challenges[j] == m[p + (j - |handled|)];
        assert Inherits(m[p + (j - |handled|)].value, d'.challenges[j].value, channel);
      }
    }
  }

  lemma {:induction false} FatedFrom(m: Dict<Challenge>, now: int, j: nat, channel: Channel) returns (i: nat)
    requires j < |Fated(m, now)|
    ensures i < |m| && Inherits(m[i].value, Fated(m, now)[j].value, channel)
  {
    var first := Fated(m, now)[..|Fated(m, now)| - |Fated(m[1..], now)|];
    if j < |first| {
      i := 0;
    } else {
      var h := FatedFrom(m[1..], now, j - |first|, channel);
      i := h + 1;
    }
  }

  lemma InvalidateFrom(d: Desk, limits: Limits, call: Call, channel: Channel)
    requires call.op.InvalidateOp?
    ensures AllInherit(d, Step(d, limits, call.now, call.op), channel)
  {
    var d' := Step(d, limits, call.now, call.op);
    forall j | 0 <= j < |d'.challenges| ensures Inherited(d, d'.challenges[j].value, channel) {
      assert Inherits(d.challenges[j].value, d'.challenges[j].value, channel);
    }
  }

  lemma StepFrom(d: Desk, limits: Limits, call: Call, channel: Channel)
    requires DeskInv(d, limits) && Usable(limits)
    ensures AllFrom(d, Sent(d, limits, call, channel), call, Step(d, limits, call.now, call.op), channel)
  {
    var d', sent := Step(d, limits, call.now, call.op), Sent(d, limits, call, channel);
    match call.op
    case StartEmailOp(s) => StartEmailFrom(d, limits, call, s, channel);
    case VerifyEmailOp(_, _, _) => VerifyFrom(d, limits, call, channel);
    case StartPhoneOp(s) => StartPhoneFrom(d, limits, call, s, channel);
    case VerifyPhoneOp(_, _, _, _) => VerifyFrom(d, limits, call, channel);
    case InvalidateOp(_, _, _) => InvalidateFrom(d, limits, call, channel);
    case CompleteOp(a) => CompleteFrom(d, limits, call, a, channel);
    case CleanupOp(_) => CleanupFrom(d, limits, call, channel);
    case EnrolOp(_, _, _) => InheritsSelf(d, channel);
  }

  // ---- Over every run ----

  /** What the records store is what a function of their serial numbers says. */
  ghost predicate Stores(m: Dict<Challenge>, last: nat -> Option<string>, channel: Channel) {
    forall j | 0 <= j < |m| && CodeOf(m[j].value, channel).Some? ::
      CodeOf(m[j].value, channel) == last(m[j].value.serial)
  }

  ghost function LastOf(limits: Limits, calls: seq<Call>, n: nat, channel: Channel): nat -> Option<string>
    requires n <= |calls|
  {
    (serial: nat) => LastSent(limits, calls, n, serial, channel)
  }

  ghost function Updated(last: nat -> Option<string>, sent: Option<Sending>): nat -> Option<string> {
    (serial: nat) => if sent.Some? && sent.value.serial == serial then Some(sent.value.code) else last(serial)
  }

  lemma NextStep(limits: Limits, calls: seq<Call>, n: nat)
    requires n < |calls| && Usable(limits)
    ensures var d := Run(EmptyDesk, limits, calls[..n]);
            && DeskInv(d, limits)
            && Run(EmptyDesk, limits, calls[..n + 1]) == Step(d, limits, calls[n].now, calls[n].op)
            && Moves(d, Step(d, limits, calls[n].now, calls[n].op), limits)
  {
    var d := Run(EmptyDesk, limits, calls[..n]);
    assert calls[..n + 1] == calls[..n] + [calls[n]] && [calls[n]][1..] == [];
    RunConcat(EmptyDesk, limits, calls[..n], [calls[n]], "");
    EmptyInv(limits);
    RunMoves(EmptyDesk, limits, calls[..n]);
    StepMoves(d, limits, calls[n].now, calls[n].op);
  }

  /** The record a code goes out for stores that code. */
  lemma SentIsStored(d: Desk, limits: Limits, call: Call, channel: Channel, j: nat)
    requires DeskInv(d, limits) && DeskInv(Step(d, limits, call.now, call.op), limits)
    requires var d' := Step(d, limits, call.now, call.op);
             j < |d'.challenges| && Sent(d, limits, call, channel).Some?
             && Sent(d, limits, call, channel).value.serial == d'.challenges[j].value.serial
    ensures IsSent(Sent(d, limits, call, channel), Step(d, limits, call.now, call.op).challenges[j].value, channel)
  {
    var d' := Step(d, limits, call.now, call.op);
    var id := if call.op.StartEmailOp? then call.op.start.id else call.op.phoneStart.id;
    var i := IndexOf(d'.challenges, id);
    ApartAt(d'.challenges, i, j);
    if call.op.StartPhoneOp? {
      CloseStaleAt(d.challenges, id, call.op.phoneStart.phone, call.now);
    } else {
      SentEmailIsStored(d, limits, call.now, call.op.start);
    }
  }

  lemma SentEmailIsStored(d: Desk, limits: Limits, now: int, s: EmailStart)
    requires DeskInv(d, limits) && StartEmail(d, now, limits, s).1.Ok?
    ensures var o := Get(StartEmail(d, now, limits, s).0.challenges, s.id);
            o.Some? && o.value.emailCode == Some(s.code) && o.value.emailVerifiedAt == 0
  {
    var k := First(d.challenges, PendingFor(s.email));
    if k < |d.challenges| && now < d.challenges[k].value.expiresAt {
      CodeGoesOutAgain(d, now, limits, s, k);
    } else {
      NoneAwaits(d, limits, s.email, now);
      FirstCodeStartsARecord(d, now, limits, s);
    }
  }

  lemma StepStores(d: Desk, limits: Limits, call: Call, channel: Channel, last: nat -> Option<string>, d': Desk)
    requires DeskInv(d, limits) && Usable(limits) && Stores(d.challenges, last, channel)
    requires d' == Step(d, limits, call.now, call.op)
    ensures Stores(d'.challenges, Updated(last, Sent(d, limits, call, channel)), channel)
  {
    var sent := Sent(d, limits, call, channel);
    StepFrom(d, limits, call, channel);
    StepMoves(d, limits, call.now, call.op);
    forall j | 0 <= j < |d'.challenges| && CodeOf(d'.challenges[j].value, channel).Some?
      ensures CodeOf(d'.challenges[j].value, channel) == Updated(last, sent)(d'.challenges[j].value.serial)
    {
      if sent.Some? && sent.value.serial == d'.challenges[j].value.serial {
        SentIsStored(d, limits, call, channel, j);
      } else {
        assert From(d, sent, call, d'.challenges[j].value, channel);
      }
    }
  }

  lemma {:induction false} StoredWasLastSent(limits: Limits, calls: seq<Call>, n: nat, channel: Channel)
    requires n <= |calls| && Usable(limits)
    ensures Stores(Run(EmptyDesk, limits, calls[..n]).challenges, LastOf(limits, calls, n, channel), channel)
  {
    if n == 0 {
      NothingAtFirst(limits, calls);
    } else {
      StoredWasLastSent(limits, calls, n - 1, channel);
      NextStep(limits, calls, n - 1);
      var d, last := Run(EmptyDesk, limits, calls[..n - 1]), LastOf(limits, calls, n - 1, channel);
      var d' := Run(EmptyDesk, limits, calls[..n]);
      StepStores(d, limits, calls[n - 1], channel, last, d');
      assert forall serial: nat :: Updated(last, Sent(d, limits, calls[n - 1], channel))(serial)
                                   == LastOf(limits, calls, n, channel)(serial);
    }
  }

  lemma NothingAtFirst(limits: Limits, calls: seq<Call>)
    ensures Run(EmptyDesk, limits, calls[..0]).challenges == []
  {
    assert calls[..0] == [];
  }

  /** Call p of the run, at the moment the channel was verified, brought back, for that very record, the
      code that was last sent for it before the call. */
  predicate VerifiedByCall(limits: Limits, calls: seq<Call>, p: nat, i: nat, c: Challenge, channel: Channel)
    requires p < |calls|
  {
    var d, sent := Run(EmptyDesk, limits, calls[..p]), LastSent(limits, calls, p, c.serial, channel);
    && calls[p].now == VerifiedAt(c, channel)
    && sent.Some? && Brings(d, calls[p], i, channel, sent.value)
    && d.challenges[i].value.serial == c.serial
  }

  lemma VerifiedNow(limits: Limits, calls: seq<Call>, p: nat, i: nat, o: Challenge, channel: Channel, d: Desk)
    requires p < |calls| && Usable(limits) && d == Run(EmptyDesk, limits, calls[..p])
    requires IsVerified(d, calls[p], i, o, channel)
    ensures VerifiedByCall(limits, calls, p, i, o, channel)
  {
    StoredWasLastSent(limits, calls, p, channel);
    var c := d.challenges[i].value;
    assert CodeOf(c, channel) == LastOf(limits, calls, p, channel)(c.serial);
  }

  /** A verified record was verified by this call, or is one that was verified before it. */
  lemma NowOrBefore(d: Desk, limits: Limits, call: Call, channel: Channel, o: Challenge)
    requires DeskInv(d, limits) && Usable(limits) && VerifiedAt(o, channel) != 0
    requires From(d, Sent(d, limits, call, channel), call, o, channel)
    ensures (exists i: nat :: IsVerified(d, call, i, o, channel)) || Inherited(d, o, channel)
  {
  }

  lemma {:induction false} VerifiedByTheCodeLastSent(limits: Limits, calls: seq<Call>, n: nat, channel: Channel,
                                                     c: Challenge) returns (p: nat, i: nat)
    requires n <= |calls| && Usable(limits) && VerifiedAt(c, channel) != 0
    requires exists id :: Entry(id, c) in Run(EmptyDesk, limits, calls[..n]).challenges
    ensures p < n && VerifiedByCall(limits, calls, p, i, c, channel)
  {
    NothingAtFirst(limits, calls);
    if n > 0 {
      NextStep(limits, calls, n - 1);
      var d, call := Run(EmptyDesk, limits, calls[..n - 1]), calls[n - 1];
      StepFrom(d, limits, call, channel);
      NowOrBefore(d, limits, call, channel, c);
      if h: nat :| IsVerified(d, call, h, c, channel) {
        VerifiedNow(limits, calls, n - 1, h, c, channel, d);
        p, i := n - 1, h;
      } else {
        var h :| 0 <= h < |d.challenges| && Inherits(d.challenges[h].value, c, channel);
        assert Entry(d.challenges[h].key, d.challenges[h].value) in d.challenges;
        p, i := VerifiedByTheCodeLastSent(limits, calls, n - 1, channel, d.challenges[h].value);
      }
    }
  }
}

/** The session of the mobile app: a record in the secure store, a logout marker, an old plaintext
    token and chat history in local storage. Any storage call may throw; a write may be lost, or
    take effect although it throws. */
module MobileSession {
  import opened Common

  const MAXIMUM_TOKEN_LENGTH := 8_192

  predicate ValidToken(t: string) {
    0 < |t| <= MAXIMUM_TOKEN_LENGTH && forall i | 0 <= i < |t| :: ' ' < t[i] && t[i] != '\U{7f}'
  }

  /** What the secure store holds, decoded. A raw token is one from before the record format. */
  datatype Secure = Empty | LogoutRecord | Token(token: string) | RawToken(token: string) | Invalid

  datatype Store = Store(secure: Secure, marker: bool, plain: Option<string>, history: bool)

  /** A call returns, or throws; an error may say that the credential is already cleared. */
  datatype Try<+T> = Returned(value: T) | Threw(credentialCleared: bool)

  predicate Holds(secure: Secure, t: string) {
    secure == Token(t) || secure == RawToken(t)
  }

  /** The secure store holds another token than the one expected to be cleared. */
  predicate Mismatch(secure: Secure, expected: Option<string>) {
    (secure.Token? || secure.RawToken?) && expected.Some? && secure.token != expected.value
  }

  /** A load can only bring back a token from here. */
  predicate MayYield(s: Store, t: string) {
    !s.marker && (Holds(s.secure, t) || (s.secure == Empty && s.plain == Some(t) && ValidToken(t)))
  }

  /** The tombstone is in the secure store, or the marker asks for it. */
  predicate Fenced(s: Store) {
    s.marker || s.secure == LogoutRecord
  }

  // ---- What a load, a logout and a sign-in may do, whatever storage does ----

  ghost predicate LoadStep(s: Store, s': Store, r: Try<Option<string>>) {
    && (r.Returned? && r.value.Some? ==>
          MayYield(s, r.value.value) && s'.secure == Token(r.value.value) && s'.plain == None && !s'.marker)
    && (r.Returned? && r.value.None? ==>
          s'.plain == None && !s'.marker
          && ((s'.secure == LogoutRecord && !s'.history) || (!s.marker && s.secure == Empty && s'.secure == Empty)))
    && (s.secure == LogoutRecord ==> s'.secure == LogoutRecord)
    && (s.marker ==> s'.marker || s'.secure == LogoutRecord)
  }

  ghost predicate LogoutStep(s: Store, s': Store, expected: Option<string>, clearHistory: bool, writeAhead: bool,
                             r: Try<bool>)
  {
    && (r == Returned(true)
        ==> s'.secure == LogoutRecord && !s'.marker && s'.plain == None && (clearHistory ==> !s'.history))
    && (r == Returned(false) ==> Mismatch(s.secure, expected) && s'.secure == s.secure)
    && (r == Threw(true) ==> s'.secure == LogoutRecord)
    && (s'.secure == s.secure || s'.secure == LogoutRecord)
    && (s.marker && !(writeAhead && Mismatch(s.secure, expected)) ==> s'.marker || s'.secure == LogoutRecord)
  }

  // ---- What they do when storage behaves ----

  function LoggedOut(s: Store, clearHistory: bool): Store {
    Store(LogoutRecord, false, None, s.history && !clearHistory)
  }

  function ReliableLogout(s: Store, expected: Option<string>, clearHistory: bool, writeAhead: bool): (Store, Try<bool>)
  {
    if Mismatch(s.secure, expected) then (if writeAhead then s.(marker := false) else s, Returned(false))
    else (LoggedOut(s, clearHistory), Returned(true))
  }

  function ReliableLoad(s: Store): (Store, Try<Option<string>>) {
    if s.marker || s.secure == LogoutRecord || s.secure == Invalid then (LoggedOut(s, true), Returned(None))
    else if s.secure.Token? || s.secure.RawToken? then
      (s.(secure := Token(s.secure.token), plain := None), Returned(Some(s.secure.token)))
    else if s.plain.Some? && ValidToken(s.plain.value) then
      (s.(secure := Token(s.plain.value), plain := None), Returned(Some(s.plain.value)))
    else (s.(plain := None), Returned(None))
  }

  function ReliableSignIn(s: Store, t: string): Store {
    if s.marker || s.secure == LogoutRecord || s.secure == Invalid then LoggedOut(s, true).(secure := Token(t))
    else s.(secure := Token(t), plain := None)
  }

  class Device {
    var secure: Secure
    var marker: bool
    var plain: Option<string>
    var history: bool
    /** No call to the secure store fails. */
    const secureWorks: bool
    /** No call to local storage fails, except that a marker may find no room while the old plaintext
        token is there. */
    const localWorks: bool
    /** There is always room for a marker. */
    const roomy: bool
    /** No storage call fails. */
    const reliable: bool := secureWorks && localWorks && roomy

    ghost function View(): Store
      reads this
    {
      Store(secure, marker, plain, history)
    }

    // ---- Storage calls ----

    method WriteSecure(r: Secure) returns (threw: bool)
      modifies this`secure
      ensures secure == r || secure == old(secure)
      ensures secureWorks ==> !threw && secure == r
    {
      var effect: bool := *;
      threw := *;
      if effect || secureWorks {
        secure := r;
      }
      threw := threw && !secureWorks;
    }

    method ReadSecure() returns (r: Try<Secure>)
      ensures r.Returned? ==> r.value == secure
      ensures secureWorks ==> r.Returned?
    {
      var threw: bool := *;
      r := if threw && !secureWorks then Threw(false) else Returned(secure);
    }

    method WriteMarker(pending: bool) returns (threw: bool)
      modifies this`marker
      ensures marker == pending || marker == old(marker)
      ensures localWorks && (pending ==> HasRoom()) ==> !threw && marker == pending
    {
      var effect: bool := *;
      threw := *;
      var works := localWorks && (!pending || HasRoom());
      if effect || works {
        marker := pending;
      }
      threw := threw && !works;
    }

    predicate HasRoom()
      reads this`plain
    {
      roomy || plain == None
    }

    method ReadMarker() returns (r: Try<bool>)
      ensures r.Returned? ==> r.value == marker
      ensures localWorks ==> r.Returned?
    {
      var threw: bool := *;
      r := if threw && !localWorks then Threw(false) else Returned(marker);
    }

    method ErasePlain() returns (threw: bool)
      modifies this`plain
      ensures plain == None || plain == old(plain)
      ensures localWorks ==> !threw && plain == None
    {
      var effect: bool := *;
      threw := *;
      if effect || localWorks {
        plain := None;
      }
      threw := threw && !localWorks;
    }

    method ReadPlain() returns (r: Try<Option<string>>)
      ensures r.Returned? ==> r.value == plain
      ensures localWorks ==> r.Returned?
    {
      var threw: bool := *;
      r := if threw && !localWorks then Threw(false) else Returned(plain);
    }

    // ---- The secure store ----

    /** Write a record and read it back. */
    method WriteAndVerify(record: Secure) returns (r: Try<()>)
      modifies this`secure
      ensures secure == record || secure == old(secure)
      ensures r.Returned? ==> secure == record
      ensures secureWorks ==> r.Returned?
    {
      var threw := WriteSecure(record);
      if threw {
        return Threw(false);
      }
      var back := ReadSecure();
      if back.Threw? || back.value != record {
        return Threw(false);
      }
      r := Returned(());
    }

    method LoadSessionCleanupPending() returns (r: Try<bool>)
      modifies this`secure
      ensures r == Returned(true) ==> secure == LogoutRecord
      ensures r == Returned(false) ==> secure == old(secure) && secure != LogoutRecord && secure != Invalid
      ensures secure == old(secure) || secure == LogoutRecord
      ensures secureWorks ==> r == Returned(old(secure) == LogoutRecord || old(secure) == Invalid)
    {
      var read := ReadSecure();
      if read.Threw? {
        return Threw(false);
      }
      if read.value == LogoutRecord {
        return Returned(true);
      }
      if read.value != Invalid {
        return Returned(false);
      }
      var replaced := WriteAndVerify(LogoutRecord);
      r := if replaced.Threw? then Threw(false) else Returned(true);
    }

    method LoadSessionToken() returns (r: Try<Option<string>>)
      modifies this`secure
      ensures r.Returned? && r.value.Some? ==> Holds(old(secure), r.value.value) && secure == Token(r.value.value)
      ensures r == Returned(None) ==> secure == old(secure) && secure in {Empty, LogoutRecord}
      ensures old(secure) == Invalid ==> r.Threw?
      ensures secure == old(secure) || secure == LogoutRecord
              || (old(secure).RawToken? && secure == Token(old(secure).token))
      ensures old(secure) == LogoutRecord ==> secure == LogoutRecord
      ensures secureWorks && old(secure) in {Empty, LogoutRecord} ==> r == Returned(None)
      ensures secureWorks && (old(secure).Token? || old(secure).RawToken?) ==> r == Returned(Some(old(secure).token))
    {
      var read := ReadSecure();
      if read.Threw? {
        return Threw(false);
      }
      match read.value
      case Empty => r := Returned(None);
      case LogoutRecord => r := Returned(None);
      case Invalid =>
        var _ := WriteAndVerify(LogoutRecord);
        r := Threw(false);
      case RawToken(t) =>
        var migrated := WriteAndVerify(Token(t));
        r := if migrated.Threw? then Threw(false) else Returned(Some(t));
      case Token(t) => r := Returned(Some(t));
    }

    method SaveSessionToken(t: string) returns (r: Try<()>)
      modifies this`secure
      ensures r.Returned? ==> secure == Token(t)
      ensures secure == old(secure) || secure == Token(t) || secure == LogoutRecord
      ensures secureWorks && ValidToken(t) ==> r.Returned?
    {
      var available := ReadSecure();
      if available.Threw? || !ValidToken(t) {
        return Threw(false);
      }
      r := WriteAndVerify(Token(t));
      if r.Threw? {
        var _ := WriteAndVerify(LogoutRecord);
      }
    }

    /** Replace what is stored by the tombstone, unless it is another token than the expected one. */
    method ClearSessionToken(expected: Option<string>) returns (r: Try<bool>)
      modifies this`secure
      ensures r == Returned(true) ==> secure == LogoutRecord
      ensures r == Returned(false) ==> secure == old(secure) && Mismatch(secure, expected)
      ensures r.Threw? ==> !r.credentialCleared
      ensures secure == old(secure) || secure == LogoutRecord
      ensures Mismatch(old(secure), expected) ==> secure == old(secure)
      ensures secureWorks ==> r == Returned(!Mismatch(old(secure), expected))
    {
      var read := ReadSecure();
      if read.Threw? {
        return Threw(false);
      }
      if Mismatch(read.value, expected) {
        return Returned(false);
      }
      var replaced := WriteAndVerify(LogoutRecord);
      r := if replaced.Threw? then Threw(false) else Returned(true);
    }

    // ---- Local storage ----

    method RemovePlaintextToken() returns (r: Try<()>)
      modifies this`plain
      ensures r.Returned? ==> plain == None
      ensures plain == None || plain == old(plain)
      ensures localWorks ==> r.Returned?
    {
      var threw := ErasePlain();
      if threw {
        return Threw(false);
      }
      var back := ReadPlain();
      r := if back.Threw? || back.value.Some? then Threw(false) else Returned(());
    }

    method SetLogoutPending(pending: bool) returns (r: Try<()>)
      modifies this`marker
      ensures r.Returned? ==> marker == pending
      ensures marker == pending || marker == old(marker)
      ensures localWorks && (pending ==> HasRoom()) ==> r.Returned?
    {
      var threw := WriteMarker(pending);
      if threw {
        return Threw(false);
      }
      var back := ReadMarker();
      r := if back.Threw? || back.value != pending then Threw(false) else Returned(());
    }

    method ClearHistory() returns (r: Try<()>)
      modifies this`history
      ensures r.Returned? ==> !history
      ensures history ==> old(history)
      ensures localWorks ==> r.Returned?
    {
      var effect: bool := *;
      var threw: bool := *;
      if effect || localWorks {
        history := false;
      }
      r := if (threw && !localWorks) || history then Threw(false) else Returned(());
    }

    // ---- Logout ----

    /** Write the marker ahead of the tombstone, making room for it by removing the old token. */
    method WriteAheadMarker() returns (written: bool, plainRemoved: bool)
      modifies this`marker, this`plain
      ensures written ==> marker
      ensures plainRemoved ==> plain == None
      ensures old(marker) ==> marker
      ensures plain == None || plain == old(plain)
      ensures localWorks ==> written && (roomy ==> plain == old(plain))
    {
      plainRemoved := false;
      var first := SetLogoutPending(true);
      written := first.Returned?;
      if !written {
        var removed := RemovePlaintextToken();
        plainRemoved := removed.Returned?;
        var second := SetLogoutPending(true);
        written := second.Returned?;
      }
    }

    /** The clean-up that follows a written tombstone. */
    method FinishLogout(clearHistory: bool, plainRemoved: bool) returns (r: Try<bool>)
      requires plainRemoved ==> plain == None
      modifies this`marker, this`plain, this`history
      ensures r.Returned? ==> r.value && !marker && plain == None && (clearHistory ==> !history)
      ensures r.Threw? ==> r.credentialCleared
      ensures localWorks ==> r.Returned? && history == (old(history) && !clearHistory)
    {
      var plainError, historyError := false, false;
      if !plainRemoved {
        var removed := RemovePlaintextToken();
        plainError := removed.Threw?;
      }
      if clearHistory {
        var forgot := ClearHistory();
        historyError := forgot.Threw?;
      }
      if plainError || historyError {
        var _ := SetLogoutPending(true);
        return Threw(true);
      }
      var lifted := SetLogoutPending(false);
      r := if lifted.Threw? then Threw(true) else Returned(true);
    }

    method ClearMobileSession(expected: Option<string>, clearHistory: bool, writeAhead: bool) returns (r: Try<bool>)
      modifies this
      ensures LogoutStep(old(View()), View(), expected, clearHistory, writeAhead, r)
      ensures reliable ==> (View(), r) == ReliableLogout(old(View()), expected, clearHistory, writeAhead)
      ensures (secureWorks || (localWorks && writeAhead)) && !Mismatch(old(secure), expected) ==> Fenced(View())
    {
      var markerWritten, plainRemoved := false, false;
      if writeAhead {
        markerWritten, plainRemoved := WriteAheadMarker();
      }
      var cleared := ClearSessionToken(expected);
      if cleared.Threw? {
        if writeAhead && !markerWritten {
          if !plainRemoved {
            var _ := RemovePlaintextToken();
          }
          var _ := SetLogoutPending(true);
        }
        return Threw(false);
      }
      if !cleared.value {
        if markerWritten {
          var lifted := SetLogoutPending(false);
          if lifted.Threw? {
            return Threw(false);
          }
        }
        return Returned(false);
      }
      r := FinishLogout(clearHistory, plainRemoved);
    }

    /** Without the native bridge nothing is loaded or cleared; the marker keeps the app out. */
    method MarkPendingWithoutBridge(clearHistory: bool)
      modifies this`marker, this`plain, this`history
      ensures old(marker) ==> marker
      ensures localWorks ==> marker && plain == None && history == (old(history) && !clearHistory)
    {
      var _ := SetLogoutPending(true);
      var read := ReadMarker();
      var written := read.Returned? && read.value;
      var _ := RemovePlaintextToken();
      if !written {
        var again := SetLogoutPending(true);
        written := again.Returned?;
      }
      if clearHistory && written {
        var _ := ClearHistory();
      }
    }

    /** An explicit logout that cleared nothing throws. */
    method LogoutCod(bridge: bool, expected: Option<string>, explicitly: bool, clearHistory: bool, writeAhead: bool)
      returns (r: Try<bool>)
      modifies this
      ensures LogoutStep(old(View()), View(), expected, clearHistory, writeAhead, r)
      ensures explicitly ==> r != Returned(false)
      ensures reliable && bridge ==>
                var (s, cleared) := ReliableLogout(old(View()), expected, clearHistory, writeAhead);
                View() == s && r == if explicitly && cleared == Returned(false) then Threw(false) else cleared
      ensures bridge && (secureWorks || (localWorks && writeAhead)) && !Mismatch(old(secure), expected)
              ==> Fenced(View())
      ensures !bridge && localWorks ==> marker && plain == None
    {
      if !bridge {
        MarkPendingWithoutBridge(clearHistory);
        return Threw(false);
      }
      r := ClearMobileSession(expected, clearHistory, writeAhead);
      if explicitly && r == Returned(false) {
        r := Threw(false);
      }
    }

    // ---- Load ----

    /** The marker cannot be read: log out by every means left. */
    method FailClosed()
      modifies this
      ensures secure == old(secure) || secure == LogoutRecord
      ensures old(marker) ==> marker
      ensures secureWorks ==> secure == LogoutRecord
      ensures localWorks ==> marker && plain == None && !history
    {
      var _ := ClearSessionToken(None);
      var _ := RemovePlaintextToken();
      var _ := SetLogoutPending(true);
      var _ := ClearHistory();
    }

    /** Bring back the token of the secure store, or move an old plaintext token into it. */
    method Restore(legacy: Option<string>) returns (r: Try<Option<string>>)
      requires secure != LogoutRecord && secure != Invalid && (legacy.Some? ==> legacy == plain)
               && (reliable ==> legacy == plain)
      modifies this`secure, this`plain
      ensures r.Returned? && r.value.Some? ==>
                secure == Token(r.value.value) && plain == None
                && (Holds(old(secure), r.value.value)
                    || (old(secure) == Empty && old(plain) == r.value && ValidToken(r.value.value)))
      ensures r == Returned(None) ==> plain == None && secure == Empty && old(secure) == Empty
      ensures reliable && !marker ==> (View(), r) == ReliableLoad(old(View()))
    {
      var stored := LoadSessionToken();
      if stored.Threw? {
        return Threw(false);
      }
      if stored.value.None? && legacy.Some? && ValidToken(legacy.value) {
        var saved := SaveSessionToken(legacy.value);
        if saved.Threw? {
          return Threw(false);
        }
        var back := LoadSessionToken();
        if back.Threw? || back.value != legacy {
          return Threw(false);
        }
        stored := back;
      }
      var removed := RemovePlaintextToken();
      r := if removed.Threw? then Threw(false) else stored;
    }

    method LoadPersistedSessionToken(bridge: bool) returns (r: Try<Option<string>>)
      modifies this
      ensures LoadStep(old(View()), View(), r)
      ensures reliable && bridge ==> (View(), r) == ReliableLoad(old(View()))
      ensures r.Threw? && (localWorks || (bridge && secureWorks)) ==> Fenced(View())
    {
      var read := ReadPlain();
      var legacy := if read.Returned? then read.value else None;
      if !bridge {
        MarkPendingWithoutBridge(true);
        return Threw(false);
      }
      var pending := ReadMarker();
      if pending.Threw? {
        FailClosed();
        return Threw(false);
      }
      var securePending := LoadSessionCleanupPending();
      if securePending.Threw? {
        var _ := ClearMobileSession(None, true, true);
        return Threw(false);
      }
      if pending.value || securePending.value {
        var cleared := ClearMobileSession(None, true, true);
        return if cleared == Returned(true) then Returned(None) else Threw(false);
      }
      r := Restore(legacy);
      if r.Threw? {
        var _ := ClearMobileSession(None, false, true);
      }
    }

    // ---- Sign-in ----

    method PersistCodSession(bridge: bool, t: string) returns (r: Try<()>)
      modifies this
      ensures r.Returned? ==> View() == Store(Token(t), false, None, history) && ValidToken(t)
      ensures r.Returned? && Fenced(old(View())) ==> !history
      ensures reliable && bridge && ValidToken(t) ==> r.Returned? && View() == ReliableSignIn(old(View()), t)
      ensures r.Threw? && localWorks && secure == Token(t) ==> marker || secure == old(secure)
    {
      if !ValidToken(t) {
        return Threw(false);
      }
      if !bridge {
        MarkPendingWithoutBridge(false);
        return Threw(false);
      }
      var localPending := ReadMarker();
      if localPending.Threw? {
        return Threw(false);
      }
      var securePending := LoadSessionCleanupPending();
      if securePending.Threw? {
        return Threw(false);
      }
      if localPending.value || securePending.value {
        var cleared := ClearMobileSession(None, true, true);
        if cleared != Returned(true) {
          return Threw(false);
        }
      }
      var removed := RemovePlaintextToken();
      if removed.Threw? {
        return Threw(false);
      }
      var saved := SaveSessionToken(t);
      var back: Try<Option<string>> := Threw(false);
      if saved.Returned? {
        back := LoadSessionToken();
      }
      if back != Returned(Some(t)) {
        var _ := ClearMobileSession(Some(t), false, true);
        return Threw(false);
      }
      r := Returned(());
    }

    // ---- Any sequence of loads and logouts ----

    /** After a logout that returned true: no load or logout that follows, in any number and order
        and with any storage call failing, yields a token. */
    method LoadsAndLogouts(calls: seq<SessionCall>) returns (tokens: seq<Option<string>>)
      requires secure == LogoutRecord
      modifies this
      ensures secure == LogoutRecord
      ensures forall i | 0 <= i < |tokens| :: tokens[i] == None
    {
      tokens := [];
      for i := 0 to |calls|
        invariant secure == LogoutRecord
        invariant forall j | 0 <= j < |tokens| :: tokens[j] == None
      {
        match calls[i]
        case LoadCall(bridge) =>
          var r := LoadPersistedSessionToken(bridge);
          tokens := tokens + [if r.Returned? then r.value else None];
        case LogoutCall(bridge, expected, explicitly, clearHistory, writeAhead) =>
          var _ := LogoutCod(bridge, expected, explicitly, clearHistory, writeAhead);
      }
    }
  }

  datatype SessionCall =
    | LoadCall(bridge: bool)
    | LogoutCall(bridge: bool, expected: Option<string>, explicitly: bool, clearHistory: bool, writeAhead: bool)

  // ---- Traces ----

  /** What happened at a call: its result, whatever storage did. */
  datatype Happened =
    | Loaded(token: Try<Option<string>>)
    | LoggedOff(expected: Option<string>, clearHistory: bool, writeAhead: bool, result: Try<bool>)

  ghost predicate Follows(s: Store, s': Store, h: Happened) {
    match h
    case Loaded(r) => LoadStep(s, s', r)
    case LoggedOff(expected, clearHistory, writeAhead, r) => LogoutStep(s, s', expected, clearHistory, writeAhead, r)
  }

  ghost predicate Trace(stores: seq<Store>, happened: seq<Happened>) {
    |stores| == |happened| + 1 && forall i: nat | i < |happened| :: Follows(stores[i], stores[i + 1], happened[i])
  }

  predicate YieldsToken(h: Happened) {
    h.Loaded? && h.token.Returned? && h.token.value.Some?
  }

  /** The one call that can lift the fence without a tombstone: a logout that writes its marker
      ahead and expects another token than the one stored. */
  predicate Lifts(s: Store, h: Happened) {
    h.LoggedOff? && h.writeAhead && Mismatch(s.secure, h.expected)
  }

  /** Once a logout has returned true, or left its marker behind, no load yields a token as long as
      no logout with the wrong token lifts the marker. */
  lemma {:induction false} FencedUntilLifted(stores: seq<Store>, happened: seq<Happened>, i: nat)
    requires Trace(stores, happened) && Fenced(stores[0]) && i < |stores|
    requires forall j: nat | j < i :: !Lifts(stores[j], happened[j])
    ensures Fenced(stores[i]) && (i < |happened| ==> !YieldsToken(happened[i]))
  {
    if i > 0 {
      FencedUntilLifted(stores, happened, i - 1);
      assert Follows(stores[i - 1], stores[i], happened[i - 1]);
    }
    if i < |happened| {
      assert Follows(stores[i], stores[i + 1], happened[i]);
    }
  }

  /** With the tombstone written nothing lifts the fence. */
  lemma {:induction false} DurableLogout(stores: seq<Store>, happened: seq<Happened>, k: nat, i: nat)
    requires Trace(stores, happened) && k < i < |stores|
    requires happened[k].LoggedOff? && happened[k].result in {Returned(true), Threw(true)}
    ensures stores[i].secure == LogoutRecord && (i < |happened| ==> !YieldsToken(happened[i]))
  {
    if i == k + 1 {
      assert Follows(stores[k], stores[i], happened[k]);
    } else {
      DurableLogout(stores, happened, k, i - 1);
      assert Follows(stores[i - 1], stores[i], happened[i - 1]);
    }
    if i < |happened| {
      assert Follows(stores[i], stores[i + 1], happened[i]);
    }
  }

  /** A marker alone survives a logout exactly when the logout does not lift it: even with storage
      that never fails, the wrong expected token brings the stored one back. */
  lemma MarkerLiftedIff(s: Store, expected: Option<string>, clearHistory: bool, writeAhead: bool)
    requires Fenced(s)
    ensures var (s', r) := ReliableLogout(s, expected, clearHistory, writeAhead);
            && (!Fenced(s') <==> Lifts(s, LoggedOff(expected, clearHistory, writeAhead, r)))
            && (!Fenced(s') ==> YieldsToken(Loaded(ReliableLoad(s').1)))
  {
  }

  /** How that comes about: a logout that throws leaves its marker and the token; from then on storage
      behaves; a logout that expects another token lifts the marker; the next load yields the token. */
  lemma MarkerIsLifted() returns (stores: seq<Store>, happened: seq<Happened>)
    ensures Trace(stores, happened) && |happened| == 3 && stores[0] == Store(Token("a"), false, None, false)
    ensures happened[0] == LoggedOff(Some("a"), false, true, Threw(false)) && stores[1].marker
    ensures happened[1] == LoggedOff(Some("b"), false, true, Returned(false))
            && ReliableLogout(stores[1], Some("b"), false, true) == (stores[2], Returned(false))
    ensures happened[2] == Loaded(Returned(Some("a"))) && ReliableLoad(stores[2]) == (stores[3], Returned(Some("a")))
  {
    var signedIn := Store(Token("a"), false, None, false);
    stores := [signedIn, signedIn.(marker := true), signedIn, signedIn];
    happened := [LoggedOff(Some("a"), false, true, Threw(false)), LoggedOff(Some("b"), false, true, Returned(false)),
                 Loaded(Returned(Some("a")))];
    assert Follows(stores[0], stores[1], happened[0]);
    assert Follows(stores[1], stores[2], happened[1]);
    assert Follows(stores[2], stores[3], happened[2]);
  }

  /** When storage behaves, signing in and loading brings the token back, once or many times; and
      signing in, logging out and loading brings back nothing. Signing in keeps the history
      unless a clean-up was still to be done. */
  lemma SignInRoundTrip(s: Store, t: string, clearHistory: bool, writeAhead: bool)
    requires ValidToken(t)
    ensures var s1 := ReliableSignIn(s, t);
            && s1 == Store(Token(t), false, None,
                           s.history && !(s.marker || s.secure == LogoutRecord || s.secure == Invalid))
            && ReliableLoad(s1) == (s1, Returned(Some(t)))
            && var (s2, r) := ReliableLogout(s1, Some(t), clearHistory, writeAhead);
               r == Returned(true) && ReliableLoad(s2).1 == Returned(None) && !ReliableLoad(s2).0.history
  {
  }

  /** When storage behaves, a logout leaves a token exactly if it is stored and another one is expected;
      else it leaves the tombstone, no marker, no plaintext, and the history only if it was to be kept. */
  lemma LogoutLeaves(s: Store, expected: Option<string>, clearHistory: bool, writeAhead: bool)
    ensures var (s', r) := ReliableLogout(s, expected, clearHistory, writeAhead);
            var stored := match s.secure case Token(t) => Some(t) case RawToken(t) => Some(t) case _ => None;
            if stored.Some? && expected.Some? && stored != expected then
              r == Returned(false) && s' == Store(s.secure, s.marker && !writeAhead, s.plain, s.history)
            else r == Returned(true) && s' == Store(LogoutRecord, false, None, s.history && !clearHistory)
  {
  }

  /** A token has 1 to 8192 characters, none of them white space or a control character. */
  predicate WellFormed(t: string) {
    1 <= |t| <= 8_192 && forall c | c in t :: ' ' < c && c != '\U{7f}'
  }

  lemma ValidIsWellFormed(t: string)
    ensures ValidToken(t) <==> WellFormed(t)
  {
    assert forall i | 0 <= i < |t| :: t[i] in t;
  }

  /** When storage behaves, a load yields a token exactly if nothing asks for a clean-up and the secure
      store has one, or has nothing and there is a valid one in plaintext; the token is then in the
      secure store only. A clean-up forgets the history too. */
  lemma LoadYieldsIff(s: Store, t: string)
    ensures var (s', r) := ReliableLoad(s);
            var asked := s.marker || s.secure == LogoutRecord || s.secure == Invalid;
            && (r == Returned(Some(t)) <==>
                  !asked && (s.secure == Token(t) || s.secure == RawToken(t)
                             || (s.secure == Empty && s.plain == Some(t) && WellFormed(t))))
            && (r == Returned(Some(t)) ==> s' == Store(Token(t), false, None, s.history))
            && (asked ==> s' == Store(LogoutRecord, false, None, false))
            && r.Returned? && s'.plain == None
  {
    ValidIsWellFormed(t);
  }
}

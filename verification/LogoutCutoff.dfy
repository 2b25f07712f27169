/** Logging out everywhere: a per-user cutoff in a store whose entries expire, and the admission check. */
module LogoutCutoff {
  import opened Verdicts

  const KEY_PREFIX := "auth:logout_all_iat:"

  function LogoutAllIATKey(userId: string): string {
    KEY_PREFIX + userId
  }

  /** A stored cutoff; a time-to-live of zero stores it for good. */
  datatype Entry = Entry(value: int, expiresAt: Option<int>)

  predicate Alive(e: Entry, now: int) {
    e.expiresAt.None? || now < e.expiresAt.value
  }

  class LogoutAllStore {
    const refreshTTL: nat
    var entries: map<string, Entry>

    constructor (refreshTTL: nat)
      ensures entries == map[] && this.refreshTTL == refreshTTL
    {
      this.refreshTTL := refreshTTL;
      entries := map[];
    }

    method SetLogoutAllIAT(userId: string, issuedAt: int, now: int)
      modifies this`entries
      ensures entries == Stored(refreshTTL, old(entries), Write(userId, issuedAt, now))
      ensures
        var key := "auth:logout_all_iat:" + userId;
        && entries.Keys == old(entries).Keys + {key} && entries - {key} == old(entries) - {key}
        && entries[key].value == issuedAt
        && entries[key].expiresAt == if refreshTTL == 0 then None else Some(now + refreshTTL)
    {
      entries := entries[LogoutAllIATKey(userId) :=
                           Entry(issuedAt, if refreshTTL == 0 then None else Some(now + refreshTTL))];
    }

    method GetLogoutAllIAT(userId: string, now: int) returns (issuedAt: int)
      ensures issuedAt == Cutoff(entries, userId, now)
    {
      var key := LogoutAllIATKey(userId);
      if key !in entries || !Alive(entries[key], now) {
        return 0;
      }
      return entries[key].value;
    }
  }

  /** One logout-all: the cutoff stored for a user at a time. */
  datatype Write = Write(user: string, cutoff: int, at: int)

  function Stored(ttl: nat, entries: map<string, Entry>, w: Write): map<string, Entry> {
    entries[LogoutAllIATKey(w.user) := Entry(w.cutoff, if ttl == 0 then None else Some(w.at + ttl))]
  }

  function Cutoff(entries: map<string, Entry>, user: string, now: int): int {
    var key := LogoutAllIATKey(user);
    if key in entries && Alive(entries[key], now) then entries[key].value else 0
  }

  /** The store after a history of writes. */
  function After(ttl: nat, writes: seq<Write>): map<string, Entry> {
    if writes == [] then map[] else Stored(ttl, After(ttl, writes[..|writes| - 1]), writes[|writes| - 1])
  }

  // ---- The admission check ----

  datatype Admission =
    | MissingIdentity
    | InvalidIat
    | StoreUnavailable
    | Invalidated
    | Admitted(user: string, issuedAt: int)

  /** The decision of the middleware: the identity header, the parsed issue time, and what the store answered. */
  function Admit(user: string, iat: Option<int>, cutoff: Option<int>): Admission {
    if user == "" then MissingIdentity
    else if iat.None? then InvalidIat
    else if cutoff.None? then StoreUnavailable
    else if cutoff.value > 0 && iat.value <= cutoff.value then Invalidated
    else Admitted(user, iat.value)
  }

  /** A live positive cutoff at or after the issue time is stored under the user's key. */
  predicate CutOff(entries: map<string, Entry>, user: string, iat: int, now: int) {
    var key := "auth:logout_all_iat:" + user;
    && key in entries && (entries[key].expiresAt == None || now < entries[key].expiresAt.value)
    && entries[key].value > 0 && iat <= entries[key].value
  }

  method Authenticate(store: LogoutAllStore, user: string, iat: Option<int>, available: bool, now: int)
    returns (r: Admission)
    ensures r == Admit(user, iat, if available then Some(Cutoff(store.entries, user, now)) else None)
    ensures r.MissingIdentity? <==> user == ""
    ensures r.InvalidIat? <==> user != "" && iat == None
    ensures r.StoreUnavailable? <==> user != "" && iat.Some? && !available
    ensures r.Invalidated? <==> user != "" && iat.Some? && available && CutOff(store.entries, user, iat.value, now)
    ensures r.Admitted? ==> r.user == user && iat == Some(r.issuedAt)
  {
    if user == "" {
      return MissingIdentity;
    }
    if iat.None? {
      return InvalidIat;
    }
    if !available {
      return StoreUnavailable;
    }
    var logoutAllIat := store.GetLogoutAllIAT(user, now);
    if logoutAllIat > 0 && iat.value <= logoutAllIat {
      return Invalidated;
    }
    return Admitted(user, iat.value);
  }

  /** A token of a known user is let through at a time, after a history of writes. */
  predicate LetThrough(ttl: nat, writes: seq<Write>, user: string, iat: int, now: int) {
    Admit(user, Some(iat), Some(Cutoff(After(ttl, writes), user, now))).Admitted?
  }

  // ---- The store against the history ----

  lemma KeyInjective(u: string, v: string)
    ensures LogoutAllIATKey(u) == LogoutAllIATKey(v) <==> u == v
  {
    assert LogoutAllIATKey(u)[|KEY_PREFIX|..] == u && LogoutAllIATKey(v)[|KEY_PREFIX|..] == v;
  }

  /** The last write for a user. */
  function LastWrite(writes: seq<Write>, user: string): (r: Option<Write>)
    ensures r.Some? ==> r.value.user == user
  {
    if writes == [] then None
    else if writes[|writes| - 1].user == user then Some(writes[|writes| - 1])
    else LastWrite(writes[..|writes| - 1], user)
  }

  lemma {:induction false} StoreHoldsLastWrite(ttl: nat, writes: seq<Write>, user: string)
    ensures
      var key := LogoutAllIATKey(user);
      match LastWrite(writes, user)
      case None => key !in After(ttl, writes)
      case Some(w) =>
        && key in After(ttl, writes)
        && After(ttl, writes)[key] == Entry(w.cutoff, if ttl == 0 then None else Some(w.at + ttl))
  {
    if writes != [] {
      StoreHoldsLastWrite(ttl, writes[..|writes| - 1], user);
      KeyInjective(writes[|writes| - 1].user, user);
    }
  }

  /** A token is let through exactly when the user's last cutoff has expired, is not positive, or is older. */
  lemma LetThroughExactly(ttl: nat, writes: seq<Write>, user: string, iat: int, now: int)
    requires user != ""
    ensures LetThrough(ttl, writes, user, iat, now) <==>
            match LastWrite(writes, user)
            case None => true
            case Some(w) => (ttl > 0 && now >= w.at + ttl) || w.cutoff <= 0 || iat > w.cutoff
  {
    StoreHoldsLastWrite(ttl, writes, user);
  }

  /** After any history of writes a request is admitted exactly when it names a user and a valid issue time, the store
      answers, and the user's last cutoff is absent, expired, not positive or older than the token; it is then
      admitted as that user with that issue time. Each refusal has its own cause, in this order: no user, no valid
      issue time, no answer, a live cutoff. */
  lemma AdmittedExactly(ttl: nat, writes: seq<Write>, user: string, iat: Option<int>, available: bool, now: int)
    ensures
      var r := Admit(user, iat, if available then Some(Cutoff(After(ttl, writes), user, now)) else None);
      if user == "" then r == MissingIdentity
      else if iat == None then r == InvalidIat
      else if !available then r == StoreUnavailable
      else match LastWrite(writes, user)
        case None => r == Admitted(user, iat.value)
        case Some(w) =>
          r == if (ttl == 0 || now < w.at + ttl) && 0 < w.cutoff && iat.value <= w.cutoff then Invalidated
               else Admitted(user, iat.value)
  {
    StoreHoldsLastWrite(ttl, writes, user);
  }

  /** Other users' writes do not matter. */
  lemma {:induction false} OthersUnaffected(writes: seq<Write>, more: seq<Write>, user: string)
    requires forall k :: 0 <= k < |more| ==> more[k].user != user
    ensures LastWrite(writes + more, user) == LastWrite(writes, user)
  {
    if more == [] {
      assert writes + more == writes;
    } else {
      var init := more[..|more| - 1];
      assert (writes + more)[..|writes + more| - 1] == writes + init;
      OthersUnaffected(writes, init, user);
    }
  }

  /** The clock of the store does not run backwards. */
  predicate Chronological(writes: seq<Write>, now: int) {
    && (forall i, j :: 0 <= i <= j < |writes| ==> writes[i].at <= writes[j].at)
    && forall i :: 0 <= i < |writes| ==> writes[i].at <= now
  }

  lemma {:induction false} LastWriteAfter(writes: seq<Write>, k: nat) returns (l: nat)
    requires k < |writes|
    ensures k <= l < |writes| && writes[l].user == writes[k].user &&
            LastWrite(writes, writes[k].user) == Some(writes[l])
    decreases |writes|
  {
    var n := |writes| - 1;
    if writes[n].user == writes[k].user {
      l := n;
    } else {
      l := LastWriteAfter(writes[..n], k);
    }
  }

  /** Once a positive cutoff is stored for a user, an unexpired token issued at or before it is let through again
      exactly when the user's last stored cutoff is not positive or smaller than the token's issue time: expiry
      of the key never readmits it. */
  lemma ReadmittedExactly(ttl: nat, writes: seq<Write>, k: nat, iat: int, lifetime: int, now: int)
    requires Chronological(writes, now) && k < |writes| && writes[k].user != ""
    requires 0 < writes[k].cutoff <= writes[k].at && iat <= writes[k].cutoff
    requires lifetime <= ttl && now < iat + lifetime
    ensures
      var last := LastWrite(writes, writes[k].user);
      && last.Some?
      && (LetThrough(ttl, writes, writes[k].user, iat, now) <==> last.value.cutoff <= 0 || last.value.cutoff < iat)
  {
    var l := LastWriteAfter(writes, k);
    LetThroughExactly(ttl, writes, writes[k].user, iat, now);
    assert writes[k].at <= writes[l].at;
  }

  /** With cutoffs that never decrease, such a token is never admitted again, through later logouts and key expiry. */
  lemma NeverReadmitted(ttl: nat, writes: seq<Write>, k: nat, iat: int, lifetime: int, now: int)
    requires Chronological(writes, now) && k < |writes| && writes[k].user != ""
    requires 0 < writes[k].cutoff <= writes[k].at && iat <= writes[k].cutoff
    requires lifetime <= ttl && now < iat + lifetime
    requires forall l :: k <= l < |writes| && writes[l].user == writes[k].user ==> writes[k].cutoff <= writes[l].cutoff
    ensures !LetThrough(ttl, writes, writes[k].user, iat, now)
  {
    ReadmittedExactly(ttl, writes, k, iat, lifetime, now);
    var l := LastWriteAfter(writes, k);
  }

  /** The use cases read the clock and then write the store: each cutoff is at most `delay` older than its write. */
  predicate Prompt(writes: seq<Write>, delay: nat) {
    forall i :: 0 <= i < |writes| ==> writes[i].at - delay <= writes[i].cutoff <= writes[i].at
  }

  /** Then a token issued at least the delay before a logout was stored is never admitted again, even when concurrent
      logouts are stored in another order than they read the clock. */
  lemma LogoutNowIsFinal(ttl: nat, writes: seq<Write>, delay: nat, k: nat, iat: int, lifetime: int, now: int)
    requires Chronological(writes, now) && Prompt(writes, delay)
    requires k < |writes| && writes[k].user != "" && writes[k].at - delay > 0
    requires iat <= writes[k].at - delay && lifetime <= ttl && now < iat + lifetime
    ensures !LetThrough(ttl, writes, writes[k].user, iat, now)
  {
    ReadmittedExactly(ttl, writes, k, iat, lifetime, now);
    var l := LastWriteAfter(writes, k);
  }

  /** The delay cannot be dropped: whatever it is, a token issued one second later than that may be refused after one
      logout and admitted after the next, which read the clock earlier. */
  lemma DelayIsTight(ttl: nat, user: string, at: int, delay: nat, lifetime: int)
    requires user != "" && 1 <= delay < at && delay <= lifetime <= ttl
    ensures
      var writes, iat := [Write(user, at, at), Write(user, at - delay, at)], at - delay + 1;
      && Chronological(writes, at) && Prompt(writes, delay) && at < iat + lifetime
      && !LetThrough(ttl, writes[..1], user, iat, at) && LetThrough(ttl, writes, user, iat, at)
  {
    var writes, iat := [Write(user, at, at), Write(user, at - delay, at)], at - delay + 1;
    assert LastWrite(writes, user) == Some(writes[1]);
    assert LastWrite(writes[..1], user) == Some(writes[0]);
    LetThroughExactly(ttl, writes, user, iat, at);
    LetThroughExactly(ttl, writes[..1], user, iat, at);
  }

  /** Two concurrent logouts: one reads the clock at 101 and is stored at once, the other read it at 100 and is stored
      at 102. The token issued at 101 is refused in between and admitted afterwards. */
  lemma RacingLogoutsReadmit()
    ensures
      var writes := [Write("u", 101, 101), Write("u", 100, 102)];
      && Chronological(writes, 102) && Prompt(writes, 2)
      && !LetThrough(1000, writes[..1], "u", 101, 102) && LetThrough(1000, writes, "u", 101, 102)
  {
    var writes := [Write("u", 101, 101), Write("u", 100, 102)];
    assert LastWrite(writes, "u") == Some(writes[1]);
    assert LastWrite(writes[..1], "u") == Some(writes[0]);
    LetThroughExactly(1000, writes, "u", 101, 102);
    LetThroughExactly(1000, writes[..1], "u", 101, 102);
  }

  /** A later write with a smaller cutoff does readmit a token. */
  lemma SmallerCutoffReadmits()
    ensures
      var writes := [Write("u", 100, 100), Write("u", 50, 101)];
      !LetThrough(1000, writes[..1], "u", 90, 101) && LetThrough(1000, writes, "u", 90, 101)
  {
    var writes := [Write("u", 100, 100), Write("u", 50, 101)];
    assert LastWrite(writes, "u") == Some(writes[1]);
    assert LastWrite(writes[..1], "u") == Some(writes[0]);
    LetThroughExactly(1000, writes, "u", 90, 101);
    LetThroughExactly(1000, writes[..1], "u", 90, 101);
  }
}

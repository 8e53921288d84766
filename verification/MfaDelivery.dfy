/** Second-factor codes sent by e-mail or Telegram: the store with expiry, the
    sending throttle, the guess counter and the recovery codes.

    A call reads the clock once; `now` is that reading, in seconds. JSON text,
    the digest and the transports are replaced by the values they carry. */
module MfaDelivery {
  import opened Arithmetic
  import opened Wrappers

  const MAX_TRIES := 5
  const RESEND_SECONDS := 30
  const WINDOW_SECONDS := 900
  const MAX_SENDS_PER_WINDOW := 6

  datatype Method = Email | Telegram

  datatype Value = Code(hash: string, tries: nat, how: Method) | Flag | Tally(n: nat) | Corrupt

  datatype Entry = Entry(value: Value, expires: real)

  datatype Kind = Otp | Sent | Count

  datatype Key = Key(kind: Kind, user: int)

  function Alive(e: Option<Entry>, now: real): Option<Entry> {
    if e.Some? && e.value.expires > now then e else None
  }

  function SecondsLeft(e: Option<Entry>, now: real): int {
    var hit := Alive(e, now);
    if hit.Some? then (hit.value.expires - now).Floor else 0
  }

  function Incremented(e: Option<Entry>, now: real, ttl: int): Entry {
    var hit := Alive(e, now);
    Entry(Tally((if hit.Some? && hit.value.value.Tally? then hit.value.value.n else 0) + 1),
          if hit.Some? then hit.value.expires else now + ttl as real)
  }

  class MemoryStore {
    var d: map<Key, Entry>

    constructor ()
      ensures d == map[]
    {
      d := map[];
    }

    function At(key: Key): Option<Entry>
      reads this
    {
      if key in d then Some(d[key]) else None
    }

    /** Looking a key up drops it when it has expired; nothing else moves. */
    method Lookup(key: Key, now: real) returns (hit: Option<Entry>)
      modifies this
      ensures hit == Alive(old(At(key)), now) == At(key)
      ensures forall k :: k != key ==> At(k) == old(At(k))
    {
      if key in d && d[key].expires > now {
        return Some(d[key]);
      }
      d := d - {key};
      return None;
    }

    method Get(key: Key, now: real) returns (value: Option<Value>)
      modifies this
      ensures At(key) == Alive(old(At(key)), now)
      ensures value == if At(key).Some? then Some(At(key).value.value) else None
      ensures forall k :: k != key ==> At(k) == old(At(k))
    {
      var hit := Lookup(key, now);
      return if hit.Some? then Some(hit.value.value) else None;
    }

    method Set(key: Key, value: Value, ttl: int, now: real)
      modifies this
      ensures At(key) == Some(Entry(value, now + ttl as real))
      ensures forall k :: k != key ==> At(k) == old(At(k))
    {
      d := d[key := Entry(value, now + ttl as real)];
    }

    method Delete(key: Key)
      modifies this
      ensures At(key) == None
      ensures forall k :: k != key ==> At(k) == old(At(k))
    {
      d := d - {key};
    }

    method Incr(key: Key, ttl: int, now: real) returns (n: nat)
      modifies this
      ensures At(key) == Some(Incremented(old(At(key)), now, ttl)) && n == At(key).value.value.n
      ensures forall k :: k != key ==> At(k) == old(At(k))
    {
      var hit := Lookup(key, now);
      n := (if hit.Some? && hit.value.value.Tally? then hit.value.value.n else 0) + 1;
      d := d[key := Entry(Tally(n), if hit.Some? then hit.value.expires else now + ttl as real)];
    }

    method Ttl(key: Key, now: real) returns (seconds: int)
      modifies this
      ensures seconds == SecondsLeft(old(At(key)), now) && At(key) == Alive(old(At(key)), now)
      ensures forall k :: k != key ==> At(k) == old(At(k))
    {
      var hit := Lookup(key, now);
      seconds := if hit.Some? then (hit.value.expires - now).Floor else 0;
    }

    ghost function User(user: int): Codes
      reads this
    {
      Codes(At(Key(Otp, user)), At(Key(Sent, user)), At(Key(Count, user)))
    }
  }

  // ------------------------------------------------- one account's codes --

  /** What the store holds for one account. */
  datatype Codes = Codes(otp: Option<Entry>, sent: Option<Entry>, count: Option<Entry>)

  datatype Outcome = Delivered | Throttled(retryAfter: int) | NotSent

  /** `sendable` says the method is a delivered one and has a destination;
      `accepted` what the transport answers; `hash` is the new code's digest. */
  function Issue(c: Codes, now: real, sendable: bool, accepted: bool, hash: string, how: Method, ttl: int)
    : (Codes, Outcome)
  {
    if !sendable then (c, NotSent)
    else
      var sent := Alive(c.sent, now);
      if sent.Some? then
        var left := SecondsLeft(c.sent, now);
        (c.(sent := sent), Throttled(if left != 0 then left else RESEND_SECONDS))
      else
        var count := Incremented(c.count, now, WINDOW_SECONDS);
        var counted := c.(sent := None, count := Some(count));
        if count.value.n > MAX_SENDS_PER_WINDOW then
          // reading the time left drops an entry that has already expired
          var left := SecondsLeft(Some(count), now);
          (counted.(count := Alive(Some(count), now)), Throttled(if left != 0 then left else WINDOW_SECONDS))
        else if !accepted then (counted, NotSent)
        else
          (Codes(Some(Entry(Code(hash, 0, how), now + ttl as real)),
                 Some(Entry(Flag, now + RESEND_SECONDS as real)), Some(count)), Delivered)
  }

  /** `guess` is the digest of a well-formed six-digit guess, None otherwise. */
  function Check(c: Codes, now: real, guess: Option<string>, how: Option<Method>): (Codes, bool) {
    if guess.None? then (c, false)
    else
      var otp := Alive(c.otp, now);
      if otp.None? then (c.(otp := None), false)
      else if !otp.value.value.Code? then (c.(otp := None), false)
      else
        var code := otp.value.value;
        if how.Some? && how.value != code.how then (c.(otp := otp), false)
        else if code.hash == guess.value then (c.(otp := None, sent := None), true)
        else if code.tries + 1 >= MAX_TRIES then (c.(otp := None), false)
        else
          var left := Max(1, SecondsLeft(otp, now));
          (c.(otp := Some(Entry(code.(tries := code.tries + 1), now + left as real))), false)
  }

  method IssueCode(st: MemoryStore, user: int, now: real, sendable: bool, accepted: bool, hash: string,
                   how: Method, ttl: int) returns (outcome: Outcome)
    modifies st
    ensures (st.User(user), outcome) == Issue(old(st.User(user)), now, sendable, accepted, hash, how, ttl)
    ensures forall other :: other != user ==> st.User(other) == old(st.User(other))
  {
    if !sendable { return NotSent; }
    var pending := st.Get(Key(Sent, user), now);
    if pending.Some? {
      var left := st.Ttl(Key(Sent, user), now);
      return Throttled(if left != 0 then left else RESEND_SECONDS);
    }
    var n := st.Incr(Key(Count, user), WINDOW_SECONDS, now);
    if n > MAX_SENDS_PER_WINDOW {
      var left := st.Ttl(Key(Count, user), now);
      return Throttled(if left != 0 then left else WINDOW_SECONDS);
    }
    if !accepted { return NotSent; }
    st.Set(Key(Otp, user), Code(hash, 0, how), ttl, now);
    st.Set(Key(Sent, user), Flag, RESEND_SECONDS, now);
    return Delivered;
  }

  method CheckCode(st: MemoryStore, user: int, now: real, guess: Option<string>, how: Option<Method>)
    returns (ok: bool)
    modifies st
    ensures (st.User(user), ok) == Check(old(st.User(user)), now, guess, how)
    ensures forall other :: other != user ==> st.User(other) == old(st.User(other))
  {
    if guess.None? { return false; }
    var key := Key(Otp, user);
    var raw := st.Get(key, now);
    if raw.None? { return false; }
    if !raw.value.Code? {
      st.Delete(key);
      return false;
    }
    var code := raw.value;
    if how.Some? && how.value != code.how { return false; }
    if code.hash == guess.value {
      st.Delete(key);
      st.Delete(Key(Sent, user));
      return true;
    }
    if code.tries + 1 >= MAX_TRIES {
      st.Delete(key);
    } else {
      var left := st.Ttl(key, now);
      st.Set(key, code.(tries := code.tries + 1), Max(1, left), now);
    }
    return false;
  }

  // ------------------------------------------------------ recovery codes --

  function RemoveFirst(s: seq<string>, x: string): seq<string> {
    if s == [] then []
    else if s[0] == x then s[1..]
    else [s[0]] + RemoveFirst(s[1..], x)
  }

  class Account {
    var recoveryCodes: seq<string>

    constructor (stored: seq<string>)
      ensures recoveryCodes == stored
    {
      recoveryCodes := stored;
    }

    /** `digest` is that of a well-formed code, None otherwise. */
    method UseRecoveryCode(digest: Option<string>) returns (ok: bool)
      modifies this
      ensures ok <==> digest.Some? && digest.value in old(recoveryCodes)
      ensures recoveryCodes == if ok then RemoveFirst(old(recoveryCodes), digest.value) else old(recoveryCodes)
    {
      if digest.None? { return false; }
      var hit := None;
      for i := 0 to |recoveryCodes|
        invariant recoveryCodes == old(recoveryCodes)
        invariant hit.Some? <==> digest.value in recoveryCodes[..i]
        invariant hit.Some? ==> hit == digest
      {
        if recoveryCodes[i] == digest.value { hit := Some(recoveryCodes[i]); }
      }
      if hit.None? { return false; }
      recoveryCodes := RemoveFirst(recoveryCodes, hit.value);
      return true;
    }
  }

  /** Using a code takes out exactly one copy of it and keeps the rest in order;
      with distinct codes, none works twice. */
  lemma {:induction false} RemoveFirstTakesOne(s: seq<string>, x: string)
    requires x in s
    ensures multiset(RemoveFirst(s, x)) == multiset(s) - multiset{x}
    ensures multiset(s)[x] == 1 ==> x !in RemoveFirst(s, x)
  {
    assert s == [s[0]] + s[1..];
    if s[0] != x {
      RemoveFirstTakesOne(s[1..], x);
    }
    assert x in RemoveFirst(s, x) ==> multiset(RemoveFirst(s, x))[x] > 0;
  }
}

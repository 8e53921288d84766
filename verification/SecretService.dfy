/** Sealing, opening and collecting secrets against an external vault. */
module SecretService {
  import opened SecretForms
  import SecretStore
  import opened Wrappers

  class VaultClient {
    var entries: map<string, Entry>

    constructor ()
      ensures entries == map[]
    {
      entries := map[];
    }

    method Write(key: string, value: string, now: int, outcome: WriteOutcome) returns (ok: bool)
      modifies this
      ensures (entries, ok) == VaultWrite(old(entries), key, value, now, outcome)
    {
      if !ValidKey(key) { return false; }
      if outcome.Refused? { return false; }
      entries := entries[key := Entry(value, if key in entries then entries[key].created else now)];
      ok := outcome.Stored?;
    }

    method Read(key: string, answers: bool) returns (r: Result<string, Failure>)
      ensures r == VaultRead(entries, key, answers)
    {
      if !ValidKey(key) || !answers { return Err(VaultFailed); }
      if key !in entries { return Err(VaultFailed); }
      var value := entries[key].value;
      if value == "" { return Err(VaultFailed); }
      return Ok(value);
    }

    method Delete(key: string)
      modifies this
      ensures entries == old(entries) - {key}
    {
      entries := entries - {key};
    }

    method SealAs(c: Cipher, plaintext: string, kind: Kind, reuse: Option<string>, newKey: string,
                  nonce: string, now: int, outcome: WriteOutcome) returns (r: Result<string, Failure>)
      modifies this
      ensures (entries, r) == SecretForms.SealAs(c, old(entries), plaintext, kind, reuse, newKey, nonce, now, outcome)
    {
      if kind.LocalKind? { return Ok(PREFIX + c.seal(plaintext, nonce)); }
      if !kind.VaultKind? && !kind.MirrorKind? { return Err(Unreadable); }
      var key := newKey;
      if reuse.Some? && reuse.value != "" { key := reuse.value; }
      var ok := Write(key, plaintext, now, outcome);
      if !ok { return Err(VaultFailed); }
      if kind.VaultKind? { return Ok(VAULT_PREFIX + key); }
      return Ok(MIRROR_PREFIX + key + ":" + c.seal(plaintext, nonce));
    }

    method Encrypt(c: Cipher, mode: Mode, plaintext: string, newKey: string, nonce: string, now: int,
                   outcome: WriteOutcome) returns (r: Result<Option<string>, Failure>)
      modifies this
      ensures (entries, r) == SecretForms.Encrypt(c, old(entries), mode, plaintext, newKey, nonce, now, outcome)
    {
      if plaintext == "" { return Ok(None); }
      match mode {
        case Misconfigured => return Err(BadMode);
        case Local => return Ok(Some(PREFIX + c.seal(plaintext, nonce)));
        case Vault =>
          var sealed := SealAs(c, plaintext, VaultKind, None, newKey, nonce, now, outcome);
          return if sealed.Ok? then Ok(Some(sealed.value)) else Err(sealed.error);
        case Mirror =>
          var sealed := SealAs(c, plaintext, MirrorKind, None, newKey, nonce, now, outcome);
          if sealed.Err? { return Ok(Some(PREFIX + c.seal(plaintext, nonce))); }
          return Ok(Some(sealed.value));
      }
    }

    /** Collecting what no row references. `listed` was read before `stored`. */
    method Collect(listed: seq<string>, stored: seq<string>, minAge: int, now: int, apply: bool)
      returns (orphans: seq<string>, recent: seq<string>)
      requires forall key :: key in listed ==> ValidKey(key)
      modifies this
      ensures forall key :: key in orphans <==>
                && key in listed && !ReferencedBy(stored, |stored|, key)
                && SecretStore.OldEnough(old(entries), key, minAge, now)
      ensures forall key :: key in recent <==>
                && key in listed && !ReferencedBy(stored, |stored|, key)
                && !SecretStore.OldEnough(old(entries), key, minAge, now)
      ensures entries == if apply then old(entries) - (set key | key in orphans) else old(entries)
    {
      var referenced: set<string> := {};
      for i := 0 to |stored|
        invariant entries == old(entries)
        invariant forall key :: key in referenced <==> key != "" && ReferencedBy(stored, i, key)
      {
        var key := VaultKey(Some(stored[i]));
        ReferencedByOneMore(stored, i);
        if key.Some? && key.value != "" { referenced := referenced + {key.value}; }
      }
      forall key | key in listed ensures key != "" { KeysHaveNoColon(key); }
      orphans, recent := [], [];
      for i := 0 to |listed|
        invariant entries == old(entries)
        invariant forall key :: key in orphans <==>
          key in listed[..i] && key !in referenced && SecretStore.OldEnough(old(entries), key, minAge, now)
        invariant forall key :: key in recent <==>
          key in listed[..i] && key !in referenced && !SecretStore.OldEnough(old(entries), key, minAge, now)
      {
        var key := listed[i];
        assert listed[..i + 1] == listed[..i] + [key];
        if key in referenced { continue; }
        if minAge > 0 && (key !in entries || entries[key].created > now - minAge) {
          recent := recent + [key];
          continue;
        }
        orphans := orphans + [key];
      }
      assert listed[..|listed|] == listed;
      if apply {
        for i := 0 to |orphans|
          invariant entries == old(entries) - (set key | key in orphans[..i])
        {
          assert orphans[..i + 1] == orphans[..i] + [orphans[i]];
          Delete(orphans[i]);
        }
        assert orphans[..|orphans|] == orphans;
      }
    }
  }

  ghost predicate ReferencedBy(stored: seq<string>, n: nat, key: string)
    requires n <= |stored|
  {
    exists i :: 0 <= i < n && VaultKey(Some(stored[i])) == Some(key)
  }

  lemma {:induction false} ReferencedByOneMore(stored: seq<string>, n: nat)
    requires n < |stored|
    ensures forall key :: ReferencedBy(stored, n + 1, key) <==>
      ReferencedBy(stored, n, key) || VaultKey(Some(stored[n])) == Some(key)
  {
    forall key | ReferencedBy(stored, n, key) || VaultKey(Some(stored[n])) == Some(key)
      ensures ReferencedBy(stored, n + 1, key)
    {
      var i :| 0 <= i < n + 1 && VaultKey(Some(stored[i])) == Some(key);
    }
  }

  method Decrypt(c: Cipher, v: VaultClient, mode: Mode, stored: Option<string>, answers: bool)
    returns (r: Result<Option<string>, Failure>)
    ensures r == SecretForms.Decrypt(c, v.entries, mode, stored, answers)
  {
    if stored.None? || stored.value == "" { return Ok(None); }
    var kind := StorageKind(stored);
    if kind.LocalKind? {
      r := OpenLocal(c, stored.value[|PREFIX|..]);
    } else if kind.VaultKind? {
      var read := v.Read(stored.value[|VAULT_PREFIX|..], answers);
      r := if read.Ok? then Ok(Some(read.value)) else Err(read.error);
    } else if kind.MirrorKind? {
      var (key, sep, local) := Partition(stored.value[|MIRROR_PREFIX|..]);
      if !sep || local == "" { return Err(Unreadable); }
      if mode.Misconfigured? { return Err(BadMode); }
      if mode.Local? {
        r := OpenLocal(c, local);
        return;
      }
      var read := v.Read(key, answers);
      if read.Err? {
        r := OpenLocal(c, local);
      } else {
        r := Ok(Some(read.value));
      }
    } else {
      r := Err(Unreadable);
    }
  }
}

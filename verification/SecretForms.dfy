/** The three forms a stored secret takes, and how each is written and read. */
module SecretForms {
  import opened Wrappers

  const PREFIX: string := "v1:"
  const VAULT_PREFIX: string := "vault:"
  const MIRROR_PREFIX: string := "vm1:"

  datatype Kind = Empty | LocalKind | MirrorKind | VaultKind | UnknownKind

  /** The configured backend; `Misconfigured` is any other setting, which mode() refuses. */
  datatype Mode = Local | Mirror | Vault | Misconfigured

  datatype Failure = VaultFailed | Unreadable | BadMode

  /** Authenticated encryption under one key: `nonce` is whatever makes two
      seals of one plaintext differ. */
  datatype Cipher = Cipher(seal: (string, string) -> string, open: string -> Option<string>)

  ghost predicate Sound(c: Cipher) {
    forall plaintext, nonce ::
      c.seal(plaintext, nonce) != "" && c.open(c.seal(plaintext, nonce)) == Some(plaintext)
  }

  datatype Entry = Entry(value: string, created: int)

  /** How the vault answers a write: it may also take the value and lose the reply. */
  datatype WriteOutcome = Stored | Refused | ReplyLost

  // -------------------------------------------------------------- strings --

  predicate StartsWith(s: string, prefix: string) {
    |prefix| <= |s| && s[..|prefix|] == prefix
  }

  /** str.partition(":"): what precedes the first colon, whether there is one, the rest. */
  function Partition(s: string): (string, bool, string) {
    if s == "" then ("", false, "")
    else if s[0] == ':' then ("", true, s[1..])
    else
      var rest := Partition(s[1..]);
      ([s[0]] + rest.0, rest.1, rest.2)
  }

  lemma {:induction false} PartitionAt(key: string, rest: string)
    requires ':' !in key
    ensures Partition(key + ":" + rest) == (key, true, rest)
  {
    var s := key + ":" + rest;
    if key == "" {
      assert s[1..] == rest;
    } else {
      assert s[1..] == key[1..] + ":" + rest;
      PartitionAt(key[1..], rest);
      assert [key[0]] + key[1..] == key;
    }
  }

  predicate HexDigit(c: char) {
    '0' <= c <= '9' || 'a' <= c <= 'f'
  }

  predicate UuidText(s: string) {
    |s| == 36 && forall i :: 0 <= i < 36 ==> if i in {8, 13, 18, 23} then s[i] == '-' else HexDigit(s[i])
  }

  /** The key pattern ends in `$`, which also matches before a final line break. */
  predicate ValidKey(key: string) {
    UuidText(key) || (|key| == 37 && key[36] == '\n' && UuidText(key[..36]))
  }

  lemma {:induction false} KeysHaveNoColon(key: string)
    requires ValidKey(key)
    ensures key != "" && ':' !in key
  {
    forall i | 0 <= i < |key| ensures key[i] != ':' {
      if |key| == 37 && i < 36 { assert key[i] == key[..36][i]; }
    }
  }

  // ------------------------------------------------------------- dispatch --

  function StorageKind(stored: Option<string>): Kind {
    if stored.None? || stored.value == "" then Empty
    else if StartsWith(stored.value, PREFIX) then LocalKind
    else if StartsWith(stored.value, MIRROR_PREFIX) then MirrorKind
    else if StartsWith(stored.value, VAULT_PREFIX) then VaultKind
    else UnknownKind
  }

  function VaultKey(stored: Option<string>): Option<string> {
    match StorageKind(stored)
    case VaultKind => Some(stored.value[|VAULT_PREFIX|..])
    case MirrorKind => Some(Partition(stored.value[|MIRROR_PREFIX|..]).0)
    case _ => None
  }

  // -------------------------------------------------------------- the vault --

  function VaultWrite(vault: map<string, Entry>, key: string, value: string, now: int, outcome: WriteOutcome)
    : (map<string, Entry>, bool)
  {
    if !ValidKey(key) || outcome.Refused? then (vault, false)
    else
      var created := if key in vault then vault[key].created else now;
      (vault[key := Entry(value, created)], outcome.Stored?)
  }

  function VaultRead(vault: map<string, Entry>, key: string, answers: bool): Result<string, Failure> {
    if !ValidKey(key) || !answers || key !in vault || vault[key].value == "" then Err(VaultFailed)
    else Ok(vault[key].value)
  }

  // ------------------------------------------------------ writing a secret --

  function LocalForm(c: Cipher, plaintext: string, nonce: string): string {
    PREFIX + c.seal(plaintext, nonce)
  }

  function MirrorForm(c: Cipher, key: string, plaintext: string, nonce: string): string {
    MIRROR_PREFIX + key + ":" + c.seal(plaintext, nonce)
  }

  /** seal_as: the vault afterwards, and the stored form unless it raised. */
  function SealAs(c: Cipher, vault: map<string, Entry>, plaintext: string, kind: Kind, reuse: Option<string>,
                  newKey: string, nonce: string, now: int, outcome: WriteOutcome)
    : (map<string, Entry>, Result<string, Failure>)
  {
    if kind.LocalKind? then (vault, Ok(LocalForm(c, plaintext, nonce)))
    else if !kind.VaultKind? && !kind.MirrorKind? then (vault, Err(Unreadable))
    else
      var key := if reuse.Some? && reuse.value != "" then reuse.value else newKey;
      var (after, ok) := VaultWrite(vault, key, plaintext, now, outcome);
      (after,
       if !ok then Err(VaultFailed)
       else if kind.VaultKind? then Ok(VAULT_PREFIX + key)
       else Ok(MirrorForm(c, key, plaintext, nonce)))
  }

  function Encrypt(c: Cipher, vault: map<string, Entry>, mode: Mode, plaintext: string,
                   newKey: string, nonce: string, now: int, outcome: WriteOutcome)
    : (map<string, Entry>, Result<Option<string>, Failure>)
  {
    if plaintext == "" then (vault, Ok(None))
    else if mode.Misconfigured? then (vault, Err(BadMode))
    else if mode.Local? then (vault, Ok(Some(LocalForm(c, plaintext, nonce))))
    else
      var kind := if mode.Vault? then VaultKind else MirrorKind;
      var (after, sealed) := SealAs(c, vault, plaintext, kind, None, newKey, nonce, now, outcome);
      (after,
       if sealed.Ok? then Ok(Some(sealed.value))
       else if mode.Vault? then Err(sealed.error)
       else Ok(Some(LocalForm(c, plaintext, nonce))))
  }

  // ------------------------------------------------------ reading a secret --

  function OpenLocal(c: Cipher, token: string): Result<Option<string>, Failure> {
    var plain := c.open(token);
    if plain.None? then Err(Unreadable) else Ok(plain)
  }

  function Decrypt(c: Cipher, vault: map<string, Entry>, mode: Mode, stored: Option<string>, answers: bool)
    : Result<Option<string>, Failure>
  {
    match StorageKind(stored)
    case Empty => Ok(None)
    case LocalKind => OpenLocal(c, stored.value[|PREFIX|..])
    case VaultKind =>
      (match VaultRead(vault, stored.value[|VAULT_PREFIX|..], answers)
       case Ok(v) => Ok(Some(v))
       case Err(e) => Err(e))
    case MirrorKind =>
      var (key, sep, local) := Partition(stored.value[|MIRROR_PREFIX|..]);
      if !sep || local == "" then Err(Unreadable)
      else if mode.Misconfigured? then Err(BadMode)
      else if mode.Local? then OpenLocal(c, local)
      else
        (match VaultRead(vault, key, answers)
         case Ok(v) => Ok(Some(v))
         case Err(_) => OpenLocal(c, local))
    case UnknownKind => Err(Unreadable)
  }

  // ------------------------------------------------------- what a form says --

  /** A stored text is a well-made form of this plaintext: its local copy, if it
      has one, opens to it, and its vault key is a key. What the vault holds
      under that key is another matter. */
  ghost predicate FormOf(c: Cipher, stored: string, plaintext: string) {
    && plaintext != ""
    && match StorageKind(Some(stored))
       case LocalKind => c.open(stored[|PREFIX|..]) == Some(plaintext)
       case VaultKind => ValidKey(stored[|VAULT_PREFIX|..])
       case MirrorKind =>
         var (key, sep, local) := Partition(stored[|MIRROR_PREFIX|..]);
         sep && local != "" && ValidKey(key) && c.open(local) == Some(plaintext)
       case _ => false
  }

  /** storage_kind and vault_key invert what seal_as produced, in every kind. */
  lemma {:induction false} SealedFormsAreRecognised(c: Cipher, vault: map<string, Entry>, plaintext: string, kind: Kind,
                                 reuse: Option<string>, newKey: string, nonce: string, now: int,
                                 outcome: WriteOutcome)
    requires Sound(c) && plaintext != ""
    requires SealAs(c, vault, plaintext, kind, reuse, newKey, nonce, now, outcome).1.Ok?
    ensures var (after, sealed) := SealAs(c, vault, plaintext, kind, reuse, newKey, nonce, now, outcome);
      var key := if reuse.Some? && reuse.value != "" then reuse.value else newKey;
      && StorageKind(Some(sealed.value)) == kind
      && VaultKey(Some(sealed.value)) == (if kind.LocalKind? then None else Some(key))
      && FormOf(c, sealed.value, plaintext)
      && (!kind.LocalKind? ==> key in after && after[key].value == plaintext)
  {
    var sealed := SealAs(c, vault, plaintext, kind, reuse, newKey, nonce, now, outcome).1.value;
    var key := if reuse.Some? && reuse.value != "" then reuse.value else newKey;
    if kind.LocalKind? {
      LocalFormIsKnown(c, plaintext, nonce);
    } else if kind.VaultKind? {
      assert sealed[..|VAULT_PREFIX|] == VAULT_PREFIX && sealed[|VAULT_PREFIX|..] == key;
      assert sealed[0] == 'v' && sealed[1] == 'a';
    } else {
      MirrorFormIsKnown(c, key, plaintext, nonce);
    }
  }

  lemma {:induction false} LocalFormIsKnown(c: Cipher, plaintext: string, nonce: string)
    requires Sound(c) && plaintext != ""
    ensures var stored := LocalForm(c, plaintext, nonce);
      StorageKind(Some(stored)) == LocalKind && VaultKey(Some(stored)) == None && FormOf(c, stored, plaintext)
  {
    var stored := LocalForm(c, plaintext, nonce);
    assert stored[..|PREFIX|] == PREFIX && stored[|PREFIX|..] == c.seal(plaintext, nonce);
  }

  lemma {:induction false} MirrorFormIsKnown(c: Cipher, key: string, plaintext: string, nonce: string)
    requires Sound(c) && plaintext != "" && ValidKey(key)
    ensures var stored := MirrorForm(c, key, plaintext, nonce);
      StorageKind(Some(stored)) == MirrorKind && VaultKey(Some(stored)) == Some(key) && FormOf(c, stored, plaintext)
  {
    var stored := MirrorForm(c, key, plaintext, nonce);
    KeysHaveNoColon(key);
    PartitionAt(key, c.seal(plaintext, nonce));
    assert stored[..|MIRROR_PREFIX|] == MIRROR_PREFIX;
    assert stored[|MIRROR_PREFIX|..] == key + ":" + c.seal(plaintext, nonce);
    assert stored[1] == 'm' && PREFIX[1] == '1';
  }

  lemma {:induction false} FormHasValidKey(c: Cipher, stored: string, plaintext: string)
    requires FormOf(c, stored, plaintext) && VaultKey(Some(stored)).Some?
    ensures ValidKey(VaultKey(Some(stored)).value) && VaultKey(Some(stored)).value != ""
  {
    KeysHaveNoColon(VaultKey(Some(stored)).value);
  }

  /** What a form reads back as, as long as the vault holds its plaintext or
      nothing under its key. */
  lemma {:induction false} FormReadsBack(c: Cipher, vault: map<string, Entry>, mode: Mode, stored: string,
                                         plaintext: string, answers: bool)
    requires FormOf(c, stored, plaintext)
    requires var key := VaultKey(Some(stored));
      key.Some? && key.value in vault ==> vault[key.value].value == plaintext
    ensures var read := Decrypt(c, vault, mode, Some(stored), answers);
      && (read.Ok? ==> read.value == Some(plaintext))
      && (read.Err? <==>
            || (StorageKind(Some(stored)).VaultKind? && (!answers || VaultKey(Some(stored)).value !in vault))
            || (StorageKind(Some(stored)).MirrorKind? && mode.Misconfigured?))
  {
  }
}

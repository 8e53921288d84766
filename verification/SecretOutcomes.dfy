/** What a save, a migration, a commit and a read come to, from the mode, the
    kind and the vault's answer alone. */
module SecretOutcomes {
  import opened SecretForms
  import opened SecretStore
  import opened Wrappers

  // ---------------------------------------------------------------- saves --

  /** Whether a save gets as far as a form to store, and of which kind it is. */
  predicate CanSave(mode: Mode, outcome: WriteOutcome) {
    mode in {Local, Mirror} || (mode == Vault && outcome == Stored)
  }

  function SavedKind(mode: Mode, outcome: WriteOutcome): Kind {
    if mode == Vault then VaultKind else if mode == Mirror && outcome == Stored then MirrorKind else LocalKind
  }

  /** In vault mode a save succeeds exactly when the vault has stored the value and
      said so, and keeps no copy here; in mirror mode it always does, mirrored if
      the vault said so and local if not; in local mode the vault is not asked. */
  lemma {:induction false} SaveComesTo(c: Cipher, vault: map<string, Entry>, mode: Mode, plaintext: string,
                                       key: string, nonce: string, now: int, outcome: WriteOutcome)
    requires Sound(c) && plaintext != "" && ValidKey(key) && key !in vault
    ensures var (after, r) := Encrypt(c, vault, mode, plaintext, key, nonce, now, outcome);
      && (r.Ok? <==> CanSave(mode, outcome))
      && (r.Ok? ==> r.value.Some? && StorageKind(r.value) == SavedKind(mode, outcome)
                    && FormOf(c, r.value.value, plaintext)
                    && VaultKey(r.value) == (if SavedKind(mode, outcome) == LocalKind then None else Some(key)))
      && (r.Err? ==> r.error == (if mode == Misconfigured then BadMode else VaultFailed))
      && after == (if mode in {Mirror, Vault} && outcome != Refused
                   then vault[key := Entry(plaintext, now)] else vault)
  {
    if mode in {Mirror, Vault} && outcome == Stored {
      var kind := if mode == Vault then VaultKind else MirrorKind;
      SealedFormsAreRecognised(c, vault, plaintext, kind, None, key, nonce, now, outcome);
      KeysHaveNoColon(key);
    } else {
      LocalFormIsKnown(c, plaintext, nonce);
    }
  }

  lemma {:induction false} NothingToSave(c: Cipher, vault: map<string, Entry>, mode: Mode, key: string, nonce: string,
                                         now: int, outcome: WriteOutcome)
    ensures Encrypt(c, vault, mode, "", key, nonce, now, outcome) == (vault, Ok(None))
  {
  }

  /** A save leaves one more write on its way to the database exactly when it has
      something to store; saving nothing empties the row at once. */
  lemma {:induction false} SaveLeavesPendingIff(c: Cipher, s: State, act: Action)
    requires Sound(c) && Inv(c, s) && act.Save? && Admissible(s, act)
    ensures var t := Step(c, s, act);
      var saved := act.plaintext != "" && CanSave(s.mode, act.outcome);
      && |t.pending| == |s.pending| + (if saved then 1 else 0) && s.pending <= t.pending
      && (saved ==>
            var p := t.pending[|s.pending|];
            && p.row == act.row && p.plaintext == act.plaintext && p.wasRead.None?
            && StorageKind(Some(p.stored)) == SavedKind(s.mode, act.outcome))
      && t.rows == (if act.plaintext == "" then s.rows - {act.row} else s.rows)
      && t.truth == (if act.plaintext == "" then s.truth - {act.row} else s.truth)
  {
    if act.plaintext == "" {
      NothingToSave(c, s.vault, s.mode, act.key, act.nonce, act.now, act.outcome);
    } else {
      SaveComesTo(c, s.vault, s.mode, act.plaintext, act.key, act.nonce, act.now, act.outcome);
    }
  }

  // ----------------------------------------------------------- migrations --

  /** The row can be read, is of another kind, and the vault takes what goes there. */
  predicate Converts(s: State, act: Action)
    requires act.Migrate?
  {
    && act.row in s.rows
    && var kind := StorageKind(Some(s.rows[act.row]));
       && kind != act.target
       && (kind == VaultKind ==> act.answers && VaultKey(Some(s.rows[act.row])).value in s.vault)
       && (kind == MirrorKind ==> s.mode != Misconfigured)
       && (act.target != LocalKind ==> act.outcome == Stored)
  }

  /** A migration of one row leaves a conversion on its way exactly then: of the
      wanted kind, to be swapped in for what was read, and in the vault under the
      row's own key if it has one. */
  lemma {:induction false} MigrationConvertsIff(c: Cipher, s: State, act: Action)
    requires Sound(c) && Inv(c, s) && act.Migrate? && Admissible(s, act)
    ensures var t := Step(c, s, act);
      && t.rows == s.rows && t.truth == s.truth
      && |t.pending| == |s.pending| + (if Converts(s, act) then 1 else 0) && s.pending <= t.pending
      && (Converts(s, act) ==>
            var p := t.pending[|s.pending|];
            && p.row == act.row && p.plaintext == s.truth[act.row] && p.wasRead == Some(s.rows[act.row])
            && StorageKind(Some(p.stored)) == act.target
            && VaultKey(Some(p.stored)) ==
               (if act.target == LocalKind then None
                else if VaultKey(p.wasRead).Some? then VaultKey(p.wasRead) else Some(act.key)))
  {
    if act.row in s.rows {
      var stored, truth := s.rows[act.row], s.truth[act.row];
      RowReadsTruth(c, s, act.row, act.answers);
      assert Says(c, s, stored, truth);
      if Converts(s, act) {
        var reuse := ReuseKey(Some(stored), act.target);
        if reuse.Some? { FormHasValidKey(c, stored, truth); }
        KeysHaveNoColon(act.key);
        SealedFormsAreRecognised(c, s.vault, truth, act.target, reuse, act.key, act.nonce, act.now, act.outcome);
      }
    }
  }

  /** The vault then holds what the row says, under the row's own key with the age it
      had, or under a new one; a conversion to a local form leaves it alone. */
  lemma {:induction false} MigrationWritesTheVault(c: Cipher, s: State, act: Action)
    requires Sound(c) && Inv(c, s) && act.Migrate? && Admissible(s, act) && Converts(s, act)
    ensures var own := VaultKey(Some(s.rows[act.row]));
      var key := if own.Some? then own.value else act.key;
      Step(c, s, act).vault ==
      if act.target == LocalKind then s.vault
      else s.vault[key := Entry(s.truth[act.row], if key in s.vault then s.vault[key].created else act.now)]
  {
    var stored, truth := s.rows[act.row], s.truth[act.row];
    RowReadsTruth(c, s, act.row, act.answers);
    assert Says(c, s, stored, truth);
    var reuse := ReuseKey(Some(stored), act.target);
    if reuse.Some? { FormHasValidKey(c, stored, truth); }
    KeysHaveNoColon(act.key);
  }

  /** A save's commit always takes effect; a conversion's only if the row still
      holds what was read. Either way the write is done with. */
  lemma {:induction false} CommitTakesEffectIff(c: Cipher, s: State, n: nat)
    requires n < |s.pending|
    ensures var p, t := s.pending[n], Step(c, s, Commit(n));
      var fits := p.wasRead.Some? ==> p.row in s.rows && s.rows[p.row] == p.wasRead.value;
      && t.pending == s.pending[..n] + s.pending[n + 1..]
      && t.rows == (if fits then s.rows[p.row := p.stored] else s.rows)
      && t.truth == (if fits then s.truth[p.row := p.plaintext] else s.truth)
      && t.vault == s.vault
  {
  }

  // ------------------------------------------------------- collections --

  /** A write that is given up is done with and changes nothing else; a mode change
      only the mode; a listing lists the well-made keys the vault holds. */
  lemma {:induction false} SmallStepsDoNoMore(c: Cipher, s: State, n: nat, mode: Mode, key: string)
    ensures n < |s.pending| ==> Step(c, s, Abort(n)) == s.(pending := s.pending[..n] + s.pending[n + 1..])
    ensures Step(c, s, SetMode(mode)) == s.(mode := mode)
    ensures var t := Step(c, s, List);
      t.vault == s.vault && t.rows == s.rows && (key in t.listed <==> key in s.vault && ValidKey(key))
  {
  }

  /** A collection deletes an entry exactly when it was listed, no row refers to it
      at the scan, and it is then at least the minimum age old, if there is one. */
  lemma {:induction false} CollectsIff(c: Cipher, s: State, key: string, minAge: int, now: int)
    ensures var t := Step(c, Step(c, s, Scan(minAge, now)), Delete(key));
      && t.rows == s.rows && t.pending == s.pending
      && (key in s.vault ==>
            (key !in t.vault <==>
              && key in s.listed
              && (forall r :: r in s.rows ==> VaultKey(Some(s.rows[r])) != Some(key))
              && (minAge > 0 ==> now - s.vault[key].created >= minAge)))
      && (forall other :: other != key ==> (other in t.vault <==> other in s.vault))
  {
  }

  // ---------------------------------------------------------------- reads --

  /** A mirrored secret is read from the vault first, whatever its copy here says,
      and from the copy if the vault has nothing or does not answer; in local mode
      from the copy only. */
  lemma {:induction false} MirrorReadsTheVaultFirst(c: Cipher, vault: map<string, Entry>, mode: Mode, stored: string,
                                                   plaintext: string, answers: bool)
    requires FormOf(c, stored, plaintext) && StorageKind(Some(stored)) == MirrorKind && mode != Misconfigured
    ensures var key := VaultKey(Some(stored)).value;
      Decrypt(c, vault, mode, Some(stored), answers) ==
      Ok(Some(if mode != Local && answers && key in vault && vault[key].value != "" then vault[key].value
              else plaintext))
  {
  }

  /** What has no known prefix is refused, and nothing reads as nothing. */
  lemma {:induction false} ForeignTextIsRefused(c: Cipher, vault: map<string, Entry>, mode: Mode, stored: string,
                                                answers: bool)
    requires stored != "" && !(PREFIX <= stored) && !(MIRROR_PREFIX <= stored) && !(VAULT_PREFIX <= stored)
    ensures Decrypt(c, vault, mode, Some(stored), answers) == Err(Unreadable)
    ensures Decrypt(c, vault, mode, None, answers) == Decrypt(c, vault, mode, Some(""), answers) == Ok(None)
  {
  }

  // ----------------------------------------------------------------- keys --

  const HEX: string := "0123456789abcdef"

  lemma {:induction false} HexDigitIff(c: char)
    ensures HexDigit(c) <==> c in HEX
  {
    if '0' <= c <= '9' { assert HEX[c as int - '0' as int] == c; }
    if 'a' <= c <= 'f' { assert HEX[10 + c as int - 'a' as int] == c; }
  }

  predicate IsDash(i: int) {
    i == 8 || i == 13 || i == 18 || i == 23
  }

  /** A vault key is five groups of lower-case hexadecimal digits, 36 characters with
      the dashes; one line break after them goes unnoticed. */
  lemma {:induction false} ValidKeyIff(key: string)
    ensures ValidKey(key) <==>
            && (|key| == 36 || (|key| == 37 && key[36] == '\n'))
            && forall i :: 0 <= i < 36 ==> if IsDash(i) then key[i] == '-' else key[i] in HEX
  {
    forall c: char ensures HexDigit(c) <==> c in HEX { HexDigitIff(c); }
    if |key| == 37 { assert forall i :: 0 <= i < 36 ==> key[..36][i] == key[i]; }
  }

  // ------------------------------------------------------- in vault mode --

  /** Secrets are only saved in vault mode, and only migrated to the vault. */
  ghost predicate KeptToTheVault(c: Cipher, s: State, acts: seq<Action>)
    decreases |acts|
  {
    acts != [] ==>
      && (acts[0].Save? ==> s.mode == Vault) && (acts[0].Migrate? ==> acts[0].target == VaultKind)
      && KeptToTheVault(c, Step(c, s, acts[0]), acts[1..])
  }

  ghost predicate NothingHere(s: State) {
    && (forall r :: r in s.rows ==> StorageKind(Some(s.rows[r])) == VaultKind)
    && (forall n :: 0 <= n < |s.pending| ==> StorageKind(Some(s.pending[n].stored)) == VaultKind)
  }

  lemma {:induction false} OthersKeepNothingHere(c: Cipher, s: State, act: Action)
    requires NothingHere(s) && !act.Save? && !act.Migrate?
    ensures NothingHere(Step(c, s, act))
  {
  }

  lemma {:induction false} StepKeepsNothingHere(c: Cipher, s: State, act: Action)
    requires Sound(c) && Inv(c, s) && Admissible(s, act) && NothingHere(s)
    requires (act.Save? ==> s.mode == Vault) && (act.Migrate? ==> act.target == VaultKind)
    ensures NothingHere(Step(c, s, act))
  {
    if act.Save? {
      SaveLeavesPendingIff(c, s, act);
    } else if act.Migrate? {
      MigrationConvertsIff(c, s, act);
    } else {
      OthersKeepNothingHere(c, s, act);
    }
  }

  lemma {:induction false} RunKeepsNothingHere(c: Cipher, s: State, acts: seq<Action>)
    requires Sound(c) && Inv(c, s) && AdmissibleRun(c, s, acts) && KeptToTheVault(c, s, acts) && NothingHere(s)
    ensures NothingHere(Run(c, s, acts))
    decreases |acts|
  {
    if acts != [] {
      StepKeepsInv(c, s, acts[0]);
      StepKeepsNothingHere(c, s, acts[0]);
      RunKeepsNothingHere(c, Step(c, s, acts[0]), acts[1..]);
    }
  }

  /** Then no row ever holds a copy of a secret: whatever the vault refuses or
      loses, nothing falls back to this host. */
  lemma {:induction false} VaultModeKeepsNothingHere(c: Cipher, acts: seq<Action>, r: nat)
    requires Sound(c) && AdmissibleRun(c, INITIAL, acts) && KeptToTheVault(c, INITIAL, acts)
    requires r in Run(c, INITIAL, acts).rows
    ensures StorageKind(Some(Run(c, INITIAL, acts).rows[r])) == VaultKind
  {
    RunKeepsNothingHere(c, INITIAL, acts);
  }
}

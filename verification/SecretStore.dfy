/** Stored secrets over whole runs: saves, mode changes, vault failures, storage
    migrations and the collection of unreferenced vault entries, with every
    database write committing some time after the vault write it goes with. */
module SecretStore {
  import opened SecretForms
  import opened Wrappers

  /** A write on its way to the database. A migration swaps the value only if the
      row still holds what was read; a save is unconditional. */
  datatype Pending = Pending(row: nat, stored: string, plaintext: string, wasRead: Option<string>)

  /** `truth` is what was last saved in each row; `condemned` is what a garbage
      collection in progress has decided to delete; `minted` is every vault key
      drawn so far, with the plaintext it was drawn for. */
  datatype State = State(
    rows: map<nat, string>,
    truth: map<nat, string>,
    vault: map<string, Entry>,
    mode: Mode,
    pending: seq<Pending>,
    listed: set<string>,
    condemned: set<string>,
    minted: map<string, string>)

  datatype Action =
    | SetMode(mode: Mode)
    | Save(row: nat, plaintext: string, key: string, nonce: string, now: int, outcome: WriteOutcome)
    | Migrate(row: nat, target: Kind, key: string, nonce: string, now: int, answers: bool, outcome: WriteOutcome)
    | Commit(n: nat)
    | Abort(n: nat)
    | List
    | Scan(minAge: int, now: int)
    | Delete(key: string)

  const INITIAL := State(map[], map[], map[], Local, [], {}, {}, map[])

  function Lookup(rows: map<nat, string>, row: nat): Option<string> {
    if row in rows then Some(rows[row]) else None
  }

  function SaveStep(c: Cipher, s: State, act: Action): State
    requires act.Save?
  {
    var (vault, stored) :=
      Encrypt(c, s.vault, s.mode, act.plaintext, act.key, act.nonce, act.now, act.outcome);
    var after := s.(vault := vault, minted := s.minted[act.key := act.plaintext]);
    match stored
    case Err(_) => after
    case Ok(None) => after.(rows := s.rows - {act.row}, truth := s.truth - {act.row})
    case Ok(Some(text)) => after.(pending := s.pending + [Pending(act.row, text, act.plaintext, None)])
  }

  /** The vault entry a migration rewrites in place rather than mint another. */
  function ReuseKey(stored: Option<string>, target: Kind): Option<string> {
    var kind := StorageKind(stored);
    if (kind.MirrorKind? || kind.VaultKind?) && !target.LocalKind? then VaultKey(stored) else None
  }

  /** One row of a migration: unchanged unless it can be read and re-stored. */
  function MigrateStep(c: Cipher, s: State, act: Action): State
    requires act.Migrate?
  {
    var current := Lookup(s.rows, act.row);
    var kind := StorageKind(current);
    if kind.Empty? || kind == act.target then s
    else
      var read := Decrypt(c, s.vault, s.mode, current, act.answers);
      if read.Err? || read.value.None? || read.value.value == "" then s
      else
        var reuse := ReuseKey(current, act.target);
        var (vault, stored) :=
          SealAs(c, s.vault, read.value.value, act.target, reuse, act.key, act.nonce, act.now, act.outcome);
        var after := s.(vault := vault, minted := s.minted[act.key := read.value.value]);
        if stored.Err? then after
        else after.(pending := s.pending + [Pending(act.row, stored.value, read.value.value, current)])
  }

  predicate Applies(s: State, p: Pending) {
    p.wasRead.None? || Lookup(s.rows, p.row) == p.wasRead
  }

  function CommitStep(s: State, n: nat): State {
    if n >= |s.pending| then s
    else
      var p := s.pending[n];
      var rest := s.(pending := s.pending[..n] + s.pending[n + 1..]);
      if Applies(s, p) then rest.(rows := s.rows[p.row := p.stored], truth := s.truth[p.row := p.plaintext])
      else rest
  }

  ghost predicate Referenced(rows: map<nat, string>, key: string) {
    exists r :: r in rows && VaultKey(Some(rows[r])) == Some(key)
  }

  /** Old enough to be an orphan; an entry whose age cannot be read is kept. */
  predicate OldEnough(vault: map<string, Entry>, key: string, minAge: int, now: int) {
    minAge <= 0 || (key in vault && vault[key].created <= now - minAge)
  }

  ghost function Step(c: Cipher, s: State, act: Action): State {
    match act
    case SetMode(mode) => s.(mode := mode)
    case Save(_, _, _, _, _, _) => SaveStep(c, s, act)
    case Migrate(_, _, _, _, _, _, _) => MigrateStep(c, s, act)
    case Commit(n) => CommitStep(s, n)
    case Abort(n) => if n < |s.pending| then s.(pending := s.pending[..n] + s.pending[n + 1..]) else s
    case List => s.(listed := set key | key in s.vault && ValidKey(key))
    case Scan(minAge, now) =>
      s.(condemned := set key | key in s.listed && !Referenced(s.rows, key) && OldEnough(s.vault, key, minAge, now))
    case Delete(key) =>
      if key in s.condemned then s.(vault := s.vault - {key}, condemned := s.condemned - {key}) else s
  }

  /** A pending write whose vault key was minted for it. */
  ghost predicate Fresh(p: Pending, key: string) {
    && VaultKey(Some(p.stored)) == Some(key)
    && (p.wasRead.None? || VaultKey(p.wasRead) != Some(key))
  }

  /** A scan comes too late for a key once a write that is about to reference it
      has been pending for the minimum age, or when there is no minimum. */
  ghost predicate ScanIsSafe(s: State, minAge: int, now: int) {
    forall n, key :: 0 <= n < |s.pending| && Fresh(s.pending[n], key) && key in s.listed ==>
                       !OldEnough(s.vault, key, minAge, now)
  }

  ghost predicate Admissible(s: State, act: Action) {
    match act
    case Save(_, _, key, _, _, _) => ValidKey(key) && key !in s.minted
    case Migrate(_, target, key, _, _, _, _) =>
      ValidKey(key) && key !in s.minted && (target.LocalKind? || target.MirrorKind? || target.VaultKind?)
    case _ => true
  }

  // ------------------------------------------------------------ invariants --

  /** The key of a form, if it has one, was drawn for this plaintext. */
  ghost predicate Meant(s: State, stored: string, plaintext: string) {
    var key := VaultKey(Some(stored));
    key.Some? ==> key.value in s.minted && s.minted[key.value] == plaintext
  }

  ghost predicate Says(c: Cipher, s: State, stored: string, plaintext: string) {
    FormOf(c, stored, plaintext) && Meant(s, stored, plaintext)
  }

  /** Both what a pending write stores and what it expects to find say the same. */
  ghost predicate PendingOk(c: Cipher, s: State, p: Pending) {
    Says(c, s, p.stored, p.plaintext) && (p.wasRead.Some? ==> Says(c, s, p.wasRead.value, p.plaintext))
  }

  /** Every row says what was last saved in it, and no vault entry ever holds
      anything but what its key was drawn for. */
  ghost predicate Inv(c: Cipher, s: State) {
    && s.rows.Keys == s.truth.Keys
    && (forall r :: r in s.rows ==> Says(c, s, s.rows[r], s.truth[r]))
    && (forall n :: 0 <= n < |s.pending| ==> PendingOk(c, s, s.pending[n]))
    && (forall key :: key in s.vault ==> key in s.minted && s.vault[key].value == s.minted[key])
  }

  // ----------------------------------------------------- what each step keeps --

  /** Drawing a key, and whatever that did to the vault, changes what nothing says. */
  lemma {:induction false} DrawKeepsInv(c: Cipher, s: State, vault: map<string, Entry>, key: string, plaintext: string)
    requires Inv(c, s) && key !in s.minted
    requires var minted := s.minted[key := plaintext];
      forall k :: k in vault ==> k in minted && vault[k].value == minted[k]
    ensures Inv(c, s.(vault := vault, minted := s.minted[key := plaintext]))
  {
    var t := s.(vault := vault, minted := s.minted[key := plaintext]);
    forall n | 0 <= n < |t.pending| ensures PendingOk(c, t, t.pending[n]) {
      assert PendingOk(c, s, s.pending[n]);
    }
  }

  lemma {:induction false} AppendKeepsInv(c: Cipher, s: State, p: Pending)
    requires Inv(c, s) && PendingOk(c, s, p)
    ensures Inv(c, s.(pending := s.pending + [p]))
  {
    var t := s.(pending := s.pending + [p]);
    forall n | 0 <= n < |t.pending| ensures PendingOk(c, t, t.pending[n]) {
      if n < |s.pending| { assert PendingOk(c, s, s.pending[n]); }
    }
  }

  lemma {:induction false} LocalSays(c: Cipher, s: State, plaintext: string, nonce: string)
    requires Sound(c) && plaintext != ""
    ensures Says(c, s, LocalForm(c, plaintext, nonce), plaintext)
  {
    LocalFormIsKnown(c, plaintext, nonce);
  }

  lemma {:induction false} SaveKeepsInv(c: Cipher, s: State, act: Action)
    requires Sound(c) && Inv(c, s) && act.Save? && Admissible(s, act)
    ensures Inv(c, SaveStep(c, s, act))
  {
    var (vault, stored) :=
      Encrypt(c, s.vault, s.mode, act.plaintext, act.key, act.nonce, act.now, act.outcome);
    var after := s.(vault := vault, minted := s.minted[act.key := act.plaintext]);
    DrawKeepsInv(c, s, vault, act.key, act.plaintext);
    if stored.Ok? && stored.value.Some? {
      if s.mode.Local? || stored.value.value == LocalForm(c, act.plaintext, act.nonce) {
        LocalSays(c, after, act.plaintext, act.nonce);
      } else {
        var kind := if s.mode.Vault? then VaultKind else MirrorKind;
        SealedFormsAreRecognised(c, s.vault, act.plaintext, kind, None, act.key, act.nonce, act.now, act.outcome);
      }
      AppendKeepsInv(c, after, Pending(act.row, stored.value.value, act.plaintext, None));
    } else if stored.Ok? {
      var t := SaveStep(c, s, act);
      forall n | 0 <= n < |t.pending| ensures PendingOk(c, t, t.pending[n]) {
        assert PendingOk(c, after, after.pending[n]);
      }
    }
  }

  /** Whether the vault still has the entry under a form's key, if it has one. */
  ghost predicate Present(s: State, stored: string) {
    var key := VaultKey(Some(stored));
    key.Some? ==> key.value in s.vault
  }

  /** A row that can be read reads as what was saved in it. */
  lemma {:induction false} RowReadsTruth(c: Cipher, s: State, r: nat, answers: bool)
    requires Inv(c, s) && r in s.rows
    ensures var read := Decrypt(c, s.vault, s.mode, Some(s.rows[r]), answers);
      && (read.Ok? ==> read.value == Some(s.truth[r]))
      && (read.Err? <==>
            || (StorageKind(Some(s.rows[r])).VaultKind? && (!answers || !Present(s, s.rows[r])))
            || (StorageKind(Some(s.rows[r])).MirrorKind? && s.mode.Misconfigured?))
  {
    assert Says(c, s, s.rows[r], s.truth[r]);
    FormReadsBack(c, s.vault, s.mode, s.rows[r], s.truth[r], answers);
  }

  lemma {:induction false} ResealKeepsInv(c: Cipher, s: State, act: Action, plaintext: string)
    requires Sound(c) && Inv(c, s) && act.Migrate? && Admissible(s, act)
    requires act.row in s.rows && Says(c, s, s.rows[act.row], plaintext)
    ensures var current := Lookup(s.rows, act.row);
      var (vault, stored) := SealAs(c, s.vault, plaintext, act.target, ReuseKey(current, act.target),
                                    act.key, act.nonce, act.now, act.outcome);
      var after := s.(vault := vault, minted := s.minted[act.key := plaintext]);
      && Inv(c, after)
      && (stored.Ok? ==> PendingOk(c, after, Pending(act.row, stored.value, plaintext, current)))
  {
    var current := Lookup(s.rows, act.row);
    var reuse := ReuseKey(current, act.target);
    if reuse.Some? { FormHasValidKey(c, current.value, plaintext); }
    var (vault, stored) :=
      SealAs(c, s.vault, plaintext, act.target, reuse, act.key, act.nonce, act.now, act.outcome);
    DrawKeepsInv(c, s, vault, act.key, plaintext);
    if stored.Ok? {
      SealedFormsAreRecognised(c, s.vault, plaintext, act.target, reuse, act.key, act.nonce, act.now, act.outcome);
    }
  }

  lemma {:induction false} MigrateKeepsInv(c: Cipher, s: State, act: Action)
    requires Sound(c) && Inv(c, s) && act.Migrate? && Admissible(s, act)
    ensures Inv(c, MigrateStep(c, s, act))
  {
    var current := Lookup(s.rows, act.row);
    var kind := StorageKind(current);
    if !kind.Empty? && kind != act.target {
      RowReadsTruth(c, s, act.row, act.answers);
      var read := Decrypt(c, s.vault, s.mode, current, act.answers);
      if read.Ok? {
        var plaintext := s.truth[act.row];
        ResealKeepsInv(c, s, act, plaintext);
        var (vault, stored) := SealAs(c, s.vault, plaintext, act.target, ReuseKey(current, act.target),
                                      act.key, act.nonce, act.now, act.outcome);
        if stored.Ok? {
          var after := s.(vault := vault, minted := s.minted[act.key := plaintext]);
          AppendKeepsInv(c, after, Pending(act.row, stored.value, plaintext, current));
        }
      }
    }
  }

  lemma {:induction false} DropKeepsInv(c: Cipher, s: State, n: nat)
    requires Inv(c, s) && n < |s.pending|
    ensures Inv(c, s.(pending := s.pending[..n] + s.pending[n + 1..]))
  {
    var t := s.(pending := s.pending[..n] + s.pending[n + 1..]);
    forall k | 0 <= k < |t.pending| ensures PendingOk(c, t, t.pending[k]) {
      assert PendingOk(c, s, s.pending[if k < n then k else k + 1]);
    }
  }

  /** A migration that finds the row as it read it re-stores what the row says. */
  lemma {:induction false} MigrationAgrees(c: Cipher, s: State, p: Pending)
    requires Inv(c, s) && PendingOk(c, s, p) && p.wasRead.Some? && Applies(s, p)
    ensures p.row in s.truth && s.truth[p.row] == p.plaintext
  {
    assert Says(c, s, s.rows[p.row], s.truth[p.row]);
  }

  lemma {:induction false} CommitKeepsInv(c: Cipher, s: State, n: nat)
    requires Inv(c, s)
    ensures Inv(c, CommitStep(s, n))
  {
    if n < |s.pending| {
      DropKeepsInv(c, s, n);
      var t := CommitStep(s, n);
      var rest := s.(pending := s.pending[..n] + s.pending[n + 1..]);
      assert PendingOk(c, s, s.pending[n]);
      forall k | 0 <= k < |t.pending| ensures PendingOk(c, t, t.pending[k]) {
        assert PendingOk(c, rest, rest.pending[k]);
      }
    }
  }

  lemma {:induction false} StepKeepsInv(c: Cipher, s: State, act: Action)
    requires Sound(c) && Inv(c, s) && Admissible(s, act)
    ensures Inv(c, Step(c, s, act))
  {
    match act
    case Save(_, _, _, _, _, _) => SaveKeepsInv(c, s, act);
    case Migrate(_, _, _, _, _, _, _) => MigrateKeepsInv(c, s, act);
    case Commit(n) => CommitKeepsInv(c, s, n);
    case Abort(n) => if n < |s.pending| { DropKeepsInv(c, s, n); }
    case _ =>
      var t := Step(c, s, act);
      forall n | 0 <= n < |t.pending| ensures PendingOk(c, t, t.pending[n]) { assert PendingOk(c, s, s.pending[n]); }
  }

  // ------------------------------------------------- collections in good time --

  ghost predicate InTime(s: State, act: Action) {
    act.Scan? ==> ScanIsSafe(s, act.minAge, act.now)
  }

  /** The entry is there and no collection is about to take it. */
  ghost predicate Spared(s: State, stored: string) {
    var key := VaultKey(Some(stored));
    key.Some? ==> key.value in s.vault && key.value !in s.condemned
  }

  /** A pending write's own key is in the vault; otherwise its key is that of the
      row it expects to find. */
  ghost predicate PendingSpared(s: State, p: Pending) {
    var key := VaultKey(Some(p.stored));
    key.Some? && Fresh(p, key.value) ==> Spared(s, p.stored)
  }

  ghost predicate AllSpared(s: State) {
    && (forall r :: r in s.rows ==> Spared(s, s.rows[r]))
    && (forall n :: 0 <= n < |s.pending| ==> PendingSpared(s, s.pending[n]))
    && s.listed <= s.minted.Keys && s.condemned <= s.minted.Keys
  }

  lemma {:induction false} AppendSpares(s: State, p: Pending)
    requires AllSpared(s) && PendingSpared(s, p)
    ensures AllSpared(s.(pending := s.pending + [p]))
  {
    var t := s.(pending := s.pending + [p]);
    forall n | 0 <= n < |t.pending| ensures PendingSpared(t, t.pending[n]) {
      if n < |s.pending| { assert PendingSpared(s, s.pending[n]); }
    }
  }

  lemma {:induction false} DrawSpares(s: State, vault: map<string, Entry>, key: string, plaintext: string)
    requires AllSpared(s) && s.vault.Keys <= vault.Keys
    ensures AllSpared(s.(vault := vault, minted := s.minted[key := plaintext]))
  {
    var t := s.(vault := vault, minted := s.minted[key := plaintext]);
    forall n | 0 <= n < |t.pending| ensures PendingSpared(t, t.pending[n]) {
      assert PendingSpared(s, s.pending[n]);
    }
  }

  lemma {:induction false} SaveSpares(c: Cipher, s: State, act: Action)
    requires Sound(c) && AllSpared(s) && act.Save? && Admissible(s, act)
    ensures AllSpared(SaveStep(c, s, act))
  {
    var (vault, stored) :=
      Encrypt(c, s.vault, s.mode, act.plaintext, act.key, act.nonce, act.now, act.outcome);
    var after := s.(vault := vault, minted := s.minted[act.key := act.plaintext]);
    DrawSpares(s, vault, act.key, act.plaintext);
    if stored.Ok? && stored.value.Some? {
      if s.mode.Local? || stored.value.value == LocalForm(c, act.plaintext, act.nonce) {
        LocalFormIsKnown(c, act.plaintext, act.nonce);
      } else {
        var kind := if s.mode.Vault? then VaultKind else MirrorKind;
        SealedFormsAreRecognised(c, s.vault, act.plaintext, kind, None, act.key, act.nonce, act.now, act.outcome);
      }
      AppendSpares(after, Pending(act.row, stored.value.value, act.plaintext, None));
    } else if stored.Ok? {
      var t := SaveStep(c, s, act);
      forall n | 0 <= n < |t.pending| ensures PendingSpared(t, t.pending[n]) {
        assert PendingSpared(after, after.pending[n]);
      }
    }
  }

  lemma {:induction false} MigrateSpares(c: Cipher, s: State, act: Action)
    requires Sound(c) && Inv(c, s) && AllSpared(s) && act.Migrate? && Admissible(s, act)
    ensures AllSpared(MigrateStep(c, s, act))
  {
    var current := Lookup(s.rows, act.row);
    var kind := StorageKind(current);
    var read := Decrypt(c, s.vault, s.mode, current, act.answers);
    if !kind.Empty? && kind != act.target && read.Ok? && read.value.Some? && read.value.value != "" {
      RowReadsTruth(c, s, act.row, act.answers);
      var plaintext, reuse := s.truth[act.row], ReuseKey(current, act.target);
      if reuse.Some? { FormHasValidKey(c, current.value, plaintext); }
      var (vault, stored) :=
        SealAs(c, s.vault, plaintext, act.target, reuse, act.key, act.nonce, act.now, act.outcome);
      DrawSpares(s, vault, act.key, plaintext);
      if stored.Ok? {
        SealedFormsAreRecognised(c, s.vault, plaintext, act.target, reuse, act.key, act.nonce, act.now, act.outcome);
        var after := s.(vault := vault, minted := s.minted[act.key := plaintext]);
        AppendSpares(after, Pending(act.row, stored.value, plaintext, current));
      }
    }
  }

  lemma {:induction false} DropSpares(s: State, n: nat)
    requires AllSpared(s) && n < |s.pending|
    ensures AllSpared(s.(pending := s.pending[..n] + s.pending[n + 1..]))
  {
    var t := s.(pending := s.pending[..n] + s.pending[n + 1..]);
    forall k | 0 <= k < |t.pending| ensures PendingSpared(t, t.pending[k]) {
      assert PendingSpared(s, s.pending[if k < n then k else k + 1]);
    }
  }

  lemma {:induction false} CommitSpares(s: State, n: nat)
    requires AllSpared(s)
    ensures AllSpared(CommitStep(s, n))
  {
    if n < |s.pending| {
      DropSpares(s, n);
      var p, t := s.pending[n], CommitStep(s, n);
      var rest := s.(pending := s.pending[..n] + s.pending[n + 1..]);
      assert PendingSpared(s, p);
      if Applies(s, p) && p.wasRead.Some? { assert Spared(s, s.rows[p.row]); }
      forall k | 0 <= k < |t.pending| ensures PendingSpared(t, t.pending[k]) {
        assert PendingSpared(rest, rest.pending[k]);
      }
    }
  }

  lemma {:induction false} CollectSpares(c: Cipher, s: State, act: Action)
    requires Inv(c, s) && AllSpared(s) && InTime(s, act) && (act.List? || act.Scan? || act.Delete?)
    ensures AllSpared(Step(c, s, act))
  {
    var t := Step(c, s, act);
    forall r | r in t.rows ensures Spared(t, t.rows[r]) {
      assert Spared(s, s.rows[r]);
    }
    forall n | 0 <= n < |t.pending| ensures PendingSpared(t, t.pending[n]) {
      assert PendingSpared(s, s.pending[n]);
    }
  }

  lemma {:induction false} StepSpares(c: Cipher, s: State, act: Action)
    requires Sound(c) && Inv(c, s) && AllSpared(s) && Admissible(s, act) && InTime(s, act)
    ensures AllSpared(Step(c, s, act))
  {
    match act
    case SetMode(mode) =>
      var t := s.(mode := mode);
      forall n | 0 <= n < |t.pending| ensures PendingSpared(t, t.pending[n]) { assert PendingSpared(s, s.pending[n]); }
    case Save(_, _, _, _, _, _) => SaveSpares(c, s, act);
    case Migrate(_, _, _, _, _, _, _) => MigrateSpares(c, s, act);
    case Commit(n) => CommitSpares(s, n);
    case Abort(n) => if n < |s.pending| { DropSpares(s, n); }
    case _ => CollectSpares(c, s, act);
  }

  // -------------------------------------------------------------- whole runs --

  ghost predicate AdmissibleRun(c: Cipher, s: State, acts: seq<Action>)
    decreases |acts|
  {
    acts != [] ==> Admissible(s, acts[0]) && AdmissibleRun(c, Step(c, s, acts[0]), acts[1..])
  }

  ghost function Run(c: Cipher, s: State, acts: seq<Action>): State
    decreases |acts|
  {
    if acts == [] then s else Run(c, Step(c, s, acts[0]), acts[1..])
  }

  lemma {:induction false} RunKeepsInv(c: Cipher, s: State, acts: seq<Action>)
    requires Sound(c) && Inv(c, s) && AdmissibleRun(c, s, acts)
    ensures Inv(c, Run(c, s, acts))
    decreases |acts|
  {
    if acts != [] {
      StepKeepsInv(c, s, acts[0]);
      RunKeepsInv(c, Step(c, s, acts[0]), acts[1..]);
    }
  }

  /** Whatever saves, mode changes, vault failures, migrations and collections,
      well timed or not, have gone before, a stored secret never reads as
      anything but what was last saved in its row. It fails to read in exactly
      two cases: its only copy is in a vault that does not answer or has lost
      it, or it is mirrored and the mode setting is not a mode. */
  lemma {:induction false} NeverAWrongSecret(c: Cipher, acts: seq<Action>, r: nat, answers: bool)
    requires Sound(c) && AdmissibleRun(c, INITIAL, acts) && r in Run(c, INITIAL, acts).rows
    ensures var s := Run(c, INITIAL, acts);
      var read := Decrypt(c, s.vault, s.mode, Some(s.rows[r]), answers);
      && r in s.truth
      && (read.Ok? ==> read.value == Some(s.truth[r]))
      && (read.Err? <==>
            || (StorageKind(Some(s.rows[r])).VaultKind? && (!answers || !Present(s, s.rows[r])))
            || (StorageKind(Some(s.rows[r])).MirrorKind? && s.mode.Misconfigured?))
  {
    RunKeepsInv(c, INITIAL, acts);
    RowReadsTruth(c, Run(c, INITIAL, acts), r, answers);
  }

  ghost predicate InTimeRun(c: Cipher, s: State, acts: seq<Action>)
    decreases |acts|
  {
    acts != [] ==> InTime(s, acts[0]) && InTimeRun(c, Step(c, s, acts[0]), acts[1..])
  }

  lemma {:induction false} RunSpares(c: Cipher, s: State, acts: seq<Action>)
    requires Sound(c) && Inv(c, s) && AllSpared(s) && AdmissibleRun(c, s, acts) && InTimeRun(c, s, acts)
    ensures AllSpared(Run(c, s, acts))
    decreases |acts|
  {
    if acts != [] {
      StepKeepsInv(c, s, acts[0]);
      StepSpares(c, s, acts[0]);
      RunSpares(c, Step(c, s, acts[0]), acts[1..]);
    }
  }

  /** And while every scan leaves pending writes time to commit, the vault never
      loses a secret that a row needs. */
  lemma {:induction false} CollectionsInTimeLoseNothing(c: Cipher, acts: seq<Action>, r: nat, answers: bool)
    requires Sound(c) && AdmissibleRun(c, INITIAL, acts) && InTimeRun(c, INITIAL, acts)
    requires r in Run(c, INITIAL, acts).rows
    ensures var s := Run(c, INITIAL, acts);
      && Present(s, s.rows[r])
      && (Decrypt(c, s.vault, s.mode, Some(s.rows[r]), answers).Err? <==>
            || (StorageKind(Some(s.rows[r])).VaultKind? && !answers)
            || (StorageKind(Some(s.rows[r])).MirrorKind? && s.mode.Misconfigured?))
  {
    RunKeepsInv(c, INITIAL, acts);
    RunSpares(c, INITIAL, acts);
    RowReadsTruth(c, Run(c, INITIAL, acts), r, answers);
  }

  /** Only a save changes what a row says: a migration, whenever it commits and
      whatever happened since it read the row, changes nothing but the form. */
  lemma {:induction false} MigrationsKeepTheSecret(c: Cipher, acts: seq<Action>, n: nat)
    requires Sound(c) && AdmissibleRun(c, INITIAL, acts)
    requires var s := Run(c, INITIAL, acts); n < |s.pending| && s.pending[n].wasRead.Some?
    ensures var s := Run(c, INITIAL, acts); CommitStep(s, n).truth == s.truth
  {
    RunKeepsInv(c, INITIAL, acts);
    var s := Run(c, INITIAL, acts);
    var p := s.pending[n];
    if Applies(s, p) {
      MigrationAgrees(c, s, p);
      assert s.truth[p.row := p.plaintext] == s.truth;
    }
  }

  /** What the minimum age is for: a collection whose scan falls between a save's
      vault write and its commit destroys the secret exactly when the entry is
      old enough to pass for an orphan, or is lost already. */
  lemma {:induction false} CollectionLosesTheSecretIff(c: Cipher, s: State, n: nat, minAge: int, now: int)
    requires Inv(c, s) && n < |s.pending| && s.pending[n].wasRead.None?
    requires var key := VaultKey(Some(s.pending[n].stored));
      && StorageKind(Some(s.pending[n].stored)).VaultKind?
      && key.value in s.listed && !Referenced(s.rows, key.value)
    ensures var p := s.pending[n];
      var key := VaultKey(Some(p.stored)).value;
      var scanned := Step(c, s, Scan(minAge, now));
      var t := Step(c, Step(c, scanned, Commit(n)), Delete(key));
      && p.row in t.rows
      && (Decrypt(c, t.vault, t.mode, Some(t.rows[p.row]), true).Err? <==>
            key !in s.vault || OldEnough(s.vault, key, minAge, now))
  {
    var p := s.pending[n];
    var key := VaultKey(Some(p.stored)).value;
    assert PendingOk(c, s, p) && Fresh(p, key);
    var scanned := Step(c, s, Scan(minAge, now));
    assert key in scanned.condemned <==> OldEnough(s.vault, key, minAge, now);
  }

  lemma {:induction false} SavedNotCommitted(c: Cipher, key: string)
    requires ValidKey(key)
    ensures var save := [SetMode(Mode.Vault), Save(0, "pw", key, "", 0, Stored), List];
      var s := Run(c, INITIAL, save);
      && AdmissibleRun(c, INITIAL, save)
      && s.pending == [Pending(0, VAULT_PREFIX + key, "pw", None)] && s.rows == map[]
      && s.vault == map[key := Entry("pw", 0)] && key in s.listed && s.mode == Step(c, INITIAL, save[0]).mode
  {
    var s1 := Step(c, INITIAL, SetMode(Mode.Vault));
    var s2 := Step(c, s1, Save(0, "pw", key, "", 0, Stored));
    ThreeSteps(c, INITIAL, SetMode(Mode.Vault), Save(0, "pw", key, "", 0, Stored), List);
  }

  /** And such a state is reached at once: with no minimum age, collecting during
      one vault-mode save destroys it. */
  lemma {:induction false} NoMinimumAgeLosesASecret(c: Cipher, key: string)
    requires ValidKey(key)
    ensures var save := [SetMode(Mode.Vault), Save(0, "pw", key, "", 0, Stored), List];
      var s := Run(c, INITIAL, save);
      && AdmissibleRun(c, INITIAL, save)
      && !ScanIsSafe(s, 0, 0)
      && var t := Run(c, s, [Scan(0, 0), Commit(0), Delete(key)]);
         0 in t.truth && 0 in t.rows && Decrypt(c, t.vault, t.mode, Some(t.rows[0]), true) == Err(VaultFailed)
  {
    var s3 := Run(c, INITIAL, [SetMode(Mode.Vault), Save(0, "pw", key, "", 0, Stored), List]);
    SavedNotCommitted(c, key);
    VaultFormOf(key);
    assert Fresh(s3.pending[0], key);
    var s4 := Step(c, s3, Scan(0, 0));
    assert key in s4.condemned;
    var s5 := Step(c, s4, Commit(0));
    var s6 := Step(c, s5, Delete(key));
    ThreeSteps(c, s3, Scan(0, 0), Commit(0), Delete(key));
    assert s6.rows[0] == VAULT_PREFIX + key && key !in s6.vault;
  }

  lemma {:induction false} ThreeSteps(c: Cipher, s: State, first: Action, second: Action, third: Action)
    ensures Run(c, s, [first, second, third]) == Step(c, Step(c, Step(c, s, first), second), third)
    ensures AdmissibleRun(c, s, [first, second, third]) <==>
            && Admissible(s, first)
            && Admissible(Step(c, s, first), second)
            && Admissible(Step(c, Step(c, s, first), second), third)
  {
    var s1 := Step(c, s, first);
    var s2 := Step(c, s1, second);
    assert [first, second, third][1..] == [second, third];
    assert [second, third][1..] == [third];
    assert [third][1..] == [];
    assert Run(c, s2, [third]) == Run(c, Step(c, s2, third), []);
    assert Run(c, s1, [second, third]) == Run(c, s2, [third]);
    assert AdmissibleRun(c, Step(c, s2, third), []);
    assert AdmissibleRun(c, s2, [third]) <==> Admissible(s2, third);
    assert AdmissibleRun(c, s1, [second, third]) <==> Admissible(s1, second) && AdmissibleRun(c, s2, [third]);
  }

  lemma {:induction false} VaultFormOf(key: string)
    ensures StorageKind(Some(VAULT_PREFIX + key)) == VaultKind && VaultKey(Some(VAULT_PREFIX + key)) == Some(key)
  {
    var stored := VAULT_PREFIX + key;
    assert stored[..|VAULT_PREFIX|] == VAULT_PREFIX && stored[|VAULT_PREFIX|..] == key;
    assert stored[0] == 'v' && stored[1] == 'a';
  }
}

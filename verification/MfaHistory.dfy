/** What holds of one account's codes over every history of sends, guesses and
    clock readings. The bookkeeping here is only observed, never consulted. */
module MfaHistory {
  import opened Arithmetic
  import opened Wrappers
  import opened SlidingWindow
  import opened MfaDelivery

  /** One code that went out: how often it was compared and accepted. */
  datatype Issued = Issued(at: real, hash: string, how: Method, comparisons: nat, acceptances: nat, acceptedAt: real)

  /** `attempts` are the moments a transport was called, `windows` the start of
      the counter window of each, `first` the first attempt of the current one. */
  datatype History = History(
    codes: Codes, issued: seq<Issued>, attempts: seq<real>, windows: seq<real>, first: nat, clock: real)

  datatype Op =
    | Send(now: real, sendable: bool, accepted: bool, hash: string, how: Method)
    | Guess(now: real, guess: Option<string>, via: Option<Method>)

  const START := History(Codes(None, None, None), [], [], [], 0, 0.0)

  const WINDOW := WINDOW_SECONDS as real

  /** Does this send get as far as calling the transport? */
  predicate Attempts(c: Codes, op: Op)
    requires op.Send?
  {
    && op.sendable && Alive(c.sent, op.now).None?
    && Incremented(c.count, op.now, WINDOW_SECONDS).value.n <= MAX_SENDS_PER_WINDOW
  }

  function AfterSend(h: History, op: Op, ttl: int): History
    requires op.Send?
  {
    var (codes, outcome) := Issue(h.codes, op.now, op.sendable, op.accepted, op.hash, op.how, ttl);
    var issued := if outcome.Delivered? then h.issued + [Issued(op.now, op.hash, op.how, 0, 0, 0.0)] else h.issued;
    if Attempts(h.codes, op) then
      History(codes, issued, h.attempts + [op.now],
              h.windows + [Incremented(h.codes.count, op.now, WINDOW_SECONDS).expires - WINDOW],
              if Alive(h.codes.count, op.now).None? then |h.attempts| else h.first, op.now)
    else h.(codes := codes, issued := issued, clock := op.now)
  }

  /** Does this guess reach the digest comparison? */
  predicate Compares(c: Codes, op: Op)
    requires op.Guess?
  {
    var otp := Alive(c.otp, op.now);
    && op.guess.Some? && otp.Some? && otp.value.value.Code?
    && (op.via.Some? ==> op.via.value == otp.value.value.how)
  }

  function AfterGuess(h: History, op: Op): History
    requires op.Guess?
  {
    var (codes, ok) := Check(h.codes, op.now, op.guess, op.via);
    if Compares(h.codes, op) && h.issued != [] then
      var last := h.issued[|h.issued| - 1];
      var tried := last.(comparisons := last.comparisons + 1,
                         acceptances := last.acceptances + (if ok then 1 else 0),
                         acceptedAt := if ok then op.now else last.acceptedAt);
      h.(codes := codes, issued := h.issued[|h.issued| - 1 := tried], clock := op.now)
    else h.(codes := codes, clock := op.now)
  }

  function After(h: History, op: Op, ttl: int): History {
    if op.Send? then AfterSend(h, op, ttl) else AfterGuess(h, op)
  }

  function Replay(ops: seq<Op>, ttl: int): History {
    if ops == [] then START else After(Replay(ops[..|ops| - 1], ttl), ops[|ops| - 1], ttl)
  }

  ghost predicate Clocked(ops: seq<Op>) {
    && (forall i :: 0 <= i < |ops| ==> ops[i].now >= 0.0)
    && (forall i, k :: 0 <= i <= k < |ops| ==> ops[i].now <= ops[k].now)
  }

  // ---------------------------------------------------------- invariants --

  ghost predicate IssuedOk(i: Issued, ttl: int) {
    && i.comparisons <= MAX_TRIES && i.acceptances <= 1
    && (i.acceptances == 1 ==> i.acceptedAt < i.at + ttl as real + 4.0)
  }

  /** The stored code is the one issued last, and each wrong guess has moved its
      expiry by less than a second either way. */
  ghost predicate OutstandingOk(otp: Entry, last: Issued, ttl: int) {
    var due := last.at + ttl as real;
    var tries := last.comparisons as real;
    && otp.value == Code(last.hash, last.comparisons, last.how)
    && last.comparisons < MAX_TRIES && last.acceptances == 0
    && (if last.comparisons == 0 then otp.expires == due else due - tries < otp.expires < due + tries)
  }

  ghost predicate CodesOk(h: History, ttl: int) {
    && (forall i :: 0 <= i < |h.issued| ==> IssuedOk(h.issued[i], ttl))
    && (h.codes.otp.Some? ==> h.issued != [] && OutstandingOk(h.codes.otp.value, h.issued[|h.issued| - 1], ttl))
    && (h.issued != [] && h.codes.otp.None? ==>
          var last := h.issued[|h.issued| - 1];
          last.comparisons == MAX_TRIES || last.acceptances == 1 || h.clock >= last.at + ttl as real - 4.0)
  }

  lemma {:induction false} SendKeepsCodes(h: History, op: Op, ttl: int)
    requires op.Send? && CodesOk(h, ttl) && h.clock <= op.now
    ensures CodesOk(AfterSend(h, op, ttl), ttl)
  {
  }

  lemma {:induction false} WrongGuessMovesExpiryUnderASecond(expires: real, now: real)
    requires expires > now
    ensures var left := Max(1, (expires - now).Floor) as real; expires - 1.0 < now + left < expires + 1.0
  {
  }

  lemma {:induction false} GuessKeepsCodes(h: History, op: Op, ttl: int)
    requires op.Guess? && CodesOk(h, ttl) && h.clock <= op.now
    ensures CodesOk(AfterGuess(h, op), ttl)
  {
    var otp := Alive(h.codes.otp, op.now);
    if otp.Some? {
      WrongGuessMovesExpiryUnderASecond(otp.value.expires, op.now);
    }
  }

  /** Two successful sends keep 30 seconds between them unless the earlier code
      was accepted meanwhile. */
  ghost predicate SendsOk(h: History) {
    && (forall i :: 0 <= i < |h.issued| - 1 ==>
          h.issued[i + 1].at - h.issued[i].at >= RESEND_SECONDS as real || h.issued[i].acceptances > 0)
    && (h.codes.sent.Some? ==>
          h.issued != [] && h.codes.sent.value.expires == h.issued[|h.issued| - 1].at + RESEND_SECONDS as real)
    && (h.issued != [] && h.codes.sent.None? ==>
          var last := h.issued[|h.issued| - 1];
          last.acceptances > 0 || h.clock >= last.at + RESEND_SECONDS as real)
  }

  lemma {:induction false} SendKeepsSends(h: History, op: Op, ttl: int)
    requires op.Send? && SendsOk(h) && h.clock <= op.now
    ensures SendsOk(AfterSend(h, op, ttl))
  {
    var t := AfterSend(h, op, ttl);
    forall i | 0 <= i < |t.issued| - 1
      ensures t.issued[i + 1].at - t.issued[i].at >= RESEND_SECONDS as real || t.issued[i].acceptances > 0
    {
      if i + 1 < |h.issued| { assert t.issued[i] == h.issued[i] && t.issued[i + 1] == h.issued[i + 1]; }
    }
  }

  /** An accepted guess ends the resend pause; no other guess touches it. */
  lemma {:induction false} GuessKeepsSends(h: History, op: Op, ttl: int)
    requires op.Guess? && CodesOk(h, ttl) && SendsOk(h) && h.clock <= op.now
    ensures SendsOk(AfterGuess(h, op))
  {
    var t := AfterGuess(h, op);
    assert |t.issued| == |h.issued|;
    forall i | 0 <= i < |h.issued|
      ensures t.issued[i].at == h.issued[i].at && h.issued[i].acceptances <= t.issued[i].acceptances {}
    if Check(h.codes, op.now, op.guess, op.via).1 {
      assert t.codes.sent.None?;
    } else {
      assert t.codes.sent == h.codes.sent;
    }
  }

  /** The counter's current window and the attempts charged to it. */
  ghost predicate AttemptsOk(h: History) {
    && Batched(h.attempts, h.windows, MAX_SENDS_PER_WINDOW, WINDOW)
    && h.first <= |h.attempts| <= h.first + MAX_SENDS_PER_WINDOW
    && (h.codes.count.None? ==> h.attempts == [])
    && (h.codes.count.Some? ==>
          var e := h.codes.count.value;
          && e.value.Tally? && |h.attempts| - h.first <= e.value.n && e.expires - WINDOW <= h.clock
          && (forall i :: h.first <= i < |h.attempts| ==> h.windows[i] == e.expires - WINDOW)
          && (forall i :: 0 <= i < h.first ==> h.windows[i] + WINDOW <= e.expires - WINDOW))
  }

  lemma {:induction false} AppendToBatch(h: seq<real>, w: seq<real>, first: nat, at: real, start: real)
    requires Batched(h, w, MAX_SENDS_PER_WINDOW, WINDOW) && first <= |h| < first + MAX_SENDS_PER_WINDOW
    requires start <= at < start + WINDOW
    requires forall i :: first <= i < |h| ==> w[i] == start
    requires forall i :: 0 <= i < first ==> w[i] + WINDOW <= start
    ensures Batched(h + [at], w + [start], MAX_SENDS_PER_WINDOW, WINDOW)
  {
  }

  lemma {:induction false} SendKeepsAttempts(h: History, op: Op, ttl: int)
    requires op.Send? && AttemptsOk(h) && h.clock <= op.now
    ensures AttemptsOk(AfterSend(h, op, ttl))
  {
    if op.sendable && Alive(h.codes.sent, op.now).None? {
      var count := Incremented(h.codes.count, op.now, WINDOW_SECONDS);
      var start := count.expires - WINDOW;
      var first := if Alive(h.codes.count, op.now).None? then |h.attempts| else h.first;
      assert AfterSend(h, op, ttl).codes.count == Some(count);
      forall i | 0 <= i < first ensures h.windows[i] + WINDOW <= start {
        if Alive(h.codes.count, op.now).None? {
          assert i < h.first || h.windows[i] == h.codes.count.value.expires - WINDOW;
        }
      }
      if Attempts(h.codes, op) {
        AppendToBatch(h.attempts, h.windows, first, op.now, start);
      }
    }
  }

  lemma {:induction false} GuessKeepsAttempts(h: History, op: Op)
    requires op.Guess? && AttemptsOk(h) && h.clock <= op.now
    ensures AttemptsOk(AfterGuess(h, op))
  {
    assert AfterGuess(h, op).codes.count == h.codes.count;
  }

  ghost predicate Ok(h: History, ttl: int) {
    CodesOk(h, ttl) && SendsOk(h) && AttemptsOk(h)
  }

  lemma {:induction false} ReplayIsOk(ops: seq<Op>, ttl: int)
    requires Clocked(ops)
    ensures Ok(Replay(ops, ttl), ttl)
    ensures Replay(ops, ttl).clock == if ops == [] then 0.0 else ops[|ops| - 1].now
  {
    if ops != [] {
      var n := |ops| - 1;
      ReplayIsOk(ops[..n], ttl);
      var h := Replay(ops[..n], ttl);
      if ops[n].Send? {
        SendKeepsCodes(h, ops[n], ttl);
        SendKeepsSends(h, ops[n], ttl);
        SendKeepsAttempts(h, ops[n], ttl);
      } else {
        GuessKeepsCodes(h, ops[n], ttl);
        GuessKeepsSends(h, ops[n], ttl);
        GuessKeepsAttempts(h, ops[n]);
      }
    }
  }

  // ----------------------------------------------------- when a code goes out --

  /** The start of the counter window each attempt falls in: an attempt that finds
      no window of 900 s open starts one. */
  function WindowsOf(attempts: seq<real>): seq<real> {
    if attempts == [] then []
    else
      var before, last := attempts[..|attempts| - 1], attempts[|attempts| - 1];
      var windows := WindowsOf(before);
      if windows != [] && last < windows[|windows| - 1] + 900.0 then windows + [windows[|windows| - 1]]
      else windows + [last]
  }

  /** No code went out in the last 30 s, or the last one has been accepted since. */
  predicate Rested(issued: seq<Issued>, now: real) {
    issued == [] || issued[|issued| - 1].acceptances > 0 || now >= issued[|issued| - 1].at + 30.0
  }

  /** At most five attempts fall in the window that is open now, if one is. */
  predicate HasRoom(attempts: seq<real>, now: real) {
    var windows := WindowsOf(attempts);
    || |windows| < 6
    || windows[|windows| - 1] + 900.0 <= now
    || windows[|windows| - 6] != windows[|windows| - 1]
  }

  ghost predicate Resting(h: History) {
    && (h.issued != [] ==> h.issued[|h.issued| - 1].at <= h.clock)
    && (h.codes.sent.Some? ==>
      && h.issued != [] && h.issued[|h.issued| - 1].acceptances == 0
      && h.codes.sent.value.expires == h.issued[|h.issued| - 1].at + 30.0)
  }

  /** The counter says how many attempts its window has had, up to the limit. */
  ghost predicate Counting(h: History) {
    && h.windows == WindowsOf(h.attempts) && |h.windows| == |h.attempts|
    && h.first <= |h.attempts| && (forall i :: 0 <= i < |h.windows| ==> h.windows[i] <= h.clock)
    && (h.codes.count.None? <==> h.attempts == [])
    && (h.codes.count.Some? ==>
          var e := h.codes.count.value;
          && e.value.Tally? && h.first < |h.attempts|
          && (if e.value.n <= 6 then |h.attempts| - h.first == e.value.n else |h.attempts| - h.first == 6)
          && e.expires == h.windows[|h.windows| - 1] + 900.0
          && (forall i :: h.first <= i < |h.windows| ==> h.windows[i] == h.windows[|h.windows| - 1])
          && (forall i :: 0 <= i < h.first ==> h.windows[i] < h.windows[|h.windows| - 1]))
  }

  lemma {:induction false} SendKeepsResting(h: History, op: Op, ttl: int)
    requires op.Send? && Resting(h) && h.clock <= op.now
    ensures Resting(AfterSend(h, op, ttl))
  {
  }

  lemma {:induction false} GuessKeepsResting(h: History, op: Op, ttl: int)
    requires op.Guess? && Resting(h) && CodesOk(h, ttl) && h.clock <= op.now
    ensures Resting(AfterGuess(h, op))
  {
  }

  lemma {:induction false} OneMoreWindow(attempts: seq<real>, now: real)
    ensures WindowsOf(attempts + [now]) ==
            WindowsOf(attempts) +
            [if WindowsOf(attempts) != [] && now < WindowsOf(attempts)[|WindowsOf(attempts)| - 1] + 900.0
             then WindowsOf(attempts)[|WindowsOf(attempts)| - 1] else now]
  {
    assert (attempts + [now])[..|attempts|] == attempts;
  }

  /** The transport is called exactly when the account has rested and has room. */
  lemma {:induction false} AttemptsIff(h: History, op: Op)
    requires op.Send? && Resting(h) && Counting(h) && SendsOk(h) && h.clock <= op.now
    ensures Attempts(h.codes, op) <==> op.sendable && Rested(h.issued, op.now) && HasRoom(h.attempts, op.now)
  {
  }

  lemma {:induction false} AttemptKeepsCounting(h: History, op: Op, ttl: int)
    requires op.Send? && Counting(h) && h.clock <= op.now && Attempts(h.codes, op)
    ensures Counting(AfterSend(h, op, ttl))
  {
    OneMoreWindow(h.attempts, op.now);
    assert AfterSend(h, op, ttl).codes.count == Some(Incremented(h.codes.count, op.now, WINDOW_SECONDS));
  }

  lemma {:induction false} SendKeepsCounting(h: History, op: Op, ttl: int)
    requires op.Send? && Counting(h) && h.clock <= op.now
    ensures Counting(AfterSend(h, op, ttl))
  {
    if Attempts(h.codes, op) { AttemptKeepsCounting(h, op, ttl); }
  }

  lemma {:induction false} GuessKeepsCounting(h: History, op: Op)
    requires op.Guess? && Counting(h) && h.clock <= op.now
    ensures Counting(AfterGuess(h, op))
  {
    var t := AfterGuess(h, op);
    assert t.codes.count == h.codes.count && t.windows == h.windows && t.attempts == h.attempts && t.first == h.first;
  }

  lemma {:induction false} ReplayCounts(ops: seq<Op>, ttl: int)
    requires Clocked(ops)
    ensures Resting(Replay(ops, ttl)) && Counting(Replay(ops, ttl))
  {
    if ops != [] {
      var n := |ops| - 1;
      var h := Replay(ops[..n], ttl);
      ReplayIsOk(ops[..n], ttl);
      ReplayCounts(ops[..n], ttl);
      assert h.clock <= ops[n].now;
      if ops[n].Send? {
        SendKeepsResting(h, ops[n], ttl);
        SendKeepsCounting(h, ops[n], ttl);
      } else {
        GuessKeepsResting(h, ops[n], ttl);
        GuessKeepsCounting(h, ops[n]);
      }
    }
  }

  lemma {:induction false} PrefixIsClocked(ops: seq<Op>, op: Op, ttl: int)
    requires Clocked(ops + [op])
    ensures Clocked(ops) && Replay(ops, ttl).clock <= op.now
    ensures Replay(ops + [op], ttl) == After(Replay(ops, ttl), op, ttl)
  {
    assert ops == (ops + [op])[..|ops|];
    assert forall i :: 0 <= i < |ops| ==> ops[i] == (ops + [op])[i];
    assert (ops + [op])[|ops|] == op;
    ReplayIsOk(ops, ttl);
    if ops != [] { assert (ops + [op])[|ops| - 1].now <= (ops + [op])[|ops|].now; }
  }

  /** A code goes out exactly when there is where to send it, none went out in the
      last 30 s unless it was used, at most five attempts fall in the open counter
      window, and the transport takes it. It is then the one stored, untried, until
      its time is up; whatever else a send comes to leaves the stored code alone. */
  lemma {:induction false} ACodeGoesOutIff(ops: seq<Op>, ttl: int, op: Op)
    requires Clocked(ops + [op]) && op.Send?
    ensures var h, t := Replay(ops, ttl), Replay(ops + [op], ttl);
      var outcome := Issue(h.codes, op.now, op.sendable, op.accepted, op.hash, op.how, ttl).1;
      var called := op.sendable && Rested(h.issued, op.now) && HasRoom(h.attempts, op.now);
      && t.attempts == h.attempts + (if called then [op.now] else [])
      && t.issued == h.issued + (if called && op.accepted then [Issued(op.now, op.hash, op.how, 0, 0, 0.0)] else [])
      && t.codes.otp == (if called && op.accepted
                         then Some(Entry(Code(op.hash, 0, op.how), op.now + ttl as real)) else h.codes.otp)
      && (outcome.Delivered? <==> called && op.accepted)
      && (outcome.Throttled? <==> op.sendable && !called)
  {
    var h := Replay(ops, ttl);
    PrefixIsClocked(ops, op, ttl);
    ReplayIsOk(ops, ttl);
    ReplayCounts(ops, ttl);
    AttemptsIff(h, op);
  }

  /** A throttled caller is told how long: by the next whole second after that
      there is rest and room again, with nothing sent meanwhile. */
  lemma {:induction false} TheWaitIsEnough(ops: seq<Op>, ttl: int, op: Op)
    requires Clocked(ops + [op]) && op.Send?
    requires Issue(Replay(ops, ttl).codes, op.now, op.sendable, op.accepted, op.hash, op.how, ttl).1.Throttled?
    ensures var h := Replay(ops, ttl);
      var wait := Issue(h.codes, op.now, op.sendable, op.accepted, op.hash, op.how, ttl).1.retryAfter;
      && 1 <= wait
      && (!Rested(h.issued, op.now) ==> wait <= 30 && Rested(h.issued, op.now + wait as real + 1.0))
      && (Rested(h.issued, op.now) ==> wait <= 900 && HasRoom(h.attempts, op.now + wait as real + 1.0))
  {
    var h := Replay(ops, ttl);
    PrefixIsClocked(ops, op, ttl);
    ReplayIsOk(ops, ttl);
    ReplayCounts(ops, ttl);
    AttemptsIff(h, op);
  }

  // ------------------------------------------------------- what it means --

  /** Each issued code is compared at most five times and accepted at most once,
      strictly before its issue + TTL + 4 s; and later sends never reopen it. */
  lemma {:induction false} EveryCodeIsBounded(ops: seq<Op>, ttl: int, i: nat)
    requires Clocked(ops) && i < |Replay(ops, ttl).issued|
    ensures var code := Replay(ops, ttl).issued[i];
      && code.comparisons <= MAX_TRIES && code.acceptances <= 1
      && (code.acceptances == 1 ==> code.acceptedAt < code.at + ttl as real + 4.0)
  {
    ReplayIsOk(ops, ttl);
    assert IssuedOk(Replay(ops, ttl).issued[i], ttl);
  }

  /** A guess succeeds only for the code issued last, never accepted before,
      guessed wrong at most four times, and over its own method if one is named. */
  lemma {:induction false} OnlyTheLatestCodeIsAccepted(ops: seq<Op>, ttl: int, op: Op)
    requires Clocked(ops + [op]) && op.Guess?
    requires Check(Replay(ops, ttl).codes, op.now, op.guess, op.via).1
    ensures var issued := Replay(ops, ttl).issued;
      && issued != []
      && var last := issued[|issued| - 1];
         && op.guess == Some(last.hash) && op.via in {None, Some(last.how)}
         && last.acceptances == 0 && last.comparisons < MAX_TRIES
         && op.now < last.at + ttl as real + 4.0
  {
    assert ops == (ops + [op])[..|ops|];
    assert forall i :: 0 <= i < |ops| ==> ops[i] == (ops + [op])[i];
    ReplayIsOk(ops, ttl);
  }

  /** And it does succeed: the right code, before issue + TTL - 4 s, with fewer
      than five guesses behind it and not yet used. */
  lemma {:induction false} TheRightCodeIsAccepted(ops: seq<Op>, ttl: int, op: Op)
    requires Clocked(ops + [op]) && op.Guess? && Replay(ops, ttl).issued != []
    requires var issued := Replay(ops, ttl).issued;
      var last := issued[|issued| - 1];
      && op.guess == Some(last.hash) && op.via in {None, Some(last.how)}
      && last.acceptances == 0 && last.comparisons < MAX_TRIES
      && op.now < last.at + ttl as real - 4.0
    ensures Check(Replay(ops, ttl).codes, op.now, op.guess, op.via).1
  {
    assert ops == (ops + [op])[..|ops|];
    assert forall i :: 0 <= i < |ops| ==> ops[i] == (ops + [op])[i];
    ReplayIsOk(ops, ttl);
    if ops != [] { assert (ops + [op])[|ops| - 1].now <= (ops + [op])[|ops|].now; }
  }

  /** Sends are 30 seconds apart unless the earlier code was used; one counter
      window is charged at most six attempts; and no span of 900 s, wherever it
      starts, sees more than twelve. */
  lemma {:induction false} SendingIsThrottled(ops: seq<Op>, ttl: int, i: nat, lo: real)
    requires Clocked(ops)
    ensures var h := Replay(ops, ttl);
      && (i + 1 < |h.issued| ==>
            h.issued[i + 1].at - h.issued[i].at >= RESEND_SECONDS as real || h.issued[i].acceptances > 0)
      && |h.windows| == |h.attempts|
      && (i + MAX_SENDS_PER_WINDOW < |h.attempts| ==> h.windows[i] != h.windows[i + MAX_SENDS_PER_WINDOW])
      && CountIn(h.attempts, lo, lo + WINDOW) <= 2 * MAX_SENDS_PER_WINDOW
  {
    var h := Replay(ops, ttl);
    ReplayIsOk(ops, ttl);
    BatchesAreSpaced(h.attempts, h.windows, MAX_SENDS_PER_WINDOW, WINDOW);
    SpacedBoundsEveryInterval(h.attempts, 2 * MAX_SENDS_PER_WINDOW, WINDOW, lo);
  }
}

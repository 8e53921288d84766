/** Reading a job's event log by polling with the last sequence number seen. */
module EventStream {
  import opened Arithmetic
  import opened AgentJobs
  import opened AgentJobsSafety
  import TargetPolicy

  const READ_LIMIT := 2000

  /** Rows with seq > since, in order of seq, at most min(max(1, limit), 2000). */
  function ReadEvents(log: seq<Event>, since: nat, limit: int): (r: seq<Event>)
    decreases |log|
  {
    var bound := Min(Max(1, limit), READ_LIMIT);
    if log == [] then []
    else
      var earlier := ReadEvents(log[..|log| - 1], since, limit);
      var last := log[|log| - 1];
      if last.seqNo > since && |earlier| < bound then earlier + [last] else earlier
  }

  lemma {:induction false} SliceGrows(log: seq<Event>, since: nat, bound: nat, earlier: seq<Event>)
    requires log != [] && since < |log| && bound >= 1
    requires earlier == log[..|log| - 1][since..Min(|log| - 1, since + bound)]
    ensures (if |earlier| < bound then earlier + [log[|log| - 1]] else earlier)
            == log[since..Min(|log|, since + bound)]
  {
    var n := |log| - 1;
    assert earlier == log[since..Min(n, since + bound)];
    if n < since + bound { assert log[since..n] + [log[n]] == log[since..n + 1]; }
  }

  /** On a log numbered from 1, a page is the slice that starts right after `since`. */
  lemma {:induction false} ReadIsSlice(log: seq<Event>, since: nat, limit: int)
    requires Numbered(log) && since <= |log|
    ensures ReadEvents(log, since, limit) == log[since..Min(|log|, since + Min(Max(1, limit), READ_LIMIT))]
    decreases |log|
  {
    if log != [] {
      if since < |log| {
        var shorter := log[..|log| - 1];
        ReadIsSlice(shorter, since, limit);
        SliceGrows(log, since, Min(Max(1, limit), READ_LIMIT), ReadEvents(shorter, since, limit));
      } else {
        NothingAfter(log, since, limit);
      }
    }
  }

  /** As many lines as there are, up to what is asked for between 1 and 2000. */
  lemma {:induction false} ReadIsLimited(log: seq<Event>, since: nat, limit: int)
    requires Numbered(log) && since <= |log|
    ensures var size := if limit < 1 then 1 else if limit > 2000 then 2000 else limit;
      |ReadEvents(log, since, limit)| == (if |log| - since < size then |log| - since else size)
  {
    ReadIsSlice(log, since, limit);
  }

  lemma {:induction false} NothingAfter(log: seq<Event>, since: nat, limit: int)
    requires Numbered(log) && since >= |log|
    ensures ReadEvents(log, since, limit) == []
    decreases |log|
  {
    if log != [] {
      NothingAfter(log[..|log| - 1], since, limit);
    }
  }

  /** The console: what it has collected, and one more poll of the log. */
  function LastSeen(got: seq<Event>): nat {
    if got == [] then 0 else got[|got| - 1].seqNo
  }

  function Poll(log: seq<Event>, got: seq<Event>, limit: int): seq<Event> {
    got + ReadEvents(log, LastSeen(got), limit)
  }

  /** A console that polls job `i` with these limits between the steps of a run. */
  datatype Move = Protocol(act: Action) | PollWith(limit: int)

  ghost predicate Watchable(lib: TargetPolicy.TextLib, s: State, trace: seq<Move>)
    decreases |trace|
  {
    trace == []
    || (match trace[0]
        case Protocol(act) => Admissible(s, act) && Watchable(lib, After(lib, s, act), trace[1..])
        case PollWith(_) => Watchable(lib, s, trace[1..]))
  }

  ghost function Watch(lib: TargetPolicy.TextLib, s: State, trace: seq<Move>, i: JobId, got: seq<Event>)
    : (State, seq<Event>)
    requires Watchable(lib, s, trace)
    decreases |trace|
  {
    if trace == [] then (s, got)
    else
      match trace[0]
      case Protocol(act) => Watch(lib, After(lib, s, act), trace[1..], i, got)
      case PollWith(limit) =>
        Watch(lib, s, trace[1..], i, if i < |s.jobs| then Poll(s.jobs[i].events, got, limit) else got)
  }

  /** One poll extends a prefix of the log to a longer prefix, and really longer
      whenever there was anything new. */
  lemma {:induction false} PollExtendsPrefix(log: seq<Event>, got: seq<Event>, limit: int)
    requires Numbered(log) && got <= log
    ensures got <= Poll(log, got, limit) <= log
    ensures |Poll(log, got, limit)| == |got| <==> got == log
  {
    assert LastSeen(got) == |got|;
    ReadIsSlice(log, |got|, limit);
  }

  /** For any limits and any interleaving, the console holds a prefix of the log
      as it stands: nothing lost, repeated or out of order. */
  lemma {:induction false} WatcherHoldsPrefix(
      lib: TargetPolicy.TextLib, s: State, trace: seq<Move>, i: JobId, got: seq<Event>)
    requires Inv(s) && Watchable(lib, s, trace)
    requires i < |s.jobs| && got <= s.jobs[i].events
    ensures var (t, held) := Watch(lib, s, trace, i, got);
      Inv(t) && i < |t.jobs| && got <= held <= t.jobs[i].events
    decreases |trace|
  {
    if trace != [] {
      match trace[0] {
        case Protocol(act) =>
          StepEvolves(lib, s, act, i);
          StepKeepsInv(lib, s, act);
          WatcherHoldsPrefix(lib, After(lib, s, act), trace[1..], i, got);
        case PollWith(limit) =>
          assert JobOk(s.jobs[i]);
          PollExtendsPrefix(s.jobs[i].events, got, limit);
          WatcherHoldsPrefix(lib, s, trace[1..], i, Poll(s.jobs[i].events, got, limit));
      }
    }
  }

  function PollTimes(log: seq<Event>, got: seq<Event>, limits: seq<int>): seq<Event>
    decreases |limits|
  {
    if limits == [] then got else PollTimes(log, Poll(log, got, limits[0]), limits[1..])
  }

  /** Once the log rests, one poll per missing line is enough to hold all of it. */
  lemma {:induction false} PollingCatchesUp(log: seq<Event>, got: seq<Event>, limits: seq<int>)
    requires Numbered(log) && got <= log && |limits| >= |log| - |got|
    ensures PollTimes(log, got, limits) == log
    decreases |limits|
  {
    if limits != [] {
      PollExtendsPrefix(log, got, limits[0]);
      PollingCatchesUp(log, Poll(log, got, limits[0]), limits[1..]);
    }
  }
}

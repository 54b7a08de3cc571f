/**
 * What record_stream promises, proved about the trace model of ShowrecModel: every byte that
 * arrives is kept behind what was already on disk, the deadline is checked right after each
 * write, the retry budget is exactly max_retries + 1 connection attempts, and the backoff
 * sleeps stay within their bounds.
 */
module ShowrecProofs {
  import opened Wrappers
  import opened ShowrecModel

  // ---------------------------------------------------------------- independent descriptions

  /** The bytes of a sequence of chunks, in order. */
  function Concat(chunks: seq<Chunk>): seq<Byte>
    decreases |chunks|
  {
    if chunks == [] then [] else chunks[0].data + Concat(chunks[1..])
  }

  /** The index of the first chunk that is written at or after the deadline. */
  function FirstLate(cfg: Config, chunks: seq<Chunk>): (r: Option<nat>)
    ensures r.Some? ==> r.value < |chunks| && Late(cfg, chunks[r.value])
    ensures r.Some? ==> forall j :: 0 <= j < r.value ==> !Late(cfg, chunks[j])
    ensures r.None? ==> forall j :: 0 <= j < |chunks| ==> !Late(cfg, chunks[j])
    decreases |chunks|
  {
    if chunks == [] then None
    else if Late(cfg, chunks[0]) then Some(0)
    else
      var rest := FirstLate(cfg, chunks[1..]);
      if rest.Some? then Some(rest.value + 1) else None
  }

  /** How many chunks of one connection are read: up to the first late one, or all. */
  function Cut(cfg: Config, chunks: seq<Chunk>): nat
  {
    var f := FirstLate(cfg, chunks);
    if f.Some? then f.value + 1 else |chunks|
  }

  /** The bytes one turn of the loop appends to the file. */
  function Received(cfg: Config, a: Attempt): seq<Byte>
  {
    if a.at >= cfg.duration then []
    else
      match a.reply
      case Refused(_) => []
      case Accepted(chunks, _) => Concat(chunks[..Cut(cfg, chunks)])
  }

  function ReceivedAll(cfg: Config, trace: seq<Attempt>): seq<Byte>
    decreases |trace|
  {
    if trace == [] then [] else Received(cfg, trace[0]) + ReceivedAll(cfg, trace[1..])
  }

  function Content(existing: Option<seq<Byte>>): seq<Byte>
  {
    if existing.Some? then existing.value else []
  }

  /** How many attempts of a trace a run consumed. */
  function Used(r: Run, n: nat): nat
  {
    if r.Finished? then r.used else n
  }

  /** The chunks that are not empty: the only ones `if chunk:` lets through. */
  function NonEmpty(chunks: seq<Chunk>): (r: seq<Chunk>)
    ensures forall i :: 0 <= i < |r| ==> |r[i].data| > 0
    decreases |chunks|
  {
    if chunks == [] then []
    else if |chunks[0].data| == 0 then NonEmpty(chunks[1..])
    else [chunks[0]] + NonEmpty(chunks[1..])
  }

  /** current_retry_delay after `k` consecutive failures since the last reset. */
  function DelayAfter(d: int, k: int): int
    decreases if k > 0 then k else 0
  {
    if k <= 0 then d else NextDelay(DelayAfter(d, k - 1))
  }

  function Pow2(k: nat): nat
  {
    if k == 0 then 1 else 2 * Pow2(k - 1)
  }

  /** What holds of the loop's variables at the top of every turn. */
  ghost predicate Inv(cfg: Config, p: Progress)
  {
    && p.total == |p.disk|
    && p.initial <= p.total
    && (!p.fileExists ==> p.total == 0)
    && 0 <= p.retryCount
    && p.delay == DelayAfter(cfg.retryDelay, p.retryCount)
  }

  /** A backoff sleep computed from a delay of at most max(retry_delay, 60) and a jitter in [0.5, 1.5]. */
  ghost predicate WaitBounded(cfg: Config, w: Wait)
  {
    && 0 <= w.delay <= Max(cfg.retryDelay, MaxRetryDelay)
    && 0.5 <= w.jitter <= 1.5
  }

  ghost predicate JittersInRange(trace: seq<Attempt>)
  {
    forall i :: 0 <= i < |trace| ==> 0.5 <= trace[i].jitter <= 1.5
  }

  // ---------------------------------------------------------------- one connection

  lemma ConcatFront(chunks: seq<Chunk>, n: nat)
    requires 1 <= n <= |chunks|
    ensures Concat(chunks[..n]) == chunks[0].data + Concat(chunks[1..][..n - 1])
  {
    assert chunks[..n][1..] == chunks[1..][..n - 1];
  }

  /** The file and counter after the chunk loop has written `bytes`. */
  function Wrote(p: Progress, bytes: seq<Byte>): Progress
  {
    p.(total := p.total + |bytes|, disk := p.disk + bytes)
  }

  /**
   * The chunk loop writes exactly the chunks up to and including the first one written at or
   * after the deadline, and returns success with that chunk's time; with no such chunk it
   * writes them all and falls through to the end-of-stream check.
   */
  ghost predicate WritesPrefix(cfg: Config, p: Progress, chunks: seq<Chunk>)
  {
    var q := Wrote(p, Concat(chunks[..Cut(cfg, chunks)]));
    var f := FirstLate(cfg, chunks);
    Stream(cfg, p, chunks) == if f.Some? then Stop(Succeeded(q, chunks[f.value].at), q) else Continue(q)
  }

  lemma {:induction false} StreamWritesPrefix(cfg: Config, p: Progress, chunks: seq<Chunk>)
    ensures WritesPrefix(cfg, p, chunks)
    decreases |chunks|
  {
    if chunks == [] {
      assert chunks[..0] == [];
    } else if Late(cfg, chunks[0]) {
      LateChunkStops(cfg, p, chunks);
    } else {
      var c := chunks[0];
      var q0 := if |c.data| == 0 then p else Wrote(p, c.data);
      StreamWritesPrefix(cfg, q0, chunks[1..]);
      OnTimeChunkGoesOn(cfg, p, chunks);
    }
  }

  /** A first chunk at or past the deadline is written and ends the loop. */
  lemma LateChunkStops(cfg: Config, p: Progress, chunks: seq<Chunk>)
    requires chunks != [] && Late(cfg, chunks[0])
    ensures WritesPrefix(cfg, p, chunks)
  {
    assert Cut(cfg, chunks) == 1;
    ConcatFront(chunks, 1);
    assert chunks[1..][..0] == [];
  }

  /** A first chunk before the deadline is written (unless empty) and the loop goes on. */
  lemma OnTimeChunkGoesOn(cfg: Config, p: Progress, chunks: seq<Chunk>)
    requires chunks != [] && !Late(cfg, chunks[0])
    requires var c := chunks[0];
      WritesPrefix(cfg, if |c.data| == 0 then p else Wrote(p, c.data), chunks[1..])
    ensures WritesPrefix(cfg, p, chunks)
  {
    var c := chunks[0];
    var rest := chunks[1..];
    var q0 := if |c.data| == 0 then p else Wrote(p, c.data);
    var bytes := Concat(rest[..Cut(cfg, rest)]);
    assert Cut(cfg, chunks) == Cut(cfg, rest) + 1;
    ConcatFront(chunks, Cut(cfg, chunks));
    assert Stream(cfg, p, chunks) == Stream(cfg, q0, rest);
    assert Wrote(q0, bytes) == Wrote(p, c.data + bytes);
  }

  /** Empty chunks neither write anything nor trigger the deadline check. */
  lemma {:induction false} EmptyChunksIgnored(cfg: Config, p: Progress, chunks: seq<Chunk>)
    ensures Stream(cfg, p, chunks) == Stream(cfg, p, NonEmpty(chunks))
    decreases |chunks|
  {
    if chunks != [] {
      var c := chunks[0];
      if |c.data| == 0 {
        EmptyChunksIgnored(cfg, p, chunks[1..]);
      } else {
        var q := p.(total := p.total + |c.data|, disk := p.disk + c.data);
        var ne := NonEmpty(chunks);
        assert ne[0] == c && ne[1..] == NonEmpty(chunks[1..]);
        EmptyChunksIgnored(cfg, q, chunks[1..]);
      }
    }
  }

  // ---------------------------------------------------------------- one turn

  /** What a turn's connection wrote before its ending is handled. */
  lemma ConnectionWrites(cfg: Config, p: Progress, a: Attempt)
    requires a.reply.Accepted?
    ensures var p1 := Reconnect(cfg, p.(attempts := p.attempts + 1));
      var bytes := Concat(a.reply.chunks[..Cut(cfg, a.reply.chunks)]);
      var q := p1.(total := p1.total + |bytes|, disk := p1.disk + bytes);
      var f := FirstLate(cfg, a.reply.chunks);
      Stream(cfg, p1, a.reply.chunks) ==
        if f.Some? then Stop(Succeeded(q, a.reply.chunks[f.value].at), q) else Continue(q)
  {
    StreamWritesPrefix(cfg, Reconnect(cfg, p.(attempts := p.attempts + 1)), a.reply.chunks);
  }

  /** Handling a failure leaves the file and its byte counter alone, and reports that counter. */
  lemma FailureKeepsFile(cfg: Config, p: Progress, f: Failure, jitter: real)
    ensures var n := OnFailure(cfg, p, f, jitter);
      && n.state.disk == p.disk && n.state.total == p.total && n.state.initial == p.initial
      && (n.Stop? ==> n.outcome.sizeBytes == p.total)
  {
  }

  /** Handling a closed connection leaves the file and its byte counter alone, and reports that counter. */
  lemma CloseKeepsFile(cfg: Config, p: Progress, t: int, jitter: real)
    ensures var n := OnClose(cfg, p, t, jitter);
      && n.state.disk == p.disk && n.state.total == p.total && n.state.initial == p.initial
      && (n.Stop? ==> n.outcome.sizeBytes == p.total)
  {
  }

  /**
   * One turn appends exactly what it received to the file (nothing is truncated), keeps the
   * byte counter equal to the file's size, and reports that size when it returns.
   */
  lemma StepKeepsBytes(cfg: Config, p: Progress, a: Attempt)
    requires Inv(cfg, p)
    ensures var n := Step(cfg, p, a);
      && n.state.disk == p.disk + Received(cfg, a)
      && n.state.total == |n.state.disk|
      && n.state.initial == p.initial
      && (n.Stop? ==> n.outcome.sizeBytes == |n.state.disk|)
  {
    if a.at < cfg.duration {
      var p1 := p.(attempts := p.attempts + 1);
      match a.reply
      case Refused(f) =>
        FailureKeepsFile(cfg, p1, f, a.jitter);
        assert p.disk + Received(cfg, a) == p.disk;
      case Accepted(chunks, ending) =>
        ConnectionWrites(cfg, p, a);
        match Stream(cfg, Reconnect(cfg, p1), chunks)
        case Stop(o, q) =>
        case Continue(q) =>
          match ending
          case Closed(t) => CloseKeepsFile(cfg, q, t, a.jitter);
          case Broken(f) => FailureKeepsFile(cfg, q, f, a.jitter);
    }
  }

  /** The relations that hold between the end of the chunk loop and the except clauses. */
  ghost predicate MidTurn(cfg: Config, p: Progress)
  {
    && p.total == |p.disk|
    && p.initial <= p.total
    && (!p.fileExists ==> p.initial == 0)
    && 0 <= p.retryCount
    && p.delay == DelayAfter(cfg.retryDelay, p.retryCount)
  }

  lemma OnFailureKeepsInv(cfg: Config, p: Progress, f: Failure, j: real)
    requires MidTurn(cfg, p)
    ensures OnFailure(cfg, p, f, j).Continue? ==> Inv(cfg, OnFailure(cfg, p, f, j).state)
  {
  }

  lemma OnCloseKeepsInv(cfg: Config, p: Progress, t: int, j: real)
    requires MidTurn(cfg, p)
    ensures OnClose(cfg, p, t, j).Continue? ==> Inv(cfg, OnClose(cfg, p, t, j).state)
  {
  }

  /** The variables keep their relations from one turn to the next. */
  lemma StepPreservesInv(cfg: Config, p: Progress, a: Attempt)
    requires Inv(cfg, p)
    ensures Step(cfg, p, a).Continue? ==> Inv(cfg, Step(cfg, p, a).state)
  {
    if a.at < cfg.duration {
      var p1 := p.(attempts := p.attempts + 1);
      match a.reply
      case Refused(f) =>
        OnFailureKeepsInv(cfg, p1, f, a.jitter);
      case Accepted(chunks, ending) =>
        ConnectionWrites(cfg, p, a);
        var n := Stream(cfg, Reconnect(cfg, p1), chunks);
        if n.Continue? {
          assert MidTurn(cfg, n.state);
          match ending
          case Closed(t) => OnCloseKeepsInv(cfg, n.state, t, a.jitter);
          case Broken(f) => OnFailureKeepsInv(cfg, n.state, f, a.jitter);
        }
    }
  }

  /** A backoff logs one sleep of the current delay times the jitter. */
  lemma BackoffAppends(p: Progress, j: real)
    ensures Backoff(p, j).waits == p.waits + [Wait(p.delay, j)]
  {
  }

  /**
   * A connection that is accepted before the deadline and closes early, with no chunk written
   * at or after the deadline, is a disconnection: with the retry counter freshly reset, the
   * loop gives up only when max_retries is below 1, and otherwise backs off from retry_delay
   * and reopens the file for appending.
   */
  lemma EarlyCloseAfterConnect(cfg: Config, p: Progress, chunks: seq<Chunk>, t: int, j: real, at: int)
    requires at < cfg.duration && t < cfg.duration && FirstLate(cfg, chunks).None?
    ensures var n := Step(cfg, p, Attempt(at, Accepted(chunks, Closed(t)), j));
      && (n.Stop? <==> cfg.maxRetries < 1)
      && (n.Stop? ==> !n.outcome.success && n.outcome.error == Some(MaxRetriesMessage(cfg)))
      && (n.Continue? ==>
            && n.state.retryCount == 1
            && n.state.fileExists
            && n.state.delay == NextDelay(cfg.retryDelay)
            && n.state.waits == p.waits + [Wait(cfg.retryDelay, j)])
  {
    var a := Attempt(at, Accepted(chunks, Closed(t)), j);
    ConnectionWrites(cfg, p, a);
    var q := Stream(cfg, Reconnect(cfg, p.(attempts := p.attempts + 1)), chunks).state;
    assert q.retryCount == 0 && q.delay == cfg.retryDelay && q.waits == p.waits;
    assert Step(cfg, p, a) == OnClose(cfg, q, t, j);
    if 1 <= cfg.maxRetries {
      var r := Backoff(q.(retryCount := 1), j);
      BackoffAppends(q.(retryCount := 1), j);
      assert OnClose(cfg, q, t, j) == Continue(r.(fileExists := true));
    }
  }

  /**
   * A refused connection before the deadline: the retry-limit check comes first (so a
   * deadline that has passed does not save a run out of retries), then the deadline check,
   * then one backoff sleep.
   */
  lemma RefusalVerdict(cfg: Config, p: Progress, m: string, t: int, j: real, at: int)
    requires at < cfg.duration
    ensures var n := Step(cfg, p, Attempt(at, Refused(NetError(m, t)), j));
      && n.state.attempts == p.attempts + 1
      && n.state.retryCount == p.retryCount + 1
      && (p.retryCount + 1 > cfg.maxRetries ==> n == Stop(Failed(n.state, t, m), n.state))
      && (p.retryCount + 1 <= cfg.maxRetries && t >= cfg.duration ==> n == Stop(Succeeded(n.state, t), n.state))
      && (p.retryCount + 1 <= cfg.maxRetries && t < cfg.duration ==>
            n.Continue? && n.state.waits == p.waits + [Wait(p.delay, j)])
  {
    var a := Attempt(at, Refused(NetError(m, t)), j);
    assert Step(cfg, p, a) == OnFailure(cfg, p.(attempts := p.attempts + 1), NetError(m, t), j);
    BackoffAppends(p.(attempts := p.attempts + 1, retryCount := p.retryCount + 1), j);
  }

  /**
   * A keyboard interrupt or an unexpected exception ends the run at once: a failure with
   * 'User interrupted' or the exception's text, no retry counted, and the size of everything
   * written so far.
   */
  lemma TerminalErrorsStop(cfg: Config, p: Progress, a: Attempt)
    requires Inv(cfg, p)
    requires a.at < cfg.duration
    requires a.reply.Refused? || a.reply.ending.Broken?
    requires var f := if a.reply.Refused? then a.reply.failure else a.reply.ending.failure;
      !f.NetError?
    requires a.reply.Accepted? ==> FirstLate(cfg, a.reply.chunks).None?
    ensures var f := if a.reply.Refused? then a.reply.failure else a.reply.ending.failure;
      var n := Step(cfg, p, a);
      && n.Stop? && !n.outcome.success
      && n.outcome.error == Some(if f.Interrupt? then "User interrupted" else f.message)
      && n.outcome.sizeBytes == |p.disk + Received(cfg, a)|
      && n.state.retryCount == (if a.reply.Refused? then p.retryCount else 0)
  {
    StepKeepsBytes(cfg, p, a);
    if a.reply.Accepted? {
      ConnectionWrites(cfg, p, a);
    }
  }

  // ---------------------------------------------------------------- whole runs

  lemma StartInv(cfg: Config, existing: Option<seq<Byte>>)
    ensures Inv(cfg, Start(cfg, existing))
    ensures Start(cfg, existing).disk == Content(existing)
  {
  }

  /**
   * Byte preservation for a run of `trace` from `p`: the file holds what it held before
   * followed by every byte received, in order; the counter equals the file's size and the
   * returned size is it.
   */
  ghost predicate KeepsBytes(cfg: Config, p: Progress, trace: seq<Attempt>)
  {
    RunKeepsBytesOf(cfg, p, trace, RunFrom(cfg, p, trace))
  }

  /** KeepsBytes for a given outcome `r` of the run. */
  ghost predicate RunKeepsBytesOf(cfg: Config, p: Progress, trace: seq<Attempt>, r: Run)
  {
    var n := Used(r, |trace|);
    && n <= |trace|
    && (r.Finished? ==> 1 <= n)
    && r.state.disk == p.disk + ReceivedAll(cfg, trace[..n])
    && r.state.total == |r.state.disk|
    && r.state.initial == p.initial
    && (r.Finished? ==> r.outcome.sizeBytes == |r.state.disk|)
  }

  /** Every run keeps the bytes. */
  lemma {:induction false} RunKeepsBytes(cfg: Config, p: Progress, trace: seq<Attempt>)
    requires Inv(cfg, p)
    ensures KeepsBytes(cfg, p, trace)
    decreases |trace|
  {
    if trace == [] {
      assert trace[..0] == [];
    } else if Step(cfg, p, trace[0]).Stop? {
      FirstTurnStops(cfg, p, trace);
    } else {
      StepPreservesInv(cfg, p, trace[0]);
      RunKeepsBytes(cfg, Step(cfg, p, trace[0]).state, trace[1..]);
      LaterTurnsKeepBytes(cfg, p, trace);
    }
  }

  /** A run whose first turn returns keeps the bytes of that turn. */
  lemma FirstTurnStops(cfg: Config, p: Progress, trace: seq<Attempt>)
    requires Inv(cfg, p) && trace != [] && Step(cfg, p, trace[0]).Stop?
    ensures KeepsBytes(cfg, p, trace)
  {
    var a := trace[0];
    StepKeepsBytes(cfg, p, a);
    assert trace[..1] == [a];
    assert ReceivedAll(cfg, [a]) == Received(cfg, a) + ReceivedAll(cfg, []);
  }

  /** A run whose first turn goes on keeps the bytes if the rest of the run does. */
  lemma LaterTurnsKeepBytes(cfg: Config, p: Progress, trace: seq<Attempt>)
    requires Inv(cfg, p) && trace != [] && Step(cfg, p, trace[0]).Continue?
    requires KeepsBytes(cfg, Step(cfg, p, trace[0]).state, trace[1..])
    ensures KeepsBytes(cfg, p, trace)
  {
    var q := Step(cfg, p, trace[0]).state;
    var r0 := RunFrom(cfg, q, trace[1..]);
    StepKeepsBytes(cfg, p, trace[0]);
    assert RunFrom(cfg, p, trace) == Shift(r0, 1);
    ShiftKeepsBytes(cfg, p, q, trace, r0);
  }

  /** The bookkeeping of LaterTurnsKeepBytes, with the rest of the run as a plain value. */
  lemma ShiftKeepsBytes(cfg: Config, p: Progress, q: Progress, trace: seq<Attempt>, r0: Run)
    requires trace != []
    requires q.disk == p.disk + Received(cfg, trace[0]) && q.initial == p.initial
    requires RunKeepsBytesOf(cfg, q, trace[1..], r0)
    ensures RunKeepsBytesOf(cfg, p, trace, Shift(r0, 1))
  {
    var n := Used(r0, |trace| - 1);
    ReceivedAllFirst(cfg, trace, n);
  }

  /** What the first n + 1 attempts received is what the first one did, then the next n. */
  lemma ReceivedAllFirst(cfg: Config, trace: seq<Attempt>, n: nat)
    requires n < |trace|
    ensures ReceivedAll(cfg, trace[..n + 1]) == Received(cfg, trace[0]) + ReceivedAll(cfg, trace[1..][..n])
  {
    assert trace[..n + 1][0] == trace[0] && trace[..n + 1][1..] == trace[1..][..n];
  }

  /** The same, from the start of record_stream: existing content is kept and appended to. */
  lemma CaptureKeepsBytes(cfg: Config, existing: Option<seq<Byte>>, trace: seq<Attempt>)
    ensures var r := Capture(cfg, existing, trace);
      var n := Used(r, |trace|);
      && n <= |trace|
      && r.state.disk == Content(existing) + ReceivedAll(cfg, trace[..n])
      && r.state.disk[..|Content(existing)|] == Content(existing)
      && (r.Finished? ==> r.outcome.sizeBytes == |r.state.disk| >= |Content(existing)|)
  {
    StartInv(cfg, existing);
    RunKeepsBytes(cfg, Start(cfg, existing), trace);
  }

  /** A run reports success only once the deadline has been reached, and never with an error. */
  lemma {:induction false} SuccessOnlyAtDeadline(cfg: Config, p: Progress, trace: seq<Attempt>)
    ensures var r := RunFrom(cfg, p, trace);
      r.Finished? ==>
        && (r.outcome.success <==> r.outcome.error.None?)
        && (r.outcome.success ==> r.outcome.duration >= cfg.duration)
    decreases |trace|
  {
    if trace != [] {
      var a := trace[0];
      if a.at < cfg.duration && a.reply.Accepted? {
        ConnectionWrites(cfg, p, a);
      }
      match Step(cfg, p, a)
      case Stop(_, _) =>
      case Continue(q) => SuccessOnlyAtDeadline(cfg, q, trace[1..]);
    }
  }

  /**
   * The other direction: a deadline already passed at the top of the loop breaks out to
   * success with the file as it is, and a connection accepted before the deadline that writes
   * no late chunk and then closes at or after the deadline also ends in success, at the close.
   */
  lemma DeadlineMeansSuccess(cfg: Config, p: Progress, a: Attempt)
    ensures a.at >= cfg.duration ==> Step(cfg, p, a) == Stop(Succeeded(p, a.at), p)
    ensures a.at < cfg.duration && a.reply.Accepted? && FirstLate(cfg, a.reply.chunks).None?
            && a.reply.ending.Closed? && a.reply.ending.at >= cfg.duration ==>
      var n := Step(cfg, p, a);
      && n.Stop? && n.outcome.success && n.outcome.error.None?
      && n.outcome.duration == a.reply.ending.at
      && n.outcome.sizeBytes == n.state.total
      && n.state.disk == Reconnect(cfg, p).disk + Received(cfg, a)
  {
    if a.at < cfg.duration && a.reply.Accepted? {
      ConnectionWrites(cfg, p, a);
    }
  }

  /** The connection attempts that fail with a network error, all before the deadline. */
  ghost predicate AlwaysRefused(cfg: Config, trace: seq<Attempt>)
  {
    forall i :: 0 <= i < |trace| ==>
      && trace[i].at < cfg.duration
      && trace[i].reply.Refused?
      && trace[i].reply.failure.NetError?
      && trace[i].reply.failure.at < cfg.duration
  }

  /** max_retries, or 0 for a negative setting (one attempt is always made). */
  function RetryLimit(cfg: Config): nat
  {
    if cfg.maxRetries < 0 then 0 else cfg.maxRetries
  }

  /**
   * Against a source that keeps refusing before the deadline, a run with `k` retries already
   * counted makes RetryLimit - k + 1 more connection attempts and then fails with the text
   * of the last exception; a shorter trace leaves it still retrying.
   */
  lemma {:induction false} RefusedUntilExhausted(cfg: Config, p: Progress, trace: seq<Attempt>)
    requires AlwaysRefused(cfg, trace)
    requires 0 <= p.retryCount <= RetryLimit(cfg)
    ensures var r := RunFrom(cfg, p, trace);
      var budget := RetryLimit(cfg) - p.retryCount + 1;
      if |trace| >= budget then
        && r.Finished? && r.used == budget
        && r.state.attempts == p.attempts + budget
        && !r.outcome.success
        && r.outcome.error == Some(trace[budget - 1].reply.failure.message)
      else
        && r.Pending?
        && r.state.attempts == p.attempts + |trace|
        && r.state.retryCount == p.retryCount + |trace|
    decreases |trace|
  {
    if trace != [] {
      var rest := trace[1..];
      assert AlwaysRefused(cfg, rest) by {
        forall i | 0 <= i < |rest| ensures rest[i] == trace[i + 1] { }
      }
      match Step(cfg, p, trace[0])
      case Stop(o, q) =>
      case Continue(q) =>
        RefusedUntilExhausted(cfg, q, rest);
        var budget := RetryLimit(cfg) - p.retryCount + 1;
        if |trace| >= budget {
          assert rest[budget - 2] == trace[budget - 1];
        }
    }
  }

  /**
   * The retry budget from the start: exactly max_retries + 1 connection attempts (one when
   * max_retries is not positive), then a failure carrying the text of the last connection
   * error.
   */
  lemma ExactAttemptsBeforeGivingUp(cfg: Config, existing: Option<seq<Byte>>, trace: seq<Attempt>)
    requires AlwaysRefused(cfg, trace)
    requires |trace| >= RetryLimit(cfg) + 1
    ensures var r := Capture(cfg, existing, trace);
      && r.Finished? && r.used == RetryLimit(cfg) + 1
      && r.state.attempts == RetryLimit(cfg) + 1
      && !r.outcome.success
      && r.outcome.error == Some(trace[RetryLimit(cfg)].reply.failure.message)
  {
    RefusedUntilExhausted(cfg, Start(cfg, existing), trace);
  }

  // ---------------------------------------------------------------- backoff

  lemma {:induction false} DelayBounds(d: int, k: int)
    requires d >= 0
    ensures 0 <= DelayAfter(d, k) <= Max(d, MaxRetryDelay)
    ensures k >= 1 ==> DelayAfter(d, k) <= MaxRetryDelay
    decreases if k > 0 then k else 0
  {
    if k > 0 {
      DelayBounds(d, k - 1);
    }
  }

  /** After k >= 1 failures the delay is min(retry_delay * 2^k, 60). */
  lemma {:induction false} DelayClosedForm(d: nat, k: nat)
    requires k >= 1
    ensures DelayAfter(d, k) == Min(d * Pow2(k), MaxRetryDelay)
    decreases k
  {
    if k > 1 {
      DelayClosedForm(d, k - 1);
      assert d * Pow2(k) == 2 * (d * Pow2(k - 1));
    }
  }

  /** Such a sleep lasts between half and one and a half times its delay. */
  lemma SleepBounds(w: Wait)
    requires 0 <= w.delay && 0.5 <= w.jitter <= 1.5
    ensures 0.5 * (w.delay as real) <= SleepTime(w)
    ensures SleepTime(w) <= 1.5 * (w.delay as real)
  {
    ScaledBounds(w.delay, w.jitter);
  }

  /** d * j lies between d / 2 and 3d / 2, by induction on d. */
  lemma {:induction false} ScaledBounds(d: nat, j: real)
    requires 0.5 <= j <= 1.5
    ensures 0.5 * (d as real) <= d as real * j <= 1.5 * (d as real)
    decreases d
  {
    if d > 0 {
      ScaledBounds(d - 1, j);
      assert d as real * j == (d - 1) as real * j + j;
    }
  }

  ghost predicate WaitsBounded(cfg: Config, p: Progress)
  {
    forall w | w in p.waits :: WaitBounded(cfg, w)
  }

  lemma BackoffBounded(cfg: Config, p: Progress, j: real)
    requires 0 <= p.delay <= Max(cfg.retryDelay, MaxRetryDelay)
    requires WaitsBounded(cfg, p) && 0.5 <= j <= 1.5
    ensures WaitsBounded(cfg, Backoff(p, j))
  {
    var x := Wait(p.delay, j);
    BackoffAppends(p, j);
    forall w | w in p.waits + [x]
      ensures WaitBounded(cfg, w)
    {
      if w != x {
        assert w in p.waits;
      }
    }
  }

  /** One turn adds at most one sleep, and that sleep is within its bounds. */
  lemma StepWaitsBounded(cfg: Config, p: Progress, a: Attempt)
    requires Inv(cfg, p) && WaitsBounded(cfg, p) && 0.5 <= a.jitter <= 1.5
    ensures WaitsBounded(cfg, Step(cfg, p, a).state)
  {
    if a.at < cfg.duration {
      var p1 := p.(attempts := p.attempts + 1);
      match a.reply
      case Refused(f) =>
        if f.NetError? {
          DelayBounds(cfg.retryDelay, p.retryCount);
          BackoffBounded(cfg, p1.(retryCount := p1.retryCount + 1), a.jitter);
        }
      case Accepted(chunks, ending) =>
        ConnectionWrites(cfg, p, a);
        var n := Stream(cfg, Reconnect(cfg, p1), chunks);
        if n.Continue? {
          var q := n.state;
          assert MidTurn(cfg, q) && WaitsBounded(cfg, q);
          DelayBounds(cfg.retryDelay, q.retryCount);
          BackoffBounded(cfg, q.(retryCount := q.retryCount + 1), a.jitter);
        }
    }
  }

  /** Every backoff sleep of a run lies in [0.5, 1.5] times a delay of at most max(retry_delay, 60). */
  lemma {:induction false} RunWaitsBounded(cfg: Config, p: Progress, trace: seq<Attempt>)
    requires Inv(cfg, p) && JittersInRange(trace) && WaitsBounded(cfg, p)
    ensures WaitsBounded(cfg, RunFrom(cfg, p, trace).state)
    decreases |trace|
  {
    if trace != [] {
      StepWaitsBounded(cfg, p, trace[0]);
      StepPreservesInv(cfg, p, trace[0]);
      match Step(cfg, p, trace[0])
      case Stop(_, q) =>
      case Continue(q) =>
        assert JittersInRange(trace[1..]) by {
          forall i | 0 <= i < |trace[1..]| ensures trace[1..][i] == trace[i + 1] { }
        }
        RunWaitsBounded(cfg, q, trace[1..]);
    }
  }

  lemma CaptureWaitsBounded(cfg: Config, existing: Option<seq<Byte>>, trace: seq<Attempt>)
    requires JittersInRange(trace)
    ensures WaitsBounded(cfg, Capture(cfg, existing, trace).state)
  {
    StartInv(cfg, existing);
    RunWaitsBounded(cfg, Start(cfg, existing), trace);
  }
}

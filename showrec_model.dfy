/**
 * The retry loop of record_stream in showrec.py, as a function of what the environment does.
 *
 * The network, the clock and random.uniform are replaced by a trace: one Attempt per turn of
 * the `while True` loop. An Attempt carries the clock reading at the top of the loop, what the
 * connection did (refused, or accepted and then delivered chunks and ended), and the jitter
 * that random.uniform(0.5, 1.5) would return if this turn has to back off. Every time is the
 * number of seconds elapsed since start_time. time.sleep is not modelled as passing time: the
 * sleeps are logged in `waits` instead.
 */
module ShowrecModel {
  import opened Wrappers
  import opened Text

  /** The cap on current_retry_delay (showrec.py:262, showrec.py:338). */
  const MaxRetryDelay: int := 60

  /** An exception raised inside the loop's try block, with the clock reading its handler takes. */
  datatype Failure =
    | NetError(message: string, at: int)    // requests.exceptions.RequestException or OSError
    | Interrupt(at: int)                    // KeyboardInterrupt
    | OtherError(message: string, at: int)  // any other Exception

  /** One item of iter_content(chunk_size=8192), with the clock reading taken after it. */
  datatype Chunk = Chunk(data: seq<Byte>, at: int)

  /** How a connection that was accepted stops delivering chunks. */
  datatype Ending =
    | Closed(at: int)          // iter_content finished: the server closed the stream
    | Broken(failure: Failure) // an exception while reading or writing

  /**
   * What the connection attempt did. Refused: requests.get or raise_for_status raised, before
   * the counters are reset. Accepted: the counters are reset; a failure of open() itself is an
   * Accepted reply with no chunks and a Broken ending.
   */
  datatype Reply =
    | Refused(failure: Failure)
    | Accepted(chunks: seq<Chunk>, ending: Ending)

  datatype Attempt = Attempt(at: int, reply: Reply, jitter: real)

  /** The arguments of record_stream that the loop reads. */
  datatype Config = Config(duration: int, maxRetries: int, retryDelay: nat)

  /** The dictionary record_stream returns; the byte count stands for size_mb. */
  datatype Outcome = Outcome(success: bool, sizeBytes: nat, duration: int, error: Option<string>)

  /** One backoff sleep: the current_retry_delay and the jitter it was computed from. */
  datatype Wait = Wait(delay: int, jitter: real)

  /** sleep_time = current_retry_delay * jitter. */
  function SleepTime(w: Wait): real
  {
    w.delay as real * w.jitter
  }

  /**
   * The loop's local variables (total_bytes_written, retry_count, current_retry_delay,
   * file_exists), the output file's content, and two logs kept for the proofs: the number of
   * connection attempts made and the backoff sleeps taken.
   */
  datatype Progress = Progress(
    initial: nat,
    total: nat,
    retryCount: int,
    delay: int,
    fileExists: bool,
    disk: seq<Byte>,
    attempts: nat,
    waits: seq<Wait>)

  /** What one turn of the loop leads to: another turn, or a returned dictionary. */
  datatype Next = Continue(state: Progress) | Stop(outcome: Outcome, state: Progress)

  /** A whole run: finished after `used` attempts, or still running when the trace ran out. */
  datatype Run = Finished(outcome: Outcome, state: Progress, used: nat) | Pending(state: Progress)

  function Succeeded(p: Progress, at: int): Outcome
  {
    Outcome(true, p.total, at, None)
  }

  function Failed(p: Progress, at: int, error: string): Outcome
  {
    Outcome(false, p.total, at, Some(error))
  }

  function MaxRetriesMessage(cfg: Config): string
  {
    "Max retries (" + IntToString(cfg.maxRetries) + ") exceeded"
  }

  function Min(a: int, b: int): int { if a < b then a else b }

  function Max(a: int, b: int): int { if a < b then b else a }

  /** min(current_retry_delay * 2, 60). */
  function NextDelay(delay: int): int
  {
    Min(delay * 2, MaxRetryDelay)
  }

  /** Sleep current_retry_delay * jitter, then double the delay up to the cap. */
  function Backoff(p: Progress, jitter: real): Progress
  {
    p.(waits := p.waits + [Wait(p.delay, jitter)], delay := NextDelay(p.delay))
  }

  /** The state before the first turn: the counter starts at the size of an existing file. */
  function Start(cfg: Config, existing: Option<seq<Byte>>): Progress
  {
    var content := if existing.Some? then existing.value else [];
    Progress(|content|, |content|, 0, cfg.retryDelay, existing.Some?, content, 0, [])
  }

  /** A chunk that is written and then found to be at or past the deadline. */
  predicate Late(cfg: Config, c: Chunk)
  {
    |c.data| > 0 && c.at >= cfg.duration
  }

  /** The `for chunk in response.iter_content(...)` loop (showrec.py:199-227). */
  function Stream(cfg: Config, p: Progress, chunks: seq<Chunk>): Next
    decreases |chunks|
  {
    if chunks == [] then Continue(p)
    else
      var c := chunks[0];
      if |c.data| == 0 then Stream(cfg, p, chunks[1..])
      else
        var q := p.(total := p.total + |c.data|, disk := p.disk + c.data);
        if c.at >= cfg.duration then Stop(Succeeded(q, c.at), q)
        else Stream(cfg, q, chunks[1..])
  }

  /** The three except clauses (showrec.py:280-357). */
  function OnFailure(cfg: Config, p: Progress, f: Failure, jitter: real): Next
  {
    match f
    case Interrupt(t) => Stop(Failed(p, t, "User interrupted"), p)
    case OtherError(m, t) => Stop(Failed(p, t, m), p)
    case NetError(m, t) =>
      var q := p.(retryCount := p.retryCount + 1);
      if q.retryCount > cfg.maxRetries then Stop(Failed(q, t, m), q)
      else if t >= cfg.duration then Stop(Succeeded(q, t), q)
      else
        var r := Backoff(q, jitter);
        Continue(r.(fileExists := r.fileExists || r.total > r.initial))
  }

  /** After iter_content is exhausted: early end is a disconnection (showrec.py:229-278). */
  function OnClose(cfg: Config, p: Progress, t: int, jitter: real): Next
  {
    if t < cfg.duration then
      var q := p.(retryCount := p.retryCount + 1);
      if q.retryCount > cfg.maxRetries then Stop(Failed(q, t, MaxRetriesMessage(cfg)), q)
      else Continue(Backoff(q, jitter).(fileExists := true))
    else Stop(Succeeded(p, t), p)
  }

  /**
   * A connection was established: retry_count and current_retry_delay are reset and the file
   * is opened with 'ab' if file_exists, else with 'wb', which empties it.
   */
  function Reconnect(cfg: Config, p: Progress): Progress
  {
    p.(retryCount := 0, delay := cfg.retryDelay, disk := if p.fileExists then p.disk else [])
  }

  /** One turn of `while True` (showrec.py:164-357). */
  function Step(cfg: Config, p: Progress, a: Attempt): Next
  {
    if a.at >= cfg.duration then Stop(Succeeded(p, a.at), p)
    else
      var p1 := p.(attempts := p.attempts + 1);
      match a.reply
      case Refused(f) => OnFailure(cfg, p1, f, a.jitter)
      case Accepted(chunks, ending) =>
        match Stream(cfg, Reconnect(cfg, p1), chunks)
        case Stop(o, q) => Stop(o, q)
        case Continue(q) =>
          match ending
          case Closed(t) => OnClose(cfg, q, t, a.jitter)
          case Broken(f) => OnFailure(cfg, q, f, a.jitter)
  }

  /** Turns of the loop until one returns or the trace runs out. */
  function RunFrom(cfg: Config, p: Progress, trace: seq<Attempt>): Run
    decreases |trace|
  {
    if trace == [] then Pending(p)
    else
      match Step(cfg, p, trace[0])
      case Stop(o, q) => Finished(o, q, 1)
      case Continue(q) => Shift(RunFrom(cfg, q, trace[1..]), 1)
  }

  function Shift(r: Run, k: nat): Run
  {
    if r.Finished? then r.(used := r.used + k) else r
  }

  /** record_stream on a file that holds `existing` (None: there is no such file). */
  function Capture(cfg: Config, existing: Option<seq<Byte>>, trace: seq<Attempt>): Run
  {
    RunFrom(cfg, Start(cfg, existing), trace)
  }
}

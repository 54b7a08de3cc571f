/**
 * record_stream of showrec.py as a method over an output file, proved to do what the trace
 * model ShowrecModel.Capture says, and the progress bar's clock format.
 */
module Showrec {
  import opened Wrappers
  import opened Text
  import opened ShowrecModel

  /** The output file on disk: whether it exists and the bytes it holds. */
  class OutputFile {
    var present: bool
    var content: seq<Byte>

    /** A file that does not exist holds nothing. */
    ghost predicate Valid()
      reads this
    {
      present || content == []
    }

    constructor (existing: Option<seq<Byte>>)
      ensures Valid()
      ensures present == existing.Some?
      ensures content == if existing.Some? then existing.value else []
    {
      present := existing.Some?;
      content := if existing.Some? then existing.value else [];
    }

    /** open(output_file, 'ab') when `append`, else open(output_file, 'wb'), which empties it. */
    method Open(append: bool)
      modifies this
      ensures present
      ensures content == if append then old(content) else []
    {
      present := true;
      if !append {
        content := [];
      }
    }

    /** f.write(chunk). */
    method Write(data: seq<Byte>)
      requires present
      modifies this
      ensures present
      ensures content == old(content) + data
    {
      content := content + data;
    }
  }

  /** What os.path.exists and the file's bytes say before the run. */
  function Snapshot(present: bool, content: seq<Byte>): Option<seq<Byte>>
  {
    if present then Some(content) else None
  }

  /**
   * The `for chunk in response.iter_content(...)` loop (showrec.py:199-227): writes each
   * non-empty chunk and stops after the first one written at or after the deadline, whose
   * time it returns.
   */
  method CopyChunks(cfg: Config, file: OutputFile, chunks: seq<Chunk>, total: nat, ghost p: Progress)
    returns (newTotal: nat, late: Option<int>)
    requires file.present && p.total == total && p.disk == file.content
    modifies file
    ensures file.present
    ensures var q := p.(total := newTotal, disk := file.content);
      Stream(cfg, p, chunks) == if late.Some? then Stop(Succeeded(q, late.value), q) else Continue(q)
  {
    newTotal := total;
    var j := 0;
    while j < |chunks|
      invariant 0 <= j <= |chunks|
      invariant file.present
      invariant Stream(cfg, p, chunks) ==
        Stream(cfg, p.(total := newTotal, disk := file.content), chunks[j..])
    {
      var c := chunks[j];
      assert chunks[j..][0] == c && chunks[j..][1..] == chunks[j + 1..];
      if |c.data| > 0 {
        file.Write(c.data);
        newTotal := newTotal + |c.data|;
        if c.at >= cfg.duration {
          return newTotal, Some(c.at);
        }
      }
      j := j + 1;
    }
    return newTotal, None;
  }

  /** A turn that continues hands the rest of the trace to the next state. */
  lemma Advance(cfg: Config, p: Progress, q: Progress, trace: seq<Attempt>, i: nat)
    requires i < |trace| && Step(cfg, p, trace[i]) == Continue(q)
    ensures Shift(RunFrom(cfg, p, trace[i..]), i) == Shift(RunFrom(cfg, q, trace[i + 1..]), i + 1)
  {
    assert trace[i..][0] == trace[i] && trace[i..][1..] == trace[i + 1..];
  }

  /**
   * record_stream (showrec.py:121-375) over the attempts of `trace`. The result is the
   * returned dictionary, or None when the trace ends while the loop would still run; either
   * way the method does exactly what Capture describes, and the file ends up holding the
   * state's bytes.
   */
  method RecordStream(cfg: Config, file: OutputFile, trace: seq<Attempt>) returns (result: Option<Outcome>)
    requires file.Valid()
    modifies file
    ensures var r := Capture(cfg, Snapshot(old(file.present), old(file.content)), trace);
      && (result.Some? <==> r.Finished?)
      && (result.Some? ==> result.value == r.outcome)
      && file.content == r.state.disk
  {
    ghost var existing := Snapshot(file.present, file.content);
    var fileExists := file.present;
    var initialBytes := if fileExists then |file.content| else 0;
    var total: nat := initialBytes;
    var retryCount := 0;
    var delay: int := cfg.retryDelay;
    ghost var attempts: nat := 0;
    ghost var waits: seq<Wait> := [];
    var i := 0;
    while i < |trace|
      invariant 0 <= i <= |trace|
      invariant Capture(cfg, existing, trace) ==
        Shift(RunFrom(cfg, Progress(initialBytes, total, retryCount, delay, fileExists,
                                    file.content, attempts, waits), trace[i..]), i)
    {
      ghost var p := Progress(initialBytes, total, retryCount, delay, fileExists,
                              file.content, attempts, waits);
      var a := trace[i];
      assert trace[i..][0] == a && trace[i..][1..] == trace[i + 1..];
      if a.at >= cfg.duration {
        // break, then the closing return (showrec.py:177-180, showrec.py:369-375)
        result := Some(Outcome(true, total, a.at, None));
        return;
      }
      attempts := attempts + 1;
      var failure: Option<Failure> := None;
      ghost var mid := p.(attempts := attempts);
      match a.reply {
        case Refused(f) =>
          failure := Some(f);
          assert Step(cfg, p, a) == OnFailure(cfg, mid, f, a.jitter);
        case Accepted(chunks, ending) =>
          retryCount := 0;
          delay := cfg.retryDelay;
          file.Open(fileExists);
          ghost var start := Progress(initialBytes, total, retryCount, delay, fileExists,
                                      file.content, attempts, waits);
          assert start == Reconnect(cfg, mid);
          var late: Option<int>;
          total, late := CopyChunks(cfg, file, chunks, total, start);
          if late.Some? {
            result := Some(Outcome(true, total, late.value, None));
            return;
          }
          mid := start.(total := total, disk := file.content);
          match ending {
            case Closed(t) =>
              assert Step(cfg, p, a) == OnClose(cfg, mid, t, a.jitter);
              if t < cfg.duration {
                retryCount := retryCount + 1;
                if retryCount > cfg.maxRetries {
                  result := Some(Outcome(false, total, t, Some(MaxRetriesMessage(cfg))));
                  return;
                }
                waits := waits + [Wait(delay, a.jitter)];
                delay := Min(delay * 2, MaxRetryDelay);
                fileExists := true;
              } else {
                result := Some(Outcome(true, total, t, None));
                return;
              }
            case Broken(f) =>
              failure := Some(f);
              assert Step(cfg, p, a) == OnFailure(cfg, mid, f, a.jitter);
          }
      }
      if failure.Some? {
        match failure.value {
          case Interrupt(t) =>
            result := Some(Outcome(false, total, t, Some("User interrupted")));
            return;
          case OtherError(m, t) =>
            result := Some(Outcome(false, total, t, Some(m)));
            return;
          case NetError(m, t) =>
            retryCount := retryCount + 1;
            if retryCount > cfg.maxRetries {
              result := Some(Outcome(false, total, t, Some(m)));
              return;
            }
            if t >= cfg.duration {
              result := Some(Outcome(true, total, t, None));
              return;
            }
            waits := waits + [Wait(delay, a.jitter)];
            delay := Min(delay * 2, MaxRetryDelay);
            if total > initialBytes {
              fileExists := true;
            }
        }
      }
      ghost var q := Progress(initialBytes, total, retryCount, delay, fileExists,
                              file.content, attempts, waits);
      assert Step(cfg, p, a) == Continue(q);
      Advance(cfg, p, q, trace, i);
      i := i + 1;
    }
    result := None;
  }

  // ---------------------------------------------------------------- ProgressBar._format_time

  /** A whole number of seconds split into hours, minutes and seconds. */
  datatype Clock = Clock(hours: int, minutes: nat, secs: nat)

  /** seconds // 3600, (seconds % 3600) // 60 and seconds % 60, with Python's floor division. */
  function SplitSeconds(s: int): (c: Clock)
    ensures c.hours * 3600 + c.minutes * 60 + c.secs == s
    ensures c.minutes < 60 && c.secs < 60
    ensures s >= 0 ==> c.hours >= 0
    ensures c.hours > 0 <==> s >= 3600
  {
    ClockSplit(s);
    Clock(s / 3600, (s % 3600) / 60, s % 60)
  }

  /** The remainder by an hour splits into minutes and the remainder by a minute. */
  lemma ClockSplit(s: int)
    ensures (s % 3600) / 60 * 60 + s % 60 == s % 3600
    ensures s / 3600 * 3600 + s % 3600 == s
    ensures 0 <= (s % 3600) / 60 < 60
  {
    var h := s / 3600;
    var r := s % 3600;
    var m := r / 60;
    var sec := r % 60;
    assert s == 3600 * h + r && 0 <= r < 3600;
    assert r == 60 * m + sec && 0 <= sec < 60;
    assert s == 60 * (60 * h + m) + sec;
  }

  /** "H:MM:SS" from an hour on, "MM:SS" below (showrec.py:64-74, showrec_hls.py:66-76). */
  function FormatTime(seconds: real): string
  {
    var c := SplitSeconds(Trunc(seconds));
    if c.hours > 0 then NatToString(c.hours) + ":" + Pad2(c.minutes) + ":" + Pad2(c.secs)
    else Pad2(c.minutes) + ":" + Pad2(c.secs)
  }

  /** Reads "H:MM:SS" or "MM:SS" back as a number of seconds. */
  function ParseClock(s: string): Option<int>
  {
    if |s| >= 5 && s[|s| - 3] == ':' && AllDigits(s[|s| - 2..]) then
      var secs := ParseNat(s[|s| - 2..]);
      var rest := s[..|s| - 3];
      if |rest| == 2 && AllDigits(rest) then Some(ParseNat(rest) * 60 + secs)
      else if |rest| >= 4 && rest[|rest| - 3] == ':' && AllDigits(rest[|rest| - 2..])
           && AllDigits(rest[..|rest| - 3])
      then Some(ParseNat(rest[..|rest| - 3]) * 3600 + ParseNat(rest[|rest| - 2..]) * 60 + secs)
      else None
    else None
  }

  /**
   * The format keeps the whole number of seconds: reading it back gives int(seconds), and the
   * long form is used exactly from one hour on.
   */
  lemma FormatTimeRoundTrip(seconds: real)
    requires seconds >= 0.0
    ensures ParseClock(FormatTime(seconds)) == Some(Trunc(seconds))
    ensures |FormatTime(seconds)| == 5 <==> Trunc(seconds) < 3600
  {
    var c := SplitSeconds(Trunc(seconds));
    var mm := Pad2(c.minutes);
    var ss := Pad2(c.secs);
    var out := FormatTime(seconds);
    if c.hours > 0 {
      var hh := NatToString(c.hours);
      NatToStringRoundTrip(c.hours);
      assert out == hh + ":" + mm + ":" + ss;
      assert out[|out| - 2..] == ss;
      assert out[..|out| - 3] == hh + ":" + mm;
      var rest := hh + ":" + mm;
      assert rest[|rest| - 2..] == mm && rest[..|rest| - 3] == hh;
    } else {
      assert out == mm + ":" + ss;
      assert out[|out| - 2..] == ss && out[..|out| - 3] == mm;
    }
  }
}

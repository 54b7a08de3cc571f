/**
 * playrec.py: the player that follows a recording while it grows. Key decoding, the key
 * bindings, seeking with its clamp to the recorded length, the progress line, and the playback
 * loop that tracks the file's growth. pygame, the terminal and the threads are left out: the
 * mixer's answers, the file sizes and the clock readings are inputs, and every call that
 * starts the mixer is logged in the player's `plays`.
 */
module Playrec {
  import opened Wrappers
  import opened Text
  import Showrec

  // ---------------------------------------------------------------- keys

  /** The escape character that starts an arrow key's sequence. */
  const Esc: char := '\U{1B}'

  /** Ctrl-C as cbreak mode delivers it. */
  const CtrlC: char := '\U{3}'

  /**
   * _get_key (playrec.py:66-83): `c` is what read(1) returned (None at end of input, where it
   * returns ''), `follow` the two characters read after an escape.
   */
  function GetKey(c: Option<char>, follow: string): (key: string)
    ensures key == "up" <==> c == Some(Esc) && follow == "[A"
    ensures key == "down" <==> c == Some(Esc) && follow == "[B"
    ensures key == "right" <==> c == Some(Esc) && follow == "[C"
    ensures key == "left" <==> c == Some(Esc) && follow == "[D"
    ensures key == "space" <==> c == Some(' ')
    ensures key == "quit" <==> c == Some('q') || c == Some(CtrlC)
    ensures key == [] <==> c.None?
    ensures |key| == 1 <==>
      c.Some? && c.value !in {' ', 'q', CtrlC} && (c.value == Esc ==> follow !in {"[A", "[B", "[C", "[D"})
    ensures |key| == 1 ==> key == [c.value]
  {
    if c.None? then []
    else if c.value == Esc && follow == "[A" then "up"
    else if c.value == Esc && follow == "[B" then "down"
    else if c.value == Esc && follow == "[C" then "right"
    else if c.value == Esc && follow == "[D" then "left"
    else if c.value == ' ' then "space"
    else if c.value == 'q' || c.value == CtrlC then "quit"
    else [c.value]
  }

  /** The player methods a key can be bound to. */
  datatype Command = SeekBackward | SeekForward | TogglePause | Quit

  /** The bindings _setup_keyboard_callbacks makes (playrec.py:141-146). */
  function DefaultBindings(): map<string, Command>
  {
    map["left" := SeekBackward, "right" := SeekForward, "space" := TogglePause, "quit" := Quit]
  }

  /** The player's keys: the arrows seek, space pauses, q and Ctrl-C quit, and nothing else is bound. */
  lemma DefaultKeys(c: Option<char>, follow: string)
    ensures var key := GetKey(c, follow);
      && (key in DefaultBindings() && DefaultBindings()[key] == SeekBackward <==> c == Some(Esc) && follow == "[D")
      && (key in DefaultBindings() && DefaultBindings()[key] == SeekForward <==> c == Some(Esc) && follow == "[C")
      && (key in DefaultBindings() && DefaultBindings()[key] == TogglePause <==> c == Some(' '))
      && (key in DefaultBindings() && DefaultBindings()[key] == Quit <==> c == Some('q') || c == Some(CtrlC))
  {
    var key := GetKey(c, follow);
    if |key| == 1 {
      assert key != "left" && key != "right" && key != "space" && key != "quit";
    }
  }

  /** The key handler: its bindings and whether its listener runs (the thread is left out). */
  class KeyboardHandler {
    var callbacks: map<string, Command>
    var running: bool

    constructor ()
      ensures callbacks == map[] && !running
    {
      callbacks := map[];
      running := false;
    }

    /** add_callback (playrec.py:30-32): binding a key replaces any earlier binding of it. */
    method AddCallback(key: string, command: Command)
      modifies this
      ensures callbacks == old(callbacks)[key := command]
      ensures running == old(running)
    {
      callbacks := callbacks[key := command];
    }

    /** start (playrec.py:34-38), without the thread. */
    method Start()
      modifies this
      ensures running && callbacks == old(callbacks)
    {
      running := true;
    }

    /** stop (playrec.py:40-44), without the join. */
    method Stop()
      modifies this
      ensures !running && callbacks == old(callbacks)
    {
      running := false;
    }

    /** The callback a decoded key triggers (playrec.py:57-58): only a non-empty, bound key. */
    function Lookup(key: string): (r: Option<Command>)
      reads this
      ensures r.Some? <==> key != [] && key in callbacks
      ensures r.Some? ==> r.value == callbacks[key]
    {
      if key != [] && key in callbacks then Some(callbacks[key]) else None
    }
  }

  // ---------------------------------------------------------------- time from bytes

  /**
   * _bytes_to_seconds (playrec.py:179-183): bytes over the assumed 160 kbit/s (playrec.py:134),
   * that is 160 * 1000 / 8 = 20000 bytes a second.
   */
  function BytesToSeconds(bytes: int): (s: real)
    ensures s * 20000.0 == bytes as real
    ensures bytes >= 0 ==> s >= 0.0
  {
    bytes as real / 20000.0
  }

  /** The estimate grows by one second for every 20000 bytes and never shrinks as the file grows. */
  lemma BytesToSecondsScale(a: int, b: int)
    ensures BytesToSeconds(a + 20000) == BytesToSeconds(a) + 1.0
    ensures a <= b ==> BytesToSeconds(a) <= BytesToSeconds(b)
  {
    var sa := BytesToSeconds(a);
    var sb := BytesToSeconds(b);
    var sc := BytesToSeconds(a + 20000);
    assert (sc - sa - 1.0) * 20000.0 == 0.0;
    if a <= b {
      assert (sb - sa) * 20000.0 >= 0.0;
    }
  }

  // ---------------------------------------------------------------- the progress line

  function MinReal(a: real, b: real): real { if a <= b then a else b }

  function MaxReal(a: real, b: real): real { if a >= b then a else b }

  /** Python's "{n:02d}": zero-padded to two characters, the sign counting as one. */
  function SignedPad2(n: int): (s: string)
    ensures n >= 0 ==> s == Pad2(n)
  {
    if n < 0 then "-" + NatToString(-n) else Pad2(n)
  }

  /** _format_time (playrec.py:116-120): minutes, a colon and seconds, from float floor division. */
  function MinutesClock(seconds: real): string
  {
    var minutes := (seconds / 60.0).Floor;
    var secs := Trunc(seconds - 60.0 * minutes as real);
    SignedPad2(minutes) + ":" + SignedPad2(secs)
  }

  /** Float floor division and remainder by 60 of a non-negative time are those of its floor. */
  lemma MinuteSplit(seconds: real)
    requires seconds >= 0.0
    ensures var n := seconds.Floor;
      var m := (seconds / 60.0).Floor;
      m == n / 60 && Trunc(seconds - 60.0 * m as real) == n % 60
  {
    var n := seconds.Floor;
    QuotientFloor(seconds, 60);
    var m := n / 60;
    var t := seconds - 60.0 * m as real;
    assert (n % 60) as real <= t < (n % 60) as real + 1.0;
  }

  /** For a non-negative time the minutes and seconds are those of its whole number of seconds. */
  lemma MinutesClockFields(seconds: real)
    requires seconds >= 0.0
    ensures var n := seconds.Floor;
      MinutesClock(seconds) == Pad2(n / 60) + ":" + Pad2(n % 60)
  {
    MinuteSplit(seconds);
  }

  /** A two-digit "MM:SS" text is five characters and reads back as its number of seconds. */
  lemma TwoDigitClock(x: string, m: nat, sec: nat)
    requires m < 100 && sec < 60 && x == Pad2(m) + ":" + Pad2(sec)
    ensures |x| == 5 && Showrec.ParseClock(x) == Some(m * 60 + sec)
  {
    assert x[|x| - 2..] == Pad2(sec) && x[..|x| - 3] == Pad2(m);
  }

  /** The player's clock is five characters wide exactly below 100 minutes, and wider from there. */
  lemma MinutesClockWidth(seconds: real)
    requires seconds >= 0.0
    ensures |MinutesClock(seconds)| == 5 <==> seconds < 6000.0
  {
    var n := seconds.Floor;
    MinutesClockFields(seconds);
    assert |Pad2(n % 60)| == 2;
    assert |Pad2(n / 60)| == 2 <==> n / 60 < 100;
  }

  /** Below 100 minutes the player's clock reads back as its whole number of seconds. */
  lemma MinutesClockReadBack(seconds: real)
    requires 0.0 <= seconds < 6000.0
    ensures Showrec.ParseClock(MinutesClock(seconds)) == Some(seconds.Floor)
  {
    var n := seconds.Floor;
    MinutesClockFields(seconds);
    TwoDigitClock(MinutesClock(seconds), n / 60, n % 60);
  }

  /** Below an hour the player's clock prints exactly what the recorder's clock prints. */
  lemma MinutesClockMatchesRecorder(seconds: real)
    requires 0.0 <= seconds < 3600.0
    ensures MinutesClock(seconds) == Showrec.FormatTime(seconds)
  {
    var n := seconds.Floor;
    MinutesClockFields(seconds);
    assert Trunc(seconds) == n;
    assert Showrec.SplitSeconds(n).minutes == n / 60;
  }

  /** The bar: `filled` full cells, then empty cells up to `width` (playrec.py:100-101). */
  function Bar(width: int, filled: int): string
  {
    Repeat('\U{2588}', filled) + Repeat('\U{2591}', width - filled)
  }

  /** min(playback / recorded, 1.0). */
  function Ratio(recorded: real, playback: real): real
    requires recorded > 0.0
  {
    MinReal(playback / recorded, 1.0)
  }

  /** The status line ProgressBar.update builds (playrec.py:95-108). */
  function StatusLine(width: int, recorded: real, playback: real): string
    requires recorded > 0.0
  {
    var ratio := Ratio(recorded, playback);
    "[" + Bar(width, Trunc(width as real * ratio)) + "] " + SpacePad(IntToString(Trunc(ratio * 100.0)), 3)
      + "% | Recorded: " + MinutesClock(recorded) + " | Playing: " + MinutesClock(playback)
  }

  /** A non-negative quotient by a positive divisor, at least 1 exactly when the dividend is at least the divisor. */
  lemma QuotientCompare(p: real, r: real)
    requires r > 0.0 && p >= 0.0
    ensures p / r >= 0.0
    ensures p / r >= 1.0 <==> p >= r
  {
    var q := p / r;
    assert q * r == p;
    if q >= 1.0 {
      ProductNonNegative(q - 1.0, r);
      assert (q - 1.0) * r == q * r - r;
    } else {
      ProductNonNegative(1.0 - q, r);
      assert (1.0 - q) * r == r - q * r;
      assert (1.0 - q) * r != 0.0;
    }
  }

  /** The ratio lies in 0..1 and is 1 exactly once playback has reached the recorded length. */
  lemma RatioBounds(recorded: real, playback: real)
    requires recorded > 0.0 && playback >= 0.0
    ensures 0.0 <= Ratio(recorded, playback) <= 1.0
    ensures Ratio(recorded, playback) == 1.0 <==> playback >= recorded
  {
    QuotientCompare(playback, recorded);
  }

  /** A share `ratio` of `width` cells, truncated, is between none and all of them. */
  lemma FilledBounds(width: int, ratio: real)
    requires width >= 0 && 0.0 <= ratio <= 1.0
    ensures 0 <= Trunc(width as real * ratio) <= width
    ensures ratio == 1.0 ==> Trunc(width as real * ratio) == width
  {
    var w := width as real;
    ProductNonNegative(w, ratio);
    ProductNonNegative(w, 1.0 - ratio);
    assert w * (1.0 - ratio) == w - w * ratio;
    var f := Trunc(w * ratio);
    assert f == (w * ratio).Floor;
  }

  /** A bar with `filled` full cells out of `width` is `width` cells, the full ones first. */
  lemma BarCells(width: int, filled: int)
    requires 0 <= filled <= width
    ensures |Bar(width, filled)| == width
    ensures forall i :: 0 <= i < filled ==> Bar(width, filled)[i] == '\U{2588}'
    ensures forall i :: filled <= i < width ==> Bar(width, filled)[i] == '\U{2591}'
  {
    var full := Repeat('\U{2588}', filled);
    var empty := Repeat('\U{2591}', width - filled);
    forall i | filled <= i < width
      ensures Bar(width, filled)[i] == '\U{2591}'
    {
      assert Bar(width, filled)[i] == empty[i - filled];
    }
  }

  /**
   * For a playback position that is not negative, the bar is exactly `width` cells, full in
   * proportion to the ratio and entirely full once playback reaches the recorded length, and the
   * percentage lies in 0..100, reaching 100 exactly then.
   */
  lemma BarShape(width: int, recorded: real, playback: real)
    requires recorded > 0.0 && playback >= 0.0 && width >= 0
    ensures var ratio := Ratio(recorded, playback);
      var filled := Trunc(width as real * ratio);
      && 0 <= filled <= width
      && |Bar(width, filled)| == width
      && (forall i :: 0 <= i < filled ==> Bar(width, filled)[i] == '\U{2588}')
      && (forall i :: filled <= i < width ==> Bar(width, filled)[i] == '\U{2591}')
      && (playback >= recorded ==> filled == width)
  {
    var ratio := Ratio(recorded, playback);
    RatioBounds(recorded, playback);
    FilledBounds(width, ratio);
    BarCells(width, Trunc(width as real * ratio));
  }

  /** The percentage lies in 0..100 and is 100 exactly once playback reaches the recorded length. */
  lemma PercentShape(recorded: real, playback: real)
    requires recorded > 0.0 && playback >= 0.0
    ensures var percent := Trunc(Ratio(recorded, playback) * 100.0);
      && 0 <= percent <= 100
      && (percent == 100 <==> playback >= recorded)
  {
    var ratio := Ratio(recorded, playback);
    RatioBounds(recorded, playback);
    FilledBounds(100, ratio);
    assert ratio * 100.0 == 100 as real * ratio;
    if Trunc(ratio * 100.0) == 100 {
      assert ratio * 100.0 >= 100.0;
    }
  }

  /** The progress line and the last text it showed. */
  class ProgressBar {
    const width: int
    var lastDisplay: string

    constructor (width: int)
      ensures this.width == width && lastDisplay == []
    {
      this.width := width;
      lastDisplay := [];
    }

    /**
     * update (playrec.py:90-114): nothing before anything is recorded; otherwise the shown line
     * becomes the status line (it is printed only when it differs, which the model leaves out).
     */
    method Update(recorded: real, playback: real)
      modifies this
      ensures recorded <= 0.0 ==> lastDisplay == old(lastDisplay)
      ensures recorded > 0.0 ==> lastDisplay == StatusLine(width, recorded, playback)
    {
      if recorded <= 0.0 {
        return;
      }
      var status := StatusLine(width, recorded, playback);
      if status != lastDisplay {
        lastDisplay := status;
      }
    }
  }

  // ---------------------------------------------------------------- the player

  /**
   * Where playback restarts (playrec.py:189-193): at the requested position, but no later than
   * one second before the end of what is recorded, and never before the start.
   */
  function RestartPoint(position: real, fileSize: int): real
  {
    MinReal(position, MaxReal(0.0, BytesToSeconds(fileSize) - 1.0))
  }

  /**
   * A restart never moves forward and never goes negative; it keeps a position that is at least
   * a second inside the recording, and otherwise jumps to one second before the live end.
   */
  lemma RestartClamps(position: real, fileSize: nat)
    requires position >= 0.0
    ensures var recorded := BytesToSeconds(fileSize);
      var r := RestartPoint(position, fileSize);
      && 0.0 <= r <= position
      && (position <= recorded - 1.0 ==> r == position)
      && (position > recorded - 1.0 && recorded >= 1.0 ==> r == recorded - 1.0)
      && (recorded < 1.0 ==> r == 0.0)
  {
  }

  /** A file observation of one turn of the playback loop (playrec.py:244-281). */
  datatype Tick = Tick(
    present: bool,       // os.path.exists
    size: nat,           // os.path.getsize at the top of the turn
    now: real,           // time.time() at the top of the turn
    busy: bool,          // the mixer's get_busy() before the start check
    startSize: nat,      // getsize when deciding where to start
    restartSize: nat,    // getsize inside the restart
    restartAt: real,     // time.time() inside the restart
    busyAfter: bool)     // get_busy() before the progress update

  /** What the loop remembers about growth: the largest size seen and when it was first seen. */
  datatype Growth = Growth(size: nat, changedAt: real)

  /** One turn's update of the growth record (playrec.py:244-254): only a larger size counts. */
  function Grow(g: Growth, t: Tick): Growth
  {
    if t.present && t.size > g.size then Growth(t.size, t.now) else g
  }

  /** last_file_size and last_size_change_time after the given turns (playrec.py:238-254). */
  function Track(ticks: seq<Tick>, t0: real): Growth
  {
    if ticks == [] then Growth(0, t0) else Grow(Track(ticks[..|ticks| - 1], t0), ticks[|ticks| - 1])
  }

  /**
   * The tracked size only grows: it is the largest size seen so far, and unless it is still 0
   * it is the size of the first turn that saw the file that large, timed at that turn (the
   * comparison at playrec.py:252 is strict, so a later turn seeing the same size changes
   * nothing).
   */
  lemma {:induction false} TrackIsLargest(ticks: seq<Tick>, t0: real)
    ensures forall i :: 0 <= i < |ticks| && ticks[i].present ==> ticks[i].size <= Track(ticks, t0).size
    ensures Track(ticks, t0).size > 0 ==>
      exists i :: 0 <= i < |ticks| && ticks[i].present && ticks[i].size == Track(ticks, t0).size
                  && ticks[i].now == Track(ticks, t0).changedAt
                  && forall j :: 0 <= j < i && ticks[j].present ==> ticks[j].size < Track(ticks, t0).size
    ensures Track(ticks, t0).size == 0 ==> Track(ticks, t0).changedAt == t0
    decreases |ticks|
  {
    if ticks != [] {
      var init := ticks[..|ticks| - 1];
      TrackIsLargest(init, t0);
      var g := Track(init, t0);
      var t := ticks[|ticks| - 1];
      assert forall i :: 0 <= i < |init| ==> ticks[i] == init[i];
      if t.present && t.size > g.size {
        assert ticks[|ticks| - 1].size == Track(ticks, t0).size;
      } else if g.size > 0 {
        var i :| 0 <= i < |init| && init[i].present && init[i].size == g.size && init[i].now == g.changedAt
                 && forall j :: 0 <= j < i && init[j].present ==> init[j].size < g.size;
        assert ticks[i] == init[i];
      }
    }
  }

  /** One more turn updates the record by that turn's observation. */
  lemma TrackStep(ticks: seq<Tick>, t0: real, i: nat)
    requires i < |ticks|
    ensures Track(ticks[..i + 1], t0) == Grow(Track(ticks[..i], t0), ticks[i])
  {
    assert ticks[..i + 1][..i] == ticks[..i];
  }

  /** A longer run of turns never tracks a smaller size. */
  lemma {:induction false} TrackGrows(ticks: seq<Tick>, t0: real, j: nat)
    requires j <= |ticks|
    ensures Track(ticks[..j], t0).size <= Track(ticks, t0).size
    decreases |ticks| - j
  {
    if j < |ticks| {
      TrackGrows(ticks, t0, j + 1);
      assert ticks[..j + 1][..j] == ticks[..j];
    } else {
      assert ticks[..j] == ticks;
    }
  }

  /**
   * Whether turn `i` ends the loop (playrec.py:257-261, playrec.py:284-288): the file is there,
   * holds at least 1024 bytes, and has not grown for more than ten seconds.
   */
  predicate EndsAt(ticks: seq<Tick>, t0: real, i: nat)
    requires i < |ticks|
  {
    ticks[i].present && ticks[i].size >= 1024 && ticks[i].now - Track(ticks[..i + 1], t0).changedAt > 10.0
  }

  /** The first turn at or after `i` that ends the loop. */
  function FirstEnd(ticks: seq<Tick>, t0: real, i: nat): (r: Option<nat>)
    requires i <= |ticks|
    ensures r.Some? ==> i <= r.value < |ticks| && EndsAt(ticks, t0, r.value)
    ensures r.Some? ==> forall j :: i <= j < r.value ==> !EndsAt(ticks, t0, j)
    ensures r.None? ==> forall j :: i <= j < |ticks| ==> !EndsAt(ticks, t0, j)
    decreases |ticks| - i
  {
    if i == |ticks| then None
    else if EndsAt(ticks, t0, i) then Some(i)
    else FirstEnd(ticks, t0, i + 1)
  }

  /**
   * A turn that ends the loop saw no growth during its last ten seconds: every turn from the one
   * that set the tracked size on saw the file no larger.
   */
  lemma EndMeansQuiet(ticks: seq<Tick>, t0: real, i: nat)
    requires i < |ticks| && EndsAt(ticks, t0, i)
    ensures var g := Track(ticks[..i + 1], t0);
      && ticks[i].size <= g.size
      && ticks[i].now > g.changedAt + 10.0
      && forall j :: 0 <= j <= i && ticks[j].present ==> ticks[j].size <= g.size
  {
    var p := ticks[..i + 1];
    TrackIsLargest(p, t0);
    assert forall j :: 0 <= j <= i ==> p[j] == ticks[j];
  }

  /**
   * Where the start check of a turn plays from (playrec.py:266-272): one second before the end
   * when the position is at or past the recorded length, then clamped by the restart.
   */
  function StartPoint(position: real, t: Tick): real
  {
    var recorded := BytesToSeconds(t.startSize);
    RestartPoint(if position >= recorded then MaxReal(0.0, recorded - 1.0) else position, t.restartSize)
  }

  /** Whether a turn that saw the file at `t` and the pause flag `paused` starts the mixer. */
  predicate Starts(t: Tick, paused: bool)
  {
    t.present && t.size >= 1024 && !t.busy && !paused
  }

  /** The turns before `n` that start the mixer, in order. */
  function StartingTurns(ticks: seq<Tick>, n: nat, paused: bool): seq<nat>
    requires n <= |ticks|
  {
    if n == 0 then []
    else StartingTurns(ticks, n - 1, paused) + (if Starts(ticks[n - 1], paused) then [n - 1] else [])
  }

  /** A turn is listed exactly when it is before `n` and starts the mixer, and the list ascends. */
  lemma {:induction false} StartingTurnsExactly(ticks: seq<Tick>, n: nat, paused: bool)
    requires n <= |ticks|
    ensures forall j :: j in StartingTurns(ticks, n, paused) <==> 0 <= j < n && Starts(ticks[j], paused)
    ensures forall k :: 0 <= k < |StartingTurns(ticks, n, paused)| ==>
      StartingTurns(ticks, n, paused)[k] < n && Starts(ticks[StartingTurns(ticks, n, paused)[k]], paused)
    ensures forall k, l :: 0 <= k < l < |StartingTurns(ticks, n, paused)| ==>
      StartingTurns(ticks, n, paused)[k] < StartingTurns(ticks, n, paused)[l]
  {
    if n > 0 {
      StartingTurnsExactly(ticks, n - 1, paused);
      var prev := StartingTurns(ticks, n - 1, paused);
      forall k | 0 <= k < |prev|
        ensures prev[k] < n - 1
      {
        assert prev[k] in prev;
      }
    }
  }

  /** Python truthiness of playback_start_time: set and not 0.0. */
  predicate Truthy(t: Option<real>)
  {
    t.Some? && t.value != 0.0
  }

  /** The player's state: position, flags, start time, and the start positions given to the mixer. */
  class RealtimePlayer {
    const handler: KeyboardHandler
    const bar: ProgressBar
    var position: real
    var isPlaying: bool
    var isPaused: bool
    var playbackStart: Option<real>
    var plays: seq<real>

    /** The position and every start given to the mixer are never negative. */
    ghost predicate Valid()
      reads this
    {
      position >= 0.0 && forall i :: 0 <= i < |plays| ==> plays[i] >= 0.0
    }

    /** __init__ (playrec.py:127-146), with a 50-cell progress bar and the default bindings. */
    constructor ()
      ensures Valid()
      ensures position == 0.0 && !isPlaying && !isPaused && playbackStart.None? && plays == []
      ensures fresh(handler) && fresh(bar)
      ensures handler.callbacks == DefaultBindings() && !handler.running
      ensures bar.width == 50 && bar.lastDisplay == []
    {
      var h := new KeyboardHandler();
      h.AddCallback("left", SeekBackward);
      h.AddCallback("right", SeekForward);
      h.AddCallback("space", TogglePause);
      h.AddCallback("quit", Quit);
      handler := h;
      bar := new ProgressBar(50);
      position := 0.0;
      isPlaying := false;
      isPaused := false;
      playbackStart := None;
      plays := [];
    }

    /**
     * _restart_playback_at_position (playrec.py:185-203): plays from the clamped position,
     * keeps that position, and sets the start time so that the clock reads it.
     */
    method Restart(fileSize: nat, now: real)
      requires Valid()
      modifies this
      ensures Valid()
      ensures position == RestartPoint(old(position), fileSize)
      ensures plays == old(plays) + [position]
      ensures playbackStart == Some(now - position)
      ensures isPlaying == old(isPlaying) && isPaused == old(isPaused)
    {
      RestartClamps(position, fileSize);
      var actual := MinReal(position, MaxReal(0.0, BytesToSeconds(fileSize) - 1.0));
      plays := plays + [actual];
      if actual != position {
        position := actual;
      }
      playbackStart := Some(now - position);
    }

    /** _seek_backward (playrec.py:148-153): ten seconds back, not before the start. */
    method SeekBack(fileSize: nat, now: real)
      requires Valid()
      modifies this
      ensures Valid()
      ensures position == RestartPoint(MaxReal(0.0, old(position) - 10.0), fileSize)
      ensures plays == old(plays) + [position] && playbackStart == Some(now - position)
      ensures isPlaying == old(isPlaying) && isPaused == old(isPaused)
    {
      position := MaxReal(0.0, position - 10.0);
      Restart(fileSize, now);
    }

    /** _seek_forward (playrec.py:155-161): ten seconds on, clamped by the restart. */
    method SeekAhead(fileSize: nat, now: real)
      requires Valid()
      modifies this
      ensures Valid()
      ensures position == RestartPoint(old(position) + 10.0, fileSize)
      ensures plays == old(plays) + [position] && playbackStart == Some(now - position)
      ensures isPlaying == old(isPlaying) && isPaused == old(isPaused)
    {
      position := position + 10.0;
      Restart(fileSize, now);
    }

    /** _toggle_pause (playrec.py:163-173): flips the pause only while the mixer is busy. */
    method Pause(busy: bool)
      modifies this
      ensures isPaused == (if busy then !old(isPaused) else old(isPaused))
      ensures position == old(position) && plays == old(plays) && playbackStart == old(playbackStart)
      ensures isPlaying == old(isPlaying)
    {
      if busy {
        isPaused := !isPaused;
      }
    }

    /** stop (playrec.py:226-231): playback ends and the key handler stops. */
    method Stop()
      modifies this, handler
      ensures !isPlaying && !handler.running && handler.callbacks == old(handler.callbacks)
      ensures position == old(position) && plays == old(plays) && isPaused == old(isPaused)
      ensures playbackStart == old(playbackStart)
    {
      isPlaying := false;
      handler.Stop();
    }

    /** start (playrec.py:205-224) once the file exists: playing, with the key handler running. */
    method Start() returns (ok: bool)
      modifies this, handler
      ensures ok && isPlaying && handler.running && handler.callbacks == old(handler.callbacks)
      ensures position == old(position) && plays == old(plays) && isPaused == old(isPaused)
      ensures playbackStart == old(playbackStart)
    {
      isPlaying := true;
      handler.Start();
      ok := true;
    }

    /**
     * One key press in _listen_loop (playrec.py:54-58): the key is decoded and its bound
     * command, if any, runs; an unbound key changes nothing.
     */
    method HandleKey(c: Option<char>, follow: string, fileSize: nat, now: real, busy: bool)
      returns (ran: Option<Command>)
      requires Valid()
      modifies this, handler
      ensures Valid()
      ensures ran == old(handler.Lookup(GetKey(c, follow)))
      ensures ran.None? ==>
        && position == old(position) && plays == old(plays) && isPaused == old(isPaused)
        && isPlaying == old(isPlaying) && playbackStart == old(playbackStart)
      ensures ran == Some(SeekBackward) ==> position == RestartPoint(MaxReal(0.0, old(position) - 10.0), fileSize)
      ensures ran == Some(SeekForward) ==> position == RestartPoint(old(position) + 10.0, fileSize)
      ensures ran == Some(SeekBackward) || ran == Some(SeekForward) ==>
        && plays == old(plays) + [position] && playbackStart == Some(now - position)
        && isPlaying == old(isPlaying) && isPaused == old(isPaused)
      ensures ran == Some(TogglePause) ==>
        && isPaused == (if busy then !old(isPaused) else old(isPaused))
        && position == old(position) && plays == old(plays) && playbackStart == old(playbackStart)
        && isPlaying == old(isPlaying)
      ensures ran == Some(Quit) ==>
        && !isPlaying && !handler.running
        && position == old(position) && plays == old(plays) && playbackStart == old(playbackStart)
        && isPaused == old(isPaused)
      ensures ran != Some(Quit) ==> handler.running == old(handler.running)
      ensures handler.callbacks == old(handler.callbacks)
    {
      var key := GetKey(c, follow);
      ran := handler.Lookup(key);
      if ran == Some(SeekBackward) {
        SeekBack(fileSize, now);
      } else if ran == Some(SeekForward) {
        SeekAhead(fileSize, now);
      } else if ran == Some(TogglePause) {
        Pause(busy);
      } else if ran == Some(Quit) {
        Stop();
      }
    }

    /**
     * The start check of a turn (playrec.py:263-272): an idle, unpaused mixer is started, from
     * one second before the end if the position is at or past the recorded length.
     */
    method StartIfIdle(t: Tick) returns (didStart: bool)
      requires Valid()
      modifies this
      ensures Valid()
      ensures didStart <==> !t.busy && !old(isPaused)
      ensures didStart ==> position == StartPoint(old(position), t)
      ensures didStart ==> plays == old(plays) + [position] && playbackStart == Some(t.restartAt - position)
      ensures !didStart ==> position == old(position) && plays == old(plays) && playbackStart == old(playbackStart)
      ensures isPlaying == old(isPlaying) && isPaused == old(isPaused)
    {
      didStart := false;
      if !t.busy && !isPaused {
        var recorded := BytesToSeconds(t.startSize);
        if position >= recorded {
          position := MaxReal(0.0, recorded - 1.0);
        }
        Restart(t.restartSize, t.restartAt);
        didStart := true;
      }
    }

    /**
     * The progress step of a turn (playrec.py:274-281): while the mixer plays, the position
     * follows the clock once it is more than a second ahead, and the bar is redrawn.
     */
    method ShowProgress(size: nat, now: real, busy: bool)
      requires Valid()
      modifies this, bar
      ensures Valid()
      ensures plays == old(plays) && playbackStart == old(playbackStart)
      ensures isPlaying == old(isPlaying) && isPaused == old(isPaused)
      ensures position ==
        if Truthy(playbackStart) && busy && !isPaused && now - playbackStart.value > old(position) + 1.0
        then now - playbackStart.value else old(position)
      ensures Truthy(playbackStart) && busy && size > 0 ==>
        bar.lastDisplay == StatusLine(bar.width, BytesToSeconds(size), position)
      ensures !(Truthy(playbackStart) && busy && size > 0) ==> bar.lastDisplay == old(bar.lastDisplay)
    {
      if Truthy(playbackStart) && busy {
        var recorded := BytesToSeconds(size);
        var elapsed := now - playbackStart.value;
        if !isPaused && elapsed > position + 1.0 {
          position := elapsed;
        }
        bar.Update(recorded, position);
      }
    }

    /**
     * One turn of _playback_loop (playrec.py:242-290) after the growth record `g`: the new
     * record, the seconds since the last growth, and whether the turn started the mixer.
     */
    method Turn(t: Tick, g: Growth) returns (next: Growth, since: real, didStart: bool)
      requires Valid()
      modifies this, bar
      ensures Valid()
      ensures next == Grow(g, t) && since == t.now - next.changedAt
      ensures didStart <==> Starts(t, old(isPaused))
      ensures isPlaying == old(isPlaying) && isPaused == old(isPaused)
      ensures |plays| == |old(plays)| + (if didStart then 1 else 0) && plays[..|old(plays)|] == old(plays)
      ensures !(t.present && t.size >= 1024) ==>
        && position == old(position) && plays == old(plays) && playbackStart == old(playbackStart)
        && bar.lastDisplay == old(bar.lastDisplay)
      ensures t.present && t.size >= 1024 ==>
        var from := if didStart then StartPoint(old(position), t) else old(position);
        var clock := if didStart then Some(t.restartAt - from) else old(playbackStart);
        var follows := Truthy(clock) && t.busyAfter;
        && plays == old(plays) + (if didStart then [from] else [])
        && playbackStart == clock
        && position == (if follows && !isPaused && t.now - clock.value > from + 1.0 then t.now - clock.value else from)
        && (!follows ==> bar.lastDisplay == old(bar.lastDisplay))
        // the redrawn line, stated for the recorded length so that it is unfolded only where asked for
        && (follows ==> forall recorded :: recorded == BytesToSeconds(t.size) ==>
              bar.lastDisplay == StatusLine(bar.width, recorded, position))
    {
      next := Grow(g, t);
      since := t.now - next.changedAt;
      didStart := false;
      if !t.present || t.size < 1024 {
        return;
      }
      didStart := StartIfIdle(t);
      ShowProgress(t.size, t.now, t.busyAfter);
    }

    /**
     * _playback_loop (playrec.py:233-294), one tick per turn, from the clock reading `t0`. It
     * ends at the first turn that saw at least 1024 bytes and no growth for more than ten
     * seconds, or when the ticks run out; `started` lists the turns that started the mixer.
     */
    method PlaybackLoop(t0: real, ticks: seq<Tick>) returns (ended: Option<nat>, lastSize: nat, started: seq<nat>)
      requires Valid()
      modifies this, bar
      ensures Valid()
      ensures isPlaying == old(isPlaying) && isPaused == old(isPaused)
      ensures !isPlaying ==> ended.None? && lastSize == 0 && started == [] && plays == old(plays)
      ensures isPlaying ==> ended == FirstEnd(ticks, t0, 0)
      ensures isPlaying && ended.Some? ==> lastSize == Track(ticks[..ended.value + 1], t0).size
      ensures isPlaying && ended.None? ==> lastSize == Track(ticks, t0).size
      ensures |plays| == |old(plays)| + |started| && plays[..|old(plays)|] == old(plays)
      ensures isPlaying ==>
        started == StartingTurns(ticks, if ended.Some? then ended.value + 1 else |ticks|, isPaused)
    {
      ended := None;
      started := [];
      var g := Growth(0, t0);
      var i := 0;
      while isPlaying && i < |ticks|
        invariant Valid()
        invariant 0 <= i <= |ticks|
        invariant isPlaying == old(isPlaying) && isPaused == old(isPaused)
        invariant !isPlaying ==> i == 0 && plays == old(plays) && started == []
        invariant g == Track(ticks[..i], t0)
        invariant FirstEnd(ticks, t0, 0) == FirstEnd(ticks, t0, i)
        invariant |plays| == |old(plays)| + |started| && plays[..|old(plays)|] == old(plays)
        invariant isPlaying ==> started == StartingTurns(ticks, i, isPaused)
        decreases |ticks| - i
      {
        TrackStep(ticks, t0, i);
        ghost var before := plays;
        var since, didStart;
        g, since, didStart := Turn(ticks[i], g);
        assert plays[..|before|] == before;
        assert g == Track(ticks[..i + 1], t0);
        if didStart {
          started := started + [i];
        }
        assert isPlaying ==> started == StartingTurns(ticks, i + 1, isPaused);
        if ticks[i].present && ticks[i].size >= 1024 && since > 10.0 {
          assert EndsAt(ticks, t0, i);
          ended := Some(i);
          lastSize := g.size;
          return;
        }
        i := i + 1;
      }
      lastSize := g.size;
      if isPlaying {
        assert ticks[..i] == ticks;
      }
    }
  }
}

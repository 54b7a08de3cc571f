/**
 * show_status.py: the status viewer that reads the scheduler's status file. It formats
 * durations and timestamps, lists the active, queued and the last ten completed recordings, and
 * returns the process exit code.
 */
module ShowStatus {
  import opened Wrappers
  import opened Text
  import opened ScheduleParse
  import opened Schedule

  // ---------------------------------------------------------------- format_duration

  /** A duration split as format_duration splits it, on floats with floor division. */
  datatype Span = Span(hours: int, minutes: int, secs: int)

  /**
   * int(seconds // 3600), int((seconds % 3600) // 60) and int(seconds % 60), where `//` is
   * the floor of the quotient and `%` the remainder with the divisor's sign.
   */
  function SplitDuration(seconds: real): (s: Span)
    ensures 0 <= s.minutes < 60 && 0 <= s.secs < 60
    ensures s.hours * 3600 + s.minutes * 60 + s.secs == seconds.Floor
    ensures s.hours > 0 <==> seconds >= 3600.0
    ensures s.hours == 0 && s.minutes > 0 <==> 60.0 <= seconds < 3600.0
  {
    var h := (seconds / 3600.0).Floor;
    var rest := seconds - 3600.0 * h as real;
    var m := (rest / 60.0).Floor;
    var s := (seconds - 60.0 * (seconds / 60.0).Floor as real).Floor;
    FloorSplit(seconds);
    Span(h, m, s)
  }

  /** The float arithmetic of format_duration agrees with whole-number division of the floor. */
  lemma FloorSplit(x: real)
    ensures var n := x.Floor;
      && (x / 3600.0).Floor == n / 3600
      && ((x - 3600.0 * (x / 3600.0).Floor as real) / 60.0).Floor == (n % 3600) / 60
      && (x - 60.0 * (x / 60.0).Floor as real).Floor == n % 60
  {
    var n := x.Floor;
    QuotientFloor(x, 3600);
    QuotientFloor(x, 60);
    var h := n / 3600;
    var r := n % 3600;
    var rest := x - 3600.0 * h as real;
    assert r as real <= rest < r as real + 1.0;
    assert rest.Floor == r;
    QuotientFloor(rest, 60);
    var m := n / 60;
    var t := x - 60.0 * m as real;
    assert (n % 60) as real <= t < (n % 60) as real + 1.0;
  }

  /** format_duration (show_status.py:22-33). */
  function FormatDuration(seconds: real): string
  {
    var s := SplitDuration(seconds);
    var secsText := IntToString(s.secs) + "s";
    if s.hours > 0 then IntToString(s.hours) + "h " + (IntToString(s.minutes) + "m " + secsText)
    else if s.minutes > 0 then IntToString(s.minutes) + "m " + secsText
    else secsText
  }

  /** The number of leading digits of `s`. */
  function DigitRun(s: string): (k: nat)
    ensures k <= |s| && AllDigits(s[..k])
    ensures k == |s| || !IsDigit(s[k])
  {
    if s != [] && IsDigit(s[0]) then
      var k := 1 + DigitRun(s[1..]);
      assert forall i :: 1 <= i < k ==> s[..k][i] == s[1..][..k - 1][i - 1];
      k
    else 0
  }

  /** A number rendered and followed by a non-digit is read back whole. */
  lemma DigitRunOfNumber(n: nat, rest: string)
    requires rest == [] || !IsDigit(rest[0])
    ensures var s := NatToString(n) + rest;
      DigitRun(s) == |NatToString(n)| && s[..DigitRun(s)] == NatToString(n) && s[DigitRun(s)..] == rest
  {
    var d := NatToString(n);
    var s := d + rest;
    assert forall i :: 0 <= i < |d| ==> s[i] == d[i];
    assert |d| == |s| || s[|d|] == rest[0];
  }

  /** The "<number><unit>" fields of a duration text, separated by single spaces. */
  function Fields(s: string): Option<seq<(nat, char)>>
    decreases |s|
  {
    var k := DigitRun(s);
    if k == 0 || k == |s| then None
    else if k + 1 == |s| then Some([(ParseNat(s[..k]), s[k])])
    else if s[k + 1] != ' ' then None
    else
      var rest := Fields(s[k + 2..]);
      if rest.None? then None else Some([(ParseNat(s[..k]), s[k])] + rest.value)
  }

  /** The seconds a list of "<number><unit>" fields stands for, when they are "h m s", "m s" or "s". */
  function DurationOf(v: seq<(nat, char)>): Option<int>
  {
    if |v| == 1 && v[0].1 == 's' then Some(v[0].0)
    else if |v| == 2 && v[0].1 == 'm' && v[1].1 == 's' then Some(v[0].0 * 60 + v[1].0)
    else if |v| == 3 && v[0].1 == 'h' && v[1].1 == 'm' && v[2].1 == 's' then
      Some(v[0].0 * 3600 + v[1].0 * 60 + v[2].0)
    else None
  }

  /** Reads "Hh Mm Ss", "Mm Ss" or "Ss" back as a number of seconds. */
  function ParseDuration(s: string): Option<int>
  {
    var f := Fields(s);
    if f.None? then None else DurationOf(f.value)
  }

  /** The last field: a number and its unit letter. */
  lemma LastField(x: string, n: nat, u: char)
    requires !IsDigit(u) && x == NatToString(n) + [u]
    ensures Fields(x) == Some([(n, u)])
  {
    DigitRunOfNumber(n, [u]);
    NatToStringRoundTrip(n);
  }

  /** A field followed by a space and the remaining fields. */
  lemma NextField(x: string, n: nat, unit: string, rest: string, tail: seq<(nat, char)>)
    requires |unit| == 2 && !IsDigit(unit[0]) && unit[1] == ' '
    requires x == NatToString(n) + unit + rest
    requires Fields(rest) == Some(tail)
    ensures Fields(x) == Some([(n, unit[0])] + tail)
  {
    assert x == NatToString(n) + (unit + rest);
    DigitRunOfNumber(n, unit + rest);
    NatToStringRoundTrip(n);
    var k := DigitRun(x);
    assert x[k + 2..] == rest;
  }

  /** The fields of format_duration's text: hours, minutes and seconds as far as they are shown. */
  lemma DurationFields(seconds: real)
    requires seconds >= 0.0
    ensures var sp := SplitDuration(seconds);
      Fields(FormatDuration(seconds)) ==
        if sp.hours > 0 then Some([(sp.hours as nat, 'h'), (sp.minutes as nat, 'm'), (sp.secs as nat, 's')])
        else if sp.minutes > 0 then Some([(sp.minutes as nat, 'm'), (sp.secs as nat, 's')])
        else Some([(sp.secs as nat, 's')])
  {
    var sp := SplitDuration(seconds);
    var x := FormatDuration(seconds);
    var secsText := NatToString(sp.secs) + "s";
    assert IntToString(sp.secs) == NatToString(sp.secs);
    assert IntToString(sp.minutes) == NatToString(sp.minutes);
    LastField(secsText, sp.secs, 's');
    if sp.hours > 0 {
      var rest := NatToString(sp.minutes) + "m " + secsText;
      assert IntToString(sp.hours) == NatToString(sp.hours);
      assert x == NatToString(sp.hours) + "h " + rest;
      NextField(rest, sp.minutes, "m ", secsText, [(sp.secs, 's')]);
      assert [(sp.minutes as nat, 'm')] + [(sp.secs as nat, 's')] == [(sp.minutes as nat, 'm'), (sp.secs as nat, 's')];
      NextField(x, sp.hours, "h ", rest, [(sp.minutes, 'm'), (sp.secs, 's')]);
      assert [(sp.hours as nat, 'h')] + [(sp.minutes as nat, 'm'), (sp.secs as nat, 's')]
          == [(sp.hours as nat, 'h'), (sp.minutes as nat, 'm'), (sp.secs as nat, 's')];
    } else if sp.minutes > 0 {
      assert x == NatToString(sp.minutes) + "m " + secsText;
      NextField(x, sp.minutes, "m ", secsText, [(sp.secs, 's')]);
      assert [(sp.minutes as nat, 'm')] + [(sp.secs as nat, 's')] == [(sp.minutes as nat, 'm'), (sp.secs as nat, 's')];
    } else {
      assert x == secsText;
    }
  }

  /**
   * format_duration keeps the whole seconds: for a non-negative duration, reading the text
   * back gives its floor.
   */
  lemma FormatDurationRoundTrip(seconds: real)
    requires seconds >= 0.0
    ensures ParseDuration(FormatDuration(seconds)) == Some(seconds.Floor)
  {
    var sp := SplitDuration(seconds);
    DurationFields(seconds);
    assert sp.hours * 3600 + sp.minutes * 60 + sp.secs == seconds.Floor;
  }

  // ---------------------------------------------------------------- format_time

  /** The fields strftime('%Y-%m-%d %H:%M:%S') prints. */
  datatype DateTime = DateTime(year: nat, month: nat, day: nat, hour: nat, minute: nat, second: nat)

  /** Every field fits its printed width. */
  predicate Printable(d: DateTime)
  {
    d.year < 10000 && d.month < 100 && d.day < 100 && d.hour < 100 && d.minute < 100 && d.second < 100
  }

  /** strftime's layout: the six fields with '-', ' ' and ':' between them. */
  function Stamp(y: string, mo: string, d: string, h: string, mi: string, se: string): string
  {
    y + "-" + mo + "-" + d + " " + h + ":" + mi + ":" + se
  }

  /** With a four-digit year and two-digit fields, each field sits at its fixed place. */
  lemma StampFields(y: string, mo: string, d: string, h: string, mi: string, se: string)
    requires |y| == 4 && |mo| == 2 && |d| == 2 && |h| == 2 && |mi| == 2 && |se| == 2
    ensures var r := Stamp(y, mo, d, h, mi, se);
      && |r| == 19 && r[4] == '-' && r[7] == '-' && r[10] == ' ' && r[13] == ':' && r[16] == ':'
      && r[..4] == y && r[5..7] == mo && r[8..10] == d && r[11..13] == h && r[14..16] == mi && r[17..] == se
  {
    var date := y + "-" + mo + "-" + d;
    var time := h + ":" + mi + ":" + se;
    assert Stamp(y, mo, d, h, mi, se) == date + " " + time;
    assert date[..4] == y && date[5..7] == mo && date[8..] == d;
    assert time[..2] == h && time[3..5] == mi && time[6..] == se;
  }

  /**
   * format_time (show_status.py:14-20). `parsed` is what datetime.fromisoformat makes of the
   * text, or None when it raises.
   */
  function FormatTime(iso: string, parsed: Option<DateTime>): (r: string)
    ensures parsed.None? ==> r == iso
    ensures parsed.Some? && Printable(parsed.value) ==>
      && |r| == 19 && r[4] == '-' && r[7] == '-' && r[10] == ' ' && r[13] == ':' && r[16] == ':'
      && AllDigits(r[..4]) && AllDigits(r[5..7]) && AllDigits(r[8..10])
      && AllDigits(r[11..13]) && AllDigits(r[14..16]) && AllDigits(r[17..])
      && ParseNat(r[..4]) == parsed.value.year && ParseNat(r[5..7]) == parsed.value.month
      && ParseNat(r[8..10]) == parsed.value.day && ParseNat(r[11..13]) == parsed.value.hour
      && ParseNat(r[14..16]) == parsed.value.minute && ParseNat(r[17..]) == parsed.value.second
  {
    if parsed.None? then iso
    else
      var d := parsed.value;
      var y, mo, dd, h, mi, se := ZeroPad(d.year, 4), Pad2(d.month), Pad2(d.day), Pad2(d.hour), Pad2(d.minute), Pad2(d.second);
      if Printable(d) then
        StampFields(y, mo, dd, h, mi, se);
        Stamp(y, mo, dd, h, mi, se)
      else Stamp(y, mo, dd, h, mi, se)
  }

  // ---------------------------------------------------------------- show_status

  /** What the status file holds: absent, unreadable (with the error), or the snapshot it stores. */
  datatype StatusFile = Missing | Unreadable(error: string) | Loaded(status: Status)

  /** Which line about the local file a successful record gets. */
  datatype Storage = DeletedNote | BackedUpNote | FileNote(filename: string)

  /** How one completed record is listed. */
  datatype Entry =
    | SuccessEntry(title: string, storage: Storage, uploaded: bool, uploadError: Option<string>)
    | FailureEntry(title: string, error: string)

  /** What show_status prints in substance, and its exit code. */
  datatype View = View(code: int, active: nat, queued: nat, completed: nat, listed: seq<Entry>)

  /** The storage line of a successful record (show_status.py:114-121): deleted, else backed up, else the file. */
  function StorageOf(c: Completion): Storage
    requires c.Finished?
  {
    if c.deleted then DeletedNote else if c.backedUp then BackedUpNote else FileNote(c.filename)
  }

  /** rec.get('error'): the stored message, shown as "None" when it is null. */
  function ErrorText(c: Completion): string
  {
    if c.Crashed? then c.message else if c.error.Some? then c.error.value else "None"
  }

  /** How a record is listed (show_status.py:101-125). */
  function EntryOf(c: Completion): Entry
  {
    if c.Finished? && c.success then
      SuccessEntry(c.title, StorageOf(c), c.uploaded,
                   if c.uploadError.Some? && c.uploadError.value != "" then c.uploadError else None)
    else FailureEntry(c.title, ErrorText(c))
  }

  /** show_status (show_status.py:35-136). */
  function ShowStatus(file: StatusFile): (r: View)
    ensures r.code == 0 <==> file.Loaded?
    ensures r.code != 0 ==> r.code == 1 && r.listed == []
    ensures file.Loaded? ==>
      && r.active == |file.status.active| && r.queued == |file.status.queued|
      && r.completed == |file.status.completed|
      && |r.listed| == (if r.completed < 10 then r.completed else 10)
      && forall i :: 0 <= i < |r.listed| ==>
           r.listed[i] == EntryOf(file.status.completed[r.completed - |r.listed| + i])
  {
    match file
    case Missing => View(1, 0, 0, 0, [])
    case Unreadable(_) => View(1, 0, 0, 0, [])
    case Loaded(st) =>
      var shown := Latest(st.completed, 10);
      View(0, |st.active|, |st.queued|, |st.completed|, seq(|shown|, i requires 0 <= i < |shown| => EntryOf(shown[i])))
  }

  /**
   * Read from the scheduler's own snapshot, the viewer counts every active and queued
   * recording, at most the 20 completions the snapshot keeps, and lists the latest ten of
   * them, newest last.
   */
  lemma ViewOfSnapshot(reg: Registry)
    ensures var r := ShowStatus(Loaded(reg.Snapshot()));
      && r.code == 0
      && r.active == |reg.active| && r.queued == |reg.queued|
      && r.completed <= 20 && r.completed <= |reg.completed|
      && |r.listed| == (if |reg.completed| < 10 then |reg.completed| else 10)
      && (|reg.completed| > 0 ==> r.listed[|r.listed| - 1] == EntryOf(reg.completed[|reg.completed| - 1]))
  {
    var s := reg.Snapshot();
    var r := ShowStatus(Loaded(s));
    if |reg.completed| > 0 {
      assert s.completed[|s.completed| - 1] == reg.completed[|reg.completed| - 1];
    }
  }

  /**
   * For a record the scheduler wrote, the viewer says the local file was deleted only for an
   * uploaded recording, says it was moved to backup only after a failed upload, and names the
   * file exactly when it is still where it was recorded.
   */
  lemma StorageNoteIsTruthful(info: Recording, startedAt: int, endedAt: int, run: RecorderRun, env: PostEnv)
    requires CompletionFor(info, startedAt, endedAt, run, env).Finished?
    requires CompletionFor(info, startedAt, endedAt, run, env).success
    ensures var c := CompletionFor(info, startedAt, endedAt, run, env);
      && (StorageOf(c) == DeletedNote ==> c.uploaded && env.upload.Uploaded?)
      && (StorageOf(c) == BackedUpNote ==> !c.uploaded && env.upload.UploadFailed? && env.backupConfigured)
      && (StorageOf(c).FileNote? <==> !c.deleted && !c.backedUp)
      && (StorageOf(c).FileNote? ==> StorageOf(c).filename == info.filename)
  {
    PostRecordingConsistent(run.report.success, env);
  }
}

/**
 * The pure part of the calendar scheduler in schedule_recordings.py: turning a calendar event
 * into a recording request (safe file name, stream URL, extension, duration), the event's id,
 * and resolving a calendar name to its id.
 */
module ScheduleParse {
  import opened Wrappers
  import opened Text
  import opened Paths

  // ---------------------------------------------------------------- _sanitize_filename

  /** The characters of the class [<>:"/\\|?*]. */
  predicate Forbidden(c: char)
  {
    c in "<>:\"/\\|?*"
  }

  predicate StripChar(c: char)
  {
    c == '.' || c == '_'
  }

  predicate NoForbidden(s: string)
  {
    forall i :: 0 <= i < |s| ==> !Forbidden(s[i])
  }

  predicate NoSpace(s: string)
  {
    forall i :: 0 <= i < |s| ==> !IsSpace(s[i])
  }

  /** Neither a forbidden character nor whitespace anywhere. */
  predicate Clean(s: string)
  {
    NoForbidden(s) && NoSpace(s)
  }

  /** re.sub(r'[<>:"/\\|?*]', '_', title). */
  function Substitute(s: string): (r: string)
    ensures |r| == |s| && NoForbidden(r)
    ensures forall i :: 0 <= i < |s| && Forbidden(s[i]) ==> r[i] == '_'
    ensures forall i :: 0 <= i < |s| && !Forbidden(s[i]) ==> r[i] == s[i]
    ensures NoForbidden(s) ==> r == s
  {
    seq(|s|, i requires 0 <= i < |s| => if Forbidden(s[i]) then '_' else s[i])
  }

  /** The characters of `s` that are neither whitespace nor '_', in order. */
  function Visible(s: string): string
  {
    if s == [] then []
    else if IsSpace(s[0]) || s[0] == '_' then Visible(s[1..])
    else [s[0]] + Visible(s[1..])
  }

  /** What follows the leading whitespace of `s`. */
  function DropSpaces(s: string): (r: string)
    ensures |r| <= |s| && r == s[|s| - |r|..]
    ensures r == [] || !IsSpace(r[0])
    ensures NoForbidden(s) ==> NoForbidden(r)
    ensures Visible(r) == Visible(s)
  {
    if s != [] && IsSpace(s[0]) then DropSpaces(s[1..]) else s
  }

  /** Dropping the first character keeps a text free of forbidden characters and whitespace. */
  lemma TailKeepsClean(s: string)
    requires s != []
    ensures NoForbidden(s) ==> NoForbidden(s[1..])
    ensures NoSpace(s) ==> NoSpace(s[1..]) && s == [s[0]] + s[1..]
  {
  }

  /** Putting an allowed, non-blank character in front keeps a text free of both. */
  lemma ConsKeepsClean(c: char, t: string)
    ensures !Forbidden(c) && NoForbidden(t) ==> NoForbidden([c] + t)
    ensures !IsSpace(c) && NoSpace(t) ==> NoSpace([c] + t)
    ensures Visible([c] + t) == if IsSpace(c) || c == '_' then Visible(t) else [c] + Visible(t)
  {
    assert ([c] + t)[1..] == t;
    assert forall i :: 1 <= i < |[c] + t| ==> ([c] + t)[i] == t[i - 1];
  }

  /** re.sub(r'\s+', '_', s): every maximal run of whitespace becomes one underscore. */
  function CollapseSpaces(s: string): (r: string)
    ensures |r| <= |s|
    ensures Visible(r) == Visible(s)
    ensures NoSpace(r)
    ensures NoForbidden(s) ==> NoForbidden(r)
    ensures NoSpace(s) ==> r == s
    decreases |s|
  {
    if s == [] then []
    else
      TailKeepsClean(s);
      if IsSpace(s[0]) then
        var rest := CollapseSpaces(DropSpaces(s[1..]));
        ConsKeepsClean('_', rest);
        ['_'] + rest
      else
        var rest := CollapseSpaces(s[1..]);
        ConsKeepsClean(s[0], rest);
        [s[0]] + rest
  }

  /** Where str.strip('._') starts: after the leading dots and underscores. */
  function StripStart(s: string): (k: nat)
    ensures k <= |s|
    ensures forall i :: 0 <= i < k ==> StripChar(s[i])
    ensures k == |s| || !StripChar(s[k])
  {
    if s != [] && StripChar(s[0]) then 1 + StripStart(s[1..]) else 0
  }

  /** Where str.strip('._') ends: before the trailing dots and underscores of s[k..]. */
  function StripEnd(s: string, k: nat): (e: nat)
    requires k <= |s|
    ensures k <= e <= |s|
    ensures forall i :: e <= i < |s| ==> StripChar(s[i])
    ensures e == k || !StripChar(s[e - 1])
    decreases |s|
  {
    if |s| > k && StripChar(s[|s| - 1]) then StripEnd(s[..|s| - 1], k) else |s|
  }

  /** s.strip('._'): the longest middle part that neither starts nor ends with '.' or '_'. */
  function Strip(s: string): (r: string)
    ensures |r| <= |s|
    ensures r != [] ==> !StripChar(r[0]) && !StripChar(r[|r| - 1])
    ensures var k := StripStart(s);
      && k + |r| <= |s| && r == s[k..k + |r|]
      && (forall i :: 0 <= i < k ==> StripChar(s[i]))
      && (forall i :: k + |r| <= i < |s| ==> StripChar(s[i]))
    ensures Clean(s) ==> Clean(r)
  {
    var k := StripStart(s);
    var r := s[k..StripEnd(s, k)];
    assert forall i :: 0 <= i < |r| ==> r[i] == s[k + i];
    assert r == s[k..k + |r|];
    r
  }

  /** _sanitize_filename (schedule_recordings.py:317-323): substitute, collapse, strip, cut to 50. */
  function SanitizeFilename(title: string): (r: string)
    ensures |r| <= 50
    ensures Clean(r)
    ensures r != [] ==> !StripChar(r[0])
  {
    var s := Strip(CollapseSpaces(Substitute(title)));
    if |s| <= 50 then s else s[..50]
  }

  /** A title that is already a safe file name. */
  predicate SafeTitle(t: string)
  {
    && |t| <= 50
    && Clean(t)
    && (t != [] ==> !StripChar(t[0]) && !StripChar(t[|t| - 1]))
  }

  /** Sanitising leaves an already safe title exactly as it is. */
  lemma SanitizeKeepsSafeTitles(t: string)
    requires SafeTitle(t)
    ensures SanitizeFilename(t) == t
  {
    assert Substitute(t) == t;
    assert StripStart(t) == 0;
    assert StripEnd(t, 0) == |t|;
  }

  // ---------------------------------------------------------------- _get_stream_url

  /** Meeting links that mark an event as not a broadcast (schedule_recordings.py:288-292). */
  const SkipMarkers: seq<string> := ["teams.microsoft.com", "zoom.us", "meet.google.com", "aka.ms/jointeamsmeeting"]

  /**
   * One of the URL patterns: `https?://[^\s]*<marker>[^\s]*`, or `https?://<marker>[^\s]*`
   * for the one that anchors its marker right after the scheme.
   */
  datatype UrlPattern = Anywhere(marker: string) | AfterScheme(marker: string)

  /** streaming_patterns, in the order they are tried (schedule_recordings.py:295-303). */
  const UrlPatterns: seq<UrlPattern> := [
    Anywhere(".m3u8"), Anywhere(".mp3"), Anywhere("stream"), Anywhere("radio"),
    AfterScheme("ice."), Anywhere(":8000"), Anywhere(":80")]

  const BassdriveUrl := "http://ice.bassdrive.net:80/stream"
  const DnbradioUrl := "http://dnbradio.co.uk:8000/dnbradio_main.mp3"

  /** self.stream_patterns, in insertion order (schedule_recordings.py:97-101). */
  const StreamKeywords: seq<(string, string)> := [
    ("bassdrive", BassdriveUrl), ("dnbradio", DnbradioUrl), ("default", BassdriveUrl)]

  /** The end of "https://" or "http://" at index i of the lowered text. */
  function SchemeEnd(low: string, i: int): (b: Option<nat>)
    ensures b.Some? ==> i + 7 <= b.value <= |low|
  {
    if OccursAt(low, "https://", i) then Some(i + 8)
    else if OccursAt(low, "http://", i) then Some(i + 7)
    else None
  }

  /** The pattern matches `text` at index i (case-insensitively); the match ends at MatchEnd. */
  predicate MatchesAt(text: string, p: UrlPattern, i: int)
  {
    var low := Lower(text);
    SchemeEnd(low, i).Some? &&
    var b := SchemeEnd(low, i).value;
    match p
    case AfterScheme(m) => OccursAt(low, m, b)
    case Anywhere(m) =>
      var k := FindFrom(low, m, b);
      k.Some? && k.value + |m| <= RunEnd(text, b)
  }

  /** A match runs to the end of the non-whitespace run it starts in. */
  function MatchEnd(text: string, i: int): (e: nat)
    requires SchemeEnd(Lower(text), i).Some?
    ensures 0 <= i <= e <= |text|
  {
    RunEnd(text, SchemeEnd(Lower(text), i).value)
  }

  /**
   * An `Anywhere` match at i is exactly a scheme at i followed, within the same
   * non-whitespace run, by an occurrence of the marker.
   */
  lemma AnywhereMatchIff(text: string, m: string, i: int)
    requires SchemeEnd(Lower(text), i).Some?
    ensures var b := SchemeEnd(Lower(text), i).value;
      MatchesAt(text, Anywhere(m), i) <==>
      exists k :: b <= k && k + |m| <= RunEnd(text, b) && OccursAt(Lower(text), m, k)
  {
    var low := Lower(text);
    var b := SchemeEnd(low, i).value;
    var e := RunEnd(text, b);
    if k :| b <= k && k + |m| <= e && OccursAt(low, m, k) {
      var f := FindFrom(low, m, b);
      assert f.Some? && f.value <= k;
    }
  }

  /** The leftmost index at or after i where the pattern matches: re.findall(...)[0]. */
  function FirstMatch(text: string, p: UrlPattern, i: nat): (r: Option<nat>)
    requires i <= |text|
    ensures r.Some? ==> i <= r.value && MatchesAt(text, p, r.value)
    ensures r.Some? ==> forall j :: i <= j < r.value ==> !MatchesAt(text, p, j)
    ensures r.None? ==> forall j :: i <= j ==> !MatchesAt(text, p, j)
    decreases |text| - i
  {
    if MatchesAt(text, p, i) then Some(i)
    else if i == |text| then None
    else FirstMatch(text, p, i + 1)
  }

  /** The text of the leftmost match of `p`, if any. */
  function FindUrl(text: string, p: UrlPattern): (r: Option<string>)
    ensures r.Some? <==> exists i :: MatchesAt(text, p, i)
  {
    match FirstMatch(text, p, 0)
    case None => None
    case Some(i) => Some(text[i..MatchEnd(text, i)])
  }

  /** The patterns tried in order; the first one that matches anywhere decides. */
  function TryPatterns(text: string, pats: seq<UrlPattern>): Option<string>
  {
    if pats == [] then None
    else
      var u := FindUrl(text, pats[0]);
      if u.Some? then u else TryPatterns(text, pats[1..])
  }

  /**
   * TryPatterns finds nothing exactly when no pattern matches, and otherwise returns the
   * leftmost match of the first pattern that matches at all.
   */
  lemma {:induction false} TryPatternsFirst(text: string, pats: seq<UrlPattern>)
    ensures TryPatterns(text, pats).None? <==> forall k :: 0 <= k < |pats| ==> FindUrl(text, pats[k]).None?
    ensures TryPatterns(text, pats).Some? ==> exists k :: (0 <= k < |pats| &&
      TryPatterns(text, pats) == FindUrl(text, pats[k]) &&
      forall j :: 0 <= j < k ==> FindUrl(text, pats[j]).None?)
  {
    if pats != [] && FindUrl(text, pats[0]).None? {
      TryPatternsFirst(text, pats[1..]);
      var r := TryPatterns(text, pats[1..]);
      if r.Some? {
        var k :| 0 <= k < |pats[1..]| && r == FindUrl(text, pats[1..][k]) &&
          forall j :: 0 <= j < k ==> FindUrl(text, pats[1..][j]).None?;
        assert r == FindUrl(text, pats[k + 1]);
        forall j | 0 < j < k + 1 ensures FindUrl(text, pats[j]).None? {
          assert pats[j] == pats[1..][j - 1];
        }
      } else {
        forall k | 0 < k < |pats| ensures FindUrl(text, pats[k]).None? {
          assert pats[k] == pats[1..][k - 1];
        }
      }
    }
  }

  /** The first keyword that occurs in the lowered text gives its URL. */
  function TryKeywords(low: string, kws: seq<(string, string)>): Option<string>
  {
    if kws == [] then None
    else if Contains(low, kws[0].0) then Some(kws[0].1)
    else TryKeywords(low, kws[1..])
  }

  /** TryKeywords returns the URL of the first keyword in the text, and nothing if none is. */
  lemma {:induction false} TryKeywordsFirst(low: string, kws: seq<(string, string)>)
    ensures TryKeywords(low, kws).None? <==> forall k :: 0 <= k < |kws| ==> !Contains(low, kws[k].0)
    ensures TryKeywords(low, kws).Some? ==> exists k :: (0 <= k < |kws| && Contains(low, kws[k].0) &&
      TryKeywords(low, kws).value == kws[k].1 && forall j :: 0 <= j < k ==> !Contains(low, kws[j].0))
  {
    if kws != [] && !Contains(low, kws[0].0) {
      TryKeywordsFirst(low, kws[1..]);
      var r := TryKeywords(low, kws[1..]);
      if r.Some? {
        var k :| 0 <= k < |kws[1..]| && Contains(low, kws[1..][k].0) && r.value == kws[1..][k].1 &&
          forall j :: 0 <= j < k ==> !Contains(low, kws[1..][j].0);
        assert kws[k + 1] == kws[1..][k];
        forall j | 0 < j < k + 1 ensures !Contains(low, kws[j].0) {
          assert kws[j] == kws[1..][j - 1];
        }
      } else {
        forall k | 0 < k < |kws| ensures !Contains(low, kws[k].0) {
          assert kws[k] == kws[1..][k - 1];
        }
      }
    }
  }

  /**
   * With no meeting marker and no URL pattern matching, the keywords decide in the order
   * bassdrive, dnbradio, default, and nothing is found without any of them.
   */
  lemma KeywordFallback(location: string, description: string)
    requires var text := location + " " + description;
      !Skipped(Lower(text)) && forall k :: 0 <= k < |UrlPatterns| ==> FindUrl(text, UrlPatterns[k]).None?
    ensures var low := Lower(location + " " + description);
      var r := GetStreamUrl(location, description);
      && (Contains(low, "bassdrive") ==> r == Some(BassdriveUrl))
      && (!Contains(low, "bassdrive") && Contains(low, "dnbradio") ==> r == Some(DnbradioUrl))
      && (!Contains(low, "bassdrive") && !Contains(low, "dnbradio") && Contains(low, "default") ==> r == Some(BassdriveUrl))
      && (!Contains(low, "bassdrive") && !Contains(low, "dnbradio") && !Contains(low, "default") ==> r.None?)
  {
    var text := location + " " + description;
    TryPatternsFirst(text, UrlPatterns);
    TryKeywordsFirst(Lower(text), StreamKeywords);
    assert StreamKeywords[0].0 == "bassdrive" && StreamKeywords[1].0 == "dnbradio";
    assert StreamKeywords[2] == ("default", BassdriveUrl);
  }

  /** The lowered text mentions a meeting service. */
  predicate Skipped(low: string)
  {
    exists k :: 0 <= k < |SkipMarkers| && Contains(low, SkipMarkers[k])
  }

  /**
   * _get_stream_url (schedule_recordings.py:284-315). `location` is already lower-cased by the
   * caller; the patterns match case-insensitively and the match keeps the text's own case.
   */
  function GetStreamUrl(location: string, description: string): (r: Option<string>)
    ensures var text := location + " " + description;
      && (Skipped(Lower(text)) ==> r.None?)
      && (!Skipped(Lower(text)) && TryPatterns(text, UrlPatterns).Some? ==> r == TryPatterns(text, UrlPatterns))
      && (!Skipped(Lower(text)) && TryPatterns(text, UrlPatterns).None? ==> r == TryKeywords(Lower(text), StreamKeywords))
  {
    var text := location + " " + description;
    var low := Lower(text);
    if exists k :: 0 <= k < |SkipMarkers| && Contains(low, SkipMarkers[k]) then None
    else
      var u := TryPatterns(text, UrlPatterns);
      if u.Some? then u else TryKeywords(low, StreamKeywords)
  }

  /** The scheme a match starts with holds no whitespace. */
  lemma SchemeHasNoSpace(text: string, i: int)
    requires SchemeEnd(Lower(text), i).Some?
    ensures forall j :: i <= j < SchemeEnd(Lower(text), i).value ==> !IsSpace(text[j])
  {
    var low := Lower(text);
    var b := SchemeEnd(low, i).value;
    forall j | i <= j < b
      ensures !IsSpace(text[j])
    {
      if OccursAt(low, "https://", i) {
        assert low[j] == "https://"[j - i];
      } else {
        assert low[j] == "http://"[j - i];
      }
      assert low[j] == LowerChar(text[j]);
    }
  }

  /** The text of a match starts with an http or https scheme, ignoring case. */
  lemma MatchStartsWithScheme(text: string, i: int)
    requires SchemeEnd(Lower(text), i).Some?
    ensures var u := text[i..MatchEnd(text, i)];
      StartsWith(Lower(u), "http://") || StartsWith(Lower(u), "https://")
  {
    var low := Lower(text);
    var e := MatchEnd(text, i);
    LowerSlice(text, i, e);
    if OccursAt(low, "https://", i) {
      assert low[i..e][..8] == low[i..i + 8];
    } else {
      assert low[i..e][..7] == low[i..i + 7];
    }
  }

  /** The text of a match holds no whitespace. */
  lemma MatchHasNoSpace(text: string, i: int)
    requires SchemeEnd(Lower(text), i).Some?
    ensures var u := text[i..MatchEnd(text, i)];
      forall k :: 0 <= k < |u| ==> !IsSpace(u[k])
  {
    SchemeHasNoSpace(text, i);
    var b := SchemeEnd(Lower(text), i).value;
    var e := MatchEnd(text, i);
    forall k | 0 <= k < e - i
      ensures !IsSpace(text[i..e][k])
    {
      assert text[i..e][k] == text[i + k];
    }
  }

  /** The text of a match starts with an http or https scheme and holds no whitespace. */
  lemma MatchShape(text: string, p: UrlPattern, i: int)
    requires MatchesAt(text, p, i)
    ensures var u := text[i..MatchEnd(text, i)];
      && (StartsWith(Lower(u), "http://") || StartsWith(Lower(u), "https://"))
      && forall k :: 0 <= k < |u| ==> !IsSpace(u[k])
  {
    MatchStartsWithScheme(text, i);
    MatchHasNoSpace(text, i);
  }

  /**
   * Whatever URL is found is a whole non-whitespace run of the event text starting with an
   * http or https scheme, or one of the fixed keyword URLs.
   */
  lemma StreamUrlShape(location: string, description: string)
    ensures var r := GetStreamUrl(location, description);
      r.Some? ==>
        || r.value == BassdriveUrl || r.value == DnbradioUrl
        || (&& (StartsWith(Lower(r.value), "http://") || StartsWith(Lower(r.value), "https://"))
            && forall k :: 0 <= k < |r.value| ==> !IsSpace(r.value[k]))
  {
    var text := location + " " + description;
    var r := GetStreamUrl(location, description);
    var u := TryPatterns(text, UrlPatterns);
    TryPatternsFirst(text, UrlPatterns);
    if r.Some? && u.Some? && r == u {
      var k :| 0 <= k < |UrlPatterns| && u == FindUrl(text, UrlPatterns[k]) &&
        forall j :: 0 <= j < k ==> FindUrl(text, UrlPatterns[j]).None?;
      var i := FirstMatch(text, UrlPatterns[k], 0).value;
      MatchShape(text, UrlPatterns[k], i);
    } else if r.Some? {
      TryKeywordsFirst(Lower(text), StreamKeywords);
      assert StreamKeywords[0].1 == BassdriveUrl && StreamKeywords[1].1 == DnbradioUrl;
      assert StreamKeywords[2].1 == BassdriveUrl;
    }
  }

  /**
   * A stream URL is found in preference to the keyword fallback, and an HLS (".m3u8") link
   * wins over every other link, wherever it stands in the text.
   */
  lemma HlsLinkWins(location: string, description: string, i: nat)
    requires !Skipped(Lower(location + " " + description))
    requires MatchesAt(location + " " + description, Anywhere(".m3u8"), i)
    ensures GetStreamUrl(location, description).Some?
    ensures FirstMatch(location + " " + description, Anywhere(".m3u8"), 0).Some?
    ensures var text := location + " " + description;
      var j := FirstMatch(text, Anywhere(".m3u8"), 0).value;
      GetStreamUrl(location, description) == Some(text[j..MatchEnd(text, j)])
  {
    var text := location + " " + description;
    assert UrlPatterns[0] == Anywhere(".m3u8");
    assert FindUrl(text, UrlPatterns[0]).Some?;
    assert TryPatterns(text, UrlPatterns) == FindUrl(text, UrlPatterns[0]);
  }

  // ---------------------------------------------------------------- parse_event_for_recording

  /** The local calendar fields strftime("%Y%m%d_%H%M") reads. */
  datatype Civil = Civil(year: nat, month: nat, day: nat, hour: nat, minute: nat)

  /**
   * An event's `dateTime`: the RFC 3339 text, and what fromisoformat and astimezone make of it
   * (seconds since the epoch, local fields, and the local isoformat()).
   */
  datatype Instant = Instant(text: string, epoch: int, local: Civil, localIso: string)

  /** A calendar event; None stands for a missing key (a `dateTime` that is empty counts as missing). */
  datatype Event = Event(
    id: Option<string>,
    summary: Option<string>,
    start: Option<Option<Instant>>,
    end: Option<Option<Instant>>,
    location: Option<string>,
    description: Option<string>)

  /** The dictionary parse_event_for_recording returns (plus the `event_id` its caller adds). */
  datatype Recording = Recording(
    title: string,
    start: Instant,
    end: Instant,
    durationMinutes: int,
    streamUrl: string,
    filename: string,
    location: string,
    description: string,
    eventId: Option<string>)

  /** strftime("%Y%m%d_%H%M"). */
  function StampText(c: Civil): string
  {
    ZeroPad(c.year, 4) + Pad2(c.month) + Pad2(c.day) + "_" + Pad2(c.hour) + Pad2(c.minute)
  }

  /** int(seconds / 60): whole minutes, truncated toward zero. */
  function DurationMinutes(seconds: int): (m: int)
    ensures seconds >= 0 ==> 0 <= m && m * 60 <= seconds < m * 60 + 60
    ensures seconds < 0 ==> m <= 0 && m * 60 - 60 < seconds <= m * 60
  {
    if seconds >= 0 then seconds / 60 else -((-seconds) / 60)
  }

  /** ".m4a" for an HLS playlist, ".mp3" for everything else. */
  function ExtensionFor(url: string): (ext: string)
    ensures ext == ".m4a" <==> Contains(Lower(url), ".m3u8")
    ensures ext == ".m4a" || ext == ".mp3"
  {
    if Contains(Lower(url), ".m3u8") then ".m4a" else ".mp3"
  }

  function OrEmpty(s: Option<string>): string
  {
    if s.Some? then s.value else ""
  }

  /** parse_event_for_recording (schedule_recordings.py:225-282). */
  function ParseEventForRecording(outputPath: string, e: Event): (r: Option<Recording>)
    ensures r.Some? <==>
      && e.start.Some? && e.summary.Some?
      && e.start.value.Some? && e.end.Some? && e.end.value.Some?
      && GetStreamUrl(Lower(OrEmpty(e.location)), OrEmpty(e.description)).Some?
    ensures r.Some? ==>
      var name := SanitizeFilename(r.value.title) + "_" + StampText(r.value.start.local) + ExtensionFor(r.value.streamUrl);
      && r.value.title == e.summary.value
      && r.value.start == e.start.value.value && r.value.end == e.end.value.value
      && Some(r.value.streamUrl) == GetStreamUrl(Lower(OrEmpty(e.location)), OrEmpty(e.description))
      && r.value.location == OrEmpty(e.location) && r.value.description == OrEmpty(e.description)
      && r.value.filename == Join(outputPath, name)
      && EndsWith(r.value.filename, name)
      && r.value.durationMinutes == DurationMinutes(r.value.end.epoch - r.value.start.epoch)
      && r.value.eventId.None?
  {
    if e.start.None? || e.summary.None? then None
    else if e.start.value.None? || e.end.None? || e.end.value.None? then None
    else
      var start := e.start.value.value;
      var end := e.end.value.value;
      var title := e.summary.value;
      var description := OrEmpty(e.description);
      var url := GetStreamUrl(Lower(OrEmpty(e.location)), description);
      if url.None? then None
      else
        var name := SanitizeFilename(title) + "_" + StampText(start.local) + ExtensionFor(url.value);
        Some(Recording(title, start, end, DurationMinutes(end.epoch - start.epoch), url.value,
                       Join(outputPath, name), OrEmpty(e.location), description, None))
  }

  predicate NoSlash(s: string)
  {
    forall k :: 0 <= k < |s| ==> s[k] != '/'
  }

  lemma NoSlashConcat(a: string, b: string)
    requires NoSlash(a) && NoSlash(b)
    ensures NoSlash(a + b)
  {
    forall k | 0 <= k < |a + b| ensures (a + b)[k] != '/' {
      if k >= |a| {
        assert (a + b)[k] == b[k - |a|];
      }
    }
  }

  lemma StampHasNoSlash(c: Civil)
    ensures NoSlash(StampText(c))
  {
    var y, mo, d, h, mi := ZeroPad(c.year, 4), Pad2(c.month), Pad2(c.day), Pad2(c.hour), Pad2(c.minute);
    assert NoSlash(y) && NoSlash(mo) && NoSlash(d) && NoSlash(h) && NoSlash(mi) && NoSlash("_");
    NoSlashConcat(y, mo);
    NoSlashConcat(y + mo, d);
    NoSlashConcat(y + mo + d, "_");
    NoSlashConcat(y + mo + d + "_", h);
    NoSlashConcat(y + mo + d + "_" + h, mi);
  }

  /** A sanitised title holds no '/', since '/' is one of the substituted characters. */
  lemma SafeNameHasNoSlash(title: string)
    ensures NoSlash(SanitizeFilename(title))
  {
    var safe := SanitizeFilename(title);
    assert forall k :: 0 <= k < |safe| ==> !Forbidden(safe[k]);
  }

  /**
   * The file name parse_event_for_recording builds from an event's title, local start and
   * stream URL is a plain name: joined to the output directory, its base name is that name, so
   * the recording's file sits directly in the output directory.
   */
  lemma RecordingFileInOutputDir(outputPath: string, title: string, local: Civil, url: string)
    ensures var name := SanitizeFilename(title) + "_" + StampText(local) + ExtensionFor(url);
      Basename(Join(outputPath, name)) == name
  {
    var ext := ExtensionFor(url);
    var safe := SanitizeFilename(title);
    var stamp := StampText(local);
    SafeNameHasNoSlash(title);
    StampHasNoSlash(local);
    assert NoSlash(ext) by {
      assert ext == ".m4a" || ext == ".mp3";
    }
    NoSlashConcat(safe, "_");
    NoSlashConcat(safe + "_", stamp);
    NoSlashConcat(safe + "_" + stamp, ext);
    BasenameOfJoin(outputPath, safe + "_" + stamp + ext);
  }

  // ---------------------------------------------------------------- _get_event_id

  /**
   * _get_event_id (schedule_recordings.py:325-327): the event's own id, or summary and start
   * text joined by '_'. The caller has already seen the `start` key.
   */
  function GetEventId(e: Event): (r: string)
    requires e.start.Some?
    ensures e.id.Some? ==> r == e.id.value
    ensures e.id.None? ==>
      var title := if e.summary.Some? then e.summary.value else "unknown";
      var when := if e.start.value.Some? then e.start.value.value.text else "";
      StartsWith(r, title) && |r| == |title| + 1 + |when| && r[|title|] == '_' && r[|title| + 1..] == when
  {
    if e.id.Some? then e.id.value
    else
      var title := if e.summary.Some? then e.summary.value else "unknown";
      var when := if e.start.value.Some? then e.start.value.value.text else "";
      assert (title + "_" + when)[..|title|] == title;
      title + "_" + when
  }

  /** Two events without ids and with the same summary but different start texts get different ids. */
  lemma EventIdsSeparateStarts(e1: Event, e2: Event)
    requires e1.start.Some? && e2.start.Some? && e1.id.None? && e2.id.None?
    requires e1.summary == e2.summary
    requires e1.start.value.Some? && e2.start.value.Some?
    requires e1.start.value.value.text != e2.start.value.value.text
    ensures GetEventId(e1) != GetEventId(e2)
  {
    var t := if e1.summary.Some? then e1.summary.value else "unknown";
    var a := e1.start.value.value.text;
    var b := e2.start.value.value.text;
    assert GetEventId(e1)[|t| + 1..] == a;
    assert GetEventId(e2)[|t| + 1..] == b;
  }

  // ---------------------------------------------------------------- resolve_calendar_id

  /** One entry of calendarList().list(): `summary` and `id` may be missing. */
  datatype Calendar = Calendar(summary: Option<string>, id: Option<string>)

  /** calendar.get('summary', ''), lowered. */
  function SummaryOf(c: Calendar): string
  {
    Lower(OrEmpty(c.summary))
  }

  predicate ExactMatch(c: Calendar, name: string)
  {
    SummaryOf(c) == Lower(name)
  }

  predicate PartialMatch(c: Calendar, name: string)
  {
    Contains(SummaryOf(c), Lower(name))
  }

  /** The first calendar at or after `i` whose summary equals the name, ignoring case. */
  function FirstExact(cals: seq<Calendar>, name: string, i: nat): (r: Option<nat>)
    requires i <= |cals|
    ensures r.Some? ==> i <= r.value < |cals| && ExactMatch(cals[r.value], name)
    ensures r.Some? ==> forall j :: i <= j < r.value ==> !ExactMatch(cals[j], name)
    ensures r.None? ==> forall j :: i <= j < |cals| ==> !ExactMatch(cals[j], name)
    decreases |cals| - i
  {
    if i == |cals| then None
    else if ExactMatch(cals[i], name) then Some(i)
    else FirstExact(cals, name, i + 1)
  }

  /** The first calendar at or after `i` whose summary contains the name, ignoring case. */
  function FirstPartial(cals: seq<Calendar>, name: string, i: nat): (r: Option<nat>)
    requires i <= |cals|
    ensures r.Some? ==> i <= r.value < |cals| && PartialMatch(cals[r.value], name)
    ensures r.Some? ==> forall j :: i <= j < r.value ==> !PartialMatch(cals[j], name)
    ensures r.None? ==> forall j :: i <= j < |cals| ==> !PartialMatch(cals[j], name)
    decreases |cals| - i
  {
    if i == |cals| then None
    else if PartialMatch(cals[i], name) then Some(i)
    else FirstPartial(cals, name, i + 1)
  }

  /** calendar['id'], where a missing id raises into the handler that returns the name itself. */
  function IdOrName(c: Calendar, name: string): string
  {
    if c.id.Some? then c.id.value else name
  }

  /**
   * resolve_calendar_id (schedule_recordings.py:140-182). `listing` is what the calendar list
   * call returns, or the error it raises.
   */
  function ResolveCalendarId(name: string, listing: Result<seq<Calendar>>): (r: Option<string>)
    ensures Contains(name, "@") || name == "primary" || listing.Err? ==> r == Some(name)
    ensures !Contains(name, "@") && name != "primary" && listing.Ok? ==>
      (r.None? <==> forall j :: 0 <= j < |listing.value| ==> !PartialMatch(listing.value[j], name))
  {
    if Contains(name, "@") || name == "primary" then Some(name)
    else if listing.Err? then Some(name)
    else
      var cals := listing.value;
      match FirstExact(cals, name, 0)
      case Some(i) =>
        ExactIsPartial(cals[i], name);
        Some(IdOrName(cals[i], name))
      case None =>
        match FirstPartial(cals, name, 0)
        case Some(i) => Some(IdOrName(cals[i], name))
        case None => None
  }

  /**
   * Without an exact match anywhere, the first calendar whose summary contains the name wins
   * (schedule_recordings.py:161-167), and only when no summary contains it is the answer None.
   */
  lemma FirstPartialWins(name: string, cals: seq<Calendar>, i: nat)
    requires !Contains(name, "@") && name != "primary"
    requires forall j :: 0 <= j < |cals| ==> !ExactMatch(cals[j], name)
    requires i < |cals| && PartialMatch(cals[i], name)
    requires forall j :: 0 <= j < i ==> !PartialMatch(cals[j], name)
    ensures ResolveCalendarId(name, Ok(cals)) == Some(IdOrName(cals[i], name))
  {
    var e := FirstExact(cals, name, 0);
    assert e.None?;
    var f := FirstPartial(cals, name, 0);
    assert f == Some(i);
  }

  /** An exact match is contained in the summary: the partial search finds whatever the exact one does. */
  lemma ExactIsPartial(c: Calendar, name: string)
    requires ExactMatch(c, name)
    ensures PartialMatch(c, name)
  {
    var s := SummaryOf(c);
    assert OccursAt(s, Lower(name), 0);
    ContainsIff(s, Lower(name));
  }

  /**
   * The first calendar whose summary equals the name wins, even over an earlier calendar whose
   * summary only contains it; without exact match the first partial match wins.
   */
  lemma ExactMatchPreferred(name: string, cals: seq<Calendar>, i: nat)
    requires !Contains(name, "@") && name != "primary"
    requires i < |cals| && ExactMatch(cals[i], name)
    requires forall j :: 0 <= j < i ==> !ExactMatch(cals[j], name)
    ensures ResolveCalendarId(name, Ok(cals)) == Some(IdOrName(cals[i], name))
  {
    var f := FirstExact(cals, name, 0);
    assert f.Some?;
  }
}

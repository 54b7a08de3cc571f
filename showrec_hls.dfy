/**
 * The decision logic of showrec_hls.py: which backend records, how its exit status becomes the
 * result, and the remux step that rewrites the finished file through a temporary copy.
 * Probing for streamlink and ffmpeg, the child processes and their exit codes are inputs.
 */
module ShowrecHls {
  import opened Wrappers
  import opened Text
  import opened Paths

  // ---------------------------------------------------------------- backend selection

  /** What check_streamlink() and check_ffmpeg() report. */
  datatype Probes = Probes(streamlink: bool, ffmpeg: bool)

  datatype Backend = StreamlinkBackend | FfmpegBackend

  /** A backend to record with, or the error message of a run that never starts. */
  datatype Choice = Use(backend: Backend) | Refuse(error: string)

  /** The `method` argument resolved against the probes (showrec_hls.py:449-509). */
  function Choose(name: string, tools: Probes): (c: Choice)
    ensures c == Use(StreamlinkBackend) <==>
      (name == "auto" || name == "streamlink") && tools.streamlink
    ensures c == Use(FfmpegBackend) <==>
      tools.ffmpeg && (name == "ffmpeg" || (name == "auto" && !tools.streamlink))
    ensures name == "auto" && !tools.streamlink && !tools.ffmpeg ==>
      c == Refuse("Neither streamlink nor ffmpeg found!")
    ensures name == "streamlink" && !tools.streamlink ==> c == Refuse("streamlink not found!")
    ensures name == "ffmpeg" && !tools.ffmpeg ==> c == Refuse("ffmpeg not found!")
    ensures name != "auto" && name != "streamlink" && name != "ffmpeg" ==>
      c == Refuse("Unknown method '" + name + "'")
  {
    if name == "auto" && !tools.streamlink && !tools.ffmpeg then
      Refuse("Neither streamlink nor ffmpeg found!")
    else
      var m := if name == "auto" then (if tools.streamlink then "streamlink" else "ffmpeg") else name;
      if m == "streamlink" then
        if tools.streamlink then Use(StreamlinkBackend) else Refuse("streamlink not found!")
      else if m == "ffmpeg" then
        if tools.ffmpeg then Use(FfmpegBackend) else Refuse("ffmpeg not found!")
      else Refuse("Unknown method '" + name + "'")
  }

  /** How the recording child process ended. */
  datatype ChildEnd = Exited(code: int) | Interrupted | Raised(message: string)

  /**
   * record_with_streamlink and record_with_ffmpeg return True exactly when the child exits
   * with code 0; a keyboard interrupt or an exception is a failure.
   */
  function BackendSucceeded(e: ChildEnd): (ok: bool)
    ensures ok <==> e == Exited(0)
  {
    match e
    case Exited(code) => code == 0
    case Interrupted => false
    case Raised(_) => false
  }

  // ---------------------------------------------------------------- result

  /** The dictionary record_stream returns; the byte count stands for size_mb. */
  datatype HlsResult = HlsResult(success: bool, file: Option<string>, sizeBytes: nat, duration: int, error: Option<string>)

  /** The result of a run refused before any recording starts. */
  function RefusedResult(output: string, error: string): (r: HlsResult)
    ensures !r.success && r.file == Some(output) && r.sizeBytes == 0 && r.duration == 0
    ensures r.error == Some(error)
  {
    HlsResult(false, Some(output), 0, 0, Some(error))
  }

  /** The result after a backend ran (showrec_hls.py:524-530). */
  function FinalResult(success: bool, output: string, size: nat, duration: int): (r: HlsResult)
    ensures r.success == success
    ensures success ==> r.file == Some(output) && r.duration == duration && r.error.None? && r.sizeBytes == size
    ensures !success ==> r.file.None? && r.sizeBytes == 0 && r.duration == 0 && r.error == Some("Recording failed")
  {
    if success then HlsResult(true, Some(output), size, duration, None)
    else HlsResult(false, None, 0, 0, Some("Recording failed"))
  }

  // ---------------------------------------------------------------- file system

  /** The files on disk, by path. */
  class FileSystem {
    var files: map<string, seq<Byte>>

    constructor (initial: map<string, seq<Byte>>)
      ensures files == initial
    {
      files := initial;
    }

    /** A child process writes (or overwrites) a file. */
    method Write(path: string, data: seq<Byte>)
      modifies this
      ensures files == old(files)[path := data]
    {
      files := files[path := data];
    }

    /** os.remove; `ok` is false when it raises because the file is missing. */
    method Remove(path: string) returns (ok: bool)
      modifies this
      ensures ok == (path in old(files))
      ensures files == old(files) - {path}
    {
      ok := path in files;
      files := files - {path};
    }

    /** os.rename; `ok` is false when it raises because the source is missing. */
    method Rename(src: string, dst: string) returns (ok: bool)
      modifies this
      ensures ok == (src in old(files))
      ensures ok ==> files == (old(files) - {src})[dst := old(files)[src]]
      ensures !ok ==> files == old(files)
    {
      ok := src in files;
      if ok {
        files := (files - {src})[dst := files[src]];
      }
    }
  }

  // ---------------------------------------------------------------- fix_file_format

  /** How the `ffmpeg -i output -c copy -y temp` run ended, and what it left in the temp file. */
  datatype RemuxRun =
    | RemuxExit(code: int, written: Option<seq<Byte>>)
    | RemuxTimeout(written: Option<seq<Byte>>)   // subprocess.TimeoutExpired
    | RemuxRaised(written: Option<seq<Byte>>)    // any other exception

  /** Whether the fix succeeded, and the files afterwards. */
  datatype Fix = Fix(ok: bool, files: map<string, seq<Byte>>)

  /** "if os.path.exists(temp_file): os.remove(temp_file)". */
  function CleanUp(files: map<string, seq<Byte>>, temp: string): map<string, seq<Byte>>
  {
    if temp in files then files - {temp} else files
  }

  /**
   * fix_file_format with a given temporary path (showrec_hls.py:152-221): ffmpeg writes the
   * temporary file; on exit code 0 the original is removed and the temporary file renamed onto
   * it, and an exception on the way lands in the clean-up of the `except Exception` clause; any
   * other ending removes the temporary file if present.
   */
  function Remux(files: map<string, seq<Byte>>, output: string, temp: string, ffmpeg: bool, run: RemuxRun): Fix
  {
    if output !in files || !ffmpeg then Fix(false, files)
    else
      var written := if run.written.Some? then files[temp := run.written.value] else files;
      if run.RemuxExit? && run.code == 0 then
        if output !in written then Fix(false, CleanUp(written, temp))
        else
          var removed := written - {output};
          if temp in removed then Fix(true, (removed - {temp})[output := removed[temp]])
          else Fix(false, CleanUp(removed, temp))
      else Fix(false, CleanUp(written, temp))
  }

  /** output_file.replace('.m4a', '_fixed.m4a'), as showrec_hls.py:163 derives the temp path. */
  function TempPathAsWritten(output: string): string
  {
    ReplaceAll(output, ".m4a", "_fixed.m4a")
  }

  /** The temporary path: "_fixed" inserted before the extension, so never the output path. */
  function TempPath(output: string): (temp: string)
    ensures temp != output
    ensures |temp| == |output| + 6
  {
    var parts := SplitExt(output);
    parts.0 + "_fixed" + parts.1
  }

  /** Replacing in `s + pat`, where `pat` first occurs at the very end, rewrites just that end. */
  lemma {:induction false} ReplaceAtEnd(s: string, pat: string, rep: string)
    requires |pat| > 0
    requires forall i :: 0 <= i < |s| ==> !OccursAt(s + pat, pat, i)
    ensures ReplaceAll(s + pat, pat, rep) == s + rep
    decreases |s|
  {
    if s == [] {
      assert (s + pat)[..|pat|] == pat && (s + pat)[|pat|..] == [];
    } else {
      assert !OccursAt(s + pat, pat, 0);
      assert (s + pat)[1..] == s[1..] + pat;
      forall i | 0 <= i < |s[1..]|
        ensures !OccursAt(s[1..] + pat, pat, i)
      {
        assert !OccursAt(s + pat, pat, i + 1);
        assert (s + pat)[i + 1..i + 1 + |pat|] == (s[1..] + pat)[i..i + |pat|];
      }
      ReplaceAtEnd(s[1..], pat, rep);
      assert s == [s[0]] + s[1..];
    }
  }

  /**
   * For the paths the recorder is meant for, "<name>.m4a" with ".m4a" only at the end and a
   * name that does not end in '.' or '/', the corrected path is the one showrec_hls.py derives.
   */
  lemma TempPathAgrees(name: string)
    requires |name| > 0 && name[|name| - 1] != '.' && name[|name| - 1] != '/'
    requires forall i :: 0 <= i < |name| ==> !OccursAt(name + ".m4a", ".m4a", i)
    ensures TempPath(name + ".m4a") == TempPathAsWritten(name + ".m4a") == name + "_fixed.m4a"
  {
    var p := name + ".m4a";
    ReplaceAtEnd(name, ".m4a", "_fixed.m4a");
    var sep := RFind(p, '/');
    var dot := RFind(p, '.');
    assert p[|name|] == '.';
    assert dot == |name|;
    assert p[|name| - 1] == name[|name| - 1];
    assert sep < |name| - 1;
    assert HasNonDot(p, sep + 1, dot);
    assert SplitExt(p) == (name, ".m4a");
  }

  /**
   * What the remux step does to the recording (corrected temporary path): it succeeds exactly
   * when ffmpeg is there, exits 0 and a temporary file exists to be moved; then the output path
   * holds the remuxed bytes. Any other ending except an exit 0 that left no temporary file keeps
   * the original bytes. The temporary file never survives a run, and no other file changes.
   */
  lemma RemuxKeepsRecording(files: map<string, seq<Byte>>, output: string, ffmpeg: bool, run: RemuxRun)
    requires output in files
    ensures var temp := TempPath(output);
      var f := Remux(files, output, temp, ffmpeg, run);
      var exit0 := run.RemuxExit? && run.code == 0;
      && (f.ok <==> ffmpeg && exit0 && (run.written.Some? || temp in files))
      && (f.ok ==> output in f.files &&
                   f.files[output] == if run.written.Some? then run.written.value else files[temp])
      && (!(ffmpeg && exit0) ==> output in f.files && f.files[output] == files[output])
      && (ffmpeg ==> temp !in f.files)
      && (forall k :: k != output && k != temp ==>
            (k in f.files <==> k in files) && (k in files ==> f.files[k] == files[k]))
  {
  }

  /** With no lower-case ".m4a" in the output path, the as-written temporary path is the output. */
  lemma NoM4aMeansSamePath(output: string)
    requires !Contains(output, ".m4a")
    ensures TempPathAsWritten(output) == output
  {
    ReplaceAbsent(output, ".m4a", "_fixed.m4a");
  }

  /**
   * As written, an output path without a lower-case ".m4a" (say "show.M4A") makes the
   * temporary path the output path, and every way the ffmpeg run can end deletes the
   * recording: the clean-up removes the "temporary" file, or the rename after removing the
   * original finds nothing to move.
   */
  lemma AsWrittenDeletesRecording(files: map<string, seq<Byte>>, run: RemuxRun)
    requires "show.M4A" in files
    ensures "show.M4A" !in Remux(files, "show.M4A", TempPathAsWritten("show.M4A"), true, run).files
  {
    var out := "show.M4A";
    assert !Contains(out, ".m4a") by {
      ContainsIff(out, ".m4a");
      forall i | 0 <= i <= 4 ensures !OccursAt(out, ".m4a", i) {
        if i < 4 {
          assert out[i..i + 4][0] == out[i] != '.';
        } else {
          assert out[i..i + 4][1] == 'M';
        }
      }
    }
    NoM4aMeansSamePath(out);
  }

  // ---------------------------------------------------------------- record_stream

  /** fix_file_format with the corrected temporary path, proved against Remux. */
  method FixFileFormat(fs: FileSystem, output: string, ffmpeg: bool, run: RemuxRun) returns (ok: bool)
    modifies fs
    ensures Fix(ok, fs.files) == Remux(old(fs.files), output, TempPath(output), ffmpeg, run)
  {
    if output !in fs.files || !ffmpeg {
      return false;
    }
    var temp := TempPath(output);
    if run.written.Some? {
      fs.Write(temp, run.written.value);
    }
    ok := false;
    if run.RemuxExit? && run.code == 0 {
      var removed := fs.Remove(output);
      if removed {
        ok := fs.Rename(temp, output);
        if ok {
          return;
        }
      }
    }
    if temp in fs.files {
      var _ := fs.Remove(temp);
    }
  }

  /**
   * record_stream of showrec_hls.py (showrec_hls.py:449-530): choose a backend, let it write
   * the output file (`captured`: what it leaves there, if anything), remux a successful
   * recording, and build the result from the backend's verdict and the file's size. None
   * stands for the exception os.path.getsize raises when the remux lost the file.
   */
  method RecordStream(fs: FileSystem, output: string, duration: int, methodName: string,
                      tools: Probes, child: ChildEnd, captured: Option<seq<Byte>>, remux: RemuxRun)
    returns (r: Option<HlsResult>)
    modifies fs
    ensures Choose(methodName, tools).Refuse? ==>
      r == Some(RefusedResult(output, Choose(methodName, tools).error)) && fs.files == old(fs.files)
    ensures Choose(methodName, tools).Use? && r.Some? ==>
      r.value == FinalResult(BackendSucceeded(child), output,
                             if BackendSucceeded(child) && output in fs.files then |fs.files[output]| else 0,
                             duration)
    ensures r.None? ==> Choose(methodName, tools).Use? && BackendSucceeded(child)
    ensures Choose(methodName, tools).Use? ==>
      var left := if captured.Some? then old(fs.files)[output := captured.value] else old(fs.files);
      fs.files == if BackendSucceeded(child) && output in left
                  then Remux(left, output, TempPath(output), tools.ffmpeg, remux).files
                  else left
    ensures Choose(methodName, tools).Use? ==>
      var left := if captured.Some? then old(fs.files)[output := captured.value] else old(fs.files);
      (r.None? <==> BackendSucceeded(child) && output in left && output !in fs.files)
  {
    var choice := Choose(methodName, tools);
    if choice.Refuse? {
      return Some(RefusedResult(output, choice.error));
    }
    if captured.Some? {
      fs.Write(output, captured.value);
    }
    var success := BackendSucceeded(child);
    var size := 0;
    if success && output in fs.files {
      var fixed := FixFileFormat(fs, output, tools.ffmpeg, remux);
      if output !in fs.files {
        return None;
      }
      size := |fs.files[output]|;
    }
    r := Some(FinalResult(success, output, size, duration));
  }

  /**
   * A recording the backend has left on disk is still there after the remux, holding its own
   * bytes or ffmpeg's copy of them, as long as no stale temporary file lies around and ffmpeg
   * leaves its output whenever it exits 0.
   */
  lemma RecordingSurvives(files: map<string, seq<Byte>>, output: string, data: seq<Byte>, ffmpeg: bool, run: RemuxRun)
    requires TempPath(output) !in files
    requires run.RemuxExit? && run.code == 0 ==> run.written.Some?
    ensures var f := Remux(files[output := data], output, TempPath(output), ffmpeg, run).files;
      output in f && (f[output] == data || (run.written.Some? && f[output] == run.written.value))
  {
    RemuxKeepsRecording(files[output := data], output, ffmpeg, run);
  }
}

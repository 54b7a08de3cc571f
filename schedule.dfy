/**
 * The scheduler's bookkeeping in schedule_recordings.py: recordings move from `queued` to
 * `active` to the `completed` list, and the upload / delete / backup decision after a recording.
 * The threads, the lock and the clock are left out: each step is a sequential method call that
 * takes the current time as an argument.
 */
module Schedule {
  import opened Wrappers
  import opened Text
  import opened Paths
  import opened ScheduleParse

  /** A queued_recordings entry: the recording and when it was queued. */
  datatype Queued = Queued(info: Recording, queuedAt: int)

  /** An active_recordings entry: the recording and when it started (the thread is left out). */
  datatype Active = Active(info: Recording, startedAt: int)

  /** The dictionary a recorder returns; the byte count stands for size_mb. */
  datatype Report = Report(success: bool, sizeBytes: nat, duration: int, error: Option<string>)

  /** What calling the recorder did: returned its dictionary, or raised. */
  datatype RecorderRun = Returned(report: Report) | RecorderRaised(message: string)

  /** What drive_uploader.upload_file did. */
  datatype UploadOutcome = Uploaded | UploadFailed(error: string) | UploadRaised(message: string)

  /**
   * The environment of the post-recording step: whether an upload folder and an uploader are
   * both set (Python truthiness), whether a backup path is set, what the upload does, and
   * whether os.remove and os.rename succeed.
   */
  datatype PostEnv = PostEnv(
    uploaderConfigured: bool,
    backupConfigured: bool,
    upload: UploadOutcome,
    removeOk: bool,
    renameOk: bool)

  /** The flags the post-recording step leaves, or the exception that escaped it. */
  datatype Post =
    | Post(uploaded: bool, backedUp: bool, deleted: bool, uploadError: Option<string>)
    | PostRaised(message: string)

  /** One record of completed_recordings: the normal record, or the one the exception path writes. */
  datatype Completion =
    | Finished(title: string, filename: string, startedAt: int, endedAt: int, success: bool,
               sizeBytes: nat, duration: int, error: Option<string>,
               uploaded: bool, backedUp: bool, deleted: bool, uploadError: Option<string>)
    | Crashed(title: string, filename: string, startedAt: int, endedAt: int, message: string)

  /** The upload / delete / backup decision of _execute_recording (schedule_recordings.py:478-517). */
  function PostRecording(success: bool, env: PostEnv): Post
  {
    if success && env.uploaderConfigured then
      match env.upload
      case Uploaded => Post(true, false, env.removeOk, None)
      case UploadFailed(err) => Post(false, env.backupConfigured && env.renameOk, false, Some(err))
      case UploadRaised(m) => PostRaised(m)
    else Post(false, false, false, None)
  }

  /**
   * The flags never contradict each other: an upload happens only for a successful recording
   * with an uploader, the file is deleted only after an upload and backed up only after a
   * failed one with a backup path, so it is never both deleted and backed up.
   */
  lemma PostRecordingConsistent(success: bool, env: PostEnv)
    ensures var p := PostRecording(success, env);
      p.Post? ==>
        && (p.uploaded ==> success && env.uploaderConfigured && env.upload.Uploaded?)
        && (p.deleted ==> p.uploaded && env.removeOk)
        && (p.backedUp ==> !p.uploaded && env.backupConfigured && env.upload.UploadFailed? && env.renameOk)
        && !(p.deleted && p.backedUp)
        && (p.uploadError.Some? <==> success && env.uploaderConfigured && env.upload.UploadFailed?)
    ensures PostRecording(success, env).PostRaised? <==>
      success && env.uploaderConfigured && env.upload.UploadRaised?
  {
  }

  /** The record _execute_recording appends (schedule_recordings.py:519-538, schedule_recordings.py:552-567). */
  function CompletionFor(info: Recording, startedAt: int, endedAt: int, run: RecorderRun, env: PostEnv): Completion
  {
    match run
    case RecorderRaised(m) => Crashed(info.title, info.filename, startedAt, endedAt, m)
    case Returned(rep) =>
      match PostRecording(rep.success, env)
      case PostRaised(m) => Crashed(info.title, info.filename, startedAt, endedAt, m)
      case Post(up, back, del, err) =>
        Finished(info.title, info.filename, startedAt, endedAt, rep.success, rep.sizeBytes,
                 rep.duration, rep.error, up, back, del, err)
  }

  /** A completion keeps the recorder's verdict: a recording counts as successful only if it was one. */
  lemma CompletionKeepsVerdict(info: Recording, startedAt: int, endedAt: int, run: RecorderRun, env: PostEnv)
    ensures var c := CompletionFor(info, startedAt, endedAt, run, env);
      && c.title == info.title && c.filename == info.filename
      && (c.Finished? <==> run.Returned? && !(run.report.success && env.uploaderConfigured && env.upload.UploadRaised?))
      && (c.Finished? ==> c.success == run.report.success && c.sizeBytes == run.report.sizeBytes
                          && !(c.deleted && c.backedUp))
  {
    if run.Returned? {
      PostRecordingConsistent(run.report.success, env);
    }
  }

  /** The event id schedule_recording uses: the one its caller set, else "<title>_<isoformat>". */
  function EventIdOf(info: Recording): (id: string)
    ensures info.eventId.Some? ==> id == info.eventId.value
    ensures info.eventId.None? ==>
      && StartsWith(id, info.title)
      && |id| == |info.title| + 1 + |info.start.localIso|
      && id[|info.title|] == '_'
      && id[|info.title| + 1..] == info.start.localIso
  {
    if info.eventId.Some? then info.eventId.value
    else
      var id := info.title + "_" + info.start.localIso;
      assert id[..|info.title|] == info.title;
      assert id[|info.title| + 1..] == info.start.localIso;
      id
  }

  /**
   * The filename with the extension that matches the stream (schedule_recordings.py:396-407):
   * kept if it already ends with it, ignoring case; otherwise its last extension is replaced.
   */
  function FixExtension(filename: string, url: string): (r: string)
    ensures EndsWith(Lower(r), ExtensionFor(url))
    ensures EndsWith(Lower(filename), ExtensionFor(url)) ==> r == filename
    ensures !EndsWith(Lower(filename), ExtensionFor(url)) ==> r == SplitExt(filename).0 + ExtensionFor(url)
  {
    var ext := ExtensionFor(url);
    if EndsWith(Lower(filename), ext) then filename
    else
      var root := SplitExt(filename).0;
      LowerSlice(root + ext, |root|, |root + ext|);
      assert (root + ext)[|root|..] == ext;
      assert Lower(ext) == ext;
      root + ext
  }

  /** Fixing the extension twice is fixing it once. */
  lemma FixExtensionIdempotent(filename: string, url: string)
    ensures FixExtension(FixExtension(filename, url), url) == FixExtension(filename, url)
  {
  }

  /** The dictionary _update_status writes: both maps and at most the 20 latest completions. */
  datatype Status = Status(active: map<string, Active>, queued: map<string, Queued>, completed: seq<Completion>)

  /** completed_recordings[-20:]. */
  function Latest(s: seq<Completion>, n: nat): (r: seq<Completion>)
    ensures |r| <= n && |r| <= |s|
    ensures r == s[|s| - |r|..]
    ensures |s| <= n ==> r == s
    ensures |s| >= n ==> |r| == n
  {
    if |s| <= n then s else s[|s| - n..]
  }

  /** The scheduler's registry of recordings. */
  class Registry {
    var queued: map<string, Queued>
    var active: map<string, Active>
    var completed: seq<Completion>

    /** No event is both waiting and recording. */
    ghost predicate Valid()
      reads this
    {
      queued.Keys !! active.Keys
    }

    constructor ()
      ensures Valid()
      ensures queued == map[] && active == map[] && completed == []
    {
      queued := map[];
      active := map[];
      completed := [];
    }

    /**
     * schedule_recording (schedule_recordings.py:375-433): refuses an event that is already
     * queued or active, or that has already started; otherwise fixes the extension and, unless
     * it is a dry run, queues the event. `updated` is the recording as it stands afterwards.
     */
    method ScheduleRecording(info: Recording, now: int, dryRun: bool) returns (ok: bool, updated: Recording)
      requires Valid()
      modifies this
      ensures Valid()
      ensures var id := EventIdOf(info);
        ok <==> id !in old(queued) && id !in old(active) && now < info.start.epoch
      ensures active == old(active) && completed == old(completed)
      ensures !ok ==> queued == old(queued) && updated == info
      ensures ok ==> updated == info.(filename := FixExtension(info.filename, info.streamUrl))
      ensures ok && !dryRun ==> queued == old(queued)[EventIdOf(info) := Queued(updated, now)]
      ensures dryRun ==> queued == old(queued)
    {
      var id := EventIdOf(info);
      updated := info;
      if id in queued || id in active {
        return false, updated;
      }
      if info.start.epoch <= now {
        return false, updated;
      }
      updated := info.(filename := FixExtension(info.filename, info.streamUrl));
      if dryRun {
        return true, updated;
      }
      queued := queued[id := Queued(updated, now)];
      ok := true;
    }

    /** _wait_and_record once the start time has come (schedule_recordings.py:446-461). */
    method BeginRecording(id: string, info: Recording, now: int)
      requires Valid()
      modifies this
      ensures Valid()
      ensures queued == old(queued) - {id}
      ensures active == old(active)[id := Active(info, now)]
      ensures completed == old(completed)
    {
      queued := queued - {id};
      active := active[id := Active(info, now)];
    }

    /**
     * _execute_recording (schedule_recordings.py:467-567): on the normal path and on the
     * exception path alike the event leaves `active` and exactly one record is appended.
     */
    method FinishRecording(id: string, info: Recording, startedAt: int, endedAt: int, run: RecorderRun, env: PostEnv)
      requires Valid()
      modifies this
      ensures Valid()
      ensures active == old(active) - {id}
      ensures queued == old(queued)
      ensures completed == old(completed) + [CompletionFor(info, startedAt, endedAt, run, env)]
    {
      var record: Completion;
      if run.RecorderRaised? {
        record := Crashed(info.title, info.filename, startedAt, endedAt, run.message);
      } else {
        var rep := run.report;
        var post := PostRecording(rep.success, env);
        if post.PostRaised? {
          record := Crashed(info.title, info.filename, startedAt, endedAt, post.message);
        } else {
          record := Finished(info.title, info.filename, startedAt, endedAt, rep.success, rep.sizeBytes,
                             rep.duration, rep.error, post.uploaded, post.backedUp, post.deleted, post.uploadError);
        }
      }
      active := active - {id};
      completed := completed + [record];
    }

    /** The snapshot _update_status writes (schedule_recordings.py:329-364). */
    function Snapshot(): (s: Status)
      reads this
      ensures s.active == active && s.queued == queued
      ensures |s.completed| <= 20
      ensures |s.completed| <= |completed| && s.completed == completed[|completed| - |s.completed|..]
      ensures |completed| <= 20 ==> s.completed == completed
      ensures |completed| >= 20 ==> |s.completed| == 20
    {
      Status(active, queued, Latest(completed, 20))
    }
  }

  /**
   * One event's life: scheduled, started and finished, it is queued, then active, then gone
   * from both with its completion as the last record.
   */
  method Lifecycle(r: Registry, info: Recording, now: int, startAt: int, endAt: int, run: RecorderRun, env: PostEnv)
    returns (ok: bool)
    requires r.Valid()
    requires EventIdOf(info) !in r.queued && EventIdOf(info) !in r.active && now < info.start.epoch
    modifies r
    ensures ok
    ensures r.Valid()
    ensures EventIdOf(info) !in r.queued && EventIdOf(info) !in r.active
    ensures |r.completed| == |old(r.completed)| + 1 && r.completed[..|old(r.completed)|] == old(r.completed)
    ensures r.completed[|r.completed| - 1].title == info.title
  {
    var id := EventIdOf(info);
    var updated;
    ok, updated := r.ScheduleRecording(info, now, false);
    assert id in r.queued;
    r.BeginRecording(id, updated, startAt);
    assert id !in r.queued && id in r.active;
    r.FinishRecording(id, updated, startAt, endAt, run, env);
    CompletionKeepsVerdict(updated, startAt, endAt, run, env);
  }
}

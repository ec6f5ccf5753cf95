/**
 * The trim page of src/app/trim/page.tsx: accepting a media file, choosing a
 * start and an end with two sliders, previewing the selection, and handing
 * the ffmpeg engine a stream-copy trim of it.
 *
 * Times are whole centiseconds. The hidden `<audio>`/`<video>` element the
 * page previews through is modelled by its position (`mediaTime`) and whether
 * it is paused; it exists exactly while a file is loaded.
 */
module TrimPage {
  import opened Wrappers
  import opened JsText
  import opened Media
  import opened FfmpegTime
  import opened FfmpegDuration

  datatype Kind = Audio | Video

  const NotMediaMessage: string := "Please upload an audio or video file"
  const TooLargeMessage: string := "File is too large. Max 500MB."
  const TrimFailedMessage: string := "Trimming failed. Try again."

  /** What `handleFile` decides about a dropped or chosen file. */
  datatype Verdict = Accepted(kind: Kind) | Rejected(message: string)

  /**
   * The MIME type must start with `audio/` or `video/` (audio wins when both
   * would), then the size must be at most 500 MiB.
   */
  function Check(f: File): (v: Verdict)
    ensures v.Accepted? <==>
      (StartsWith(f.mimeType, "audio/") || StartsWith(f.mimeType, "video/")) && f.size <= MaxUploadBytes
    ensures v.Accepted? ==> (v.kind == Audio <==> StartsWith(f.mimeType, "audio/"))
    ensures !StartsWith(f.mimeType, "audio/") && !StartsWith(f.mimeType, "video/") ==> v == Rejected(NotMediaMessage)
    ensures (StartsWith(f.mimeType, "audio/") || StartsWith(f.mimeType, "video/")) && f.size > MaxUploadBytes ==>
      v == Rejected(TooLargeMessage)
  {
    var isAudio := StartsWith(f.mimeType, "audio/");
    var isVideo := StartsWith(f.mimeType, "video/");
    if !isAudio && !isVideo then Rejected(NotMediaMessage)
    else if f.size > MaxUploadBytes then Rejected(TooLargeMessage)
    else Accepted(if isAudio then Audio else Video)
  }

  // ---------------------------------------------------------------------------
  // Names, MIME type and arguments of a trim
  // ---------------------------------------------------------------------------

  /**
   * `name.substring(name.lastIndexOf("."))`, or `.mp3`/`.mp4` when that is
   * empty. Without a point the substring is the whole name, so the fallback
   * is only taken for an empty name.
   */
  function Extension(name: string, kind: Kind): (ext: string)
    ensures ext != []
    ensures name == [] ==> ext == (if kind == Audio then ".mp3" else ".mp4")
    ensures name != [] ==> ext == DotSuffix(name)
  {
    var e := DotSuffix(name);
    if e == [] then (if kind == Audio then ".mp3" else ".mp4") else e
  }

  /** `audio/` or `video/`, then the extension with its first point removed. */
  function MimeType(kind: Kind, ext: string): string {
    (if kind == Audio then "audio/" else "video/") + ReplaceFirst(ext, '.', "")
  }

  /** The MIME type's subtype is the extension without its leading point, or the whole extension when it has none. */
  lemma MimeTypeOfExtension(kind: Kind, ext: string)
    ensures ext != [] && ext[0] == '.' ==> MimeType(kind, ext) == (if kind == Audio then "audio/" else "video/") + ext[1..]
    ensures '.' !in ext ==> MimeType(kind, ext) == (if kind == Audio then "audio/" else "video/") + ext
  {
    if ext != [] && ext[0] == '.' {
      assert ext == [] + ['.'] + ext[1..];
      ReplaceFirstAfter([], '.', ext[1..], "");
    }
  }

  /**
   * What a trim hands the engine: the loaded file's name and kind, and the
   * selection (in centiseconds) at the moment the trim button was pressed.
   */
  datatype TrimJob = TrimJob(fileName: string, kind: Kind, start: nat, end: nat)

  /** The name the file is written under in the engine: `input` and the extension. */
  function InputName(job: TrimJob): string {
    "input" + Extension(job.fileName, job.kind)
  }

  /** The name the engine writes the trimmed file under: `trimmed` and the extension. */
  function OutputName(job: TrimJob): string {
    "trimmed" + Extension(job.fileName, job.kind)
  }

  /** The MIME type of the resulting blob. */
  function BlobType(job: TrimJob): string {
    MimeType(job.kind, Extension(job.fileName, job.kind))
  }

  /**
   * The argument list of the engine run with `startText` as the seek
   * position: seek, keep `endTime - startTime` printed as a number, copy the
   * streams.
   */
  function ExecArgs(job: TrimJob, startText: string): (a: seq<string>)
    ensures |a| == 9 && a[3] == startText
  {
    ["-i", InputName(job), "-ss", startText, "-t", HundredthsToString(job.end - job.start), "-c", "copy", OutputName(job)]
  }

  /** Two runs of the same job differ in nothing but the seek position. */
  lemma SameExceptStart(job: TrimJob, x: string, y: string)
    ensures forall i :: 0 <= i < 9 && i != 3 ==> ExecArgs(job, x)[i] == ExecArgs(job, y)[i]
  {
  }

  /**
   * The corrected argument list: the seek position is `formatTime(startTime)`
   * itself, which the engine reads as the start (`StartArgument`).
   */
  function Args(job: TrimJob): seq<string> {
    ExecArgs(job, FormatTime(job.start))
  }

  /**
   * The argument list the page hands the engine as written: the same as
   * `Args` except that the start is `formatTime(startTime).replace(".", ":")`.
   */
  function WrittenArgs(job: TrimJob): (w: seq<string>)
    ensures |w| == |Args(job)| && w[3] == ColonTime(job.start)
    ensures forall i :: 0 <= i < |w| && i != 3 ==> w[i] == Args(job)[i]
  {
    SameExceptStart(job, ColonTime(job.start), FormatTime(job.start));
    ExecArgs(job, ColonTime(job.start))
  }

  /** As written, the engine never seeks to the selection's start, unless that start is 0. */
  lemma WrittenStartMisread(job: TrimJob)
    requires job.start > 0
    ensures ReadDuration(WrittenArgs(job)[3]) != Some(job.start * 10000)
  {
    ColonTimeMisread(job.start);
  }

  /**
   * With the corrected start, the engine keeps exactly the selection: it
   * seeks to its start and keeps its length (starts under one hour).
   */
  lemma ArgsSelection(job: TrimJob)
    requires job.start < 360000
    ensures ReadDuration(Args(job)[3]) == Some(job.start * 10000)
    ensures ReadDuration(Args(job)[5]) == Some((job.end - job.start) * 10000)
  {
    StartArgument(job);
    LengthArgument(job);
  }

  /** The engine's input and output files never collide, and both carry the file's extension. */
  lemma JobNames(job: TrimJob)
    ensures InputName(job) != OutputName(job)
    ensures InputName(job)[5..] == OutputName(job)[7..] == Extension(job.fileName, job.kind)
  {
    assert InputName(job)[0] == 'i' && OutputName(job)[0] == 't';
  }

  /** Under one hour, the engine seeks to exactly the job's start. */
  lemma StartArgument(job: TrimJob)
    requires job.start < 360000
    ensures ReadDuration(Args(job)[3]) == Some(job.start * 10000)
  {
    ReadFormatTime(job.start);
    assert Args(job)[3] == FormatTime(job.start);
  }

  /** The engine keeps exactly the job's length. */
  lemma LengthArgument(job: TrimJob)
    ensures ReadDuration(Args(job)[5]) == Some((job.end - job.start) * 10000)
  {
    var d := job.end - job.start;
    LengthPosition(job);
    ReadLength(d, Args(job)[5], d * 10000);
  }

  lemma LengthPosition(job: TrimJob)
    ensures Args(job)[5] == HundredthsToString(job.end - job.start)
  {
  }

  lemma ReadLength(cs: int, t: string, v: int)
    requires t == HundredthsToString(cs) && v == cs * 10000
    ensures ReadDuration(t) == Some(v)
  {
    ReadNumberText(cs);
  }

  // ---------------------------------------------------------------------------
  // The page state
  // ---------------------------------------------------------------------------

  class TrimPage {
    var file: Option<File>
    var fileType: Kind
    var error: string
    var outputUrl: string
    var duration: nat
    var startTime: nat
    var endTime: nat
    var currentTime: nat
    var isPlaying: bool
    var mediaTime: nat
    var mediaPaused: bool

    /** The selection lies within the media: start, end and duration in that order. */
    predicate Valid()
      reads this
    {
      startTime <= endTime <= duration
    }

    function Times(): (nat, nat, nat)
      reads this
    {
      (duration, startTime, endTime)
    }

    function Playback(): (nat, bool, nat, bool)
      reads this
    {
      (currentTime, isPlaying, mediaTime, mediaPaused)
    }

    function Loaded(): (Option<File>, Kind, string, string)
      reads this
    {
      (file, fileType, error, outputUrl)
    }

    /** The trim button is shown for a loaded file without output, and enabled for a selection of positive length. */
    predicate TrimEnabled()
      reads this
    {
      file.Some? && outputUrl == "" && duration > 0 && endTime - startTime > 0
    }

    constructor()
      ensures file == None && fileType == Audio && error == "" && outputUrl == ""
      ensures Times() == (0, 0, 0) && Playback() == (0, false, 0, true)
      ensures Valid()
    {
      file := None;
      fileType := Audio;
      error := "";
      outputUrl := "";
      duration, startTime, endTime := 0, 0, 0;
      currentTime, isPlaying := 0, false;
      mediaTime, mediaPaused := 0, true;
    }

    /**
     * `handleFile`: a rejected file only sets the error; an accepted one
     * replaces the file, records its kind, clears the error and the output
     * and moves the start back to 0. The duration and the end follow when the
     * metadata arrives (`OnLoadedMetadata`).
     */
    method HandleFile(f: File)
      modifies this
      ensures Check(f).Rejected? ==>
        Loaded() == (old(file), old(fileType), Check(f).message, old(outputUrl)) && Times() == old(Times())
      ensures Check(f).Accepted? ==>
        Loaded() == (Some(f), Check(f).kind, "", "") && Times() == (old(duration), 0, old(endTime))
      ensures Playback() == old(Playback())
      ensures old(Valid()) ==> Valid()
    {
      var verdict := Check(f);
      if verdict.Rejected? {
        error := verdict.message;
        return;
      }
      file := Some(f);
      fileType := verdict.kind;
      error := "";
      outputUrl := "";
      startTime := 0;
    }

    /** The probe element's `onloadedmetadata`: the duration becomes known and the end moves to it. */
    method OnLoadedMetadata(d: nat)
      modifies this
      ensures Times() == (d, old(startTime), d)
      ensures Loaded() == old(Loaded()) && Playback() == old(Playback())
      ensures old(startTime) <= d ==> Valid()
    {
      duration := d;
      endTime := d;
    }

    /**
     * The start slider: the range input yields a value in `[0, duration]`,
     * applied only when it lies before the end.
     */
    method SlideStart(v: nat)
      requires v <= duration
      modifies this
      ensures v < old(endTime) ==> Times() == (old(duration), v, old(endTime))
      ensures v >= old(endTime) ==> Times() == old(Times())
      ensures old(startTime) < old(endTime) ==> startTime < endTime
      ensures old(Valid()) ==> Valid()
      ensures Loaded() == old(Loaded()) && Playback() == old(Playback())
    {
      if v < endTime {
        startTime := v;
      }
    }

    /** The end slider: applied only when the value lies after the start. */
    method SlideEnd(v: nat)
      requires v <= duration
      modifies this
      ensures v > old(startTime) ==> Times() == (old(duration), old(startTime), v)
      ensures v <= old(startTime) ==> Times() == old(Times())
      ensures old(startTime) < old(endTime) ==> startTime < endTime
      ensures old(Valid()) ==> Valid()
      ensures Loaded() == old(Loaded()) && Playback() == old(Playback())
    {
      if v > startTime {
        endTime := v;
      }
    }

    /**
     * The element's `timeupdate` at position `t`: the shown time follows it,
     * and reaching the end of the selection pauses the preview.
     */
    method OnTimeUpdate(t: nat)
      modifies this
      ensures currentTime == t && mediaTime == t
      ensures t >= endTime ==> !isPlaying && mediaPaused
      ensures t < endTime ==> isPlaying == old(isPlaying) && mediaPaused == old(mediaPaused)
      ensures Loaded() == old(Loaded()) && Times() == old(Times())
    {
      mediaTime := t;
      currentTime := t;
      if mediaTime >= endTime {
        mediaPaused := true;
        isPlaying := false;
      }
    }

    /** The element's `ended`: the preview is no longer playing. */
    method OnEnded()
      modifies this
      ensures !isPlaying
      ensures currentTime == old(currentTime) && mediaTime == old(mediaTime) && mediaPaused == old(mediaPaused)
      ensures Loaded() == old(Loaded()) && Times() == old(Times())
    {
      isPlaying := false;
    }

    /** The play/pause button: nothing without a file; pause while playing; otherwise seek to the start and play. */
    method TogglePlayback()
      modifies this
      ensures old(file).None? ==> Playback() == old(Playback())
      ensures old(file).Some? && old(isPlaying) ==> Playback() == (old(currentTime), false, old(mediaTime), true)
      ensures old(file).Some? && !old(isPlaying) ==> Playback() == (old(currentTime), true, old(startTime), false)
      ensures Loaded() == old(Loaded()) && Times() == old(Times())
    {
      if file.None? {
        return;
      }
      if isPlaying {
        mediaPaused := true;
        isPlaying := false;
      } else {
        mediaTime := startTime;
        mediaPaused := false;
        isPlaying := true;
      }
    }

    /** The clear button: no file, no output, no error, and every time back to 0. */
    method Clear()
      modifies this
      ensures Loaded() == (None, old(fileType), "", "") && Times() == (0, 0, 0)
      ensures Playback() == old(Playback())
      ensures Valid()
    {
      file := None;
      outputUrl := "";
      error := "";
      duration, startTime, endTime := 0, 0, 0;
    }

    /**
     * `handleTrim`: nothing without a file. Otherwise the error and the
     * output are cleared, the engine is handed the job for the loaded file
     * and the current selection, and the run's outcome sets the output URL,
     * the error, or both when the clean-up after a finished trim throws.
     */
    method HandleTrim(run: Run) returns (job: Option<TrimJob>)
      modifies this
      ensures old(file).None? ==> job == None && Loaded() == old(Loaded())
      ensures old(file).Some? ==> job == Some(TrimJob(old(file).value.name, old(fileType), old(startTime), old(endTime)))
      ensures old(TrimEnabled()) ==> job.Some? && job.value.start < job.value.end
      ensures old(file).Some? ==> file == old(file) && fileType == old(fileType)
      ensures old(file).Some? ==> outputUrl == (if run.FailedEarly? then "" else run.url)
      ensures old(file).Some? ==> error == (if run.Completed? then "" else Caught(run.thrown, TrimFailedMessage))
      ensures Times() == old(Times()) && Playback() == old(Playback())
    {
      if file.None? {
        return None;
      }
      job := Some(TrimJob(file.value.name, fileType, startTime, endTime));
      outputUrl := if run.FailedEarly? then "" else run.url;
      error := if run.Completed? then "" else Caught(run.thrown, TrimFailedMessage);
    }
  }
}

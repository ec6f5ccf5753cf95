/**
 * The audio extraction page of src/app/audio-to-video/page.tsx: accepting a
 * video file, choosing one of four audio formats, and handing the ffmpeg
 * engine a run that drops the video stream and re-encodes the audio.
 */
module AudioToVideoPage {
  import opened Wrappers
  import opened JsText
  import opened Media

  /** `AudioFormat`, the four formats the page offers. */
  datatype AudioFormat = Mp3 | Wav | Aac | Ogg

  /** The format's name as the page spells it, which is also its file extension. */
  function FormatName(f: AudioFormat): string {
    match f
    case Mp3 => "mp3"
    case Wav => "wav"
    case Aac => "aac"
    case Ogg => "ogg"
  }

  /** Different formats have different names, so the output file and the blob type tell the format. */
  lemma FormatNamesDistinct(f: AudioFormat, g: AudioFormat)
    ensures FormatName(f) == FormatName(g) <==> f == g
  {
  }

  const NotVideoMessage: string := "Please upload a video file"
  const TooLargeMessage: string := "File is too large. Max 500MB."
  const ExtractFailedMessage: string := "Extraction failed. Try a different format."

  /** What `handleFile` says about a file: nothing when it is accepted, otherwise the error it shows. */
  function Rejection(f: File): (r: Option<string>)
    ensures r.None? <==> StartsWith(f.mimeType, "video/") && f.size <= MaxUploadBytes
    ensures !StartsWith(f.mimeType, "video/") ==> r == Some(NotVideoMessage)
    ensures StartsWith(f.mimeType, "video/") && f.size > MaxUploadBytes ==> r == Some(TooLargeMessage)
  {
    if !StartsWith(f.mimeType, "video/") then Some(NotVideoMessage)
    else if f.size > MaxUploadBytes then Some(TooLargeMessage)
    else None
  }

  /** An audio file is never accepted, whatever its size. */
  lemma AudioRejected(f: File)
    requires StartsWith(f.mimeType, "audio/")
    ensures Rejection(f) == Some(NotVideoMessage)
  {
    assert f.mimeType[..6] == "audio/";
  }

  /** `codecMap`: the encoder for each format, at 192 kbit/s except for uncompressed WAV. */
  function CodecArgs(f: AudioFormat): seq<string> {
    match f
    case Mp3 => ["-acodec", "libmp3lame", "-ab", "192k"]
    case Wav => ["-acodec", "pcm_s16le"]
    case Aac => ["-acodec", "aac", "-ab", "192k"]
    case Ogg => ["-acodec", "libvorbis", "-ab", "192k"]
  }

  /**
   * Every entry of the table names an encoder, every format gets its own
   * encoder, and the bitrate option is present exactly for the lossy formats.
   */
  lemma CodecTable(f: AudioFormat, g: AudioFormat)
    ensures |CodecArgs(f)| >= 2 && CodecArgs(f)[0] == "-acodec"
    ensures f != g ==> CodecArgs(f)[1] != CodecArgs(g)[1]
    ensures f == Wav <==> |CodecArgs(f)| == 2
    ensures f != Wav ==> CodecArgs(f)[2..] == ["-ab", "192k"]
  {
  }

  /** One extraction: the name the file is written under in the engine, and the chosen format. */
  datatype Extraction = Extraction(inputName: string, format: AudioFormat)

  /** `"input" + file.name.substring(file.name.lastIndexOf("."))`. */
  function InputName(name: string): (n: string)
    ensures |n| >= 5 && n[..5] == "input" && n[5..] == DotSuffix(name)
  {
    "input" + DotSuffix(name)
  }

  function OutputName(f: AudioFormat): string {
    "output." + FormatName(f)
  }

  /** The blob's MIME type, `audio/` and the format. */
  function BlobType(f: AudioFormat): string {
    "audio/" + FormatName(f)
  }

  /** The argument list of the engine run: the input, no video, the encoder, the output. */
  function Args(e: Extraction): seq<string> {
    ["-i", e.inputName, "-vn"] + CodecArgs(e.format) + [OutputName(e.format)]
  }

  /**
   * The input comes first, `-vn` always drops the video, the codec table's
   * entry follows untouched, and the output file is last.
   */
  lemma ArgsShape(e: Extraction)
    ensures var args := Args(e);
      args[..3] == ["-i", e.inputName, "-vn"] &&
      args[3..|args| - 1] == CodecArgs(e.format) &&
      args[|args| - 1] == OutputName(e.format)
  {
    var args := Args(e);
    assert args == ["-i", e.inputName, "-vn"] + (CodecArgs(e.format) + [OutputName(e.format)]);
  }

  /** The engine's input and output files never collide. */
  lemma NamesDiffer(name: string, f: AudioFormat)
    ensures InputName(name) != OutputName(f)
  {
    assert InputName(name)[0] == 'i' && OutputName(f)[0] == 'o';
  }

  /** The output file's extension and the blob's subtype are both the format's name. */
  lemma OutputMatchesBlob(f: AudioFormat)
    ensures OutputName(f)[7..] == BlobType(f)[6..] == FormatName(f)
  {
  }

  class AudioToVideoPage {
    var file: Option<File>
    var format: AudioFormat
    var error: string
    var outputUrl: string

    function State(): (Option<File>, AudioFormat, string, string)
      reads this
    {
      (file, format, error, outputUrl)
    }

    constructor()
      ensures State() == (None, Mp3, "", "")
    {
      file := None;
      format := Mp3;
      error := "";
      outputUrl := "";
    }

    /** `handleFile`: a rejected file only sets the error; an accepted one becomes the file and clears the error and the output. */
    method HandleFile(f: File)
      modifies this
      ensures Rejection(f).Some? ==> State() == (old(file), old(format), Rejection(f).value, old(outputUrl))
      ensures Rejection(f).None? ==> State() == (Some(f), old(format), "", "")
    {
      var r := Rejection(f);
      if r.Some? {
        error := r.value;
        return;
      }
      file := Some(f);
      error := "";
      outputUrl := "";
    }

    /** A format button. */
    method SelectFormat(f: AudioFormat)
      modifies this
      ensures State() == (old(file), f, old(error), old(outputUrl))
    {
      format := f;
    }

    /**
     * `handleExtract`: nothing without a file. Otherwise the error and the
     * output are cleared, the engine is handed the file and the format, and
     * the run's outcome sets the output URL, the error, or both when the
     * clean-up after a finished extraction throws.
     */
    method HandleExtract(run: Run) returns (job: Option<Extraction>)
      modifies this
      ensures old(file).None? ==> job == None && State() == old(State())
      ensures old(file).Some? ==> job == Some(Extraction(InputName(old(file).value.name), old(format)))
      ensures old(file).Some? ==> State() == (old(file), old(format),
        if run.Completed? then "" else Caught(run.thrown, ExtractFailedMessage),
        if run.FailedEarly? then "" else run.url)
    {
      if file.None? {
        return None;
      }
      job := Some(Extraction(InputName(file.value.name), format));
      outputUrl := if run.FailedEarly? then "" else run.url;
      error := if run.Completed? then "" else Caught(run.thrown, ExtractFailedMessage);
    }

    /** The remove button: no file, no output, no error. */
    method Clear()
      modifies this
      ensures State() == (None, old(format), "", "")
    {
      file := None;
      outputUrl := "";
      error := "";
    }
  }
}

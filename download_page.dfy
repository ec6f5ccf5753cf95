/**
 * The download page of src/app/download/page.tsx: the user pastes a link and
 * picks a format, the page asks the server route to fetch the file, and saves
 * what comes back under a name whose extension fits the media that arrived.
 */
module DownloadPage {
  import opened Wrappers
  import opened JsText
  import opened Media
  import DownloadRoute

  /** `OutputFormat`, the four formats the page offers. */
  datatype OutputFormat = Mp3 | Mp4 | Wav | Webm

  function FormatName(f: OutputFormat): string {
    match f
    case Mp3 => "mp3"
    case Mp4 => "mp4"
    case Wav => "wav"
    case Webm => "webm"
  }

  predicate IsAudioFormat(f: OutputFormat) {
    f == Mp3 || f == Wav
  }

  /**
   * The extension the file is saved with. Audio content (a content type
   * mentioning `audio`, checked first) is saved as the requested format when
   * that is an audio format and as mp3 otherwise; video content as the
   * requested format when that is a video format and as mp4 otherwise; any
   * other content as requested.
   */
  function ChooseExtension(contentType: string, format: OutputFormat): (ext: OutputFormat)
    ensures Includes(contentType, "audio") ==>
      IsAudioFormat(ext) && (if IsAudioFormat(format) then ext == format else ext == Mp3)
    ensures !Includes(contentType, "audio") && Includes(contentType, "video") ==>
      !IsAudioFormat(ext) && (if IsAudioFormat(format) then ext == Mp4 else ext == format)
    ensures !Includes(contentType, "audio") && !Includes(contentType, "video") ==> ext == format
  {
    if Includes(contentType, "audio") then
      (if format == Mp4 || format == Webm then Mp3 else format)
    else if Includes(contentType, "video") then
      (if format == Mp3 || format == Wav then Mp4 else format)
    else
      format
  }

  /** Choosing again for the same content keeps the choice: a fitting format is never changed. */
  lemma ChooseExtensionIdempotent(contentType: string, format: OutputFormat)
    ensures var ext := ChooseExtension(contentType, format);
      ChooseExtension(contentType, ext) == ext
  {
  }

  /** `download.` and the extension. */
  function SaveName(ext: OutputFormat): (n: string)
    ensures |n| > 9 && n[..9] == "download." && n[9..] == FormatName(ext)
  {
    "download." + FormatName(ext)
  }

  const BlankUrlMessage: string := "Please enter a valid URL"
  const RefusedMessage: string := "Failed to download file"
  const DownloadFailedMessage: string := "Download failed. Please check the URL and try again."

  /**
   * What the request to the server route did: a response with `ok` set and
   * its Content-Type header (`None` when absent), a response without `ok`
   * and the `error` property of its JSON body (`None` when missing), or a
   * throw. Only a string `error` is modelled: the route never sends any other
   * kind.
   */
  datatype Outcome =
    | Received(contentType: Option<string>)
    | Refused(errorField: Option<string>)
    | Threw(thrown: Thrown)

  /** `data.error || "Failed to download file"`: an empty string is falsy too. */
  function RefusalMessage(errorField: Option<string>): (m: string)
    ensures m != []
    ensures errorField.Some? && errorField.value != [] ==> m == errorField.value
    ensures errorField.None? || errorField.value == [] ==> m == RefusedMessage
  {
    if errorField.Some? && errorField.value != [] then errorField.value else RefusedMessage
  }

  /** `err instanceof Error && err.name === "AbortError"`. */
  predicate IsAbort(t: Thrown) {
    t.isError && t.name == "AbortError"
  }

  /**
   * Every error the server route answers with is shown to the user as the
   * route wrote it: its messages are never empty, so the fallback is never
   * taken for them.
   */
  lemma RouteErrorsShown(body: DownloadRoute.RequestBody, parse: string -> Option<DownloadRoute.ParsedUrl>,
                         upstream: DownloadRoute.Upstream)
    ensures var r := DownloadRoute.Handle(body, parse, upstream).response;
      r.JsonError? ==> RefusalMessage(Some(r.error)) == r.error
  {
    DownloadRoute.ErrorsNotEmpty(body, parse, upstream);
  }

  class DownloadPage {
    var url: string
    var format: OutputFormat
    var loading: bool
    var error: string
    var success: bool

    function State(): (string, OutputFormat, bool, string, bool)
      reads this
    {
      (url, format, loading, error, success)
    }

    constructor()
      ensures State() == ("", Mp3, false, "", false)
    {
      url := "";
      format := Mp3;
      loading := false;
      error := "";
      success := false;
    }

    /** Typing in the URL field: the text is taken as it is, and the error and the success notice go away. */
    method EditUrl(u: string)
      modifies this
      ensures State() == (u, old(format), old(loading), "", false)
    {
      url := u;
      error := "";
      success := false;
    }

    /** A format button. */
    method SelectFormat(f: OutputFormat)
      modifies this
      ensures State() == (old(url), f, old(loading), old(error), old(success))
    {
      format := f;
    }

    /**
     * `handleDownload`. A blank URL only sets an error and sends nothing.
     * Otherwise the trimmed URL is sent; a received file is saved under
     * `download.` and the chosen extension and reported; a refusal shows the
     * route's error; an abort is swallowed silently; any other throw shows
     * its message. Loading always ends.
     */
    method HandleDownload(outcome: Outcome) returns (request: Option<string>, saved: Option<string>)
      modifies this
      ensures request.None? <==> IsBlank(old(url))
      ensures request.Some? ==> request.value == Trim(old(url)) && request.value != []
      ensures request.None? ==> saved.None? && State() == (old(url), old(format), old(loading), BlankUrlMessage, old(success))
      ensures request.Some? ==> url == old(url) && format == old(format) && !loading
      ensures request.Some? ==> (saved.Some? <==> outcome.Received?) && (success <==> outcome.Received?)
      ensures request.Some? && outcome.Received? ==>
        saved == Some(SaveName(ChooseExtension(if outcome.contentType.Some? then outcome.contentType.value else "", old(format)))) &&
        error == ""
      ensures request.Some? && outcome.Refused? ==> error == RefusalMessage(outcome.errorField)
      ensures request.Some? && outcome.Threw? ==>
        error == (if IsAbort(outcome.thrown) then "" else Caught(outcome.thrown, DownloadFailedMessage))
    {
      var trimmed := Trim(url);
      TrimEmptyIffBlank(url);
      if trimmed == [] {
        error := BlankUrlMessage;
        return None, None;
      }
      loading := true;
      error := "";
      success := false;
      request := Some(trimmed);
      saved := None;
      match outcome {
        case Received(contentType) =>
          var ext := ChooseExtension(if contentType.Some? then contentType.value else "", format);
          saved := Some(SaveName(ext));
          success := true;
        case Refused(errorField) =>
          error := RefusalMessage(errorField);
        case Threw(thrown) =>
          if !IsAbort(thrown) {
            error := Caught(thrown, DownloadFailedMessage);
          }
      }
      loading := false;
    }
  }
}

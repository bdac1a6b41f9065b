/**
 * The single-URL download operation of the YouTube downloader script
 * (`download_video` in download_video.py).
 *
 * The media library, the network, the module import and the filesystem are
 * not modelled: everything they do for one call is summed up by an oracle
 * answer of type `LibCall`, and the library receives the options record built
 * here.  What is modelled is the part the script itself decides: the choice of
 * output directory, the options record handed to the library, and how the
 * library's answer becomes the function's return value and printed summary.
 */
module Downloader {
  import opened Wrappers

  // ---------------------------------------------------------------------------
  // Paths
  // ---------------------------------------------------------------------------

  /** The file name template the library fills in: the remote title and the extension. */
  const OutputTemplate := "%(title)s.%(ext)s"

  /** The name of the default download directory under the user's home. */
  const DownloadsDirName := "Downloads"

  /** `s` without its trailing `/` characters. */
  function TrimTrailingSlashes(s: string): (r: string)
    ensures |r| <= |s| && r == s[..|r|]
    ensures forall k :: |r| <= k < |s| ==> s[k] == '/'
    ensures r == [] || r[|r| - 1] != '/'
  {
    if s != [] && s[|s| - 1] == '/' then TrimTrailingSlashes(s[..|s| - 1]) else s
  }

  /**
   * `str(Path(dir) / leaf)` on POSIX: the empty path and `.` (with or without
   * trailing slashes) denote the current directory and vanish, trailing slashes
   * are dropped, and a path made only of slashes is the root, except that
   * exactly two slashes are kept as they are.
   */
  function PathJoin(dir: string, leaf: string): (r: string)
    ensures |r| >= |leaf| && r[|r| - |leaf|..] == leaf
    ensures dir == "" || TrimTrailingSlashes(dir) == "." ==> r == leaf
    ensures dir != "" && TrimTrailingSlashes(dir) != "." ==> |r| > |leaf| && r[|r| - |leaf| - 1] == '/'
    ensures dir != "" && dir != "." && dir[|dir| - 1] != '/' ==> r == dir + "/" + leaf
    ensures dir == "//" ==> r == "//" + leaf
    ensures dir != "" && dir != "//" && TrimTrailingSlashes(dir) == "" ==> r == "/" + leaf
  {
    var d := TrimTrailingSlashes(dir);
    if dir == "" || d == "." then leaf
    else if d == "" then (if dir == "//" then "//" + leaf else "/" + leaf)
    else d + "/" + leaf
  }

  /**
   * The output directory of one call: the one given, or `Downloads` under the
   * user's home when none is given.  The home directory is a parameter (it is
   * read from the environment); creating the directory is not modelled.
   */
  function ResolveDir(outputPath: Option<string>, home: string): (dir: string)
    ensures outputPath.Some? ==> dir == outputPath.value
    ensures outputPath.None? && home != "" && home != "." && home[|home| - 1] != '/' ==>
              dir == home + "/" + DownloadsDirName
  {
    match outputPath
    case Some(p) => p
    case None => PathJoin(home, DownloadsDirName)
  }

  // ---------------------------------------------------------------------------
  // Format selection
  // ---------------------------------------------------------------------------

  /**
   * A format selector of the library.  `BestVideoAudio(Some(h))` is the best
   * video stream no taller than `h` merged with the best audio, falling back to
   * the best single file no taller than `h`; `BestVideoAudio(None)` is the same
   * without a height cap; `BestAudio` is the best audio-only stream.
   */
  datatype Selector = BestVideoAudio(heightCap: Option<string>) | BestAudio

  /** The selector string the library receives. */
  function Render(sel: Selector): string {
    match sel
    case BestVideoAudio(None) => "bestvideo+bestaudio/best"
    case BestVideoAudio(Some(h)) => "bestvideo[height<=" + h + "]+bestaudio/best[height<=" + h + "]"
    case BestAudio => "bestaudio/best"
  }

  /** The selector used when no height cap applies. */
  const Best := BestVideoAudio(None)

  /** The quality table of the script: each tier caps the video height. */
  const QualityMap: map<string, Selector> := map[
    "480" := BestVideoAudio(Some("480")),
    "720" := BestVideoAudio(Some("720")),
    "1080" := BestVideoAudio(Some("1080")),
    "1440" := BestVideoAudio(Some("1440")),
    "2160" := BestVideoAudio(Some("2160")),
    "4k" := BestVideoAudio(Some("2160")),
    "best" := BestVideoAudio(None)
  ]

  /** The table lookup, with the table's `best` entry for any unknown key. */
  function SelectorFor(quality: string): Selector {
    if quality in QualityMap then QualityMap[quality] else QualityMap["best"]
  }

  /**
   * Each numeric tier caps the height at its own number, `4k` selects exactly
   * what `2160` selects, and `best` has no cap.
   */
  lemma QualityTiers()
    ensures forall h :: h in ["480", "720", "1080", "1440", "2160"] ==>
              SelectorFor(h) == BestVideoAudio(Some(h))
    ensures SelectorFor("4k") == SelectorFor("2160")
    ensures SelectorFor("best") == Best
  {
  }

  /** Any quality key outside the table selects the uncapped selector. */
  lemma UnknownQualityIsBest(quality: string)
    requires quality !in QualityMap
    ensures SelectorFor(quality) == Best
    ensures Render(SelectorFor(quality)) == "bestvideo+bestaudio/best"
  {
  }

  // ---------------------------------------------------------------------------
  // The options record
  // ---------------------------------------------------------------------------

  /** A post-processing step requested from the library. */
  datatype PostProcessor =
    | FFmpegExtractAudio(preferredCodec: string, preferredQuality: string)
    | EmbedThumbnail

  /** The audio extraction step of audio-only mode: mp3 at 192 kbit/s. */
  const ExtractMp3 := FFmpegExtractAudio("mp3", "192")

  /**
   * The options dictionary handed to the library.  An `Option` field is a key
   * that may be absent; `writeInfoJson` and `writeThumbnail` are keys that are
   * either absent (false) or set to True (true).
   */
  datatype YdlOptions = YdlOptions(
    outtmpl: string,
    quiet: bool,
    noWarnings: bool,
    extractFlat: bool,
    format: Option<string>,
    mergeOutputFormat: Option<string>,
    writeInfoJson: bool,
    writeThumbnail: bool,
    postprocessors: Option<seq<PostProcessor>>)

  /**
   * The arguments of one call.  `formatType` is the container name; the empty
   * string stands for every falsy value (`""` or `None`).  `quality` is the key
   * looked up in the quality table, i.e. `str(quality)`.
   */
  datatype Request = Request(
    url: string,
    outputPath: Option<string>,
    quality: string,
    formatType: string,
    audioOnly: bool,
    saveMetadata: bool,
    saveThumbnail: bool)

  /** The post-processors requested: audio extraction first, thumbnail embedding last. */
  function PostprocessorChain(audioOnly: bool, saveThumbnail: bool): seq<PostProcessor> {
    (if audioOnly then [ExtractMp3] else []) + (if saveThumbnail then [EmbedThumbnail] else [])
  }

  /** The options record a request produces, with `dir` the resolved output directory. */
  function OptionsFor(req: Request, dir: string): YdlOptions {
    YdlOptions(
      outtmpl := PathJoin(dir, OutputTemplate),
      quiet := false,
      noWarnings := false,
      extractFlat := false,
      format := Some(Render(if req.audioOnly then BestAudio else SelectorFor(req.quality))),
      mergeOutputFormat := if !req.audioOnly && req.formatType != "" then Some(req.formatType) else None,
      writeInfoJson := req.saveMetadata,
      writeThumbnail := req.saveThumbnail,
      postprocessors :=
        if req.audioOnly || req.saveThumbnail
        then Some(PostprocessorChain(req.audioOnly, req.saveThumbnail))
        else None)
  }

  /**
   * Builds the options record the way the script does: a base record, then the
   * audio or video branch, then the metadata flag, then the thumbnail flag,
   * which appends to whatever post-processor list is already there.
   */
  method BuildOptions(req: Request, dir: string) returns (opts: YdlOptions)
    ensures opts == OptionsFor(req, dir)
  {
    opts := YdlOptions(PathJoin(dir, OutputTemplate), false, false, false, None, None, false, false, None);
    if req.audioOnly {
      opts := opts.(format := Some(Render(BestAudio)), postprocessors := Some([ExtractMp3]));
    } else {
      opts := opts.(format := Some(Render(SelectorFor(req.quality))));
      if req.formatType != "" {
        opts := opts.(mergeOutputFormat := Some(req.formatType));
      }
    }
    if req.saveMetadata {
      opts := opts.(writeInfoJson := true);
    }
    if req.saveThumbnail {
      opts := opts.(writeThumbnail := true);
      var chain := opts.postprocessors.GetOr([]);
      opts := opts.(postprocessors := Some(chain + [EmbedThumbnail]));
    }
    assert PostprocessorChain(true, false) == [ExtractMp3];
    assert PostprocessorChain(false, true) == [EmbedThumbnail];
  }

  /**
   * In audio-only mode the format is the audio selector, the first
   * post-processor extracts mp3 at 192 kbit/s and no merge container is set,
   * whatever the quality and container asked for.
   */
  lemma AudioOnlyOptions(req: Request, dir: string)
    requires req.audioOnly
    ensures var o := OptionsFor(req, dir);
      && o.format == Some("bestaudio/best")
      && o.postprocessors.Some? && |o.postprocessors.value| >= 1
      && o.postprocessors.value[0] == FFmpegExtractAudio("mp3", "192")
      && o.mergeOutputFormat.None?
  {
  }

  /**
   * In video mode the format comes from the quality table, and the merge
   * container is the requested one exactly when that is non-empty.
   */
  lemma VideoModeOptions(req: Request, dir: string)
    requires !req.audioOnly
    ensures var o := OptionsFor(req, dir);
      && o.format == Some(Render(SelectorFor(req.quality)))
      && (req.quality !in QualityMap ==> o.format == Some("bestvideo+bestaudio/best"))
      && (o.mergeOutputFormat.Some? <==> req.formatType != "")
      && (o.mergeOutputFormat.Some? ==> o.mergeOutputFormat.value == req.formatType)
  {
  }

  /** The metadata sidecar is requested exactly when metadata saving is on. */
  lemma MetadataOption(req: Request, dir: string)
    ensures OptionsFor(req, dir).writeInfoJson <==> req.saveMetadata
  {
  }

  /**
   * Thumbnail saving sets `writethumbnail` and makes EmbedThumbnail the last
   * post-processor, after the audio extractor when there is one; without
   * thumbnail saving EmbedThumbnail is never requested; with neither audio-only
   * nor thumbnail saving there is no post-processor list at all.
   */
  lemma ThumbnailOptions(req: Request, dir: string)
    ensures var o := OptionsFor(req, dir);
      && (o.writeThumbnail <==> req.saveThumbnail)
      && (req.saveThumbnail ==>
            && o.postprocessors.Some?
            && o.postprocessors.value[|o.postprocessors.value| - 1] == EmbedThumbnail
            && (req.audioOnly ==> o.postprocessors.value == [ExtractMp3, EmbedThumbnail])
            && (!req.audioOnly ==> o.postprocessors.value == [EmbedThumbnail]))
      && (!req.saveThumbnail && o.postprocessors.Some? ==> EmbedThumbnail !in o.postprocessors.value)
      && (o.postprocessors.None? <==> !req.audioOnly && !req.saveThumbnail)
  {
  }

  /**
   * The output template is the output directory joined with the title/extension
   * template: it ends with the template, after a `/` unless the directory is the
   * current one.
   */
  lemma OutputTemplateOption(req: Request, dir: string)
    ensures var t := OptionsFor(req, dir).outtmpl;
      && |t| >= |OutputTemplate| && t[|t| - |OutputTemplate|..] == OutputTemplate
      && (dir != "" && dir != "." && dir[|dir| - 1] != '/' ==> t == dir + "/" + OutputTemplate)
      && (dir == "" || TrimTrailingSlashes(dir) == "." ==> t == OutputTemplate)
  {
  }

  // ---------------------------------------------------------------------------
  // The library's answer and the result of the call
  // ---------------------------------------------------------------------------

  /** A dictionary entry: absent, present with value None, or present with a value. */
  datatype Field<+T> = Missing | Null | Present(value: T)

  /**
   * A non-empty info dictionary returned by the library.  `entries` holds the
   * number of items of a playlist.  Fractional durations are not modelled.
   */
  datatype Info = Info(
    title: Field<string>,
    duration: Field<int>,
    entries: Field<nat>,
    filesize: Field<int>)

  /**
   * What happens in one call outside the script's own code.  `SetupRaises`: an
   * exception before the guarded block (importing or installing the library,
   * creating the directory, constructing the downloader).  `ExtractRaises`: the
   * extraction raises inside the guarded block.  `ExtractReturns`: it returns,
   * `None` standing for any falsy result.
   */
  datatype LibCall =
    | SetupRaises
    | ExtractRaises(message: string)
    | ExtractReturns(info: Option<Info>)

  /** The summary printed after a successful extraction. */
  datatype Summary =
    | NoSummary
    | PlaylistSummary(count: nat)
    | VideoSummary(title: string, minutes: int, seconds: int, showsSize: bool)

  /**
   * The result of one call: it returns True with a summary, returns False with
   * the printed error text, or lets an exception escape to its caller.
   */
  datatype Outcome =
    | Succeeded(summary: Summary)
    | Failed(message: string)
    | Escaped

  /** Python's message for `len(None)`. */
  const LenOfNoneMessage := "object of type 'NoneType' has no len()"

  /** Python's message for `None // 60`. */
  const FloorDivOfNoneMessage := "unsupported operand type(s) for //: 'NoneType' and 'int'"

  /**
   * Whole minutes and remaining seconds of a duration, with Python's flooring
   * `//` and `%` (for the positive divisor 60 they agree with Dafny's).
   */
  function SplitDuration(duration: int): (r: (int, int))
    ensures r.0 * 60 + r.1 == duration
    ensures 0 <= r.1 < 60
    ensures duration >= 0 ==> r.0 >= 0
  {
    (duration / 60, duration % 60)
  }

  /** The title printed for a video: `Video` when absent, `None` when null. */
  function TitleOf(title: Field<string>): string {
    match title
    case Missing => "Video"
    case Null => "None"
    case Present(t) => t
  }

  /** Whether a summary line raises inside the guarded block: a null playlist or a null duration. */
  predicate SummaryRaises(info: Info) {
    if info.entries.Missing? then info.duration.Null? else info.entries.Null?
  }

  /** The return value the caller sees: None when an exception escapes. */
  function ReturnValue(o: Outcome): Option<bool> {
    match o
    case Succeeded(_) => Some(true)
    case Failed(_) => Some(false)
    case Escaped => None
  }

  /**
   * The end of `download_video` once the library has answered: the summary is
   * built inside the guarded block, so an exception raised there is caught like
   * one raised by the extraction.
   */
  function Conclude(call: LibCall): (o: Outcome)
    ensures ReturnValue(o) == None <==> call.SetupRaises?
    ensures ReturnValue(o) == Some(true) <==>
              call.ExtractReturns? && (call.info.None? || !SummaryRaises(call.info.value))
    ensures call.ExtractRaises? ==> o == Failed(call.message)
    ensures call.ExtractReturns? && call.info.None? ==> o == Succeeded(NoSummary)
    ensures call.ExtractReturns? && call.info.Some? && call.info.value.entries.Present? ==>
              o == Succeeded(PlaylistSummary(call.info.value.entries.value))
    ensures call.ExtractReturns? && call.info.Some? && call.info.value.entries.Missing?
              && !call.info.value.duration.Null? ==>
              && o.Succeeded? && o.summary.VideoSummary?
              && o.summary.title == TitleOf(call.info.value.title)
              && o.summary.showsSize == (call.info.value.filesize.Present? && call.info.value.filesize.value != 0)
    ensures o.Succeeded? && o.summary.VideoSummary? ==>
              && call.ExtractReturns? && call.info.Some?
              && var d := call.info.value.duration;
              && 0 <= o.summary.seconds < 60
              && o.summary.minutes * 60 + o.summary.seconds == (if d.Present? then d.value else 0)
  {
    match call
    case SetupRaises => Escaped
    case ExtractRaises(m) => Failed(m)
    case ExtractReturns(None) => Succeeded(NoSummary)
    case ExtractReturns(Some(info)) =>
      if !info.entries.Missing? then
        match info.entries
        case Present(n) => Succeeded(PlaylistSummary(n))
        case _ => Failed(LenOfNoneMessage)
      else
        var shown := info.filesize.Present? && info.filesize.value != 0;
        match info.duration
        case Null => Failed(FloorDivOfNoneMessage)
        case Missing => Succeeded(VideoSummary(TitleOf(info.title), 0, 0, shown))
        case Present(d) =>
          var (m, s) := SplitDuration(d);
          Succeeded(VideoSummary(TitleOf(info.title), m, s, shown))
  }

  /**
   * One call of `download_video`: resolve the directory, build the options,
   * ask the library, conclude.  `home` is the user's home directory and `lib`
   * the library's answer for the options and URL it is given.
   */
  method DownloadVideo(req: Request, home: string, lib: (YdlOptions, string) -> LibCall)
    returns (o: Outcome)
    ensures o == Conclude(lib(OptionsFor(req, ResolveDir(req.outputPath, home)), req.url))
  {
    var dir := ResolveDir(req.outputPath, home);
    var opts := BuildOptions(req, dir);
    o := Conclude(lib(opts, req.url));
  }

  /**
   * The exit status of the single-download command: 0 exactly when the call
   * returned True; False and an escaping `Exception` both give 1.
   */
  function ExitCode(o: Outcome): (code: int)
    ensures code == 0 <==> ReturnValue(o) == Some(true)
    ensures code == 0 || code == 1
  {
    if o.Succeeded? then 0 else 1
  }
}

# YouTube downloader scripts — a Dafny model

This project models the two command-line scripts of the YouTube downloader
skill:

- `download_video` downloads one video or playlist with the yt-dlp library.
  - It picks the output directory: the one given, or `~/Downloads`.
  - It builds the options record handed to the library: the output template,
    the format selector from the quality table, the merge container, the
    metadata and thumbnail flags, and the post-processor chain.
  - It runs the extraction inside a guarded block. It returns True after
    printing a summary, or False when an exception is raised inside that
    block.
- `batch_download` reads a URL file and keeps each line whose stripped form is
  non-empty and whose raw text does not start with `#`.
  - It stops early when the file is missing or no URL is left.
  - Otherwise it downloads every URL in order, counts the successes and
    collects the failed URLs.
  - It returns True exactly when no URL failed.

The project has three modules:

- `Wrappers` holds the `Option` type.
- `Downloader` models `download_video.py`.
- `Batch` models `batch_download.py`.

The media library, the network and the filesystem are outside the model.
Everything they do during one call is summed up by a `LibCall` value:

- `SetupRaises`: an exception raised outside the guarded block escapes to the
  caller.
- `ExtractRaises(message)`: the extraction raises inside the guarded block.
- `ExtractReturns(info)`: the extraction returns an info dictionary, or a
  falsy value.

This value is a parameter of the model. The batch passes each download its
1-based call number, so the library's answer may differ between calls, even
for the same URL. The user's home directory is a parameter too.

Some behaviour of the code is easy to miss, and the model follows the code:

- The `#` test looks at the raw line, before stripping. An indented comment
  such as `"  # x"` is therefore kept, as the URL `# x`.
  - So the URL filter is not idempotent. Filtering its own output drops such
    URLs (`Batch.IndentedCommentSurvives`).
  - Filtering the output again changes it exactly when some kept URL starts
    with `#` (`Batch.FilterTwice`).
- A single video whose `duration` is present but `None` makes the summary
  raise a `TypeError` inside the guarded block, so the call returns False even
  though the download succeeded.
- A playlist whose `entries` is `None` makes `len` raise a `TypeError` in the
  same way, and the call also returns False.
- A falsy info returns True with no summary.

## Model

| member | source | states |
|---|---|---|
| Downloader.PathJoin | plugins/compounding-engineering/skills/youtube-downloader/scripts/download_video.py:63 | `str(Path(dir) / leaf)`: the result ends with the leaf, after a `/` unless the directory is `""` or `.` with or without trailing slashes (then it is the leaf alone); for a directory without a trailing slash it is `dir + "/" + leaf`; a directory of slashes only is the root `/`, except that exactly `//` is kept |
| Downloader.ResolveDir | plugins/compounding-engineering/skills/youtube-downloader/scripts/download_video.py:44-47 | a given output path is used as is; with none, the directory is `Downloads` under the home directory (`get_default_download_path`) |
| Downloader.QualityTiers | plugins/compounding-engineering/skills/youtube-downloader/scripts/download_video.py:51-59 | each of `480`…`2160` caps the video height at its own number, `4k` selects exactly what `2160` selects, `best` has no cap |
| Downloader.UnknownQualityIsBest | plugins/compounding-engineering/skills/youtube-downloader/scripts/download_video.py:79 | a quality outside the table falls back to the `best` entry, `bestvideo+bestaudio/best` |
| Downloader.BuildOptions | plugins/compounding-engineering/skills/youtube-downloader/scripts/download_video.py:62-92 | the step-by-step construction of the options dictionary (base, audio or video branch, metadata, thumbnail append) yields the declarative record `OptionsFor` |
| Downloader.OutputTemplateOption | plugins/compounding-engineering/skills/youtube-downloader/scripts/download_video.py:62-63 | `outtmpl` is the output directory joined with `%(title)s.%(ext)s` |
| Downloader.AudioOnlyOptions | plugins/compounding-engineering/skills/youtube-downloader/scripts/download_video.py:69-77 | audio-only mode selects `bestaudio/best`, puts the mp3/192 extractor first in the post-processors, and sets no merge container whatever quality and container were asked for |
| Downloader.VideoModeOptions | plugins/compounding-engineering/skills/youtube-downloader/scripts/download_video.py:78-81 | video mode takes the format from the quality table; the merge container is set exactly when the requested one is non-empty, and to that value |
| Downloader.MetadataOption | plugins/compounding-engineering/skills/youtube-downloader/scripts/download_video.py:84-85 | `writeinfojson` is requested exactly when metadata saving is on |
| Downloader.ThumbnailOptions | plugins/compounding-engineering/skills/youtube-downloader/scripts/download_video.py:87-92 | `writethumbnail` is set exactly when thumbnail saving is on; EmbedThumbnail is then the last post-processor: the chain is exactly the extractor then EmbedThumbnail in audio mode, and EmbedThumbnail alone in video mode; without it EmbedThumbnail never appears; there is no post-processor list when neither mode asks for one |
| Downloader.SplitDuration | plugins/compounding-engineering/skills/youtube-downloader/scripts/download_video.py:111 | minutes and seconds recompose the duration (`m * 60 + s == d`), the seconds lie in 0..59, and a non-negative duration has non-negative minutes |
| Downloader.Conclude | plugins/compounding-engineering/skills/youtube-downloader/scripts/download_video.py:101-119 | an exception escapes exactly when it is raised outside the guarded block; the call returns True exactly when extraction returns and the summary does not raise; a raised extraction returns False with its message; a falsy info gives no summary; a playlist reports its entry count; a single video (no `entries` key) whose duration is not `None` gets a video summary with its title (`Video` when absent) and a size line exactly when the size is present and non-zero; its minutes and seconds recompose the duration (0m 0s when absent) |
| Downloader.DownloadVideo | plugins/compounding-engineering/skills/youtube-downloader/scripts/download_video.py:22-119 | one call resolves the directory, builds the options and concludes from the library's answer to those options and the URL |
| Downloader.ExitCode | plugins/compounding-engineering/skills/youtube-downloader/scripts/download_video.py:170-180 | the single-download command exits 0 exactly when the call returned True, else 1 (False, or an escaping `Exception`) |
| Batch.Strip | plugins/compounding-engineering/skills/youtube-downloader/scripts/batch_download.py:32 | `line.strip()` has no whitespace at either end, is no longer than the line, and is empty exactly when the line is all whitespace |
| Batch.StripRemovesOuterSpace | plugins/compounding-engineering/skills/youtube-downloader/scripts/batch_download.py:32 | the line is its leading whitespace, its stripped form and its trailing whitespace, in that order |
| Batch.StripStripped | plugins/compounding-engineering/skills/youtube-downloader/scripts/batch_download.py:32 | stripping a string with no whitespace at either end changes nothing |
| Batch.StripIdempotent | plugins/compounding-engineering/skills/youtube-downloader/scripts/batch_download.py:32 | stripping twice is stripping once |
| Batch.FilterUrls | plugins/compounding-engineering/skills/youtube-downloader/scripts/batch_download.py:31-32 | the comprehension yields at most one URL per line, each non-empty and stripped |
| Batch.FilterIsStrippedKeptLines | plugins/compounding-engineering/skills/youtube-downloader/scripts/batch_download.py:32 | the filter's k-th URL is the stripped form of the k-th kept line (stripped form non-empty and raw line not starting with `#`), in line order, and there is one URL per kept line |
| Batch.KeptUrlComesFromLine | plugins/compounding-engineering/skills/youtube-downloader/scripts/batch_download.py:32 | every URL is the non-empty stripped form of some input line whose raw text does not start with `#` |
| Batch.DroppedLines | plugins/compounding-engineering/skills/youtube-downloader/scripts/batch_download.py:32 | a line whose raw text starts with `#`, or that is all whitespace, is not among the kept lines |
| Batch.FilterOfStripped | plugins/compounding-engineering/skills/youtube-downloader/scripts/batch_download.py:32 | on non-empty stripped strings the filter is the identity exactly when none starts with `#` |
| Batch.FilterTwice | plugins/compounding-engineering/skills/youtube-downloader/scripts/batch_download.py:32 | filtering the filter's output leaves it unchanged exactly when no kept URL starts with `#` |
| Batch.IndentedCommentSurvives | plugins/compounding-engineering/skills/youtube-downloader/scripts/batch_download.py:32 | the line `"  # x\n"` is kept as the URL `# x`, and a second filtering drops it |
| Batch.StripLineEnd | plugins/compounding-engineering/skills/youtube-downloader/scripts/batch_download.py:31-32 | a line read with its newline strips to its content when that content has no whitespace at either end |
| Batch.CommentAndBlankLineScenario | plugins/compounding-engineering/skills/youtube-downloader/scripts/batch_download.py:31-32 | two URL lines around a comment line and a blank line yield exactly the two URLs, in order, without their newlines |
| Batch.RequestFor | plugins/compounding-engineering/skills/youtube-downloader/scripts/batch_download.py:49 | each batch download uses the URL and the batch's output path, quality, container and audio-only setting, and leaves metadata and thumbnail saving at their default, on |
| Batch.FirstEscape | plugins/compounding-engineering/skills/youtube-downloader/scripts/batch_download.py:45-52 | the position of the first download whose exception escapes: none before it escapes, and the one at it does |
| Batch.Progress | plugins/compounding-engineering/skills/youtube-downloader/scripts/batch_download.py:45-46 | the k-th download announced has number k + 1 (enumeration from 1) and the k-th URL |
| Batch.Accounting | plugins/compounding-engineering/skills/youtube-downloader/scripts/batch_download.py:42-52 | over any prefix of the loop, the success count plus the number of failed URLs is the number of downloads performed |
| Batch.FailedAreTheFailures | plugins/compounding-engineering/skills/youtube-downloader/scripts/batch_download.py:42-52 | the failed list is empty exactly when every download so far returned True, and each failed URL is one whose download did not return True |
| Batch.FailedInOrder | plugins/compounding-engineering/skills/youtube-downloader/scripts/batch_download.py:45-52 | the failed list has one URL per download that did not return True, and its k-th URL is the URL of the k-th such download, in list order |
| Batch.FinishedBatchVerdict | plugins/compounding-engineering/skills/youtube-downloader/scripts/batch_download.py:55-64 | a finished batch's counts add up to the number of URLs, and it returns True exactly when every download returned True |
| Batch.RunAborts | plugins/compounding-engineering/skills/youtube-downloader/scripts/batch_download.py:45-52 | when the download at position i is the first whose exception escapes, the run ends there as aborted in call i + 1, after announcing calls 1 to i + 1 |
| Batch.RunFinishes | plugins/compounding-engineering/skills/youtube-downloader/scripts/batch_download.py:45-64 | when no download's exception escapes, the run announces every URL and finishes with the success count and failed list over all URLs |
| Batch.RunSpecOutcome | plugins/compounding-engineering/skills/youtube-downloader/scripts/batch_download.py:45-64 | a run either stops at the first escaping download, having announced every download up to it, or announces and performs every download, with a tally that adds up and a True result exactly when all succeeded |
| Batch.DownloadAt | plugins/compounding-engineering/skills/youtube-downloader/scripts/batch_download.py:49 | the download of the i-th URL is `download_video` with the batch's options, under call number i + 1 |
| Batch.DownloadAll | plugins/compounding-engineering/skills/youtube-downloader/scripts/batch_download.py:42-64 | the loop with its counter and failed list produces exactly the result and the announced calls of `RunSpec` |
| Batch.BatchDownload | plugins/compounding-engineering/skills/youtube-downloader/scripts/batch_download.py:24-64 | a missing file ends with False before any download, as does a file with no URL after filtering; otherwise the filtered URLs are run as `RunSpec` describes |
| Batch.BatchExitCode | plugins/compounding-engineering/skills/youtube-downloader/scripts/batch_download.py:100-108 | the batch command exits 0 exactly when the batch finished with no failed URL; an early stop, a failed URL or an escaping `Exception` ends it with 1 |

## Left out

- The yt-dlp library is not modelled: extraction, downloading, merging and post-processing. Its effect on one call is the `LibCall` parameter.
- Importing the library and installing it with pip (download_video.py:36-41) are not modelled. A failure there, like any exception outside the guarded block, is `SetupRaises`.
- Directory creation (download_video.py:18 and 48) is not modelled, because the model has no filesystem.
- Exceptions that escape the guarded block are not modelled separately. This covers construction of `YoutubeDL`, its `__exit__`, and exceptions that are not `Exception` subclasses. All of them are `SetupRaises`.
- Printed text is not modelled: the progress lines, banners, error messages and summary wording. The model keeps only the summary data and the message of a caught exception.
- The size line shows megabytes as a float (download_video.py:113). The model keeps only whether the line is printed.
- Downloader.SplitDuration: works on whole-second durations. A float duration, which yields float minutes and seconds in Python, is not modelled.
- Downloader.ExitCode: states exit status 1 for an escaping `Exception` only. An escaping exception that is not an `Exception` subclass (part of `SetupRaises`) ends the process otherwise: `KeyboardInterrupt` by SIGINT (status 130), `SystemExit` with its own code.
- Batch.BatchExitCode: states exit status 1 for an escaping `Exception` only, for the same reason; Ctrl-C during a batch escapes `batch_download` and ends the process by SIGINT.
- Downloader.PathJoin: POSIX paths only (on Windows pathlib joins with `\`). It models only the empty path, `.`, trailing slashes and a directory made only of slashes. pathlib's other normalisations are not modelled: repeated interior slashes, three or more leading slashes before a name, and `.` components inside a longer path.
- Command-line parsing is not modelled: argparse and its `choices` restrictions. The arguments arrive as a `Request` or a `Config`, whose `quality` may be any string, and `sys.exit` is represented by the exit-code functions.
- A falsy `format_type` (`None` or `""`) is represented by the empty string.
- A non-string `quality` is represented by its `str` form.
- The URL file arrives as its lines, or `None` when it does not exist. These are not modelled:
  - reading it
  - decoding errors
  - a path that exists but cannot be opened, such as a directory; in the code this raises out of `batch_download`
- An `entries` value whose `len` raises for a reason other than being `None` is not modelled. The model keeps only the entry count, or `None`.


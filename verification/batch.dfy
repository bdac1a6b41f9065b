/**
 * The batch download of the YouTube downloader script (`batch_download` in
 * batch_download.py): read a URL list, keep the usable lines, download each
 * URL in order with the single-URL operation and tally the results.
 *
 * The URL file is given as its lines (`None` when the file does not exist);
 * each line is as Python's line iteration yields it, newline included.
 */
module Batch {
  import opened Wrappers
  import opened Downloader

  // ---------------------------------------------------------------------------
  // Python's str.strip()
  // ---------------------------------------------------------------------------

  /** The code points Python's `str.isspace` accepts, which `str.strip()` removes. */
  predicate IsSpace(c: char) {
    var n := c as int;
    || 0x09 <= n <= 0x0D
    || 0x1C <= n <= 0x20
    || n == 0x85 || n == 0xA0 || n == 0x1680
    || 0x2000 <= n <= 0x200A
    || n == 0x2028 || n == 0x2029 || n == 0x202F || n == 0x205F || n == 0x3000
  }

  /** Neither the first nor the last character is whitespace. */
  predicate IsStripped(s: string) {
    s == [] || (!IsSpace(s[0]) && !IsSpace(s[|s| - 1]))
  }

  /** Every character is whitespace. */
  predicate AllSpace(s: string) {
    forall k :: 0 <= k < |s| ==> IsSpace(s[k])
  }

  /** The first position at or after `i` that is not whitespace, or `|s|`. */
  function SkipSpaces(s: string, i: nat): (j: nat)
    requires i <= |s|
    ensures i <= j <= |s|
    ensures forall k :: i <= k < j ==> IsSpace(s[k])
    ensures j < |s| ==> !IsSpace(s[j])
    decreases |s| - i
  {
    if i < |s| && IsSpace(s[i]) then SkipSpaces(s, i + 1) else i
  }

  /** The position after the last non-whitespace character of `s[lo..j]`, or `lo`. */
  function SkipSpacesBack(s: string, lo: nat, j: nat): (e: nat)
    requires lo <= j <= |s|
    ensures lo <= e <= j
    ensures forall k :: e <= k < j ==> IsSpace(s[k])
    ensures e > lo ==> !IsSpace(s[e - 1])
  {
    if j > lo && IsSpace(s[j - 1]) then SkipSpacesBack(s, lo, j - 1) else j
  }

  /** Where the stripped part of `s` starts: after the leading whitespace. */
  function StripStart(s: string): (i: nat)
    ensures i <= |s|
    ensures forall k :: 0 <= k < i ==> IsSpace(s[k])
    ensures i < |s| ==> !IsSpace(s[i])
  {
    SkipSpaces(s, 0)
  }

  /** Where the stripped part of `s` ends: before the trailing whitespace. */
  function StripEnd(s: string): (e: nat)
    ensures StripStart(s) <= e <= |s|
    ensures forall k :: e <= k < |s| ==> IsSpace(s[k])
    ensures e > StripStart(s) ==> !IsSpace(s[e - 1])
  {
    SkipSpacesBack(s, StripStart(s), |s|)
  }

  /**
   * `s.strip()`: the part of `s` between its leading and its trailing
   * whitespace.  The result is empty exactly when `s` is all whitespace.
   */
  function Strip(s: string): (r: string)
    ensures IsStripped(r)
    ensures |r| <= |s|
    ensures r == [] <==> AllSpace(s)
  {
    var i, e := StripStart(s), StripEnd(s);
    assert e > i ==> !IsSpace(s[i]);
    s[i..e]
  }

  /**
   * Stripping only removes whitespace from the two ends: the string is its
   * leading whitespace, its stripped form and its trailing whitespace, in order.
   */
  lemma StripRemovesOuterSpace(s: string)
    ensures var i, e := StripStart(s), StripEnd(s);
      && s == s[..i] + Strip(s) + s[e..]
      && AllSpace(s[..i]) && AllSpace(s[e..])
  {
    var i, e := StripStart(s), StripEnd(s);
    assert s == s[..i] + s[i..e] + s[e..];
  }

  /** Stripping a stripped string changes nothing. */
  lemma StripStripped(s: string)
    requires IsStripped(s)
    ensures Strip(s) == s
  {
    if s != [] {
      assert StripStart(s) == 0;
      assert StripEnd(s) == |s|;
    }
  }

  /** Stripping is idempotent. */
  lemma StripIdempotent(s: string)
    ensures Strip(Strip(s)) == Strip(s)
  {
    StripStripped(Strip(s));
  }

  // ---------------------------------------------------------------------------
  // The URL-line filter
  // ---------------------------------------------------------------------------

  /** Whether the raw line (before stripping) starts with `#`. */
  predicate StartsWithHash(line: string) {
    |line| > 0 && line[0] == '#'
  }

  /** A line is kept when its stripped form is non-empty and the raw line does not start with `#`. */
  predicate Keep(line: string) {
    Strip(line) != [] && !StartsWithHash(line)
  }

  /** The list comprehension of the script: the stripped form of every kept line, in order. */
  function FilterUrls(lines: seq<string>): (urls: seq<string>)
    ensures |urls| <= |lines|
    ensures forall k :: 0 <= k < |urls| ==> urls[k] != [] && IsStripped(urls[k])
  {
    if lines == [] then []
    else (if Keep(lines[0]) then [Strip(lines[0])] else []) + FilterUrls(lines[1..])
  }

  /**
   * The positions below `n` of the elements satisfying `p`, in increasing
   * order; every such position is listed.
   */
  function IndicesWhere<T>(xs: seq<T>, p: T -> bool, n: nat): (ix: seq<nat>)
    requires n <= |xs|
    ensures forall k :: 0 <= k < |ix| ==> ix[k] < n && p(xs[ix[k]])
    ensures forall k, m :: 0 <= k < m < |ix| ==> ix[k] < ix[m]
    ensures forall j :: 0 <= j < n && p(xs[j]) ==> j in ix
  {
    if n == 0 then []
    else IndicesWhere(xs, p, n - 1) + (if p(xs[n - 1]) then [n - 1] else [])
  }

  /** Reference definition of the filter's selection: the positions of the kept lines. */
  function KeptIndices(lines: seq<string>): seq<nat> {
    IndicesWhere(lines, Keep, |lines|)
  }

  /** Filtering a concatenation filters each part. */
  lemma {:induction false} FilterAppend(a: seq<string>, b: seq<string>)
    ensures FilterUrls(a + b) == FilterUrls(a) + FilterUrls(b)
  {
    if a == [] {
      assert a + b == b;
    } else {
      assert (a + b)[0] == a[0];
      assert (a + b)[1..] == a[1..] + b;
      FilterAppend(a[1..], b);
    }
  }

  /**
   * The filter yields exactly the stripped kept lines, in the order of their
   * lines: its k-th URL is the stripped form of the k-th kept line.
   */
  lemma FilterIsStrippedKeptLines(lines: seq<string>)
    ensures |FilterUrls(lines)| == |KeptIndices(lines)|
    ensures forall k :: 0 <= k < |FilterUrls(lines)| ==>
              FilterUrls(lines)[k] == Strip(lines[KeptIndices(lines)[k]])
  {
    assert lines[..|lines|] == lines;
    FilterPrefix(lines, |lines|);
  }

  /** The filter of the first `n` lines is the stripped kept lines among them. */
  lemma {:induction false} FilterPrefix(lines: seq<string>, n: nat)
    requires n <= |lines|
    ensures |FilterUrls(lines[..n])| == |IndicesWhere(lines, Keep, n)|
    ensures forall k :: 0 <= k < |FilterUrls(lines[..n])| ==>
              FilterUrls(lines[..n])[k] == Strip(lines[IndicesWhere(lines, Keep, n)[k]])
  {
    if n > 0 {
      var front := lines[..n - 1];
      assert lines[..n] == front + [lines[n - 1]];
      FilterAppend(front, [lines[n - 1]]);
      FilterPrefix(lines, n - 1);
      assert [lines[n - 1]][1..] == [];
    }
  }

  /** Every URL the filter keeps is the non-empty stripped form of some kept input line. */
  lemma KeptUrlComesFromLine(lines: seq<string>, k: nat)
    requires k < |FilterUrls(lines)|
    ensures exists j :: 0 <= j < |lines| && !StartsWithHash(lines[j])
              && FilterUrls(lines)[k] == Strip(lines[j]) && Strip(lines[j]) != []
  {
    FilterIsStrippedKeptLines(lines);
    var j := KeptIndices(lines)[k];
    assert Keep(lines[j]);
  }

  /** A line whose first raw character is `#`, or that is all whitespace, contributes nothing. */
  lemma DroppedLines(lines: seq<string>, j: nat)
    requires j < |lines|
    requires StartsWithHash(lines[j]) || AllSpace(lines[j])
    ensures j !in KeptIndices(lines)
  {
  }

  /**
   * Filtering the filter's output keeps it unchanged exactly when no kept URL
   * starts with `#`: an indented comment survives the first pass stripped, and
   * the second pass drops it.
   */
  lemma FilterTwice(lines: seq<string>)
    ensures FilterUrls(FilterUrls(lines)) == FilterUrls(lines) <==> NoneHashed(FilterUrls(lines))
  {
    FilterOfStripped(FilterUrls(lines));
  }

  /** Every string is non-empty and stripped, as the filter's output is. */
  predicate AllStrippedUrls(us: seq<string>) {
    forall k :: 0 <= k < |us| ==> us[k] != [] && IsStripped(us[k])
  }

  /** No string starts with `#`. */
  predicate NoneHashed(us: seq<string>) {
    forall k :: 0 <= k < |us| ==> !StartsWithHash(us[k])
  }

  /** A non-empty stripped string is kept, unchanged, exactly when it does not start with `#`. */
  lemma KeepStripped(u: string)
    requires u != [] && IsStripped(u)
    ensures Strip(u) == u
    ensures Keep(u) <==> !StartsWithHash(u)
  {
    StripStripped(u);
  }

  /** On non-empty stripped strings the filter is the identity exactly when none starts with `#`. */
  lemma {:induction false} FilterOfStripped(us: seq<string>)
    requires AllStrippedUrls(us)
    ensures FilterUrls(us) == us <==> NoneHashed(us)
  {
    if us != [] {
      var u, rest := us[0], us[1..];
      assert us == [u] + rest;
      KeepStripped(u);
      assert AllStrippedUrls(rest) by {
        forall k | 0 <= k < |rest| ensures rest[k] != [] && IsStripped(rest[k]) {
          assert rest[k] == us[k + 1];
        }
      }
      FilterOfStripped(rest);
      assert NoneHashed(us) <==> !StartsWithHash(u) && NoneHashed(rest) by {
        forall k | 0 <= k < |rest| ensures rest[k] == us[k + 1] { }
      }
      if Keep(u) {
        assert FilterUrls(us) == [u] + FilterUrls(rest);
      } else {
        assert FilterUrls(us) == FilterUrls(rest);
      }
    }
  }

  /** An indented comment line is kept, stripped, and a second filtering drops it. */
  lemma IndentedCommentSurvives()
    ensures FilterUrls(["  # x\n"]) == ["# x"]
    ensures FilterUrls(FilterUrls(["  # x\n"])) == []
  {
    var line := "  # x\n";
    assert StripStart(line) == 2;
    assert SkipSpacesBack(line, 2, 5) == 5;
    assert StripEnd(line) == 5;
    assert Strip(line) == "# x";
    assert Keep(line);
    assert FilterUrls([line]) == [Strip(line)] + FilterUrls([]);
    assert !Keep("# x");
  }

  // ---------------------------------------------------------------------------
  // The batch run
  // ---------------------------------------------------------------------------

  /** The options shared by every download of a batch. */
  datatype Config = Config(
    outputPath: Option<string>,
    quality: string,
    formatType: string,
    audioOnly: bool)

  /** The call the batch makes for one URL: metadata and thumbnails keep their defaults (on). */
  function RequestFor(cfg: Config, url: string): (req: Request)
    ensures req.url == url && req.saveMetadata && req.saveThumbnail
    ensures req.outputPath == cfg.outputPath && req.quality == cfg.quality
    ensures req.formatType == cfg.formatType && req.audioOnly == cfg.audioOnly
  {
    Request(url, cfg.outputPath, cfg.quality, cfg.formatType, cfg.audioOnly, true, true)
  }

  /**
   * The library as seen across a batch: the answer for the call with the given
   * 1-based number, options and URL (so a URL listed twice may fare differently).
   */
  type Library = (nat, YdlOptions, string) -> LibCall

  /** The outcome of the download with 1-based number `call`. */
  function CallOutcome(call: nat, url: string, cfg: Config, home: string, lib: Library): Outcome {
    Conclude(lib(call, OptionsFor(RequestFor(cfg, url), ResolveDir(cfg.outputPath, home)), url))
  }

  /** The outcome of every download of the list, if all were attempted. */
  function Outcomes(urls: seq<string>, cfg: Config, home: string, lib: Library): (outs: seq<Outcome>)
    ensures |outs| == |urls|
  {
    seq(|urls|, k requires 0 <= k < |urls| => CallOutcome(k + 1, urls[k], cfg, home, lib))
  }

  /** The number of the first `n` downloads that returned True. */
  function Successes(outs: seq<Outcome>, n: nat): nat
    requires n <= |outs|
  {
    if n == 0 then 0
    else Successes(outs, n - 1) + (if outs[n - 1].Succeeded? then 1 else 0)
  }

  /** The URLs among the first `n` whose download did not return True, in list order. */
  function FailedOf(urls: seq<string>, outs: seq<Outcome>, n: nat): seq<string>
    requires n <= |urls| == |outs|
  {
    if n == 0 then []
    else FailedOf(urls, outs, n - 1) + (if outs[n - 1].Succeeded? then [] else [urls[n - 1]])
  }

  /** The index of the first download whose exception escapes, or the length when none does. */
  function FirstEscape(outs: seq<Outcome>): (e: nat)
    ensures e <= |outs|
    ensures forall k :: 0 <= k < e ==> !outs[k].Escaped?
    ensures e < |outs| ==> outs[e].Escaped?
  {
    if outs == [] || outs[0].Escaped? then 0 else 1 + FirstEscape(outs[1..])
  }

  /**
   * How a batch ends: the file is missing, no URL survives the filter, a
   * download's exception escapes during the call with the given number, or the
   * loop finishes with the tally.
   */
  datatype BatchResult =
    | FileNotFound
    | NoUrls
    | Aborted(failingCall: nat)
    | Finished(total: nat, successCount: nat, failedUrls: seq<string>)

  /** The return value of the batch: None when an exception escapes. */
  function BatchReturnValue(r: BatchResult): Option<bool> {
    match r
    case FileNotFound => Some(false)
    case NoUrls => Some(false)
    case Aborted(_) => None
    case Finished(_, _, failed) => Some(|failed| == 0)
  }

  /**
   * The exit status of the batch command: 0 exactly when the batch finished
   * with no failed URL; an escaping `Exception` also ends the process with 1.
   */
  function BatchExitCode(r: BatchResult): (code: int)
    ensures code == 0 <==> BatchReturnValue(r) == Some(true)
    ensures code == 0 <==> r.Finished? && r.failedUrls == []
    ensures code == 0 || code == 1
  {
    if r.Finished? && r.failedUrls == [] then 0 else 1
  }

  /** Every download either returned True or is listed as failed. */
  lemma {:induction false} Accounting(urls: seq<string>, outs: seq<Outcome>, n: nat)
    requires n <= |urls| == |outs|
    ensures Successes(outs, n) + |FailedOf(urls, outs, n)| == n
  {
    if n > 0 {
      Accounting(urls, outs, n - 1);
    }
  }

  /** Whether a download did not return True (it returned False or raised). */
  predicate Unsuccessful(o: Outcome) {
    !o.Succeeded?
  }

  /**
   * The failed list is empty exactly when every download returned True, and
   * each URL in it is one whose download did not return True.
   */
  lemma {:induction false} FailedAreTheFailures(urls: seq<string>, outs: seq<Outcome>, n: nat)
    requires n <= |urls| == |outs|
    ensures FailedOf(urls, outs, n) == [] <==> forall k :: 0 <= k < n ==> outs[k].Succeeded?
    ensures forall u :: u in FailedOf(urls, outs, n) ==>
              exists k :: 0 <= k < n && urls[k] == u && !outs[k].Succeeded?
  {
    if n > 0 {
      FailedAreTheFailures(urls, outs, n - 1);
    }
  }

  /**
   * The k-th failed URL is the URL at the k-th position whose download did
   * not return True, and there is one failed URL per such position.
   */
  lemma {:induction false} FailedInOrder(urls: seq<string>, outs: seq<Outcome>, n: nat)
    requires n <= |urls| == |outs|
    ensures |FailedOf(urls, outs, n)| == |IndicesWhere(outs, Unsuccessful, n)|
    ensures forall k :: 0 <= k < |FailedOf(urls, outs, n)| ==>
              FailedOf(urls, outs, n)[k] == urls[IndicesWhere(outs, Unsuccessful, n)[k]]
  {
    if n > 0 {
      FailedInOrder(urls, outs, n - 1);
    }
  }

  /**
   * A batch that finishes returns True exactly when every download returned
   * True, and its counts add up to the number of URLs.
   */
  lemma FinishedBatchVerdict(urls: seq<string>, outs: seq<Outcome>)
    requires |urls| == |outs|
    ensures var r := Finished(|urls|, Successes(outs, |outs|), FailedOf(urls, outs, |outs|));
      && r.successCount + |r.failedUrls| == r.total
      && (BatchReturnValue(r) == Some(true) <==> forall k :: 0 <= k < |outs| ==> outs[k].Succeeded?)
  {
    Accounting(urls, outs, |outs|);
    FailedAreTheFailures(urls, outs, |outs|);
  }

  /**
   * `batch_download`: `file` is the URL file's lines (None when it does not
   * exist); `calls` lists, in order, the 1-based progress number and URL of
   * every download started.  A missing file or an empty URL list ends the
   * batch before any download; otherwise the kept URLs are downloaded.
   */
  method BatchDownload(file: Option<seq<string>>, cfg: Config, home: string, lib: Library)
    returns (r: BatchResult, calls: seq<(nat, string)>)
    ensures file.None? ==> r == FileNotFound && calls == []
    ensures file.Some? && FilterUrls(file.value) == [] ==> r == NoUrls && calls == []
    ensures file.Some? && FilterUrls(file.value) != [] ==>
              (r, calls) == RunSpec(FilterUrls(file.value), cfg, home, lib)
  {
    if file.None? {
      return FileNotFound, [];
    }
    var urls := FilterUrls(file.value);
    if urls == [] {
      return NoUrls, [];
    }
    r, calls := DownloadAll(urls, cfg, home, lib);
  }

  /**
   * What the download loop produces for a URL list: every URL is downloaded
   * once, in order, with progress numbers 1, 2, ...; a download that returns
   * False does not stop the loop, an exception escaping from one does.
   */
  function RunSpec(urls: seq<string>, cfg: Config, home: string, lib: Library)
    : (result: (BatchResult, seq<(nat, string)>))
  {
    RunOf(urls, Outcomes(urls, cfg, home, lib))
  }

  /** The run of the loop over `urls` when the downloads have the outcomes `outs`. */
  function RunOf(urls: seq<string>, outs: seq<Outcome>): (result: (BatchResult, seq<(nat, string)>))
    requires |urls| == |outs|
  {
    var e := FirstEscape(outs);
    var attempted := if e < |urls| then e + 1 else |urls|;
    (if e < |urls| then Aborted(e + 1) else Finished(|urls|, Successes(outs, |urls|), FailedOf(urls, outs, |urls|)),
     Progress(urls, attempted))
  }

  /**
   * A batch run either stops at the first download whose exception escapes,
   * after announcing every download up to and including it, or announces and
   * performs every download and reports a tally that adds up; it returns True
   * exactly when every download returned True.
   */
  lemma RunSpecOutcome(urls: seq<string>, cfg: Config, home: string, lib: Library)
    ensures var (r, calls) := RunSpec(urls, cfg, home, lib);
      var outs := Outcomes(urls, cfg, home, lib);
      && (r.Aborted? || r.Finished?)
      && |calls| <= |urls|
      && (forall k :: 0 <= k < |calls| ==> calls[k] == (k + 1, urls[k]))
      && (r.Aborted? ==>
            && 1 <= r.failingCall == |calls|
            && outs[r.failingCall - 1].Escaped?
            && forall k :: 0 <= k < r.failingCall - 1 ==> !outs[k].Escaped?)
      && (r.Finished? ==>
            && |calls| == r.total == |urls|
            && (forall k :: 0 <= k < |urls| ==> !outs[k].Escaped?)
            && r.successCount + |r.failedUrls| == r.total
            && (BatchReturnValue(r) == Some(true) <==> forall k :: 0 <= k < |urls| ==> outs[k].Succeeded?))
  {
    var outs := Outcomes(urls, cfg, home, lib);
    FinishedBatchVerdict(urls, outs);
  }

  /** The progress numbers and URLs of the first `n` downloads: `[i/total] Processing: url`. */
  function Progress(urls: seq<string>, n: nat): (p: seq<(nat, string)>)
    requires n <= |urls|
    ensures |p| == n
    ensures forall k :: 0 <= k < n ==> p[k] == (k + 1, urls[k])
  {
    if n == 0 then [] else Progress(urls, n - 1) + [(n, urls[n - 1])]
  }

  /**
   * The download loop of `batch_download`: the success counter and the failed
   * list are updated after each download.
   */
  method DownloadAll(urls: seq<string>, cfg: Config, home: string, lib: Library)
    returns (r: BatchResult, calls: seq<(nat, string)>)
    ensures (r, calls) == RunSpec(urls, cfg, home, lib)
  {
    ghost var outs := Outcomes(urls, cfg, home, lib);
    var successCount := 0;
    var failedUrls := [];
    calls := [];
    var i := 0;
    while i < |urls|
      invariant 0 <= i <= |urls|
      invariant FirstEscape(outs) >= i
      invariant successCount == Successes(outs, i)
      invariant failedUrls == FailedOf(urls, outs, i)
      invariant calls == Progress(urls, i)
    {
      var url := urls[i];
      calls := calls + [(i + 1, url)];
      var o := DownloadAt(urls, i, cfg, home, lib);
      assert o == outs[i];
      if o.Escaped? {
        RunAborts(urls, outs, i);
        return Aborted(i + 1), calls;
      }
      assert !outs[i].Escaped?;
      assert FirstEscape(outs) != i;
      if o.Succeeded? {
        successCount := successCount + 1;
      } else {
        failedUrls := failedUrls + [url];
      }
      i := i + 1;
    }
    RunFinishes(urls, outs);
    r := Finished(|urls|, successCount, failedUrls);
  }

  /** A run whose first escaping download is the one at `i` aborts there, after `i + 1` announcements. */
  lemma RunAborts(urls: seq<string>, outs: seq<Outcome>, i: nat)
    requires i < |urls| == |outs|
    requires FirstEscape(outs) >= i && outs[i].Escaped?
    ensures RunOf(urls, outs) == (Aborted(i + 1), Progress(urls, i + 1))
  {
  }

  /** A run with no escaping download finishes with the tally over all URLs. */
  lemma RunFinishes(urls: seq<string>, outs: seq<Outcome>)
    requires |urls| == |outs| && FirstEscape(outs) >= |urls|
    ensures RunOf(urls, outs)
         == (Finished(|urls|, Successes(outs, |urls|), FailedOf(urls, outs, |urls|)), Progress(urls, |urls|))
  {
  }

  /** The download of the URL at position `i` of the list, with progress number `i + 1`. */
  method DownloadAt(urls: seq<string>, i: nat, cfg: Config, home: string, lib: Library)
    returns (o: Outcome)
    requires i < |urls|
    ensures o == CallOutcome(i + 1, urls[i], cfg, home, lib)
  {
    var number := i + 1;
    var call := (opts, u) => lib(number, opts, u);
    var req := RequestFor(cfg, urls[i]);
    o := DownloadVideo(req, home, call);
    assert call(OptionsFor(req, ResolveDir(req.outputPath, home)), req.url)
        == lib(number, OptionsFor(req, ResolveDir(req.outputPath, home)), req.url);
  }

  /** A line read with its newline strips to its content when the content is stripped and non-empty. */
  lemma StripLineEnd(line: string)
    requires |line| >= 2 && line[|line| - 1] == '\n' && IsStripped(line[..|line| - 1])
    ensures Strip(line) == line[..|line| - 1]
  {
    assert StripStart(line) == 0;
    assert StripEnd(line) == |line| - 1;
  }

  /** A list with a comment and a blank line between two URLs yields the two URLs, in order. */
  lemma CommentAndBlankLineScenario()
    ensures FilterUrls(["https://a.test/1\n", "# comment\n", "\n", "https://a.test/2\n"])
            == ["https://a.test/1", "https://a.test/2"]
  {
    var lines := ["https://a.test/1\n", "# comment\n", "\n", "https://a.test/2\n"];
    assert lines[0][..16] == "https://a.test/1";
    assert lines[3][..16] == "https://a.test/2";
    StripLineEnd(lines[0]);
    StripLineEnd(lines[3]);
    assert Keep(lines[0]) && !Keep(lines[1]) && Keep(lines[3]);
    assert !Keep(lines[2]) by {
      assert AllSpace(lines[2]);
    }
    assert FilterUrls(lines[3..]) == ["https://a.test/2"] by {
      assert lines[3..][1..] == [];
    }
    assert lines[2..][1..] == lines[3..];
    assert lines[1..][1..] == lines[2..];
    assert FilterUrls(lines) == ["https://a.test/1"] + FilterUrls(lines[1..]);
  }
}

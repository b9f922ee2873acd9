/**
 * The artifact fetcher: for every image of an index, the URL it is fetched from,
 * the path it is stored under, and the skip / delete-stale / download / verify
 * sequence run against a filesystem of whole files.
 */
module Downloader {
  import opened Wrappers
  import PyInt
  import opened Parser

  newtype byte = b: int | 0 <= b < 256

  /** The size of the blocks read from a response and from a file. */
  const ChunkSize := 65536

  /** What one read of a response returns before the end of the body: between 1 and ChunkSize bytes. */
  type Chunk = c: seq<byte> | 0 < |c| <= ChunkSize witness [0]

  /**
   * The outcome of one HTTP request.
   * Unreachable: the request raised before a response was open (connection error,
   *   timeout, or a non-success status, which the transport raises).
   * Reply: the Content-Length header if sent, the chunks successive reads return,
   *   and whether the read after the last chunk reports the end of the body (true)
   *   or raises (false).
   */
  datatype Response =
    | Unreachable
    | Reply(contentLength: Option<string>, chunks: seq<Chunk>, complete: bool)

  /**
   * The downloader's configuration and the world outside it: the base output
   * directory, the answer the network gives to a request for each URL, the MD5
   * hex digest of a byte string, and UTF-8 decoding (None where it raises).
   */
  datatype Env = Env(
    baseDirectory: string,
    network: string -> Response,
    md5: seq<byte> -> string,
    decodeUtf8: seq<byte> -> Option<string>)

  // ---------------------------------------------------------------------------
  // URLs and paths

  /** The URL of an image: https://, the host, the path and the file name, glued with nothing in between. */
  function ConstructUrl(release: Release, image: Image): (url: string)
    ensures |url| == 8 + |release.httphost| + |release.urlpath| + |image.filename|
    ensures url[..8] == "https://"
    ensures url[8..8 + |release.httphost|] == release.httphost
    ensures url[8 + |release.httphost|..8 + |release.httphost| + |release.urlpath|] == release.urlpath
    ensures url[8 + |release.httphost| + |release.urlpath|..] == image.filename
  {
    "https://" + release.httphost + release.urlpath + image.filename
  }

  predicate StartsWithSlash(s: string) {
    |s| > 0 && s[0] == '/'
  }

  predicate EndsWithSlash(s: string) {
    |s| > 0 && s[|s| - 1] == '/'
  }

  /** os.path.join(path, component) on POSIX. */
  function Join(path: string, component: string): string {
    if StartsWithSlash(component) then component
    else if path == "" || EndsWithSlash(path) then path + component
    else path + "/" + component
  }

  /** os.path.join(parts[0], parts[1], ...): each part joined onto the path so far. */
  function JoinAll(parts: seq<string>): string {
    if parts == [] then ""
    else if |parts| == 1 then parts[0]
    else Join(JoinAll(parts[..|parts| - 1]), parts[|parts| - 1])
  }

  /** base / channel / date / revision / filename */
  function ConstructOutputPath(base: string, release: Release, image: Image): string {
    JoinAll([base, release.channel, release.date, release.revision, image.filename])
  }

  /** The output path is the base joined with the channel, then the date, the revision and the file name. */
  lemma OutputPathJoins(base: string, release: Release, image: Image)
    ensures ConstructOutputPath(base, release, image)
      == Join(Join(Join(Join(base, release.channel), release.date), release.revision), image.filename)
  {
    var parts := [base, release.channel, release.date, release.revision, image.filename];
    assert parts[..4][..3] == parts[..3] && parts[..3][..2] == parts[..2] && parts[..2][..1] == parts[..1];
    assert JoinAll(parts[..2]) == Join(base, release.channel);
    assert JoinAll(parts[..3]) == Join(JoinAll(parts[..2]), release.date);
    assert JoinAll(parts[..4]) == Join(JoinAll(parts[..3]), release.revision);
    assert JoinAll(parts) == Join(JoinAll(parts[..4]), image.filename);
  }

  /** A component that neither starts nor ends with '/' and is not empty. */
  predicate PlainSegment(s: string) {
    s != "" && !StartsWithSlash(s) && !EndsWithSlash(s)
  }

  /** With plain components the output path is the four-level nesting under the base directory. */
  lemma OutputPathLayout(base: string, release: Release, image: Image)
    requires base != "" && !EndsWithSlash(base)
    requires PlainSegment(release.channel) && PlainSegment(release.date) && PlainSegment(release.revision)
    requires !StartsWithSlash(image.filename)
    ensures ConstructOutputPath(base, release, image)
      == base + "/" + release.channel + "/" + release.date + "/" + release.revision + "/" + image.filename
  {
    OutputPathJoins(base, release, image);
    var p1 := base + "/" + release.channel;
    assert p1[|p1| - 1] == release.channel[|release.channel| - 1];
    var p2 := p1 + "/" + release.date;
    assert p2[|p2| - 1] == release.date[|release.date| - 1];
    var p3 := p2 + "/" + release.revision;
    assert p3[|p3| - 1] == release.revision[|release.revision| - 1];
  }

  /** Whatever the other components are, a non-empty file name is the end of the output path. */
  lemma OutputPathEndsWithFilename(base: string, release: Release, image: Image)
    requires image.filename != ""
    ensures var path := ConstructOutputPath(base, release, image);
      |path| >= |image.filename| && path[|path| - |image.filename|..] == image.filename
  {
  }

  /** A file name that starts with '/' discards the base directory and the release's components. */
  lemma AbsoluteFilenameReplacesPath(base: string, release: Release, image: Image)
    requires StartsWithSlash(image.filename)
    ensures ConstructOutputPath(base, release, image) == image.filename
  {
  }

  /**
   * The output paths that name a directory once download_release has created their parent
   * (os.path.dirname of the path): a trailing '/', or a last component "." or "..".
   */
  predicate IsDirectory(path: string) {
    var n := |path|;
    || EndsWithSlash(path)
    || (n >= 1 && path[n - 1] == '.' && (n == 1 || path[n - 2] == '/'))
    || (n >= 2 && path[n - 1] == '.' && path[n - 2] == '.' && (n == 2 || path[n - 3] == '/'))
  }

  /** The paths open(path, "wb") can create a file at: neither empty nor a directory. */
  predicate Writable(path: string) {
    path != "" && !IsDirectory(path)
  }

  /** An empty, "." or ".." file name makes a non-empty output path name a directory. */
  lemma DirectoryFilenames(base: string, release: Release, image: Image)
    requires image.filename == "" || image.filename == "." || image.filename == ".."
    requires ConstructOutputPath(base, release, image) != ""
    ensures IsDirectory(ConstructOutputPath(base, release, image))
  {
    OutputPathJoins(base, release, image);
    var prefix := Join(Join(Join(base, release.channel), release.date), release.revision);
    var glue := if prefix == "" || EndsWithSlash(prefix) then prefix else prefix + "/";
    var path := glue + image.filename;
    assert ConstructOutputPath(base, release, image) == path;
    assert glue != "" ==> glue[|glue| - 1] == '/';
    if image.filename == "" {
      assert path == glue;
    } else if image.filename == "." {
      assert path[|path| - 1] == '.';
      assert |path| == 1 || path[|path| - 2] == glue[|glue| - 1];
    } else {
      assert path[|path| - 1] == '.' && path[|path| - 2] == '.';
      assert |path| == 2 || path[|path| - 3] == glue[|glue| - 1];
    }
  }

  // ---------------------------------------------------------------------------
  // The filesystem

  /** A path names a file when the map holds it and a file can have that path. */
  predicate IsFile(files: map<string, seq<byte>>, path: string) {
    path in files && Writable(path)
  }

  /** os.path.exists: a file, or one of the directories download_release creates. */
  predicate Exists(files: map<string, seq<byte>>, path: string) {
    IsFile(files, path) || IsDirectory(path)
  }

  /** The files after `if os.path.exists(path): os.remove(path)` on a path that is not a directory. */
  function Discard(files: map<string, seq<byte>>, path: string): map<string, seq<byte>> {
    if IsFile(files, path) then files - {path} else files
  }
  // ---------------------------------------------------------------------------
  // Digests

  /** str.lower() on ASCII letters. */
  function LowerChar(c: char): char {
    if 'A' <= c <= 'Z' then ((c as int) + 32) as char else c
  }

  function Lower(s: string): (r: string)
    ensures |r| == |s| && forall i :: 0 <= i < |s| ==> r[i] == LowerChar(s[i])
  {
    if s == [] then [] else [LowerChar(s[0])] + Lower(s[1..])
  }

  /** The same letter in either case, or the same character. */
  predicate SameIgnoringCase(a: char, b: char) {
    a == b
    || ('A' <= a <= 'Z' && b as int == a as int + 32)
    || ('A' <= b <= 'Z' && a as int == b as int + 32)
  }

  predicate EqualIgnoringCase(a: string, b: string) {
    |a| == |b| && forall i :: 0 <= i < |a| ==> SameIgnoringCase(a[i], b[i])
  }

  /** Comparing lowered strings is exactly comparing character by character up to ASCII case. */
  lemma LowerEqualIffEqualIgnoringCase(a: string, b: string)
    ensures Lower(a) == Lower(b) <==> EqualIgnoringCase(a, b)
  {
    if EqualIgnoringCase(a, b) {
      assert forall i :: 0 <= i < |a| ==> Lower(a)[i] == Lower(b)[i];
    }
    if Lower(a) == Lower(b) {
      forall i | 0 <= i < |a| ensures SameIgnoringCase(a[i], b[i]) {
        assert LowerChar(a[i]) == LowerChar(b[i]);
      }
    }
  }

  /** The digest of the file at `path`, or "" when there is none to read (no file, or a directory). */
  function FileDigest(env: Env, files: map<string, seq<byte>>, path: string): string {
    if IsFile(files, path) then env.md5(files[path]) else ""
  }

  predicate DigestMatches(calculated: string, expected: string) {
    Lower(calculated) == Lower(expected)
  }

  // ---------------------------------------------------------------------------
  // Transfers

  function TotalLength(chunks: seq<Chunk>): nat {
    if chunks == [] then 0 else TotalLength(chunks[..|chunks| - 1]) + |chunks[|chunks| - 1]|
  }

  /** The bytes of the chunks, one after the other. */
  function Concat(chunks: seq<Chunk>): (r: seq<byte>)
    ensures |r| == TotalLength(chunks)
  {
    if chunks == [] then [] else Concat(chunks[..|chunks| - 1]) + chunks[|chunks| - 1]
  }

  /**
   * The file a download of this response leaves, or None where download_file fails:
   * no response, a Content-Length that int() rejects, or a read that raises.
   */
  function Body(response: Response): Option<seq<byte>> {
    match response
    case Unreachable => None
    case Reply(contentLength, chunks, complete) =>
      if contentLength.Some? && PyInt.ParseInt(contentLength.value).None? then None
      else if !complete then None
      else Some(Concat(chunks))
  }

  /** The file download_file leaves at `path`, or None where it fails: open() also fails on a path that is empty or a directory. */
  function Fetched(env: Env, url: string, path: string): Option<seq<byte>> {
    if Writable(path) then Body(env.network(url)) else None
  }

  // ---------------------------------------------------------------------------
  // The per-image procedure and the traversal, as state transformers

  /**
   * What the downloader reports for one image. RemoveRaised: the path exists but fails the
   * digest check and is a directory, so os.remove raises and the exception ends download_all.
   */
  datatype Outcome = AlreadyValid | Downloaded(md5Valid: bool) | DownloadFailed | RemoveRaised

  datatype Report = Report(filename: string, outcome: Outcome)

  /** Whether the image was fetched: the outcomes after download_file is called. */
  predicate Requested(outcome: Outcome) {
    outcome.Downloaded? || outcome == DownloadFailed
  }

  /**
   * The files on disk, the URLs requested so far, the reports made so far, and whether an
   * exception has escaped, after which nothing more happens.
   */
  datatype World = World(files: map<string, seq<byte>>, requests: seq<string>, reports: seq<Report>, raised: bool)

  /** Whether the path exists and what validate_md5 computes for it matches the expected digest. */
  predicate AlreadyDownloaded(env: Env, files: map<string, seq<byte>>, path: string, expectedMd5: string) {
    Exists(files, path) && DigestMatches(FileDigest(env, files, path), expectedMd5)
  }

  /**
   * One image of download_release: a path that exists and passes the digest check is skipped;
   * a directory that fails it makes os.remove raise, which ends the run; otherwise the stale
   * file, if any, is removed, the URL requested, and the body, if any, written. Nothing at all
   * happens once an exception has escaped.
   */
  function ImageStep(env: Env, w: World, release: Release, image: Image): World {
    var path := ConstructOutputPath(env.baseDirectory, release, image);
    var url := ConstructUrl(release, image);
    if w.raised then w
    else if AlreadyDownloaded(env, w.files, path, image.md5) then
      World(w.files, w.requests, w.reports + [Report(image.filename, AlreadyValid)], false)
    else if IsDirectory(path) then
      World(w.files, w.requests, w.reports + [Report(image.filename, RemoveRaised)], true)
    else
      match Fetched(env, url, path)
      case None =>
        World(Discard(w.files, path), w.requests + [url], w.reports + [Report(image.filename, DownloadFailed)], false)
      case Some(body) =>
        World(w.files[path := body], w.requests + [url],
          w.reports + [Report(image.filename, Downloaded(DigestMatches(env.md5(body), image.md5)))], false)
  }

  /** One report per image, for that image; a request exactly when it is fetched; an exception exactly after RemoveRaised. */
  lemma ImageStepLog(env: Env, w: World, release: Release, image: Image)
    requires !w.raised
    ensures var w' := ImageStep(env, w, release, image);
      && |w'.reports| == |w.reports| + 1 && w'.reports[..|w.reports|] == w.reports
      && w'.reports[|w.reports|].filename == image.filename
      && w'.requests == w.requests +
           (if Requested(w'.reports[|w.reports|].outcome) then [ConstructUrl(release, image)] else [])
      && (w'.raised <==> w'.reports[|w.reports|].outcome == RemoveRaised)
  {
  }

  /** The image's output path is the only path whose file may change. */
  lemma ImageStepFrame(env: Env, w: World, release: Release, image: Image, p: string)
    requires p != ConstructOutputPath(env.baseDirectory, release, image)
    ensures var w' := ImageStep(env, w, release, image);
      (p in w'.files <==> p in w.files) && (p in w.files ==> w'.files[p] == w.files[p])
  {
  }

  /**
   * A file already on disk whose digest matches is left alone, and nothing is requested; so is
   * a directory when the expected digest is empty, since validate_md5 computes "" for it.
   */
  lemma ImageStepSkipsValidFile(env: Env, w: World, release: Release, image: Image)
    requires !w.raised
    requires var path := ConstructOutputPath(env.baseDirectory, release, image);
      || (IsFile(w.files, path) && DigestMatches(env.md5(w.files[path]), image.md5))
      || (IsDirectory(path) && image.md5 == "")
    ensures var w' := ImageStep(env, w, release, image);
      && w'.files == w.files && w'.requests == w.requests && !w'.raised
      && w'.reports == w.reports + [Report(image.filename, AlreadyValid)]
  {
  }

  /**
   * A directory whose expected digest is not empty fails the check and os.remove raises on
   * it: nothing is requested or written and the run ends.
   */
  lemma ImageStepDirectoryRaises(env: Env, w: World, release: Release, image: Image)
    requires !w.raised
    requires IsDirectory(ConstructOutputPath(env.baseDirectory, release, image)) && image.md5 != ""
    ensures var w' := ImageStep(env, w, release, image);
      && w'.files == w.files && w'.requests == w.requests && w'.raised
      && w'.reports == w.reports + [Report(image.filename, RemoveRaised)]
  {
    assert |Lower(image.md5)| != 0;
  }

  /**
   * Otherwise (no file, or a stale one, which is removed first) exactly one request is made;
   * a failed download leaves no file, a successful one leaves the body on disk even when
   * its digest does not match, and the run goes on.
   */
  lemma ImageStepDownloads(env: Env, w: World, release: Release, image: Image)
    requires !w.raised
    requires var path := ConstructOutputPath(env.baseDirectory, release, image);
      !IsDirectory(path) && !(IsFile(w.files, path) && DigestMatches(env.md5(w.files[path]), image.md5))
    ensures var w' := ImageStep(env, w, release, image);
      var path := ConstructOutputPath(env.baseDirectory, release, image);
      var body := Fetched(env, ConstructUrl(release, image), path);
      && w'.requests == w.requests + [ConstructUrl(release, image)] && !w'.raised
      && (body.None? ==>
            !Exists(w'.files, path) && w'.reports == w.reports + [Report(image.filename, DownloadFailed)])
      && (body.Some? ==>
            && path in w'.files && w'.files[path] == body.value
            && w'.reports == w.reports
                 + [Report(image.filename, Downloaded(DigestMatches(env.md5(body.value), image.md5)))])
  {
  }

  function ImagesRun(env: Env, w: World, release: Release, images: seq<Image>): World {
    if images == [] then w
    else ImageStep(env, ImagesRun(env, w, release, images[..|images| - 1]), release, images[|images| - 1])
  }

  function ReleasesRun(env: Env, w: World, releases: seq<Release>): World {
    if releases == [] then w
    else
      var last := releases[|releases| - 1];
      ImagesRun(env, ReleasesRun(env, w, releases[..|releases| - 1]), last, last.images)
  }

  function HardwareRun(env: Env, w: World, hardware: seq<Hardware>): World {
    if hardware == [] then w
    else
      var last := hardware[|hardware| - 1];
      ReleasesRun(env, HardwareRun(env, w, hardware[..|hardware| - 1]), last.releases)
  }

  function DevicesRun(env: Env, w: World, devices: seq<Device>): World {
    if devices == [] then w
    else
      var last := devices[|devices| - 1];
      HardwareRun(env, DevicesRun(env, w, devices[..|devices| - 1]), last.hardware)
  }

  // ---------------------------------------------------------------------------
  // The traversal as one flat list of images

  datatype Job = Job(release: Release, image: Image)

  function ImageJobs(release: Release, images: seq<Image>): seq<Job> {
    if images == [] then [] else ImageJobs(release, images[..|images| - 1]) + [Job(release, images[|images| - 1])]
  }

  function ReleaseJobs(releases: seq<Release>): seq<Job> {
    if releases == [] then []
    else
      var last := releases[|releases| - 1];
      ReleaseJobs(releases[..|releases| - 1]) + ImageJobs(last, last.images)
  }

  function HardwareJobs(hardware: seq<Hardware>): seq<Job> {
    if hardware == [] then []
    else HardwareJobs(hardware[..|hardware| - 1]) + ReleaseJobs(hardware[|hardware| - 1].releases)
  }

  function DeviceJobs(devices: seq<Device>): seq<Job> {
    if devices == [] then []
    else DeviceJobs(devices[..|devices| - 1]) + HardwareJobs(devices[|devices| - 1].hardware)
  }

  /** Every image of every release of every hardware entry of every device, in document order. */
  function Traversal(index: FirmwareIndex): seq<Job> {
    DeviceJobs(index.devices)
  }

  function JobsRun(env: Env, w: World, jobs: seq<Job>): World {
    if jobs == [] then w
    else
      var last := jobs[|jobs| - 1];
      ImageStep(env, JobsRun(env, w, jobs[..|jobs| - 1]), last.release, last.image)
  }

  function JobPath(env: Env, job: Job): string {
    ConstructOutputPath(env.baseDirectory, job.release, job.image)
  }

  /** The URLs of the jobs whose report says they were fetched, in order. */
  function AttemptedUrls(jobs: seq<Job>, reports: seq<Report>): seq<string>
    requires |jobs| == |reports|
  {
    if jobs == [] then []
    else
      var n := |jobs| - 1;
      AttemptedUrls(jobs[..n], reports[..n])
        + (if Requested(reports[n].outcome) then [ConstructUrl(jobs[n].release, jobs[n].image)] else [])
  }

  /** A run is the run of all but the last job, followed by the step of the last one. */
  lemma JobsRunUnfold(env: Env, w: World, jobs: seq<Job>)
    requires jobs != []
    ensures var n := |jobs| - 1;
      JobsRun(env, w, jobs) == ImageStep(env, JobsRun(env, w, jobs[..n]), jobs[n].release, jobs[n].image)
  {
  }

  lemma {:induction false} JobsRunAppend(env: Env, w: World, a: seq<Job>, b: seq<Job>)
    ensures JobsRun(env, w, a + b) == JobsRun(env, JobsRun(env, w, a), b)
  {
    if b == [] {
      assert a + b == a;
    } else {
      var rest := b[..|b| - 1];
      var last := b[|b| - 1];
      assert (a + b)[..|a + b| - 1] == a + rest;
      assert (a + b)[|a + b| - 1] == last;
      calc {
        JobsRun(env, w, a + b);
        == { JobsRunUnfold(env, w, a + b); }
        ImageStep(env, JobsRun(env, w, a + rest), last.release, last.image);
        == { JobsRunAppend(env, w, a, rest); }
        ImageStep(env, JobsRun(env, JobsRun(env, w, a), rest), last.release, last.image);
        == { JobsRunUnfold(env, JobsRun(env, w, a), b); }
        JobsRun(env, JobsRun(env, w, a), b);
      }
    }
  }

  lemma {:induction false} ImagesRunAsJobs(env: Env, w: World, release: Release, images: seq<Image>)
    ensures ImagesRun(env, w, release, images) == JobsRun(env, w, ImageJobs(release, images))
  {
    if images != [] {
      ImagesRunAsJobs(env, w, release, images[..|images| - 1]);
      var jobs := ImageJobs(release, images);
      assert jobs[..|jobs| - 1] == ImageJobs(release, images[..|images| - 1]);
    }
  }

  lemma {:induction false} ReleasesRunAsJobs(env: Env, w: World, releases: seq<Release>)
    ensures ReleasesRun(env, w, releases) == JobsRun(env, w, ReleaseJobs(releases))
  {
    if releases != [] {
      var rest := releases[..|releases| - 1];
      var last := releases[|releases| - 1];
      ReleasesRunAsJobs(env, w, rest);
      ImagesRunAsJobs(env, ReleasesRun(env, w, rest), last, last.images);
      JobsRunAppend(env, w, ReleaseJobs(rest), ImageJobs(last, last.images));
    }
  }

  lemma {:induction false} HardwareRunAsJobs(env: Env, w: World, hardware: seq<Hardware>)
    ensures HardwareRun(env, w, hardware) == JobsRun(env, w, HardwareJobs(hardware))
  {
    if hardware != [] {
      var rest := hardware[..|hardware| - 1];
      var last := hardware[|hardware| - 1];
      HardwareRunAsJobs(env, w, rest);
      ReleasesRunAsJobs(env, HardwareRun(env, w, rest), last.releases);
      JobsRunAppend(env, w, HardwareJobs(rest), ReleaseJobs(last.releases));
    }
  }

  lemma {:induction false} DevicesRunAsJobs(env: Env, w: World, devices: seq<Device>)
    ensures DevicesRun(env, w, devices) == JobsRun(env, w, DeviceJobs(devices))
  {
    if devices != [] {
      var rest := devices[..|devices| - 1];
      var last := devices[|devices| - 1];
      DevicesRunAsJobs(env, w, rest);
      HardwareRunAsJobs(env, DevicesRun(env, w, rest), last.hardware);
      JobsRunAppend(env, w, DeviceJobs(rest), HardwareJobs(last.hardware));
    }
  }

  // ---------------------------------------------------------------------------
  // An escaped exception ends the run

  /** Once an exception has escaped, an image changes nothing. */
  lemma ImageStepFromRaised(env: Env, w: World, release: Release, image: Image)
    requires w.raised
    ensures ImageStep(env, w, release, image) == w
  {
  }

  /** Once an exception has escaped, the remaining images change nothing. */
  lemma {:induction false} JobsRunFromRaised(env: Env, w: World, jobs: seq<Job>)
    requires w.raised
    ensures JobsRun(env, w, jobs) == w
  {
    if jobs != [] {
      JobsRunFromRaised(env, w, jobs[..|jobs| - 1]);
    }
  }

  lemma ImagesRunFromRaised(env: Env, w: World, release: Release, images: seq<Image>)
    requires w.raised
    ensures ImagesRun(env, w, release, images) == w
  {
    ImagesRunAsJobs(env, w, release, images);
    JobsRunFromRaised(env, w, ImageJobs(release, images));
  }

  lemma ReleasesRunFromRaised(env: Env, w: World, releases: seq<Release>)
    requires w.raised
    ensures ReleasesRun(env, w, releases) == w
  {
    ReleasesRunAsJobs(env, w, releases);
    JobsRunFromRaised(env, w, ReleaseJobs(releases));
  }

  lemma HardwareRunFromRaised(env: Env, w: World, hardware: seq<Hardware>)
    requires w.raised
    ensures HardwareRun(env, w, hardware) == w
  {
    HardwareRunAsJobs(env, w, hardware);
    JobsRunFromRaised(env, w, HardwareJobs(hardware));
  }

  /** Running one image more is one more step. */
  lemma ImagesRunSnoc(env: Env, w: World, release: Release, images: seq<Image>, i: nat)
    requires i < |images|
    ensures ImagesRun(env, w, release, images[..i + 1])
      == ImageStep(env, ImagesRun(env, w, release, images[..i]), release, images[i])
  {
    assert images[..i + 1][..i] == images[..i];
  }

  lemma ReleasesRunSnoc(env: Env, w: World, releases: seq<Release>, k: nat)
    requires k < |releases|
    ensures ReleasesRun(env, w, releases[..k + 1])
      == ImagesRun(env, ReleasesRun(env, w, releases[..k]), releases[k], releases[k].images)
  {
    assert releases[..k + 1][..k] == releases[..k];
  }

  lemma HardwareRunSnoc(env: Env, w: World, hardware: seq<Hardware>, j: nat)
    requires j < |hardware|
    ensures HardwareRun(env, w, hardware[..j + 1])
      == ReleasesRun(env, HardwareRun(env, w, hardware[..j]), hardware[j].releases)
  {
    assert hardware[..j + 1][..j] == hardware[..j];
  }

  lemma DevicesRunSnoc(env: Env, w: World, devices: seq<Device>, i: nat)
    requires i < |devices|
    ensures DevicesRun(env, w, devices[..i + 1])
      == HardwareRun(env, DevicesRun(env, w, devices[..i]), devices[i].hardware)
  {
    assert devices[..i + 1][..i] == devices[..i];
  }

  /** A release whose first k images raise is done after them: download_release stops there. */
  lemma {:induction false} ImagesRunStops(env: Env, w: World, release: Release, images: seq<Image>, k: nat)
    requires k <= |images| && ImagesRun(env, w, release, images[..k]).raised
    ensures ImagesRun(env, w, release, images) == ImagesRun(env, w, release, images[..k])
  {
    if k == |images| {
      assert images[..k] == images;
    } else {
      var n := |images| - 1;
      assert images[..n][..k] == images[..k];
      ImagesRunStops(env, w, release, images[..n], k);
      ImageStepFromRaised(env, ImagesRun(env, w, release, images[..n]), release, images[n]);
    }
  }

  lemma {:induction false} ReleasesRunStops(env: Env, w: World, releases: seq<Release>, k: nat)
    requires k <= |releases| && ReleasesRun(env, w, releases[..k]).raised
    ensures ReleasesRun(env, w, releases) == ReleasesRun(env, w, releases[..k])
  {
    if k == |releases| {
      assert releases[..k] == releases;
    } else {
      var n := |releases| - 1;
      assert releases[..n][..k] == releases[..k];
      ReleasesRunStops(env, w, releases[..n], k);
      ImagesRunFromRaised(env, ReleasesRun(env, w, releases[..n]), releases[n], releases[n].images);
    }
  }

  lemma {:induction false} HardwareRunStops(env: Env, w: World, hardware: seq<Hardware>, k: nat)
    requires k <= |hardware| && HardwareRun(env, w, hardware[..k]).raised
    ensures HardwareRun(env, w, hardware) == HardwareRun(env, w, hardware[..k])
  {
    if k == |hardware| {
      assert hardware[..k] == hardware;
    } else {
      var n := |hardware| - 1;
      assert hardware[..n][..k] == hardware[..k];
      HardwareRunStops(env, w, hardware[..n], k);
      ReleasesRunFromRaised(env, HardwareRun(env, w, hardware[..n]), hardware[n].releases);
    }
  }

  lemma {:induction false} DevicesRunStops(env: Env, w: World, devices: seq<Device>, k: nat)
    requires k <= |devices| && DevicesRun(env, w, devices[..k]).raised
    ensures DevicesRun(env, w, devices) == DevicesRun(env, w, devices[..k])
  {
    if k == |devices| {
      assert devices[..k] == devices;
    } else {
      var n := |devices| - 1;
      assert devices[..n][..k] == devices[..k];
      DevicesRunStops(env, w, devices[..n], k);
      HardwareRunFromRaised(env, DevicesRun(env, w, devices[..n]), devices[n].hardware);
    }
  }

  // ---------------------------------------------------------------------------
  // What a run reports and requests

  /** The file names a list of reports is about, in order. */
  function Filenames(reports: seq<Report>): (r: seq<string>)
    ensures |r| == |reports|
  {
    if reports == [] then [] else Filenames(reports[..|reports| - 1]) + [reports[|reports| - 1].filename]
  }

  /** The file names of the images of a list of jobs, in order. */
  function JobFilenames(jobs: seq<Job>): (r: seq<string>)
    ensures |r| == |jobs|
  {
    if jobs == [] then [] else JobFilenames(jobs[..|jobs| - 1]) + [jobs[|jobs| - 1].image.filename]
  }

  /** No report of the list is RemoveRaised. */
  predicate NoneRaised(reports: seq<Report>) {
    forall k :: 0 <= k < |reports| ==> reports[k].outcome != RemoveRaised
  }

  /** Appending to a sequence leaves every prefix up to its old length, and extends every such suffix. */
  lemma SnocSlices<T>(a: seq<T>, x: T, k: nat)
    requires k <= |a|
    ensures (a + [x])[..k] == a[..k]
    ensures (a + [x])[k..] == a[k..] + [x]
  {
  }

  /** w' is w1 after one image handled: one report, for its file, a request when it was fetched, an exception after RemoveRaised. */
  predicate StepLogged(w1: World, w': World, job: Job) {
    && |w'.reports| == |w1.reports| + 1
    && w'.reports[..|w1.reports|] == w1.reports
    && var outcome := w'.reports[|w1.reports|].outcome;
       && w'.reports[|w1.reports|].filename == job.image.filename
       && w'.requests == w1.requests + (if Requested(outcome) then [ConstructUrl(job.release, job.image)] else [])
       && (w'.raised <==> outcome == RemoveRaised)
  }

  /** The last job of a run changes nothing once an exception has escaped, and is logged otherwise. */
  lemma JobsRunLast(env: Env, w: World, jobs: seq<Job>)
    requires jobs != []
    ensures var n := |jobs| - 1; var w1 := JobsRun(env, w, jobs[..n]); var w' := JobsRun(env, w, jobs);
      && (w1.raised ==> w'.reports == w1.reports && w'.requests == w1.requests && w'.raised)
      && (!w1.raised ==> StepLogged(w1, w', jobs[n]))
  {
    var n := |jobs| - 1;
    var w1 := JobsRun(env, w, jobs[..n]);
    if !w1.raised {
      ImageStepLog(env, w1, jobs[n].release, jobs[n].image);
    }
  }

  /**
   * From w to w' over `jobs`: the earlier reports are kept and one report per job is added,
   * in order, for a prefix of the jobs; for all of them unless an exception escaped.
   */
  predicate ReportsAdded(w: World, w': World, jobs: seq<Job>) {
    && |w.reports| <= |w'.reports| <= |w.reports| + |jobs|
    && w'.reports[..|w.reports|] == w.reports
    && Filenames(w'.reports[|w.reports|..]) == JobFilenames(jobs[..|w'.reports| - |w.reports|])
    && (!w'.raised ==> |w'.reports| == |w.reports| + |jobs|)
  }

  /**
   * From w to w', with no exception escaping before: the run raised exactly when a report
   * is RemoveRaised, and that is the last report added.
   */
  predicate StopsAtRaise(w: World, w': World) {
    && |w.reports| <= |w'.reports|
    && var added := w'.reports[|w.reports|..];
       && (!w'.raised ==> NoneRaised(added))
       && (w'.raised ==>
             added != [] && added[|added| - 1].outcome == RemoveRaised && NoneRaised(added[..|added| - 1]))
  }

  /** From w to w' over `jobs`: the URLs requested are those of the jobs reported as fetched, once each, in order. */
  predicate RequestsAdded(w: World, w': World, jobs: seq<Job>) {
    && |w.reports| <= |w'.reports| <= |w.reports| + |jobs|
    && w'.requests == w.requests + AttemptedUrls(jobs[..|w'.reports| - |w.reports|], w'.reports[|w.reports|..])
  }

  /** The step of the last job keeps ReportsAdded. */
  lemma ReportsAddedSnoc(w: World, w1: World, w': World, jobs: seq<Job>)
    requires jobs != [] && ReportsAdded(w, w1, jobs[..|jobs| - 1])
    requires w1.raised ==> w'.reports == w1.reports && w'.raised
    requires !w1.raised ==> StepLogged(w1, w', jobs[|jobs| - 1])
    ensures ReportsAdded(w, w', jobs)
  {
    var n := |jobs| - 1;
    var m1 := |w1.reports| - |w.reports|;
    assert jobs[..n][..m1] == jobs[..m1];
    if !w1.raised {
      var report := w'.reports[|w1.reports|];
      assert w'.reports == w1.reports + [report];
      SnocSlices(w1.reports, report, |w.reports|);
      var after := w1.reports[|w.reports|..] + [report];
      assert after[..|after| - 1] == w1.reports[|w.reports|..];
      assert jobs[..n + 1] == jobs;
    }
  }

  /** The step of the last job keeps StopsAtRaise. */
  lemma StopsAtRaiseSnoc(w: World, w1: World, w': World, job: Job)
    requires StopsAtRaise(w, w1)
    requires w1.raised ==> w'.reports == w1.reports && w'.raised
    requires !w1.raised ==> StepLogged(w1, w', job)
    ensures StopsAtRaise(w, w')
  {
    if !w1.raised {
      var report := w'.reports[|w1.reports|];
      assert w'.reports == w1.reports + [report];
      SnocSlices(w1.reports, report, |w.reports|);
      var before := w1.reports[|w.reports|..];
      var after := before + [report];
      assert after[..|after| - 1] == before;
      assert forall k :: 0 <= k < |before| ==> after[k] == before[k];
    }
  }

  /** The step of the last job keeps RequestsAdded. */
  lemma RequestsAddedSnoc(w: World, w1: World, w': World, jobs: seq<Job>)
    requires jobs != [] && RequestsAdded(w, w1, jobs[..|jobs| - 1]) && ReportsAdded(w, w1, jobs[..|jobs| - 1])
    requires w1.raised ==> w'.reports == w1.reports && w'.requests == w1.requests
    requires !w1.raised ==> StepLogged(w1, w', jobs[|jobs| - 1])
    ensures RequestsAdded(w, w', jobs)
  {
    var n := |jobs| - 1;
    var m1 := |w1.reports| - |w.reports|;
    assert jobs[..n][..m1] == jobs[..m1];
    if !w1.raised {
      var report := w'.reports[|w1.reports|];
      var outcome := report.outcome;
      assert w'.reports == w1.reports + [report];
      SnocSlices(w1.reports, report, |w.reports|);
      var r := w1.reports[|w.reports|..] + [report];
      assert r[..n] == w1.reports[|w.reports|..];
      assert r[n] == report;
      assert jobs[..n + 1] == jobs;
      var tail := if Requested(outcome) then [ConstructUrl(jobs[n].release, jobs[n].image)] else [];
      var earlier := AttemptedUrls(jobs[..n], w1.reports[|w.reports|..]);
      assert AttemptedUrls(jobs, r) == earlier + tail;
      assert w'.reports[|w.reports|..] == r;
      assert w'.requests == (w.requests + earlier) + tail;
      assert (w.requests + earlier) + tail == w.requests + (earlier + tail);
    }
  }

  /** Running a list of images adds their reports as ReportsAdded says, whatever the world before. */
  lemma {:induction false} JobsRunReports(env: Env, w: World, jobs: seq<Job>)
    ensures ReportsAdded(w, JobsRun(env, w, jobs), jobs)
  {
    if jobs == [] {
      assert jobs[..0] == [];
    } else {
      var n := |jobs| - 1;
      var w1 := JobsRun(env, w, jobs[..n]);
      JobsRunReports(env, w, jobs[..n]);
      JobsRunLast(env, w, jobs);
      ReportsAddedSnoc(w, w1, JobsRun(env, w, jobs), jobs);
    }
  }

  /** A run that starts with no exception stops exactly at the first RemoveRaised report. */
  lemma {:induction false} JobsRunStops(env: Env, w: World, jobs: seq<Job>)
    requires !w.raised
    ensures StopsAtRaise(w, JobsRun(env, w, jobs))
  {
    if jobs != [] {
      var n := |jobs| - 1;
      var w1 := JobsRun(env, w, jobs[..n]);
      JobsRunStops(env, w, jobs[..n]);
      JobsRunLast(env, w, jobs);
      StopsAtRaiseSnoc(w, w1, JobsRun(env, w, jobs), jobs[n]);
    }
  }

  /** Running a list of images requests exactly what RequestsAdded says. */
  lemma {:induction false} JobsRunRequests(env: Env, w: World, jobs: seq<Job>)
    ensures RequestsAdded(w, JobsRun(env, w, jobs), jobs)
  {
    if jobs == [] {
      assert jobs[..0] == [];
    } else {
      var n := |jobs| - 1;
      var w1 := JobsRun(env, w, jobs[..n]);
      JobsRunRequests(env, w, jobs[..n]);
      JobsRunReports(env, w, jobs[..n]);
      JobsRunLast(env, w, jobs);
      RequestsAddedSnoc(w, w1, JobsRun(env, w, jobs), jobs);
    }
  }

  /** A path that is no image's output path is never touched. */
  lemma {:induction false} JobsRunFrame(env: Env, w: World, jobs: seq<Job>, p: string)
    requires forall k :: 0 <= k < |jobs| ==> JobPath(env, jobs[k]) != p
    ensures var w' := JobsRun(env, w, jobs);
      (p in w'.files <==> p in w.files) && (p in w.files ==> w'.files[p] == w.files[p])
  {
    if jobs != [] {
      var n := |jobs| - 1;
      assert JobPath(env, jobs[n]) != p;
      JobsRunFrame(env, w, jobs[..n], p);
      JobsRunUnfold(env, w, jobs);
      ImageStepFrame(env, JobsRun(env, w, jobs[..n]), jobs[n].release, jobs[n].image, p);
    }
  }

  /**
   * Two images with distinct file paths, neither on disk: the first download fails, the
   * second succeeds. Both are requested, in order; only the second file exists.
   */
  lemma FailureIsolated(env: Env, w: World, a: Job, b: Job)
    requires !w.raised
    requires Writable(JobPath(env, a)) && Writable(JobPath(env, b)) && JobPath(env, a) != JobPath(env, b)
    requires JobPath(env, a) !in w.files && JobPath(env, b) !in w.files
    requires Body(env.network(ConstructUrl(a.release, a.image))).None?
    requires Body(env.network(ConstructUrl(b.release, b.image))).Some?
    ensures var w' := JobsRun(env, w, [a, b]);
      && w'.requests == w.requests + [ConstructUrl(a.release, a.image), ConstructUrl(b.release, b.image)]
      && JobPath(env, a) !in w'.files
      && JobPath(env, b) in w'.files
      && w'.files[JobPath(env, b)] == Body(env.network(ConstructUrl(b.release, b.image))).value
      && !w'.raised
  {
    assert [a, b][..1] == [a];
    assert [a][..0] == [];
    var w1 := ImageStep(env, w, a.release, a.image);
    assert JobsRun(env, w, [a]) == w1;
    ImageStepDownloads(env, w, a.release, a.image);
    ImageStepFrame(env, w, a.release, a.image, JobPath(env, b));
    ImageStepDownloads(env, w1, b.release, b.image);
    ImageStepFrame(env, w1, b.release, b.image, JobPath(env, a));
  }

  // ---------------------------------------------------------------------------
  // The downloader over a mutable filesystem

  class FirmwareDownloader {
    const env: Env
    /** The files on disk, by path. */
    var files: map<string, seq<byte>>
    /** Every URL requested, in order. */
    ghost var requests: seq<string>
    /** One report per image processed, in order. */
    ghost var reports: seq<Report>

    /** The downloader's world, with `raised` saying whether an exception has escaped. */
    ghost function State(raised: bool): World
      reads this
    {
      World(files, requests, reports, raised)
    }

    /** The downloader over the files already on disk; creating the base directory changes no file. */
    constructor (env: Env, disk: map<string, seq<byte>>)
      ensures this.env == env && files == disk && requests == [] && reports == []
    {
      this.env := env;
      files := disk;
      requests := [];
      reports := [];
    }

    /** calculate_md5: the file is fed to the digest ChunkSize bytes at a time; "" when it cannot be read. */
    method CalculateMd5(filePath: string) returns (digest: string)
      ensures IsFile(files, filePath) ==> digest == env.md5(files[filePath])
      ensures !IsFile(files, filePath) ==> digest == ""
    {
      if !IsFile(files, filePath) {
        return "";
      }
      var content := files[filePath];
      // the input the hash state has absorbed so far
      var absorbed: seq<byte> := [];
      var position := 0;
      while position < |content|
        invariant 0 <= position <= |content|
        invariant absorbed == content[..position]
        decreases |content| - position
      {
        var end := if position + ChunkSize <= |content| then position + ChunkSize else |content|;
        var chunk := content[position..end];
        absorbed := absorbed + chunk;
        position := end;
      }
      assert content[..|content|] == content;
      digest := env.md5(absorbed);
    }

    /** validate_md5: the computed digest equals the expected one up to ASCII case. */
    method ValidateMd5(filePath: string, expectedMd5: string) returns (isValid: bool)
      ensures isValid == DigestMatches(FileDigest(env, files, filePath), expectedMd5)
      ensures IsFile(files, filePath) ==> (isValid <==> EqualIgnoringCase(env.md5(files[filePath]), expectedMd5))
      ensures !IsFile(files, filePath) ==> (isValid <==> expectedMd5 == "")
    {
      var calculated := CalculateMd5(filePath);
      isValid := Lower(calculated) == Lower(expectedMd5);
      LowerEqualIffEqualIgnoringCase(calculated, expectedMd5);
    }

    /**
     * The read loop of download_file: the file at `outputPath` is truncated, then each chunk
     * read is appended to it; the result counts the bytes written.
     */
    method WriteChunks(outputPath: string, chunks: seq<Chunk>) returns (ghost downloaded: nat)
      modifies this
      ensures files == old(files)[outputPath := Concat(chunks)]
      ensures downloaded == |Concat(chunks)|
      ensures requests == old(requests) && reports == old(reports)
    {
      downloaded := 0;
      files := files[outputPath := []];
      for i := 0 to |chunks|
        invariant outputPath in files && files[outputPath] == Concat(chunks[..i])
        invariant files == old(files)[outputPath := files[outputPath]]
        invariant downloaded == TotalLength(chunks[..i])
        invariant requests == old(requests) && reports == old(reports)
      {
        assert chunks[..i + 1][..i] == chunks[..i];
        files := files[outputPath := files[outputPath] + chunks[i]];
        downloaded := downloaded + |chunks[i]|;
      }
      assert chunks[..|chunks|] == chunks;
    }

    /**
     * download_file: one request; the body is written chunk by chunk to a truncated file.
     * On any failure the file, if any, is removed and the result is false; on a directory
     * that removal raises, and `raised` says the exception escapes.
     */
    method DownloadFile(url: string, outputPath: string) returns (ok: bool, raised: bool, ghost downloaded: nat)
      modifies this
      ensures requests == old(requests) + [url] && reports == old(reports)
      ensures ok == Fetched(env, url, outputPath).Some?
      ensures raised == IsDirectory(outputPath)
      ensures ok ==> files == old(files)[outputPath := Fetched(env, url, outputPath).value]
      ensures ok ==> downloaded == |files[outputPath]|
      ensures !ok && !raised ==> files == Discard(old(files), outputPath)
      ensures raised ==> files == old(files)
    {
      requests := requests + [url];
      ok, raised, downloaded := false, false, 0;
      match env.network(url) {
        case Unreachable =>
        case Reply(contentLength, chunks, complete) =>
          // int() of the header comes first, then open(outputPath, "wb")
          if !(contentLength.Some? && PyInt.ParseInt(contentLength.value).None?) && Writable(outputPath) {
            downloaded := WriteChunks(outputPath, chunks);
            ok := complete;
          }
      }
      if !ok {
        downloaded := 0;
        if IsDirectory(outputPath) {
          raised := true;
        } else if IsFile(files, outputPath) {
          files := files - {outputPath};
          assert files == old(files) - {outputPath};
        }
      }
    }

    /**
     * The body of download_release's loop for one image: skip a valid file, remove a
     * stale one, download, and check the digest of what was written. The result says
     * whether an exception escaped.
     */
    method DownloadImage(release: Release, image: Image) returns (raised: bool)
      modifies this
      ensures State(raised) == ImageStep(env, old(State(false)), release, image)
    {
      var url := ConstructUrl(release, image);
      var outputPath := ConstructOutputPath(env.baseDirectory, release, image);
      if Exists(files, outputPath) {
        var valid := ValidateMd5(outputPath, image.md5);
        if valid {
          reports := reports + [Report(image.filename, AlreadyValid)];
          return false;
        }
        if IsDirectory(outputPath) {
          // os.remove refuses a directory
          reports := reports + [Report(image.filename, RemoveRaised)];
          return true;
        }
        files := files - {outputPath};
      }
      assert files == Discard(old(files), outputPath);
      var ok, fileRaised, _ := DownloadFile(url, outputPath);
      assert !fileRaised;
      if ok {
        assert files == old(files)[outputPath := Fetched(env, url, outputPath).value];
        var valid := ValidateMd5(outputPath, image.md5);
        reports := reports + [Report(image.filename, Downloaded(valid))];
      } else {
        assert files == Discard(old(files), outputPath);
        reports := reports + [Report(image.filename, DownloadFailed)];
      }
      raised := false;
    }

    /** download_release: the per-image procedure for each image of the release, in order, until one raises. */
    method DownloadRelease(release: Release, deviceName: string) returns (raised: bool)
      modifies this
      ensures State(raised) == ImagesRun(env, old(State(false)), release, release.images)
    {
      raised := false;
      for i := 0 to |release.images|
        invariant !raised
        invariant State(false) == ImagesRun(env, old(State(false)), release, release.images[..i])
      {
        ImagesRunSnoc(env, old(State(false)), release, release.images, i);
        raised := DownloadImage(release, release.images[i]);
        if raised {
          ImagesRunStops(env, old(State(false)), release, release.images, i + 1);
          return;
        }
      }
      assert release.images[..|release.images|] == release.images;
    }

    /** The innermost loop of download_all: every release of one hardware entry, in order, until one raises. */
    method DownloadHardware(hardware: Hardware, deviceName: string) returns (raised: bool)
      modifies this
      ensures State(raised) == ReleasesRun(env, old(State(false)), hardware.releases)
    {
      raised := false;
      for k := 0 to |hardware.releases|
        invariant !raised
        invariant State(false) == ReleasesRun(env, old(State(false)), hardware.releases[..k])
      {
        ReleasesRunSnoc(env, old(State(false)), hardware.releases, k);
        raised := DownloadRelease(hardware.releases[k], deviceName);
        if raised {
          ReleasesRunStops(env, old(State(false)), hardware.releases, k + 1);
          return;
        }
      }
      assert hardware.releases[..|hardware.releases|] == hardware.releases;
    }

    /** The middle loop of download_all: every hardware entry of one device, in order, until one raises. */
    method DownloadDevice(device: Device) returns (raised: bool)
      modifies this
      ensures State(raised) == HardwareRun(env, old(State(false)), device.hardware)
    {
      raised := false;
      for j := 0 to |device.hardware|
        invariant !raised
        invariant State(false) == HardwareRun(env, old(State(false)), device.hardware[..j])
      {
        HardwareRunSnoc(env, old(State(false)), device.hardware, j);
        raised := DownloadHardware(device.hardware[j], device.productname);
        if raised {
          HardwareRunStops(env, old(State(false)), device.hardware, j + 1);
          return;
        }
      }
      assert device.hardware[..|device.hardware|] == device.hardware;
    }

    /**
     * download_all: every release of every hardware entry of every device, in document order;
     * `raised` says an exception escaped, after which nothing more was done.
     */
    method DownloadAll(index: FirmwareIndex) returns (raised: bool)
      modifies this
      ensures State(raised) == DevicesRun(env, old(State(false)), index.devices)
      ensures State(raised) == JobsRun(env, old(State(false)), Traversal(index))
    {
      raised := false;
      for i := 0 to |index.devices|
        invariant !raised
        invariant State(false) == DevicesRun(env, old(State(false)), index.devices[..i])
      {
        DevicesRunSnoc(env, old(State(false)), index.devices, i);
        raised := DownloadDevice(index.devices[i]);
        if raised {
          DevicesRunStops(env, old(State(false)), index.devices, i + 1);
          break;
        }
      }
      if !raised {
        assert index.devices[..|index.devices|] == index.devices;
      }
      DevicesRunAsJobs(env, old(State(false)), index.devices);
    }

    /** download_index_xml: one request; the decoded body, or "" on any failure. */
    method DownloadIndexXml(url: string) returns (xml: string)
      modifies this
      ensures requests == old(requests) + [url] && files == old(files) && reports == old(reports)
      ensures env.network(url).Unreachable? ==> xml == ""
      ensures env.network(url).Reply? && !env.network(url).complete ==> xml == ""
      ensures env.network(url).Reply? && env.network(url).complete ==>
        var decoded := env.decodeUtf8(Concat(env.network(url).chunks));
        (decoded.None? ==> xml == "") && (decoded.Some? ==> xml == decoded.value)
      ensures xml != "" ==>
        && env.network(url).Reply? && env.network(url).complete
        && env.decodeUtf8(Concat(env.network(url).chunks)) == Some(xml)
    {
      requests := requests + [url];
      match env.network(url)
      case Unreachable =>
        xml := "";
      case Reply(_, chunks, complete) =>
        if !complete {
          xml := "";
        } else {
          match env.decodeUtf8(Concat(chunks))
          case None =>
            xml := "";
          case Some(text) =>
            xml := text;
        }
    }
  }
}
# Ozlo Sleepbuds firmware downloader — a Dafny model

This project models the two components at the heart of the firmware downloader.

1. **The index-tree mapper** (`firmware_parser.py`). It reads an XML element tree of the form
   INDEX > DEVICE > HARDWARE > RELEASE > IMAGE and builds plain records from it:
   `FirmwareIndex`, `Device`, `Hardware`, `Release` and `Image`. It follows three lenient rules:
   - unknown child tags are skipped;
   - an absent string attribute reads as `""`;
   - LENGTH, TARGET and SUBID read as `0` when absent or when Python's `int()` rejects them.

   A parse failure yields the default, empty index.
2. **The fetcher** (`firmware_downloader.py`). For every image of an index it builds:
   - the URL: `https://` + host + path + file name;
   - the output path: base / channel / date / revision / file name.

   It then runs the per-image sequence against the files on disk:
   - skip a file whose MD5 digest already matches, ignoring case;
   - otherwise remove the stale file and download once;
   - the download writes the body chunk by chunk and, on any failure, leaves no file;
   - finally, check the digest of what was written.

   An output path can name a directory: a trailing `/` (an empty file name) or a last component `.` or `..`.
   - Such a path exists once its parent has been created.
   - Its digest reads as `""`, so it passes the check only against an empty expected digest.
   - Otherwise `os.remove` raises on it. That exception is caught nowhere, so it ends `download_all`.
   - The model carries this as the `raised` flag of a `World` and as the `raised` result of each download method. Once it is set, nothing more happens.

The Dafny modules are:

| module | file | contents |
|---|---|---|
| `Wrappers` | `wrappers.dfy` | `Option` |
| `PyInt` | `py_int.dfy` | `int()` on a base-10 string, `str()` on an integer |
| `Parser` | `firmware_parser.dfy` | the records; the element tree; the spec functions `*Record`; the parse methods, which fill in fields and append children in loops, as the source does |
| `Downloader` | `firmware_downloader.dfy` | URL and path construction; digest comparison; the pure per-image transformer `ImageStep` and its folds over the traversal; the class `FirmwareDownloader` over a mutable file map |

Each method of the class is proved against those functions. The outside world is a parameter:
- the XML text parser is `string -> Option<Elem>`, which gives `None` where it raises;
- the network, MD5 and UTF-8 decoding are function fields of `Downloader.Env`.

`PyInt.ParseInt` accepts this grammar:
- optional whitespace at both ends: tab, line feed, vertical tab, form feed, carriage return and space, and every non-ASCII character `str.isspace()` accepts. U+001C to U+001F are `str.isspace()` characters, but `int()` does not skip them, so a string holding one is rejected.
- between the whitespace, an optional sign and ASCII digits, with single underscores allowed between digits.

Python's `int()` additionally accepts non-ASCII decimal digits (see "Left out").

`os.path.join` is modelled as on POSIX (`posixpath.join`):
- a component that starts with `/` discards what came before it;
- a `/` is inserted only when the left part is non-empty and does not already end with one;
- the parts are joined one by one, left to right (`JoinAll`).

The source's nested loops are split across methods: `download_all` becomes `DownloadAll`, `DownloadDevice` and `DownloadHardware`; the body of `download_release`'s loop becomes `DownloadImage`; the read loop of `download_file` becomes `WriteChunks`. Each method keeps its loop and its order.

## Model

| member | source | states |
|---|---|---|
| PyInt.ParseInt | firmware_parser.py:171 | no contract of its own: ParseIntOfDecimalString, ParseIntRejectsForeignChar, ParseIntRejectsBlank and ParseIntKeepsAsciiSeparators state what it accepts and what it yields |
| PyInt.ParseIntOfDecimalString | firmware_parser.py:171 | int() of the decimal text of any integer, negative ones included, gives that integer back |
| PyInt.ParseIntRejectsForeignChar | firmware_parser.py:170-173 | a string holding any character other than whitespace, an ASCII digit, a sign or '_' is rejected by int() |
| PyInt.ParseIntRejectsBlank | firmware_parser.py:170-173 | an empty or all-whitespace string is rejected by int() |
| PyInt.ParseIntKeepsAsciiSeparators | firmware_parser.py:170-173 | U+001C before a digit is not skipped as whitespace: the string is rejected |
| PyInt.StripLeadingSpec | firmware_parser.py:171 | stripping the front leaves a suffix that does not start with whitespace, and only whitespace was dropped |
| PyInt.StripTrailingSpec | firmware_parser.py:171 | stripping the end leaves a prefix that does not end with whitespace, and only whitespace was dropped |
| PyInt.NatStringDigits | firmware_parser.py:171 | str() of a natural number is a non-empty digit string whose value is that number |
| PyInt.DigitStringChars | firmware_parser.py:171 | a digit string accepted by int() starts with a digit and holds only digits and '_' |
| Parser.Positions | firmware_parser.py:107-108 | the positions of the children with a tag: in range, ascending, and every such child listed |
| Parser.SelectAtPositions | firmware_parser.py:107-108 | the selected children are exactly the children at those positions, in order |
| Parser.SelectAppend | firmware_parser.py:107-108 | selecting from two runs of children is selecting from each, one after the other |
| Parser.ImageFields | firmware_parser.py:158-185 | every image string field is its exactly-named attribute or ""; LENGTH, TARGET and SUBID are int() of the attribute, or 0 when it is absent or rejected |
| Parser.ReleaseFields | firmware_parser.py:143-148 | the string fields of a release are its exactly-named attributes or "" |
| Parser.ContainerFields | firmware_parser.py:104-131 | the string fields of the index, a device and a hardware entry are their exactly-named attributes or "" |
| Parser.WellFormedIntegerField | firmware_parser.py:170-183 | an integer attribute written as a decimal integer yields exactly that integer, with no range check |
| Parser.ImageDependsOnlyOnAttributes | firmware_parser.py:158-185 | an image record depends on its own element's attributes only |
| Parser.DevicesInDocumentOrder | firmware_parser.py:107-110 | one device per DEVICE child of the root, in document order, each the record of that child |
| Parser.HardwareInDocumentOrder | firmware_parser.py:121-124 | one hardware entry per HARDWARE child of a device, in document order |
| Parser.ReleasesInDocumentOrder | firmware_parser.py:134-137 | one release per RELEASE child of a hardware element, in document order |
| Parser.ImagesInDocumentOrder | firmware_parser.py:151-154 | one image per IMAGE child of a release, in document order |
| Parser.IndexIgnoresUnknownChild | firmware_parser.py:107-108 | inserting or removing a root child that is not a DEVICE changes nothing in the index |
| Parser.ParseImage | firmware_parser.py:158-185 | the record built field by field is the image the element denotes |
| Parser.ParseRelease | firmware_parser.py:141-156 | the release, with the records of its IMAGE children appended one at a time, is the release the element denotes |
| Parser.ParseHardware | firmware_parser.py:128-139 | the same for a hardware element and its RELEASE children |
| Parser.ParseDevice | firmware_parser.py:114-126 | the same for a device and its HARDWARE children |
| Parser.ParseRoot | firmware_parser.py:99-112 | the same for the root and its DEVICE children; the revision is the root's REVISION or "" |
| Parser.ParseFromString | firmware_parser.py:81-97 | when the XML text does not parse, the default index; otherwise the index of the tree |
| Parser.Parse | firmware_parser.py:62-79 | when the file cannot be read or parsed, the default index; otherwise the index of the tree |
| Downloader.ConstructUrl | firmware_downloader.py:89-100 | the URL is "https://", the host, the URL path and the file name, in that order with nothing added |
| Downloader.Join | firmware_downloader.py:114-120 | no contract of its own: os.path.join of two parts on POSIX; OutputPathJoins, OutputPathLayout, OutputPathEndsWithFilename, AbsoluteFilenameReplacesPath and DirectoryFilenames state what the joined path is |
| Downloader.JoinAll | firmware_downloader.py:114-120 | no contract of its own: os.path.join of several parts, folded left to right; OutputPathJoins unfolds it for the five parts of an output path |
| Downloader.ConstructOutputPath | firmware_downloader.py:102-120 | no contract of its own: base, channel, date, revision and file name joined; the OutputPath* lemmas and DirectoryFilenames state its shape |
| Downloader.OutputPathJoins | firmware_downloader.py:114-120 | the output path is the base joined with the channel, then the date, the revision and the file name |
| Downloader.OutputPathLayout | firmware_downloader.py:102-120 | with plain components the path is base/channel/date/revision/filename |
| Downloader.OutputPathEndsWithFilename | firmware_downloader.py:114-120 | the output path always ends with a non-empty file name |
| Downloader.AbsoluteFilenameReplacesPath | firmware_downloader.py:114-120 | a file name starting with '/' is the whole output path, outside the base directory |
| Downloader.DirectoryFilenames | firmware_downloader.py:63-66 | an empty, "." or ".." file name makes a non-empty output path a directory, which exists once its parent is created |
| Downloader.Lower | firmware_downloader.py:219 | lowering keeps the length and lowers each ASCII letter in place |
| Downloader.LowerEqualIffEqualIgnoringCase | firmware_downloader.py:219 | comparing lowered strings is the same as comparing them character by character up to ASCII case, both ways |
| Downloader.Concat | firmware_downloader.py:160-166 | the bytes written are as many as the chunks hold together |
| Downloader.Body | firmware_downloader.py:150-185 | no contract of its own: the body a response yields, or None when the request raises, int() rejects the Content-Length or a read raises; DownloadFile's contract and ImageStepDownloads state what the file then holds |
| Downloader.ImageStep | firmware_downloader.py:61-87 | no contract of its own: one image of download_release; ImageStepLog, ImageStepFrame, ImageStepSkipsValidFile, ImageStepDirectoryRaises, ImageStepDownloads and ImageStepFromRaised state what it does in each case |
| Downloader.ImageStepLog | firmware_downloader.py:61-87 | one image adds exactly one report, for that file; its URL is requested exactly when the report says it was fetched; an exception escapes exactly when the report is RemoveRaised |
| Downloader.ImageStepFrame | firmware_downloader.py:61-87 | no path other than the image's output path changes |
| Downloader.ImageStepSkipsValidFile | firmware_downloader.py:69-73 | a file on disk with a matching digest is kept and nothing is requested; so is a directory when the expected digest is empty |
| Downloader.ImageStepDirectoryRaises | firmware_downloader.py:69-76 | a directory whose expected digest is not empty: os.remove raises, nothing is requested or written, and the run ends |
| Downloader.ImageStepDownloads | firmware_downloader.py:74-87 | a path that is not a directory and not a valid file: the stale file is removed and exactly one request is made; a failed download leaves no file; a successful one leaves the body even when its digest then fails |
| Downloader.ImageStepFromRaised | firmware_downloader.py:76 | after an escaped exception an image changes nothing |
| Downloader.JobsRunAppend | firmware_downloader.py:38-49 | running two lists of images one after the other is running their concatenation |
| Downloader.ImagesRunAsJobs | firmware_downloader.py:61 | download_release's loop over the images is the run of its image jobs |
| Downloader.ReleasesRunAsJobs | firmware_downloader.py:44-49 | the loop over releases is the run of the concatenated jobs of its releases |
| Downloader.HardwareRunAsJobs | firmware_downloader.py:41-49 | the same for the loop over hardware entries |
| Downloader.DevicesRunAsJobs | firmware_downloader.py:38-49 | the same for the loop over devices |
| Downloader.JobsRunFromRaised | firmware_downloader.py:38-49 | once an exception has escaped, the rest of the traversal changes nothing |
| Downloader.ImagesRunStops | firmware_downloader.py:61-76 | when an image of a release raises, the loop over the release ends there |
| Downloader.ReleasesRunStops | firmware_downloader.py:44-49 | the same for the loop over releases |
| Downloader.HardwareRunStops | firmware_downloader.py:41-49 | the same for the loop over hardware entries |
| Downloader.DevicesRunStops | firmware_downloader.py:38-49 | the same for the loop over devices |
| Downloader.JobsRunReports | firmware_downloader.py:38-87 | earlier reports are kept; one report per image follows, naming the images in traversal order; every image gets one unless an exception escaped, and a failed download does not stop the run |
| Downloader.JobsRunStops | firmware_downloader.py:38-87 | starting with no exception, the run raises exactly when an image reports RemoveRaised, and that is its last report |
| Downloader.JobsRunRequests | firmware_downloader.py:38-87 | the requests made are exactly the URLs of the images reported as fetched (neither already valid nor raising), once each, in traversal order |
| Downloader.JobsRunFrame | firmware_downloader.py:38-49 | a path that is no image's output path is never touched |
| Downloader.FailureIsolated | firmware_downloader.py:61-87 | for two image files not on disk, a failed download does not prevent the next image's download, and only the successful file remains |
| Downloader.FirmwareDownloader.constructor | firmware_downloader.py:18-26 | the downloader starts over the files already on disk, with no request and no report |
| Downloader.FirmwareDownloader.CalculateMd5 | firmware_downloader.py:187-205 | the digest fed ChunkSize bytes at a time is the digest of the whole file; "" when there is no file or the path is a directory |
| Downloader.FirmwareDownloader.ValidateMd5 | firmware_downloader.py:207-225 | valid exactly when the digests agree up to ASCII case; a path that cannot be read is valid only against an empty expected digest |
| Downloader.FirmwareDownloader.WriteChunks | firmware_downloader.py:159-166 | the file becomes the concatenation of the chunks read, in order, and the count is their total length; nothing else changes |
| Downloader.FirmwareDownloader.DownloadFile | firmware_downloader.py:139-185 | one request; success exactly when the path can be opened for writing and the response yields a body; on success the file is the body and the count its length; on failure the file, if any, is gone; on a directory the removal raises and nothing changes |
| Downloader.FirmwareDownloader.DownloadImage | firmware_downloader.py:62-87 | the new files, requests, reports and whether an exception escaped are those of ImageStep |
| Downloader.FirmwareDownloader.DownloadRelease | firmware_downloader.py:53-87 | the state is that of the per-image step over the release's images, in order, stopping at an exception |
| Downloader.FirmwareDownloader.DownloadHardware | firmware_downloader.py:44-49 | the state is that of the releases of one hardware entry, in order, stopping at an exception |
| Downloader.FirmwareDownloader.DownloadDevice | firmware_downloader.py:41-49 | the state is that of the hardware entries of one device, in order, stopping at an exception |
| Downloader.FirmwareDownloader.DownloadAll | firmware_downloader.py:28-51 | the state is that of the traversal, every image of every release of every hardware entry of every device in document order, up to an escaped exception |
| Downloader.FirmwareDownloader.DownloadIndexXml | firmware_downloader.py:227-250 | one request; "" when the request raises, a read raises or the body is not UTF-8; otherwise the decoded body; a non-empty result means the reply was complete and decodes to it; no file changes |

## Left out

- Networking: HTTP itself, the `X-User-Agent` header and the 300-second timeout are left out. `Env.network` gives the response to each URL. It is `Unreachable` when the request raises, including on a non-success status. Otherwise it is a `Reply` with:
  - the Content-Length header, if one was sent;
  - the chunks the reads return;
  - whether the final read ended normally or raised.
- MD5: the hash algorithm is an uninterpreted function `Env.md5` over bytes.
- UTF-8: decoding is the function `Env.decodeUtf8`, which gives `None` where decoding raises.
- XML: the tokenizer (`ET.parse`, `ET.fromstring`) is a function parameter returning `Option<Elem>`. Comments and processing instructions are not in the tree.
- PyInt.ParseInt: Python's `int()` also accepts non-ASCII decimal digits, such as Arabic-Indic digits. It also rejects strings of more than 4300 digits. Neither is modelled.
- Downloader.Lower: `str.lower()` is modelled on ASCII letters only. Non-ASCII letters in an expected digest are compared unchanged.
- Filesystem: the files on disk are a map from paths to contents.
  - `create_directory` and `Path.mkdir` are assumed to succeed, since their results are ignored. A directory is modelled only as an output path that names one (`IsDirectory`).
  - `os.path.exists` means the path is a file in the map or such a directory.
  - A file in the way of a directory, permissions and a full disk are not modelled.
- Windows path joining is not modelled.
- Console output: progress percentages (floating point) and every printed line are left out. The ghost `reports` log stands for the per-image outcome lines.
- Downloader.FirmwareDownloader.DownloadFile: the `downloaded` counter is a ghost out-parameter, because the source uses it only for printing progress. A Content-Length header that `int()` rejects makes the download fail before the file is opened, as in the source. The header's value is otherwise unused.
- Downloader.FirmwareDownloader.DownloadRelease: `device_name` is accepted but unused, as in the source, which uses it only in a docstring.
- `main.py` is not part of this model. It is command-line glue: argument defaults, banners and exit codes.

# s3_upload_organizer in Dafny

`s3_upload_organizer.py` reads a web page that lists files. For each link
in the page's `ul li a` elements, it works out an S3 object key and asks
the server for the file's size. It records the file in per-run
statistics and, unless the run is a dry run, streams the file into the
bucket. Files whose names start with `TB` followed by four digits go into
a sub-folder named after that token. Every other file goes directly
under the prefix and is reported under the group `base_folder`. The first
failure stops the run with result 1. A completed run returns 0.

This project models the core of that program:

- `s3_keys.dfy` (module `S3Keys`): the filename classifier `get_s3_path`,
  the TB pattern match, the group label, and `rstrip('/')`.
- `destination.dfy` (module `Destination`): `back_slash_check`, the
  `replace('s3://', '')`, and the `split('/')` that cuts the destination
  into a bucket and a prefix.
- `statistics.dfy` (module `Statistics`): the `stats` dictionary. It is a
  class `RunStats` whose method `Record` does what lines 73-83 do to it.
  The `defaultdict(list)` of groups is a map together with the order in
  which its keys first appeared, because a Python dictionary iterates in
  insertion order.
- `pipeline.dfy` (module `Pipeline`): the per-link loop of
  `process_files`. `Steps` is a recursive function that serves as the
  specification. `ProcessFiles` is the loop itself, a `while` over the
  links that updates a `RunStats`, and it is proved to agree with
  `Steps`. `FirstStop`, `RecordedCount`, `RecordsOf` and `UploadsOf` give
  a closed form of the loop, proved equal to `Steps`.
- `cli.dfy` (module `Cli`): the two rules of `main`. A destination
  without `s3://` is a usage error with exit status 2, and `--execute`
  alone decides whether the run is a dry run.
- `scenarios.dfy` (module `Scenarios`): whole runs on small pages.
- `wrappers.dfy` (module `Wrappers`): `Option`.

The network becomes data. The page is an `Option<seq<Link>>`, where
`None` means the GET or the parse raised. Each `Link` carries:

- its `href` (`None` when the anchor has none, which raises `KeyError`),
- its stripped text,
- the outcome of its HEAD request (`HeadFailed`, or the `content-length`
  header if present),
- whether its transfer would succeed. A transfer is the streaming GET of
  the file (line 89) followed by `upload_fileobj` (lines 92-97); a
  failure of either is a failed transfer, and the model records an
  `Upload` for the attempt in both cases.

Every exception that the outer `except` on lines 122-124 catches becomes
result 1.

The program's help text gives the destination as
`s3://bucket-name/prefix/` (line 146), but only the leading `s3://` is
checked (line 165). Destinations of other shapes behave as follows:

- Nothing requires a non-empty bucket or a prefix without a leading
  slash. `s3:///p` gives the empty bucket and the prefix `p/`
  (`Destination.ParseEmptyBucket`), and the bare `s3://` gives the empty
  bucket and the empty prefix (`Destination.ParseBareScheme`).
- `s3_path.replace('s3://', '')` removes every occurrence of the scheme,
  not just the leading one, and it does not rescan what remains.
  `s3://b/ps3://` therefore gets the prefix `p`, without the trailing
  slash that `back_slash_check` added (`Destination.ParseEmbeddedScheme`).
  For the same reason `ss3://3://` becomes `s3://`
  (`Destination.RemoveSchemeSinglePass`). The promise that the prefix is
  empty or ends in a slash is therefore proved only for destinations with
  a single, leading scheme and something after it
  (`Destination.ParseDestinationRoundTrip`).

## Model

| member | source | states |
|---|---|---|
| S3Keys.IsTbName | s3_upload_organizer.py:14 | `re.match(r'(TB\d{4}).*', name)` succeeds: at least six characters, `T`, `B`, then four ASCII digits (a predicate without a contract; its use is stated by `S3Keys.Folder` and `S3Keys.FolderExamples`) |
| S3Keys.GetS3Path | s3_upload_organizer.py:12-23 | `get_s3_path` (no contract of its own): its meaning is stated by `S3Keys.KeyShape`, `S3Keys.KeyFollowsFolder` and the inverse `S3Keys.NameOfKey` with `S3Keys.NameOfKeyRoundTrip` and `S3Keys.NameOfKeySound` |
| S3Keys.Folder | s3_upload_organizer.py:76-78 | The label is `base_folder` exactly when the name does not match `TB\d{4}` at its start; otherwise it is the six-character TB token that begins the name |
| S3Keys.RStripSlashes | s3_upload_organizer.py:20-23 | `rstrip('/')`: the result is a prefix of the input that does not end in a slash, and everything removed was a slash |
| S3Keys.RStripSlashesUnique | s3_upload_organizer.py:20-23 | Those three properties determine the stripped string uniquely |
| S3Keys.KeyShape | s3_upload_organizer.py:12-23 | A key starts with the stripped base path and a slash, ends with a slash and the verbatim name, and is seven characters longer for a TB name |
| S3Keys.KeyFollowsFolder | s3_upload_organizer.py:14-23 | The key's sub-folder is exactly the group label the file is reported under; a `base_folder` file gets no sub-folder |
| S3Keys.KeyIgnoresTrailingSlash | s3_upload_organizer.py:20-23 | An extra trailing slash on the base path does not change any key |
| S3Keys.NameOfKeyRoundTrip | s3_upload_organizer.py:12-23 | Decoding a key made for a name gives back that name |
| S3Keys.NameOfKeySound | s3_upload_organizer.py:12-23 | A name decoded from a key yields that same key |
| S3Keys.KeysInjective | s3_upload_organizer.py:12-23 | Under one base path, different names never share a key; a name listed twice is uploaded to the same key |
| S3Keys.FolderExamples | s3_upload_organizer.py:77-78 | The match is anchored and case-sensitive and needs four digits: `TB7217_data.zip` goes to `TB7217`; `readme.txt`, `xTB1234`, `tb1234`, `TB123` and `TB123a` go to `base_folder` |
| S3Keys.EmptyBaseKey | s3_upload_organizer.py:23 | An empty base path gives a key with a leading slash |
| S3Keys.SlashesKey | s3_upload_organizer.py:20-23 | All trailing slashes of the base path are dropped, and a name containing slashes is kept verbatim |
| Destination.BackSlashCheck | s3_upload_organizer.py:25-29 | The result ends in a slash, extends the input by at most one character, and equals the input when the input already ends in a slash |
| Destination.BackSlashCheckIdempotent | s3_upload_organizer.py:25-29 | Applying it twice is the same as applying it once |
| Destination.RemoveScheme | s3_upload_organizer.py:37-38 | `replace('s3://', '')`: the result never grows and shrinks by whole copies of the five-character scheme; what it keeps is stated by `Destination.RemoveSchemeAtFirst` and `Destination.RemoveSchemeNoScheme` |
| Destination.RemoveSchemeAtFirst | s3_upload_organizer.py:37-38 | When no scheme occurrence starts before a given one, the removal keeps everything before it, drops it, and continues after it; with `Destination.RemoveSchemeNoScheme` this determines the result on every string |
| Destination.RemoveSchemeNoScheme | s3_upload_organizer.py:37-38 | A string without the scheme is left unchanged |
| Destination.RemoveSchemeSinglePass | s3_upload_organizer.py:37 | There is one pass with no rescan: `ss3://3://` becomes `s3://` |
| Destination.Join | s3_upload_organizer.py:38 | `'/'.join(segs)` (no contract of its own); `Destination.Split` states that it rebuilds the string that was split |
| Destination.Normalised | s3_upload_organizer.py:36-38 | The string the bucket and prefix are cut from, `back_slash_check` then the scheme removal (no contract of its own); `Destination.NormalisedSingleScheme` and `Destination.NormalisedEndsWithSlash` state what it is for a single leading scheme |
| Destination.Split | s3_upload_organizer.py:37-38 | `split('/')` gives at least one segment, no segment contains a slash, and joining the segments with slashes rebuilds the string |
| Destination.ParseDestination | s3_upload_organizer.py:36-38 | The bucket contains no slash; it is the text before the first slash of the scheme-free, slash-terminated path and the prefix is everything after that slash, or the bucket is the whole text and the prefix is empty |
| Destination.ParseDestinationAtFirstSlash | s3_upload_organizer.py:37-38 | The bucket and prefix are the unique cut at the first slash |
| Destination.ParseDestinationRoundTrip | s3_upload_organizer.py:36-38 | With a single leading scheme, `s3://` + bucket + `/` + prefix rebuilds the normalised destination, and the prefix is empty or ends in a slash |
| Destination.ParseBareScheme | s3_upload_organizer.py:36-38 | `s3://` is already slash-terminated and gives the empty bucket and the empty prefix, so rebuilding it would give `s3:///` |
| Destination.ParseUsualDestination | s3_upload_organizer.py:36-38 | `s3://b/p` gives bucket `b` and prefix `p/` |
| Destination.ParseEmptyBucket | s3_upload_organizer.py:37-38 | `s3:///p` gives the empty bucket and prefix `p/` |
| Destination.RemoveEmbeddedScheme | s3_upload_organizer.py:37 | `s3://b/ps3://` loses both scheme occurrences and becomes `b/p` |
| Destination.ParseEmbeddedScheme | s3_upload_organizer.py:36-38 | `s3://b/ps3://` gives bucket `b` and prefix `p`, with no trailing slash |
| Statistics.Sum | s3_upload_organizer.py:111 | `sum(f['size'] for f in files)` generalised to any weight (no contract of its own); `Statistics.SumOneIsLength` and `Statistics.GroupsPartition` state its properties |
| Statistics.SumOneIsLength | s3_upload_organizer.py:113 | Counting each record once gives the number of records, so `len(files)` is the group's file count |
| Statistics.Filter | s3_upload_organizer.py:79 | A group's list is never longer than the log |
| Statistics.FilterMembers | s3_upload_organizer.py:76-79 | A group's list holds exactly the records whose name has that label |
| Statistics.FilterAppend | s3_upload_organizer.py:79 | Within a group, records keep the order of the files |
| Statistics.FirstSeen | s3_upload_organizer.py:110 | The key order of the `defaultdict` (no contract of its own); `Statistics.FirstSeenMembers` states that it lists each label once and nothing else |
| Statistics.Group | s3_upload_organizer.py:79 | The `defaultdict(list)` after appending every record to its label's list (no contract of its own); `Statistics.GroupIsFilter` ties it to `Statistics.Filter` |
| Statistics.GroupSum | s3_upload_organizer.py:110-114 | A weight summed over the groups in key order, as the summary loop does (no contract of its own); `Statistics.GroupsPartition` and `Statistics.StatsTotalsAgree` state its value |
| Statistics.FirstSeenMembers | s3_upload_organizer.py:44 | The key order of the groups names each label of the run exactly once and nothing else |
| Statistics.GroupIsFilter | s3_upload_organizer.py:79 | The `defaultdict`'s keys are the labels seen, and each key's list is the records with that label, in file order |
| Statistics.GroupsPartition | s3_upload_organizer.py:110-118 | Summing any weight over the groups, in key order, gives its sum over all records: the groups partition the files |
| Statistics.RecordStep | s3_upload_organizer.py:73-83 | One more record appends to its group's list (creating the list if the label is new) and to the key order when the label is new, and adds its size to the total |
| Statistics.RunStats.constructor | s3_upload_organizer.py:41-45 | The statistics start with zero files, zero bytes and no groups |
| Statistics.RunStats.Record | s3_upload_organizer.py:73-83 | Increments the file count, adds the size, appends the record to the list of its label (`defaultdict` semantics), extends the key order on a new label, and keeps the statistics consistent with the log of all records |
| Statistics.StatsTotalsAgree | s3_upload_organizer.py:106-118 | In the summary, the per-group file counts add up to the total file count and the per-group sizes add up to the total size |
| Pipeline.Steps | s3_upload_organizer.py:63-102 | The result is 0 or 1, there are no more records than links, and a dry run attempts no upload |
| Pipeline.Process | s3_upload_organizer.py:52-124 | `process_files` on values (no contract of its own): a page that cannot be fetched gives 1 and nothing recorded, otherwise `Pipeline.Steps` on the parsed destination; `Pipeline.ProcessFiles` is proved to compute it |
| Pipeline.SizeOf | s3_upload_organizer.py:70 | The size of a file, 0 when `content-length` is missing (no contract of its own); stated by `Pipeline.RecordForShape` |
| Pipeline.RecordFor | s3_upload_organizer.py:79-83 | The record appended for a link (no contract of its own); `Pipeline.RecordForShape` states its name, size and path |
| Pipeline.UploadFor | s3_upload_organizer.py:89-97 | The transfer attempted for a link (no contract of its own); `Pipeline.UploadsMatchRecords` ties it to the record's path |
| Pipeline.FirstStop | s3_upload_organizer.py:63-102 | The first link the loop does not go past: all earlier links go through, and this one does not |
| Pipeline.StepsClosedForm | s3_upload_organizer.py:63-102 | The loop records exactly the links up to the first stop, plus the stopping link when only its upload failed. It attempts one upload per recorded link in execute mode and none in a dry run, and returns 0 exactly when no link stopped it |
| Pipeline.SucceedsIffAllProceed | s3_upload_organizer.py:63-120 | The run returns 0 if and only if every link has an `href`, a successful HEAD and, in execute mode, a successful upload; then every link is recorded, in page order |
| Pipeline.FailFast | s3_upload_organizer.py:85-124 | On result 1, nothing after the first failing link is recorded or uploaded. A run stopped by a missing `href` or a failed HEAD has recorded and (in execute mode) transferred exactly the links before it. A file whose transfer failed is still in the statistics and is the last transfer attempted |
| Pipeline.UploadsMatchRecords | s3_upload_organizer.py:79-97 | In execute mode each recorded file has exactly one upload, in the same order, to the destination bucket, and its stored path is `s3://` + bucket + `/` + the key it was uploaded under |
| Pipeline.RecordForShape | s3_upload_organizer.py:64-83 | A record carries the link's name and its size (0 when `content-length` is missing), and its path is the bucket, the stripped prefix, the TB sub-folder for a TB name, and the name |
| Pipeline.RecordsFollowLinks | s3_upload_organizer.py:63-83 | The i-th record of a run is the record of the i-th link |
| Pipeline.StepsAt | s3_upload_organizer.py:63-102 | One turn of the loop, from link i on: stop without a record, record and go on, or record, attempt the upload and stop |
| Pipeline.ProcessFiles | s3_upload_organizer.py:31-124 | The loop over the links leaves statistics that are consistent with the records of `Steps`, and returns the result and attempted uploads of `Steps`; a page that cannot be fetched gives 1 and no records |
| Cli.Validate | s3_upload_organizer.py:164-169 | Arguments are accepted if and only if the destination starts with `s3://`, and then the run is a dry run exactly when `--execute` is absent |
| Cli.DryRunFlagIgnored | s3_upload_organizer.py:149-169 | `--dry-run` never changes the outcome of validation |
| Cli.OtherSchemeRejected | s3_upload_organizer.py:165-166 | `http://bucket/prefix` is a usage error |
| Cli.RunCommand | s3_upload_organizer.py:162-174 | A destination without the scheme exits with 2 before the page is fetched and uploads nothing. Otherwise the exit status and uploads are those of the run with dry run = not `--execute`. The exit status is always 0, 1 or 2, and without `--execute` nothing is uploaded |
| Scenarios.DryRunScenario | s3_upload_organizer.py:63-120 | A dry run over a TB file and an ordinary file records both, in page order, uploads nothing and returns 0 |
| Scenarios.SingleGroup | s3_upload_organizer.py:76-83 | A single record makes a single group holding it |
| Scenarios.DryRunScenarioGroups | s3_upload_organizer.py:76-83 | Those two files give two groups, the TB token first and then `base_folder`, with one file each |
| Scenarios.FailingUploadScenario | s3_upload_organizer.py:85-102 | In execute mode, a failing second upload returns 1 after recording and attempting that file, and the third link is never touched |
| Scenarios.HeadFailureScenario | s3_upload_organizer.py:69-124 | A failing HEAD request returns 1 before the file is recorded, in either mode |
| Scenarios.EmptyPageScenario | s3_upload_organizer.py:63-120 | A page without links records nothing and returns 0 |
| Scenarios.ExampleTbKey | s3_upload_organizer.py:12-20 | `TB7217_data.zip` under `prefix/` goes to `prefix/TB7217/TB7217_data.zip` |

## Left out

- HTTP, HTML parsing, `urljoin` and boto3 are left out. Their outcomes are
  the parameters of the model: the page, each link's `href`, text, HEAD
  outcome and upload outcome. The `Content-Type` passed to the upload is
  not modelled.
- `int(content-length)` is not modelled as parsing. A header that is not
  an integer raises, and the model folds that into `HeadFailed`. A
  negative length, which `int()` accepts, cannot be expressed, because
  sizes are `nat`.
- `link.text.strip()` is not modelled: names are taken as already
  stripped.
- The printed report, including GB/MB formatted with floating point, is
  left out. What it prints from (the totals, the groups in key order and
  their sums) is modelled and related by `Statistics.StatsTotalsAgree`.
- Creating the boto3 client before the `try` (which propagates its error
  instead of returning 1) is left out.
- argparse itself is left out: required options, help text, and unknown
  or missing flags. Only the validated fields are modelled. Exit status 2
  is argparse's status for `parser.error`.
- `S3Keys.IsTbName` treats `\d` as the ASCII digits `0`-`9`. Python's `\d`
  also matches other Unicode decimal digits.
- `Destination.ParseDestinationRoundTrip` is proved only for a
  destination with a single, leading `s3://` and something after it. With
  another occurrence of the scheme the prefix can lose its trailing
  slash, as `Destination.ParseEmbeddedScheme` shows. The bare `s3://`
  gives the empty bucket and prefix, and rebuilding it would give
  `s3:///`, as `Destination.ParseBareScheme` shows.

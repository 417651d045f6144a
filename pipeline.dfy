/** The per-file loop of process_files (s3_upload_organizer.py): for each
    link of the listing page, in page order, compute the object key, ask
    for the size, record the file in the statistics and, unless this is a
    dry run, upload it, stopping at the first failure. The network is
    replaced by what each link is known to yield. */
module Pipeline {

  import opened Wrappers
  import opened S3Keys
  import opened Destination
  import opened Statistics

  /** What the HEAD request for a link yields: a failure (the request
      raised, or the header was not an integer), or the content length
      when the header was present. */
  datatype Head = HeadFailed | HeadOk(contentLength: Option<nat>)

  /** One `<a>` inside `ul li` on the listing page: its `href` attribute
      (None when the anchor has none), its stripped text, the outcome of
      the HEAD request for it, and whether its transfer would succeed. */
  datatype Link = Link(href: Option<string>, name: string, head: Head, uploadSucceeds: bool)

  /** One transfer attempt, lines 86-97: the streaming GET of the link and
      the `upload_fileobj` into the bucket under the object key. A failure
      of either part is a failed attempt. */
  datatype Upload = Upload(source: string, bucket: string, key: string)

  /** What a run does: the records it made, in order, the uploads it
      attempted, in order, and the value process_files returns. */
  datatype Trace = Trace(records: seq<FileRecord>, uploads: seq<Upload>, code: int)

  /** `int(headers.get('content-length', 0))`: a missing header is 0. */
  function SizeOf(contentLength: Option<nat>): nat {
    match contentLength
    case None => 0
    case Some(n) => n
  }

  /** The link gets as far as the statistics: it has an `href` and its
      HEAD request succeeded. */
  predicate Reaches(link: Link) {
    link.href.Some? && link.head.HeadOk?
  }

  /** The loop goes on past this link. */
  predicate Proceeds(link: Link, dryRun: bool) {
    Reaches(link) && (dryRun || link.uploadSucceeds)
  }

  function LinkSize(link: Link): nat {
    match link.head
    case HeadFailed => 0
    case HeadOk(contentLength) => SizeOf(contentLength)
  }

  function Source(link: Link): string {
    match link.href
    case None => ""
    case Some(h) => h
  }

  /** The record lines 79-83 append for a link. */
  function RecordFor(dest: Target, link: Link): FileRecord {
    FileRecord(link.name, LinkSize(link), SCHEME + dest.bucket + "/" + GetS3Path(dest.prefix, link.name))
  }

  /** The upload lines 92-97 attempt for a link. */
  function UploadFor(dest: Target, link: Link): Upload {
    Upload(Source(link), dest.bucket, GetS3Path(dest.prefix, link.name))
  }

  /** The loop of lines 63-102, link by link. */
  function Steps(dest: Target, links: seq<Link>, dryRun: bool): (t: Trace)
    ensures t.code == 0 || t.code == 1
    ensures |t.records| <= |links|
    ensures dryRun ==> t.uploads == []
  {
    if links == [] then Trace([], [], 0)
    else
      var link := links[0];
      if !Reaches(link) then Trace([], [], 1)
      else
        var r := RecordFor(dest, link);
        if dryRun then
          var t := Steps(dest, links[1..], dryRun);
          Trace([r] + t.records, t.uploads, t.code)
        else if !link.uploadSucceeds then
          Trace([r], [UploadFor(dest, link)], 1)
        else
          var t := Steps(dest, links[1..], dryRun);
          Trace([r] + t.records, [UploadFor(dest, link)] + t.uploads, t.code)
  }

  /** process_files: a page that cannot be fetched or parsed gives 1 with
      nothing recorded; otherwise the loop over its links. */
  function Process(s3Path: string, page: Option<seq<Link>>, dryRun: bool): Trace {
    match page
    case None => Trace([], [], 1)
    case Some(links) => Steps(ParseDestination(s3Path), links, dryRun)
  }

  // A closed form of the loop, as a reference for Steps.

  /** The index of the first link the loop does not go past. */
  function FirstStop(links: seq<Link>, dryRun: bool): (k: nat)
    ensures k <= |links|
    ensures forall j :: 0 <= j < k ==> Proceeds(links[j], dryRun)
    ensures k < |links| ==> !Proceeds(links[k], dryRun)
  {
    if links == [] || !Proceeds(links[0], dryRun) then 0
    else 1 + FirstStop(links[1..], dryRun)
  }

  /** How many links are recorded: all before the first stop, and the
      stopping one too when it failed only in its upload. */
  function RecordedCount(links: seq<Link>, dryRun: bool): nat {
    var k := FirstStop(links, dryRun);
    if k < |links| && Reaches(links[k]) then k + 1 else k
  }

  function RecordsOf(dest: Target, links: seq<Link>): (rs: seq<FileRecord>)
    ensures |rs| == |links|
  {
    seq(|links|, j requires 0 <= j < |links| => RecordFor(dest, links[j]))
  }

  function UploadsOf(dest: Target, links: seq<Link>): (us: seq<Upload>)
    ensures |us| == |links|
  {
    seq(|links|, j requires 0 <= j < |links| => UploadFor(dest, links[j]))
  }

  lemma OfCons(dest: Target, links: seq<Link>, n: nat)
    requires 0 < n <= |links|
    ensures RecordsOf(dest, links[..n]) == [RecordFor(dest, links[0])] + RecordsOf(dest, links[1..][..n - 1])
    ensures UploadsOf(dest, links[..n]) == [UploadFor(dest, links[0])] + UploadsOf(dest, links[1..][..n - 1])
  {
    assert links[..n][1..] == links[1..][..n - 1];
  }

  /** The loop records exactly the links up to the first stop (the
      stopping link included when only its upload failed), attempts one
      upload per recorded link in execute mode and none in a dry run,
      and returns 0 exactly when it went past every link. */
  lemma {:induction false} StepsClosedForm(dest: Target, links: seq<Link>, dryRun: bool)
    ensures var t, n := Steps(dest, links, dryRun), RecordedCount(links, dryRun);
      && n <= |links|
      && t.records == RecordsOf(dest, links[..n])
      && t.uploads == (if dryRun then [] else UploadsOf(dest, links[..n]))
      && t.code == (if FirstStop(links, dryRun) == |links| then 0 else 1)
  {
    if links == [] {
    } else if !Proceeds(links[0], dryRun) {
      if Reaches(links[0]) {
        OfCons(dest, links, 1);
      }
    } else {
      var n := RecordedCount(links, dryRun);
      StepsClosedForm(dest, links[1..], dryRun);
      assert n == 1 + RecordedCount(links[1..], dryRun);
      OfCons(dest, links, n);
    }
  }

  /** A run returns 0 exactly when every link went through, and then
      every link is recorded, in page order. */
  lemma SucceedsIffAllProceed(dest: Target, links: seq<Link>, dryRun: bool)
    ensures Steps(dest, links, dryRun).code == 0 <==> forall j :: 0 <= j < |links| ==> Proceeds(links[j], dryRun)
    ensures Steps(dest, links, dryRun).code == 0 ==> Steps(dest, links, dryRun).records == RecordsOf(dest, links)
  {
    StepsClosedForm(dest, links, dryRun);
    assert links[..|links|] == links;
  }

  /** Fail-fast: when a run returns 1, nothing after the first failing
      link is recorded or uploaded; a file whose upload failed is still
      in the statistics, and its upload is the last one attempted. */
  lemma FailFast(dest: Target, links: seq<Link>, dryRun: bool)
    requires Steps(dest, links, dryRun).code == 1
    ensures var t, k := Steps(dest, links, dryRun), FirstStop(links, dryRun);
      && k < |links|
      && (forall j :: 0 <= j < k ==> Proceeds(links[j], dryRun))
      && !Proceeds(links[k], dryRun)
      && t.records == RecordsOf(dest, links[..if Reaches(links[k]) then k + 1 else k])
      && (!Reaches(links[k]) ==> t.uploads == (if dryRun then [] else UploadsOf(dest, links[..k])))
      && (Reaches(links[k]) ==> !dryRun && t.records[k] == RecordFor(dest, links[k]) &&
                                t.uploads == UploadsOf(dest, links[..k + 1]) &&
                                t.uploads[k] == UploadFor(dest, links[k]))
  {
    StepsClosedForm(dest, links, dryRun);
  }

  /** In execute mode every recorded file has exactly one upload, in the
      same order, and its stored path is `s3://` + bucket + `/` + the key
      it was uploaded under. */
  lemma UploadsMatchRecords(dest: Target, links: seq<Link>)
    ensures var t := Steps(dest, links, false);
      && |t.uploads| == |t.records|
      && forall i :: 0 <= i < |t.records| ==>
           t.uploads[i].bucket == dest.bucket &&
           t.records[i].path == SCHEME + t.uploads[i].bucket + "/" + t.uploads[i].key
  {
    StepsClosedForm(dest, links, false);
  }

  /** The record of one link: its name, its size (0 for a missing
      length), and a path with the TB sub-folder for a TB file and none
      for a base_folder file. */
  lemma RecordForShape(dest: Target, link: Link)
    ensures var r := RecordFor(dest, link);
      && r.name == link.name
      && (link.head == HeadOk(None) ==> r.size == 0)
      && (link.head.HeadOk? && link.head.contentLength.Some? ==> r.size == link.head.contentLength.value)
      && r.path ==
           SCHEME + dest.bucket + "/" + RStripSlashes(dest.prefix) + "/" +
           (if Folder(link.name) == BASE_FOLDER then "" else Folder(link.name) + "/") +
           link.name
  {
    KeyFollowsFolder(dest.prefix, link.name);
  }

  /** The i-th record of a run is the record of the i-th link. */
  lemma RecordsFollowLinks(dest: Target, links: seq<Link>, dryRun: bool, i: nat)
    requires i < |Steps(dest, links, dryRun).records|
    ensures i < |links| && Steps(dest, links, dryRun).records[i] == RecordFor(dest, links[i])
  {
    StepsClosedForm(dest, links, dryRun);
  }

  lemma AppendAssoc<T>(a: seq<T>, b: seq<T>, c: seq<T>)
    ensures (a + b) + c == a + (b + c)
  {
  }

  /** One turn of the loop: Steps on the links from index `i` on,
      in terms of link `i` and the links after it. */
  lemma StepsAt(dest: Target, links: seq<Link>, i: nat, dryRun: bool)
    requires i < |links|
    ensures var link, t, rest := links[i], Steps(dest, links[i..], dryRun), Steps(dest, links[i + 1..], dryRun);
      if !Reaches(link) then t == Trace([], [], 1)
      else if dryRun then t == Trace([RecordFor(dest, link)] + rest.records, rest.uploads, rest.code)
      else if !link.uploadSucceeds then t == Trace([RecordFor(dest, link)], [UploadFor(dest, link)], 1)
      else t == Trace([RecordFor(dest, link)] + rest.records, [UploadFor(dest, link)] + rest.uploads, rest.code)
  {
    assert links[i..][0] == links[i] && links[i..][1..] == links[i + 1..];
  }

  /** process_files: the statistics, the return value and the uploads
      attempted are those of Process. */
  method ProcessFiles(s3Path: string, page: Option<seq<Link>>, dryRun: bool)
    returns (code: int, stats: RunStats, uploads: seq<Upload>)
    ensures stats.Valid()
    ensures var t := Process(s3Path, page, dryRun);
      code == t.code && uploads == t.uploads && stats.log == t.records
  {
    var dest := ParseDestination(s3Path);
    stats := new RunStats();
    uploads := [];
    if page.None? {
      code := 1;
      return;
    }
    var links := page.value;
    ghost var whole := Steps(dest, links, dryRun);
    assert links[0..] == links;
    var i := 0;
    while i < |links|
      invariant 0 <= i <= |links|
      invariant stats.Valid()
      invariant stats.log + Steps(dest, links[i..], dryRun).records == whole.records
      invariant uploads + Steps(dest, links[i..], dryRun).uploads == whole.uploads
      invariant Steps(dest, links[i..], dryRun).code == whole.code
    {
      var link := links[i];
      ghost var rest := Steps(dest, links[i + 1..], dryRun);
      StepsAt(dest, links, i, dryRun);
      if link.href.None? {
        code := 1;
        return;
      }
      var key := GetS3Path(dest.prefix, link.name);
      if link.head.HeadFailed? {
        code := 1;
        return;
      }
      var size := SizeOf(link.head.contentLength);
      var r := FileRecord(link.name, size, SCHEME + dest.bucket + "/" + key);
      assert r == RecordFor(dest, link);
      ghost var logBefore := stats.log;
      stats.Record(r);
      assert stats.log == logBefore + [r];
      AppendAssoc(logBefore, [r], rest.records);
      if !dryRun {
        var u := Upload(link.href.value, dest.bucket, key);
        assert u == UploadFor(dest, link);
        AppendAssoc(uploads, [u], rest.uploads);
        uploads := uploads + [u];
        if !link.uploadSucceeds {
          code := 1;
          return;
        }
      }
      i := i + 1;
    }
    code := 0;
  }
}

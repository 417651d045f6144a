/** Whole runs on small listing pages: a dry run over a TB file and an
    ordinary one, an execute run whose second upload fails, and an empty
    page. */
module Scenarios {

  import opened Wrappers
  import opened S3Keys
  import opened Destination
  import opened Statistics
  import opened Pipeline

  /** A dry run over a TB file and an ordinary file records both, in
      page order, uploads nothing and returns 0. */
  lemma DryRunScenario(dest: Target, tb: Link, plain: Link)
    requires Reaches(tb) && Reaches(plain)
    ensures Steps(dest, [tb, plain], true) == Trace([RecordFor(dest, tb), RecordFor(dest, plain)], [], 0)
  {
    assert [tb, plain][1..] == [plain] && [plain][1..] == [];
    assert Steps(dest, [plain], true) == Trace([RecordFor(dest, plain)], [], 0);
  }

  /** A run with one record has one group, holding that record. */
  lemma SingleGroup(r: FileRecord)
    ensures FirstSeen([r]) == [Folder(r.name)]
    ensures Group([r]) == map[Folder(r.name) := [r]]
  {
    var empty: seq<FileRecord> := [];
    assert [r][..0] == empty && empty + [r] == [r];
    assert Group([r]) == Group(empty)[Folder(r.name) := empty + [r]];
  }

  /** The report of that run has two groups: the TB token first, then
      base_folder, one file each. */
  lemma DryRunScenarioGroups(tb: FileRecord, plain: FileRecord)
    requires IsTbName(tb.name) && !IsTbName(plain.name)
    ensures FirstSeen([tb, plain]) == [tb.name[..6], BASE_FOLDER]
    ensures Group([tb, plain]) == map[tb.name[..6] := [tb], BASE_FOLDER := [plain]]
  {
    var g := tb.name[..6];
    assert Folder(tb.name) == g && Folder(plain.name) == BASE_FOLDER && g != BASE_FOLDER;
    SingleGroup(tb);
    assert [tb] + [plain] == [tb, plain];
    RecordStep([tb], plain);
    assert [] + [plain] == [plain];
  }

  /** In execute mode, when the second upload fails the run returns 1;
      the second file is recorded and its upload attempted, and the
      third link is not touched. */
  lemma FailingUploadScenario(dest: Target, first: Link, broken: Link, third: Link)
    requires Proceeds(first, false)
    requires Reaches(broken) && !broken.uploadSucceeds
    ensures Steps(dest, [first, broken, third], false) ==
      Trace([RecordFor(dest, first), RecordFor(dest, broken)],
            [UploadFor(dest, first), UploadFor(dest, broken)], 1)
  {
    assert [first, broken, third][1..] == [broken, third];
  }

  /** A link whose HEAD request fails ends the run with 1 before it is
      recorded, in either mode. */
  lemma HeadFailureScenario(dest: Target, first: Link, failing: Link, third: Link, dryRun: bool)
    requires Proceeds(first, dryRun)
    requires failing.head == HeadFailed
    ensures Steps(dest, [first, failing, third], dryRun) ==
      Trace([RecordFor(dest, first)], if dryRun then [] else [UploadFor(dest, first)], 1)
  {
    assert [first, failing, third][1..] == [failing, third];
  }

  /** An empty page: nothing recorded, result 0. */
  lemma EmptyPageScenario(dest: Target, dryRun: bool)
    ensures Steps(dest, [], dryRun) == Trace([], [], 0)
  {
  }

  /** The key of the TB file of the example listing. */
  lemma ExampleTbKey()
    ensures GetS3Path("prefix/", "TB7217_data.zip") == "prefix/TB7217/TB7217_data.zip"
  {
    assert "prefix/"[..6] == "prefix";
    assert IsTbName("TB7217_data.zip") && "TB7217_data.zip"[..6] == "TB7217";
  }
}

/** The statistics a run collects (s3_upload_organizer.py: the `stats`
    dictionary of process_files): the number of files, their total size,
    and, per group label, the records of the files in that group.
    `stats['folders']` is a `defaultdict(list)`; a Python dictionary keeps
    its keys in insertion order, so it is modelled as a map together with
    the order in which its keys first appeared. */
module Statistics {

  import opened S3Keys

  /** One entry of a group's list: the dictionary `{'name', 'size', 'path'}`. */
  datatype FileRecord = FileRecord(name: string, size: nat, path: string)

  /** Weights that records can be summed by. */
  function RecSize(r: FileRecord): nat { r.size }

  function One(r: FileRecord): nat { 1 }

  function Sum(log: seq<FileRecord>, w: FileRecord -> nat): nat {
    if log == [] then 0 else Sum(log[..|log| - 1], w) + w(log[|log| - 1])
  }

  lemma SumSnoc(log: seq<FileRecord>, r: FileRecord, w: FileRecord -> nat)
    ensures Sum(log + [r], w) == Sum(log, w) + w(r)
  {
    assert (log + [r])[..|log|] == log;
  }

  /** Counting every record once gives the length. */
  lemma {:induction false} SumOneIsLength(log: seq<FileRecord>)
    ensures Sum(log, One) == |log|
  {
    if log != [] {
      SumOneIsLength(log[..|log| - 1]);
    }
  }

  /** The records of `log` in group `group`, in the order of `log`. */
  function Filter(log: seq<FileRecord>, group: string): (f: seq<FileRecord>)
    ensures |f| <= |log|
  {
    if log == [] then []
    else
      var init, last := log[..|log| - 1], log[|log| - 1];
      assert log == init + [last];
      Filter(init, group) + (if Folder(last.name) == group then [last] else [])
  }

  lemma FilterSnoc(log: seq<FileRecord>, r: FileRecord, group: string)
    ensures Filter(log + [r], group) == Filter(log, group) + (if Folder(r.name) == group then [r] else [])
  {
    assert (log + [r])[..|log|] == log;
  }

  /** Filtering distributes over concatenation: within a group, the
      records of earlier files come before those of later ones. */
  lemma {:induction false} FilterAppend(a: seq<FileRecord>, b: seq<FileRecord>, group: string)
    ensures Filter(a + b, group) == Filter(a, group) + Filter(b, group)
  {
    if b == [] {
      assert a + b == a;
    } else {
      var init, last := b[..|b| - 1], b[|b| - 1];
      var x := if Folder(last.name) == group then [last] else [];
      assert b == init + [last];
      assert a + b == (a + init) + [last];
      FilterAppend(a, init, group);
      FilterSnoc(a + init, last, group);
      FilterSnoc(init, last, group);
      calc {
        Filter(a + b, group);
        Filter((a + init) + [last], group);
        Filter(a + init, group) + x;
        (Filter(a, group) + Filter(init, group)) + x;
        Filter(a, group) + (Filter(init, group) + x);
        Filter(a, group) + Filter(init + [last], group);
      }
    }
  }

  predicate Distinct(s: seq<string>) {
    forall i, j :: 0 <= i < j < |s| ==> s[i] != s[j]
  }

  /** The group labels of `log` in order of first appearance: the key
      order of the `defaultdict`. */
  function FirstSeen(log: seq<FileRecord>): seq<string> {
    if log == [] then []
    else
      var init, last := log[..|log| - 1], log[|log| - 1];
      assert log == init + [last];
      var seen := FirstSeen(init);
      if Folder(last.name) in seen then seen else seen + [Folder(last.name)]
  }

  /** The key order lists every label of `log` once, and nothing else. */
  lemma {:induction false} FirstSeenMembers(log: seq<FileRecord>)
    ensures Distinct(FirstSeen(log))
    ensures forall x :: x in log ==> Folder(x.name) in FirstSeen(log)
    ensures forall g :: g in FirstSeen(log) ==> exists x :: x in log && Folder(x.name) == g
  {
    if log != [] {
      var init, last := log[..|log| - 1], log[|log| - 1];
      assert log == init + [last];
      FirstSeenMembers(init);
    }
  }

  lemma FirstSeenSnoc(log: seq<FileRecord>, r: FileRecord)
    ensures FirstSeen(log + [r]) ==
      if Folder(r.name) in FirstSeen(log) then FirstSeen(log) else FirstSeen(log) + [Folder(r.name)]
  {
    assert (log + [r])[..|log|] == log;
  }

  /** A group's list holds exactly the records of `log` with that label. */
  lemma {:induction false} FilterMembers(log: seq<FileRecord>, group: string)
    ensures forall x :: x in Filter(log, group) <==> x in log && Folder(x.name) == group
  {
    if log != [] {
      var init, last := log[..|log| - 1], log[|log| - 1];
      assert log == init + [last];
      FilterMembers(init, group);
    }
  }

  /** A label that has not been seen has no records. */
  lemma FilterUnseen(log: seq<FileRecord>, group: string)
    requires group !in FirstSeen(log)
    ensures Filter(log, group) == []
  {
    FilterMembers(log, group);
    FirstSeenMembers(log);
    if Filter(log, group) != [] {
      assert Filter(log, group)[0] in Filter(log, group);
    }
  }

  /** The `defaultdict` after appending every record of `log`, in order,
      to the list of its group. */
  function Group(log: seq<FileRecord>): map<string, seq<FileRecord>> {
    if log == [] then map[]
    else
      var init, last := log[..|log| - 1], log[|log| - 1];
      var groups, g := Group(init), Folder(last.name);
      groups[g := (if g in groups then groups[g] else []) + [last]]
  }

  lemma GroupSnoc(log: seq<FileRecord>, r: FileRecord)
    ensures var groups, g := Group(log), Folder(r.name);
      Group(log + [r]) == groups[g := (if g in groups then groups[g] else []) + [r]]
  {
    assert (log + [r])[..|log|] == log;
  }

  /** The groups are the labels seen so far, and each group's list is
      the records of `log` with that label, in order. */
  lemma {:induction false} GroupIsFilter(log: seq<FileRecord>)
    ensures forall g :: g in Group(log) <==> g in FirstSeen(log)
    ensures forall g :: g in Group(log) ==> Group(log)[g] == Filter(log, g)
  {
    if log != [] {
      var init, last := log[..|log| - 1], log[|log| - 1];
      assert log == init + [last];
      GroupIsFilter(init);
      FirstSeenSnoc(init, last);
      forall g | g in Group(log) ensures Group(log)[g] == Filter(log, g) {
        FilterSnoc(init, last, g);
        if g !in Group(init) {
          FilterUnseen(init, g);
        }
      }
    }
  }

  /** The sum of `w` over the groups named by `labels`. */
  function GroupSum(labels: seq<string>, groups: map<string, seq<FileRecord>>, w: FileRecord -> nat): nat {
    if labels == [] then 0
    else
      var g := labels[|labels| - 1];
      GroupSum(labels[..|labels| - 1], groups, w) + (if g in groups then Sum(groups[g], w) else 0)
  }

  /** Changing a group that `labels` does not name leaves the sum alone. */
  lemma {:induction false} GroupSumOther(labels: seq<string>, groups: map<string, seq<FileRecord>>,
                                         g: string, v: seq<FileRecord>, w: FileRecord -> nat)
    requires g !in labels
    ensures GroupSum(labels, groups[g := v], w) == GroupSum(labels, groups, w)
  {
    if labels != [] {
      GroupSumOther(labels[..|labels| - 1], groups, g, v, w);
    }
  }

  /** Appending a record to a group named once in `labels` adds its weight. */
  lemma {:induction false} GroupSumAppend(labels: seq<string>, groups: map<string, seq<FileRecord>>,
                                          g: string, r: FileRecord, w: FileRecord -> nat)
    requires Distinct(labels) && g in labels && g in groups
    ensures GroupSum(labels, groups[g := groups[g] + [r]], w) == GroupSum(labels, groups, w) + w(r)
  {
    var init, last := labels[..|labels| - 1], labels[|labels| - 1];
    SumSnoc(groups[g], r, w);
    if last == g {
      GroupSumOther(init, groups, g, groups[g] + [r], w);
    } else {
      assert labels == init + [last];
      GroupSumAppend(init, groups, g, r, w);
    }
  }

  /** Appending a record to a group that already exists keeps the
      partition equation. */
  lemma PartitionStepSeen(log: seq<FileRecord>, r: FileRecord, w: FileRecord -> nat)
    requires Folder(r.name) in FirstSeen(log)
    requires GroupSum(FirstSeen(log), Group(log), w) == Sum(log, w)
    ensures GroupSum(FirstSeen(log + [r]), Group(log + [r]), w) == Sum(log + [r], w)
  {
    var g := Folder(r.name);
    GroupIsFilter(log);
    FirstSeenMembers(log);
    assert g in Group(log);
    GroupSnoc(log, r);
    FirstSeenSnoc(log, r);
    SumSnoc(log, r, w);
    GroupSumAppend(FirstSeen(log), Group(log), g, r, w);
  }

  /** Adding a group under a new label at the end adds its weight. */
  lemma GroupSumNew(labels: seq<string>, groups: map<string, seq<FileRecord>>,
                    g: string, v: seq<FileRecord>, w: FileRecord -> nat)
    requires g !in labels
    ensures GroupSum(labels + [g], groups[g := v], w) == GroupSum(labels, groups, w) + Sum(v, w)
  {
    assert (labels + [g])[..|labels|] == labels;
    GroupSumOther(labels, groups, g, v, w);
  }

  /** Appending the first record of a new group keeps the partition
      equation. */
  lemma PartitionStepNew(log: seq<FileRecord>, r: FileRecord, w: FileRecord -> nat)
    requires Folder(r.name) !in FirstSeen(log)
    requires GroupSum(FirstSeen(log), Group(log), w) == Sum(log, w)
    ensures GroupSum(FirstSeen(log + [r]), Group(log + [r]), w) == Sum(log + [r], w)
  {
    var g := Folder(r.name);
    GroupIsFilter(log);
    RecordStep(log, r);
    assert [] + [r] == [r] && [r][..0] == [];
    assert Sum([r], w) == w(r);
    GroupSumNew(FirstSeen(log), Group(log), g, [r], w);
    SumSnoc(log, r, w);
  }

  /** The groups partition the records: summing any weight over the
      groups gives its sum over all records. */
  lemma {:induction false} GroupsPartition(log: seq<FileRecord>, w: FileRecord -> nat)
    ensures GroupSum(FirstSeen(log), Group(log), w) == Sum(log, w)
  {
    if log != [] {
      var init, r := log[..|log| - 1], log[|log| - 1];
      assert log == init + [r];
      GroupsPartition(init, w);
      if Folder(r.name) in FirstSeen(init) {
        PartitionStepSeen(init, r, w);
      } else {
        PartitionStepNew(init, r, w);
      }
    }
  }

  /** One call of Record, on the abstract values: the `defaultdict`, its
      key order and the size total after one more record. */
  lemma RecordStep(log: seq<FileRecord>, r: FileRecord)
    ensures var g, groups := Folder(r.name), Group(log);
      && Group(log + [r]) == groups[g := (if g in groups then groups[g] else []) + [r]]
      && FirstSeen(log + [r]) == (if g in groups then FirstSeen(log) else FirstSeen(log) + [g])
      && Sum(log + [r], RecSize) == Sum(log, RecSize) + r.size
  {
    GroupSnoc(log, r);
    GroupIsFilter(log);
    FirstSeenSnoc(log, r);
    SumSnoc(log, r, RecSize);
  }

  /** The `stats` dictionary of one run. `log` is the sequence of all
      records in the order they were made; the real fields are what the
      program keeps. */
  class RunStats {
    var totalFiles: nat
    var totalSize: nat
    var folderOrder: seq<string>
    var folders: map<string, seq<FileRecord>>
    ghost var log: seq<FileRecord>

    ghost predicate Valid()
      reads this
    {
      && totalFiles == |log|
      && totalSize == Sum(log, RecSize)
      && folderOrder == FirstSeen(log)
      && folders == Group(log)
    }

    constructor ()
      ensures Valid() && log == []
      ensures totalFiles == 0 && totalSize == 0 && folderOrder == [] && folders == map[]
    {
      totalFiles, totalSize := 0, 0;
      folderOrder, folders := [], map[];
      log := [];
    }

    /** Lines 73-83 of process_files: count the file, add its size, and
        append its record to the list of its group. */
    method Record(r: FileRecord)
      requires Valid()
      modifies this
      ensures Valid() && log == old(log) + [r]
      ensures totalFiles == old(totalFiles) + 1 && totalSize == old(totalSize) + r.size
      ensures folders == old(folders)[Folder(r.name) :=
        (if Folder(r.name) in old(folders) then old(folders)[Folder(r.name)] else []) + [r]]
      ensures folderOrder ==
        if Folder(r.name) in old(folders) then old(folderOrder) else old(folderOrder) + [Folder(r.name)]
    {
      RecordStep(log, r);
      totalFiles := totalFiles + 1;
      totalSize := totalSize + r.size;
      var group := Folder(r.name);
      // folders[group] of a defaultdict(list): a missing key starts empty
      var members := if group in folders then folders[group] else [];
      if group !in folders {
        folderOrder := folderOrder + [group];
      }
      folders := folders[group := members + [r]];
      log := log + [r];
    }
  }

  /** What the summary reports is consistent: the group sizes add up to
      the file count, and the group byte totals to the total size. */
  lemma StatsTotalsAgree(s: RunStats)
    requires s.Valid()
    ensures GroupSum(s.folderOrder, s.folders, One) == s.totalFiles
    ensures GroupSum(s.folderOrder, s.folders, RecSize) == s.totalSize
  {
    GroupsPartition(s.log, One);
    GroupsPartition(s.log, RecSize);
    SumOneIsLength(s.log);
  }
}

/** The filename classifier: which group a file belongs to and which
    object key it is uploaded under (s3_upload_organizer.py, get_s3_path
    and the folder choice inside process_files). */
module S3Keys {

  import opened Wrappers

  /** The group label of every file whose name carries no TB number. */
  const BASE_FOLDER: string := "base_folder"

  /** Python's `\d`, restricted to the ASCII digits. */
  predicate IsDigit(c: char) {
    '0' <= c <= '9'
  }

  /** `re.match(r'(TB\d{4}).*', name)` succeeds: the match is anchored at
      the start, case-sensitive, and `.*` accepts the empty rest. */
  predicate IsTbName(name: string) {
    |name| >= 6 && name[0] == 'T' && name[1] == 'B' &&
    IsDigit(name[2]) && IsDigit(name[3]) && IsDigit(name[4]) && IsDigit(name[5])
  }

  /** The group a file is reported under: its TB token, or BASE_FOLDER. */
  function Folder(name: string): (group: string)
    ensures group == BASE_FOLDER <==> !IsTbName(name)
    ensures group != BASE_FOLDER ==> |group| == 6 && IsTbName(group) && group <= name
  {
    if IsTbName(name) then name[..6] else BASE_FOLDER
  }

  /** Python's `s.rstrip('/')`: every trailing slash removed. */
  function RStripSlashes(s: string): (r: string)
    ensures r <= s
    ensures r == [] || r[|r| - 1] != '/'
    ensures forall i :: |r| <= i < |s| ==> s[i] == '/'
  {
    if |s| > 0 && s[|s| - 1] == '/' then RStripSlashes(s[..|s| - 1]) else s
  }

  /** The three properties of RStripSlashes determine its result. */
  lemma RStripSlashesUnique(s: string, p: string)
    requires p <= s
    requires p == [] || p[|p| - 1] != '/'
    requires forall i :: |p| <= i < |s| ==> s[i] == '/'
    ensures p == RStripSlashes(s)
  {
  }

  /** The object key of a file: the base path without its trailing
      slashes, a slash, the TB sub-folder when the name has a TB number,
      and the name itself, verbatim. */
  function GetS3Path(basePath: string, fileName: string): string {
    if IsTbName(fileName) then
      RStripSlashes(basePath) + "/" + fileName[..6] + "/" + fileName
    else
      RStripSlashes(basePath) + "/" + fileName
  }

  /** Every key starts with the stripped base path and a slash, ends with
      a slash and the name, and is seven characters longer for a TB name
      (the token and its slash). */
  lemma KeyShape(basePath: string, fileName: string)
    ensures var key := GetS3Path(basePath, fileName);
      && RStripSlashes(basePath) + "/" <= key
      && |key| > |fileName| && key[|key| - |fileName| - 1..] == "/" + fileName
      && |key| == |RStripSlashes(basePath)| + 1 + |fileName| + (if IsTbName(fileName) then 7 else 0)
  {
    var lead, key := RStripSlashes(basePath) + "/", GetS3Path(basePath, fileName);
    var mid := if IsTbName(fileName) then fileName[..6] + "/" else "";
    assert key == lead + mid + fileName;
    assert key[|key| - |fileName| - 1..] == "/" + fileName by {
      assert lead + mid == RStripSlashes(basePath) + ("/" + mid);
      assert |mid| > 0 ==> mid[|mid| - 1] == '/';
    }
  }

  /** The sub-folder inserted into the key is exactly the group label the
      file is reported under; base_folder files get no sub-folder. */
  lemma KeyFollowsFolder(basePath: string, fileName: string)
    ensures GetS3Path(basePath, fileName) ==
      RStripSlashes(basePath) + "/" +
      (if Folder(fileName) == BASE_FOLDER then "" else Folder(fileName) + "/") +
      fileName
  {
  }

  /** Trailing slashes on the base path make no difference to any key. */
  lemma KeyIgnoresTrailingSlash(basePath: string, fileName: string)
    ensures GetS3Path(basePath + "/", fileName) == GetS3Path(basePath, fileName)
  {
    assert (basePath + "/")[..|basePath|] == basePath;
  }

  /** The inverse of GetS3Path for a fixed base path: the file name a key
      was made from, or None when no name yields that key. */
  function NameOfKey(basePath: string, key: string): Option<string> {
    var lead := RStripSlashes(basePath) + "/";
    if !(lead <= key) then None
    else
      var rest := key[|lead|..];
      if !IsTbName(rest) then Some(rest)
      else if |rest| >= 7 && rest[6] == '/' && IsTbName(rest[7..]) && rest[7..13] == rest[..6] then
        Some(rest[7..])
      else
        None
  }

  /** Decoding a key recovers the name it was made from. */
  lemma NameOfKeyRoundTrip(basePath: string, fileName: string)
    ensures NameOfKey(basePath, GetS3Path(basePath, fileName)) == Some(fileName)
  {
    var lead := RStripSlashes(basePath) + "/";
    var key := GetS3Path(basePath, fileName);
    var rest := key[|lead|..];
    if IsTbName(fileName) {
      assert rest == fileName[..6] + "/" + fileName;
      assert rest[7..] == fileName;
    } else {
      assert rest == fileName;
    }
  }

  /** A decoded name really maps back to the key it was decoded from. */
  lemma NameOfKeySound(basePath: string, key: string, fileName: string)
    requires NameOfKey(basePath, key) == Some(fileName)
    ensures GetS3Path(basePath, fileName) == key
  {
    var lead := RStripSlashes(basePath) + "/";
    var rest := key[|lead|..];
    assert key == lead + rest;
    if IsTbName(rest) {
      assert rest == rest[..6] + "/" + rest[7..];
      assert fileName[..6] == rest[..6];
    }
  }

  /** Distinct names always get distinct keys under the same base path. */
  lemma KeysInjective(basePath: string, a: string, b: string)
    requires GetS3Path(basePath, a) == GetS3Path(basePath, b)
    ensures a == b
  {
    NameOfKeyRoundTrip(basePath, a);
    NameOfKeyRoundTrip(basePath, b);
  }

  /** The match is anchored at the start, case-sensitive, and needs
      all four digits. */
  lemma FolderExamples()
    ensures Folder("TB7217_data.zip") == "TB7217" && Folder("TB0000") == "TB0000"
    ensures Folder("readme.txt") == BASE_FOLDER
    ensures Folder("xTB1234") == BASE_FOLDER && Folder("tb1234") == BASE_FOLDER
    ensures Folder("TB123") == BASE_FOLDER && Folder("TB123a") == BASE_FOLDER
  {
    assert "TB7217_data.zip"[..6] == "TB7217";
  }

  /** An empty base path gives a key with a leading slash. */
  lemma EmptyBaseKey()
    ensures GetS3Path("", "a.txt") == "/a.txt"
  {
  }

  /** Every trailing slash of the base path is dropped, and a name with
      slashes in it is used verbatim. */
  lemma SlashesKey()
    ensures GetS3Path("p///", "x/y") == "p/x/y"
  {
    assert "p///"[..3] == "p//" && "p//"[..2] == "p/" && "p/"[..1] == "p";
    assert RStripSlashes("p///") == "p";
  }
}

/** The destination argument: trailing-slash normalisation and the split
    of `s3://bucket/prefix/` into a bucket name and a key prefix
    (s3_upload_organizer.py, back_slash_check and the start of
    process_files). */
module Destination {

  /** The scheme every destination must start with. */
  const SCHEME: string := "s3://"

  /** Where the objects go: the bucket, and the prefix of every key. */
  datatype Target = Target(bucket: string, prefix: string)

  predicate EndsWithSlash(s: string) {
    |s| > 0 && s[|s| - 1] == '/'
  }

  /** back_slash_check: the shortest extension of `path` that ends in a
      slash. */
  function BackSlashCheck(path: string): (r: string)
    ensures EndsWithSlash(r)
    ensures path <= r && |r| <= |path| + 1
    ensures EndsWithSlash(path) ==> r == path
  {
    if EndsWithSlash(path) then path else path + "/"
  }

  lemma BackSlashCheckIdempotent(path: string)
    ensures BackSlashCheck(BackSlashCheck(path)) == BackSlashCheck(path)
  {
  }

  /** The scheme occurs in `s` starting at index `i`. */
  predicate SchemeAt(s: string, i: nat) {
    i + |SCHEME| <= |s| && s[i..i + |SCHEME|] == SCHEME
  }

  predicate NoScheme(s: string) {
    forall i: nat :: i < |s| ==> !SchemeAt(s, i)
  }

  /** Python's `s.replace('s3://', '')`: occurrences are found left to
      right, do not overlap, and what remains is not scanned again. */
  function RemoveScheme(s: string): (r: string)
    ensures |r| <= |s|
    ensures (|s| - |r|) % |SCHEME| == 0
  {
    if SchemeAt(s, 0) then RemoveScheme(s[|SCHEME|..])
    else if s == [] then []
    else [s[0]] + RemoveScheme(s[1..])
  }

  /** A string without the scheme in it is left as it is. */
  lemma {:induction false} RemoveSchemeNoScheme(s: string)
    requires NoScheme(s)
    ensures RemoveScheme(s) == s
  {
    if s != [] {
      assert !SchemeAt(s, 0);
      forall i: nat | i < |s[1..]| ensures !SchemeAt(s[1..], i) {
        assert !SchemeAt(s, i + 1);
        if i + |SCHEME| <= |s[1..]| {
          assert s[1..][i..i + |SCHEME|] == s[i + 1..i + 1 + |SCHEME|];
        }
      }
      RemoveSchemeNoScheme(s[1..]);
    }
  }

  /** The scheme removal keeps everything before the leftmost occurrence,
      drops that occurrence, and goes on with what follows it. */
  lemma {:induction false} RemoveSchemeAtFirst(a: string, b: string)
    requires forall i: nat :: i < |a| ==> !SchemeAt(a + SCHEME + b, i)
    ensures RemoveScheme(a + SCHEME + b) == a + RemoveScheme(b)
  {
    var s := a + SCHEME + b;
    if a == [] {
      assert s == SCHEME + b && SchemeAt(s, 0);
      assert s[|SCHEME|..] == b;
    } else {
      assert !SchemeAt(s, 0);
      assert s[1..] == a[1..] + SCHEME + b;
      forall i: nat | i < |a[1..]| ensures !SchemeAt(a[1..] + SCHEME + b, i) {
        assert !SchemeAt(s, i + 1);
        assert s[1..][i..i + |SCHEME|] == s[i + 1..i + 1 + |SCHEME|];
      }
      RemoveSchemeAtFirst(a[1..], b);
      assert s[0] == a[0] && a == [a[0]] + a[1..];
    }
  }

  /** Joining segments with `/`: Python's `'/'.join(segs)`. */
  function Join(segs: seq<string>): string {
    if |segs| == 0 then ""
    else if |segs| == 1 then segs[0]
    else segs[0] + "/" + Join(segs[1..])
  }

  /** Python's `s.split('/')`: the segments between the slashes, in order;
      joining them back gives `s`. */
  function Split(s: string): (segs: seq<string>)
    ensures |segs| >= 1
    ensures forall i :: 0 <= i < |segs| ==> '/' !in segs[i]
    ensures Join(segs) == s
  {
    if s == [] then [[]]
    else if s[0] == '/' then
      var rest := Split(s[1..]);
      assert Join([[]] + rest) == [] + "/" + Join(rest);
      [[]] + rest
    else
      var rest := Split(s[1..]);
      var segs := [[s[0]] + rest[0]] + rest[1..];
      assert segs[1..] == rest[1..];
      assert s == [s[0]] + s[1..];
      segs
  }

  /** The normalised destination with every scheme occurrence removed:
      the string the bucket and the prefix are cut from. */
  function Normalised(path: string): string {
    RemoveScheme(BackSlashCheck(path))
  }

  /** The bucket is the first segment; the prefix is the rest of the
      segments joined again. */
  function ParseDestination(path: string): (d: Target)
    ensures '/' !in d.bucket
    ensures '/' in Normalised(path) ==> Normalised(path) == d.bucket + "/" + d.prefix
    ensures '/' !in Normalised(path) ==> d.bucket == Normalised(path) && d.prefix == ""
  {
    var segs := Split(Normalised(path));
    Target(segs[0], Join(segs[1..]))
  }

  /** With a single leading scheme, the scheme removal only drops that
      leading occurrence. */
  lemma NormalisedSingleScheme(path: string)
    requires SCHEME <= BackSlashCheck(path)
    requires NoScheme(BackSlashCheck(path)[|SCHEME|..])
    ensures Normalised(path) == BackSlashCheck(path)[|SCHEME|..]
  {
    var n := BackSlashCheck(path);
    assert SchemeAt(n, 0);
    RemoveSchemeNoScheme(n[|SCHEME|..]);
  }

  /** When the scheme-free string ends in a slash, the prefix is empty or
      ends in a slash too. */
  lemma PrefixKeepsTrailingSlash(path: string)
    requires EndsWithSlash(Normalised(path))
    ensures var d := ParseDestination(path);
      Normalised(path) == d.bucket + "/" + d.prefix &&
      (d.prefix == "" || EndsWithSlash(d.prefix))
  {
    var rest := Normalised(path);
    var d := ParseDestination(path);
    assert '/' in rest by {
      assert rest[|rest| - 1] == '/';
    }
    if d.prefix != "" {
      assert d.prefix[|d.prefix| - 1] == rest[|rest| - 1];
    }
  }

  /** With a single leading scheme and a destination longer than the
      scheme, the scheme-free string ends in a slash. */
  lemma NormalisedEndsWithSlash(path: string)
    requires SCHEME <= BackSlashCheck(path)
    requires |BackSlashCheck(path)| > |SCHEME|
    requires NoScheme(BackSlashCheck(path)[|SCHEME|..])
    ensures EndsWithSlash(Normalised(path))
  {
    var n := BackSlashCheck(path);
    NormalisedSingleScheme(path);
    assert Normalised(path)[|Normalised(path)| - 1] == n[|n| - 1];
  }

  /** With a single leading scheme and nothing after it that the scheme
      removal could touch, the destination is rebuilt from its parts,
      and the prefix is empty or ends with a slash. */
  lemma ParseDestinationRoundTrip(path: string)
    requires SCHEME <= BackSlashCheck(path)
    requires |BackSlashCheck(path)| > |SCHEME|
    requires NoScheme(BackSlashCheck(path)[|SCHEME|..])
    ensures var d := ParseDestination(path);
      SCHEME + d.bucket + "/" + d.prefix == BackSlashCheck(path) &&
      (d.prefix == "" || EndsWithSlash(d.prefix))
  {
    var n := BackSlashCheck(path);
    var d := ParseDestination(path);
    NormalisedSingleScheme(path);
    NormalisedEndsWithSlash(path);
    PrefixKeepsTrailingSlash(path);
    assert n[|SCHEME|..] == d.bucket + "/" + d.prefix;
    assert n == SCHEME + n[|SCHEME|..];
  }

  /** Cutting at a slash that is the first one is unique. */
  lemma FirstSlashUnique(b1: string, p1: string, b2: string, p2: string)
    requires b1 + "/" + p1 == b2 + "/" + p2
    requires '/' !in b1 && '/' !in b2
    ensures b1 == b2 && p1 == p2
  {
    var t := b1 + "/" + p1;
    assert t[|b1|] == '/' && t[|b2|] == '/';
    assert forall i :: 0 <= i < |b1| ==> t[i] == b1[i];
    assert forall i :: 0 <= i < |b2| ==> t[i] == b2[i];
    assert |b1| == |b2|;
    assert b1 == t[..|b1|] && b2 == t[..|b2|];
    assert p1 == t[|b1| + 1..] && p2 == t[|b2| + 1..];
  }

  /** The bucket is exactly the text before the first slash of the
      scheme-free string, and the prefix everything after it. */
  lemma ParseDestinationAtFirstSlash(path: string, bucket: string, prefix: string)
    requires Normalised(path) == bucket + "/" + prefix
    requires '/' !in bucket
    ensures ParseDestination(path) == Target(bucket, prefix)
  {
    var t := Normalised(path);
    var d := ParseDestination(path);
    assert t[|bucket|] == '/';
    FirstSlashUnique(bucket, prefix, d.bucket, d.prefix);
  }

  /** A string without the letter `s` cannot hold the scheme. */
  lemma NoSchemeWithoutS(s: string)
    requires 's' !in s
    ensures NoScheme(s)
  {
    forall i: nat | i < |s| ensures !SchemeAt(s, i) {
      if i + |SCHEME| <= |s| {
        assert s[i..i + |SCHEME|][0] == s[i];
      }
    }
  }

  /** The usual destination: the trailing slash is added and ends up on
      the prefix. */
  lemma ParseUsualDestination()
    ensures ParseDestination("s3://b/p") == Target("b", "p/")
  {
    var n := "s3://b/p/";
    assert BackSlashCheck("s3://b/p") == n;
    assert SchemeAt(n, 0) && n[|SCHEME|..] == "b/p/";
    NoSchemeWithoutS("b/p/");
    RemoveSchemeNoScheme("b/p/");
    assert Normalised("s3://b/p") == "b/p/";
    ParseDestinationAtFirstSlash("s3://b/p", "b", "p/");
  }

  /** Nothing forces the bucket to be non-empty. */
  lemma ParseEmptyBucket()
    ensures ParseDestination("s3:///p") == Target("", "p/")
  {
    var n := "s3:///p/";
    assert BackSlashCheck("s3:///p") == n;
    assert SchemeAt(n, 0);
    assert n[|SCHEME|..] == "/p/";
    NoSchemeWithoutS("/p/");
    RemoveSchemeNoScheme("/p/");
    ParseDestinationAtFirstSlash("s3:///p", "", "p/");
  }

  /** Occurrences are removed left to right, one pass, without rescanning. */
  lemma RemoveEmbeddedScheme()
    ensures RemoveScheme("s3://b/ps3://") == "b/p"
  {
    var n := "s3://b/ps3://";
    assert SchemeAt(n, 0) && n[|SCHEME|..] == "b/ps3://";
    assert !SchemeAt("b/ps3://", 0) && "b/ps3://"[1..] == "/ps3://";
    assert !SchemeAt("/ps3://", 0) && "/ps3://"[1..] == "ps3://";
    assert !SchemeAt("ps3://", 0) && "ps3://"[1..] == "s3://";
    assert SchemeAt("s3://", 0) && "s3://"[|SCHEME|..] == "";
    assert RemoveScheme("ps3://") == "p";
    assert RemoveScheme("/ps3://") == "/p";
  }

  /** What remains after a removal is not scanned again, so the result can
      still hold the scheme. */
  lemma RemoveSchemeSinglePass()
    ensures RemoveScheme("ss3://3://") == SCHEME
  {
    assert "ss3://3://" == "s" + SCHEME + "3://";
    assert "ss3://3://"[0..|SCHEME|][1] != SCHEME[1];
    RemoveSchemeAtFirst("s", "3://");
    NoSchemeWithoutS("3://");
    RemoveSchemeNoScheme("3://");
  }

  /** The bare scheme is accepted on the command line; it gives the empty
      bucket and the empty prefix, so the round trip would add a slash. */
  lemma ParseBareScheme()
    ensures BackSlashCheck(SCHEME) == SCHEME
    ensures ParseDestination(SCHEME) == Target("", "")
    ensures SCHEME + "" + "/" + "" != BackSlashCheck(SCHEME)
  {
    assert SchemeAt(SCHEME, 0) && SCHEME[|SCHEME|..] == "";
    assert Normalised(SCHEME) == "";
  }

  /** A second scheme occurrence at the end swallows the trailing slash,
      leaving a prefix without one. */
  lemma ParseEmbeddedScheme()
    ensures ParseDestination("s3://b/ps3://") == Target("b", "p")
  {
    assert BackSlashCheck("s3://b/ps3://") == "s3://b/ps3://";
    RemoveEmbeddedScheme();
    ParseDestinationAtFirstSlash("s3://b/ps3://", "b", "p");
  }
}

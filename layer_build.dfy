/** The string handling of get_artifact_location in layer_build.py: the CodeBuild artifact
    location (an S3 ARN) is stripped and split into a bucket and a key. */
module LayerBuild {
  import opened Wrappers

  /** The argument of the `strip` call, 'aws:arn:s3:::', read as Python reads it:
      the set of characters to remove from both ends, not a prefix. */
  const StripChars: set<char> := {'a', 'w', 's', ':', 'r', 'n', '3'}

  /** The prefix an S3 ARN carries. */
  const ArnPrefix: string := "arn:aws:s3:::"

  /** `s.lstrip(chars)`: drops the leading characters that belong to `chars`. */
  function StripLeading(s: string, chars: set<char>): (r: string)
    ensures |r| <= |s| && r == s[|s| - |r|..]
    ensures forall k :: 0 <= k < |s| - |r| ==> s[k] in chars
    ensures r != [] ==> r[0] !in chars
  {
    if s != [] && s[0] in chars then StripLeading(s[1..], chars) else s
  }

  /** `s.rstrip(chars)`: drops the trailing characters that belong to `chars`. */
  function StripTrailing(s: string, chars: set<char>): (r: string)
    ensures |r| <= |s| && r == s[..|r|]
    ensures forall k :: |r| <= k < |s| ==> s[k] in chars
    ensures r != [] ==> r[|r| - 1] !in chars
  {
    if s != [] && s[|s| - 1] in chars then StripTrailing(s[..|s| - 1], chars) else s
  }

  /** `s.strip(chars)`: `s` without its leading and trailing characters that belong to
      `chars`. */
  function Strip(s: string, chars: set<char>): (r: string)
    ensures |r| <= |s|
    ensures r != [] ==> r[0] !in chars && r[|r| - 1] !in chars
  {
    var left := StripLeading(s, chars);
    var r := StripTrailing(left, chars);
    assert r != [] ==> r[0] == left[0];
    r
  }

  /** Strip keeps a middle part of `s` and cuts off only characters of `chars` on either
      side. */
  lemma StripKeepsMiddle(s: string, chars: set<char>)
    ensures var r := Strip(s, chars);
            var i := |s| - |StripLeading(s, chars)|;
            && i + |r| <= |s| && r == s[i..i + |r|]
            && (forall k :: 0 <= k < i ==> s[k] in chars)
            && (forall k :: i + |r| <= k < |s| ==> s[k] in chars)
  {
    var left := StripLeading(s, chars);
    var r := StripTrailing(left, chars);
    var i := |s| - |left|;
    assert r == s[i..i + |r|];
  }

  /** The index of the first occurrence of `c` in `s`, if any. */
  function IndexOf(s: string, c: char): (r: Option<nat>)
    ensures r.Some? ==> r.value < |s| && s[r.value] == c && c !in s[..r.value]
    ensures r.None? ==> c !in s
  {
    if s == [] then None
    else if s[0] == c then Some(0)
    else match IndexOf(s[1..], c)
      case None => None
      case Some(i) => assert s[..i + 1] == [s[0]] + s[1..][..i]; Some(i + 1)
  }

  /** `sep.join(parts)`, the inverse of `Split`. */
  function Join(parts: seq<string>, sep: char): string
    requires |parts| >= 1
  {
    if |parts| == 1 then parts[0] else parts[0] + [sep] + Join(parts[1..], sep)
  }

  /** `s.split(sep)` for a one-character separator: the pieces between separators. */
  function Split(s: string, sep: char): (r: seq<string>)
    ensures |r| >= 1
    ensures Join(r, sep) == s
    ensures forall k :: 0 <= k < |r| ==> sep !in r[k]
    decreases |s|
  {
    match IndexOf(s, sep)
    case None => [s]
    case Some(i) =>
      var rest := Split(s[i + 1..], sep);
      var r := [s[..i]] + rest;
      assert r[1..] == rest;
      assert s == s[..i] + [sep] + s[i + 1..];
      r
  }

  /** `s.split(sep, 1)`: at most one split, at the first separator. */
  function SplitOnce(s: string, sep: char): (r: seq<string>)
    ensures 1 <= |r| <= 2
    ensures |r| == 1 <==> sep !in s
    ensures |r| == 1 ==> r[0] == s
    ensures |r| == 2 ==> sep !in r[0] && r[0] + [sep] + r[1] == s
  {
    match IndexOf(s, sep)
    case None => [s]
    case Some(i) =>
      assert s == s[..i] + [sep] + s[i + 1..];
      [s[..i], s[i + 1..]]
  }

  /** Lines 22-23 of get_artifact_location: `bucket = path.split('/')[0]` and
      `key = path.split('/', 1)[-1]`. */
  function SplitBucketKey(path: string): (r: (string, string))
    ensures '/' !in r.0
    ensures '/' in path ==> r.0 + "/" + r.1 == path
    ensures '/' !in path ==> r.0 == path && r.1 == path
  {
    var pieces := SplitOnce(path, '/');
    var bucket := Split(path, '/')[0];
    var key := pieces[|pieces| - 1];
    assert '/' in path ==> bucket == pieces[0] by {
      if '/' in path {
        var i := IndexOf(path, '/').value;
        assert bucket == path[..i];
      }
    }
    (bucket, key)
  }

  /** Lines 21-24 of get_artifact_location, with the location of the build record passed in:
      the location is stripped of the characters of 'aws:arn:s3:::' at both ends, then split
      into (bucket, key). */
  function ArtifactLocation(location: string): (r: (string, string))
    ensures var stripped := Strip(location, StripChars);
            && '/' !in r.0
            && ('/' in stripped ==> r.0 + "/" + r.1 == stripped)
            && ('/' !in stripped ==> r.0 == stripped && r.1 == stripped)
  {
    SplitBucketKey(Strip(location, StripChars))
  }

  /** Only the first '/' splits: the bucket is everything before it, the key everything
      after it, further '/' characters included. */
  lemma SplitsAtFirstSlash(path: string, n: nat)
    requires n < |path| && path[n] == '/' && '/' !in path[..n]
    ensures SplitBucketKey(path) == (path[..n], path[n + 1..])
  {
    var r := SplitBucketKey(path);
    assert path == r.0 + "/" + r.1;
    var m := |r.0|;
    assert path[m] == '/';
    assert path[..n] == r.0;
    assert path[n + 1..] == r.1;
  }

  /** Stripping leading characters removes exactly a prefix made of them. */
  lemma {:induction false} StripLeadingPrefix(p: string, s: string, chars: set<char>)
    requires forall k :: 0 <= k < |p| ==> p[k] in chars
    requires s == [] || s[0] !in chars
    ensures StripLeading(p + s, chars) == s
  {
    if p != [] {
      assert (p + s)[1..] == p[1..] + s;
      StripLeadingPrefix(p[1..], s, chars);
    }
  }

  /** Stripping trailing characters removes exactly a suffix made of them. */
  lemma {:induction false} StripTrailingSuffix(s: string, p: string, chars: set<char>)
    requires forall k :: 0 <= k < |p| ==> p[k] in chars
    requires s == [] || s[|s| - 1] !in chars
    ensures StripTrailing(s + p, chars) == s
  {
    if p != [] {
      assert (s + p)[..|s + p| - 1] == s + p[..|p| - 1];
      StripTrailingSuffix(s, p[..|p| - 1], chars);
    }
  }

  /** `Strip(p + s + q)` is `s` when `p` and `q` consist of stripped characters and `s` starts
      and ends with kept ones. */
  lemma StripBoth(p: string, s: string, q: string, chars: set<char>)
    requires forall k :: 0 <= k < |p| ==> p[k] in chars
    requires forall k :: 0 <= k < |q| ==> q[k] in chars
    requires s != [] && s[0] !in chars && s[|s| - 1] !in chars
    ensures Strip(p + s + q, chars) == s
  {
    assert p + s + q == p + (s + q);
    StripLeadingPrefix(p, s + q, chars);
    StripTrailingSuffix(s, q, chars);
  }

  /** What the split at lines 22-23 receives once the strip has removed `p` and `q`. */
  lemma StripsTo(location: string, p: string, path: string, q: string)
    requires location == p + path + q
    requires forall k :: 0 <= k < |p| ==> p[k] in StripChars
    requires forall k :: 0 <= k < |q| ==> q[k] in StripChars
    requires path != [] && path[0] !in StripChars && path[|path| - 1] !in StripChars
    ensures ArtifactLocation(location) == SplitBucketKey(path)
  {
    StripBoth(p, path, q, StripChars);
  }

  /** A bucket without '/' joined to any key splits back into the two. */
  lemma SplitJoined(bucket: string, key: string)
    requires '/' !in bucket
    ensures SplitBucketKey(bucket + "/" + key) == (bucket, key)
  {
    var path := bucket + "/" + key;
    assert path[..|bucket|] == bucket;
    SplitsAtFirstSlash(path, |bucket|);
    assert path[|bucket| + 1..] == key;
  }

  /** A key with further '/' characters keeps them. */
  lemma SplitExample1()
    ensures SplitBucketKey("mybucket/path/layer.zip") == ("mybucket", "path/layer.zip")
  {
    var path := "mybucket/path/layer.zip";
    assert path[..8] == "mybucket";
    SplitsAtFirstSlash(path, 8);
  }

  /** The split of a path whose bucket is "pshots". */
  lemma SplitExample2()
    ensures SplitBucketKey("pshots/layer.zip") == ("pshots", "layer.zip")
  {
    var path := "pshots/layer.zip";
    assert path[..6] == "pshots";
    SplitsAtFirstSlash(path, 6);
  }

  /** The split of a path with a one-segment key. */
  lemma SplitExample3()
    ensures SplitBucketKey("mybucket/asset") == ("mybucket", "asset")
  {
    var path := "mybucket/asset";
    assert path[..8] == "mybucket";
    SplitsAtFirstSlash(path, 8);
  }

  /** The location of the usual shape splits as expected. */
  lemma ArtifactLocationExample()
    ensures ArtifactLocation("arn:aws:s3:::mybucket/path/layer.zip") == ("mybucket", "path/layer.zip")
  {
    StripsTo("arn:aws:s3:::mybucket/path/layer.zip", ArnPrefix, "mybucket/path/layer.zip", "");
    SplitExample1();
  }

  /** The strip at line 21 eats into the bucket when the bucket name starts with one of the
      characters of 'aws:arn:s3:::'. */
  lemma StripEatsBucket()
    ensures ArtifactLocation("arn:aws:s3:::snapshots/layer.zip") == ("pshots", "layer.zip")
  {
    StripsTo("arn:aws:s3:::snapshots/layer.zip", "arn:aws:s3:::sna", "pshots/layer.zip", "");
    SplitExample2();
  }

  /** The strip at line 21 eats into the key when the key ends with one of the characters
      of 'aws:arn:s3:::'. */
  lemma StripEatsKey()
    ensures ArtifactLocation("arn:aws:s3:::mybucket/assets") == ("mybucket", "asset")
  {
    StripsTo("arn:aws:s3:::mybucket/assets", ArnPrefix, "mybucket/asset", "s");
    SplitExample3();
  }

  /** The location with the ARN prefix removed, as line 21 evidently intends. */
  function RemoveArnPrefix(location: string): (r: string)
    ensures |location| >= |ArnPrefix| && location[..|ArnPrefix|] == ArnPrefix ==> ArnPrefix + r == location
    ensures !(|location| >= |ArnPrefix| && location[..|ArnPrefix|] == ArnPrefix) ==> r == location
  {
    if |location| >= |ArnPrefix| && location[..|ArnPrefix|] == ArnPrefix then location[|ArnPrefix|..] else location
  }

  /** get_artifact_location with the prefix removed instead of stripped. */
  function ArtifactLocationFixed(location: string): (string, string)
  {
    SplitBucketKey(RemoveArnPrefix(location))
  }

  /** The corrected split recovers any bucket and key from the ARN built from them. */
  lemma ArtifactLocationFixedRoundTrip(bucket: string, key: string)
    requires '/' !in bucket
    ensures ArtifactLocationFixed(ArnPrefix + bucket + "/" + key) == (bucket, key)
  {
    var location := ArnPrefix + bucket + "/" + key;
    assert location[..|ArnPrefix|] == ArnPrefix;
    assert RemoveArnPrefix(location) == bucket + "/" + key;
    SplitJoined(bucket, key);
  }
}

/**
  Resolution of a browser URL path into the bucket, the parent prefix and the
  prefix it names (internal/util.go). Both operations are total string functions.
 */
module PathUtil {
  import opened GoStrings

  /** The three strings ParsePath returns. */
  datatype ResolvedPath = ResolvedPath(bucket: string, parentPrefix: string, prefix: string)

  /** joinPath: the parts separated by '/'. */
  function JoinPath(parts: seq<string>): string {
    Join(parts, '/')
  }

  /** The path with one leading '/' removed, as ParsePath does before trimming. */
  function DropLeadingSlash(path: string): (r: string)
    ensures r == path || (|path| > 0 && path[0] == '/' && r == path[1..])
  {
    if |path| > 0 && path[0] == '/' then path[1..] else path
  }

  /** The '/'-separated segments ParsePath works on. */
  function Segments(path: string): (parts: seq<string>)
    ensures |parts| >= 1
  {
    Split(Trim(DropLeadingSlash(path), '/'), '/')
  }

  /**
    ParsePath: the first segment is the bucket, all later segments joined are the
    prefix, and the segments strictly between the first and the last joined are the
    parent prefix.
   */
  function ParsePath(path: string): ResolvedPath {
    FromSegments(Segments(path))
  }

  /** The second half of ParsePath, from the segments to the three strings. */
  function FromSegments(parts: seq<string>): ResolvedPath {
    // Split never returns an empty list, so this branch is never taken.
    if |parts| == 0 then ResolvedPath("", "", "")
    else
      var bucket := parts[0];
      var parentPrefix := if |parts| > 1 then JoinPath(parts[1..|parts| - 1]) else "";
      var prefix := JoinPath(parts[1..]);
      ResolvedPath(bucket, parentPrefix, prefix)
  }

  // ---------------------------------------------------------------------------
  // Properties

  /** Removing one leading '/' before trimming changes nothing: the segments are those of the trimmed path. */
  lemma SegmentsOfTrim(path: string)
    ensures Segments(path) == Split(Trim(path, '/'), '/')
  {
    if |path| > 0 && path[0] == '/' {
      assert path == [path[0]] + path[1..];
      TrimLeftSkips([path[0]], path[1..], '/');
    }
  }

  /** ParsePath only looks at the path with its leading and trailing slashes trimmed. */
  lemma ParsePathOfTrim(path: string)
    ensures ParsePath(path) == ParsePath(Trim(path, '/'))
  {
    SegmentsOfTrim(path);
    SegmentsOfTrim(Trim(path, '/'));
    TrimIdempotent(path, '/');
    assert Segments(path) == Segments(Trim(path, '/'));
  }

  /** Adding or removing any number of leading or trailing slashes does not change the result. */
  lemma SlashInsensitive(pre: string, path: string, post: string)
    requires AllAre(pre, '/') && AllAre(post, '/')
    ensures ParsePath(pre + path + post) == ParsePath(path)
  {
    ParsePathOfTrim(pre + path + post);
    ParsePathOfTrim(path);
    TrimIgnoresOuter(pre, path, post, '/');
  }

  /** The bucket never contains '/', and it is empty exactly when the path is made of slashes only. */
  lemma BucketShape(path: string)
    ensures '/' !in ParsePath(path).bucket
    ensures ParsePath(path).bucket == "" <==> AllAre(path, '/')
  {
    SegmentsOfTrim(path);
    var t := Trim(path, '/');
    SplitFirstEmpty(t, '/');
    SplitPiecesFree(t, '/');
    TrimmedEnds(path, '/');
    TrimEmptyIff(path, '/');
  }

  /**
    Round trip: when the trimmed path has a '/', it is the bucket, a '/', and the
    prefix; otherwise it is the bucket alone and the prefix is empty.
   */
  lemma BucketPrefixRoundTrip(path: string)
    ensures var t := Trim(path, '/'); var r := ParsePath(path);
      if '/' in t then t == r.bucket + "/" + r.prefix
      else r.bucket == t && r.prefix == ""
  {
    SegmentsOfTrim(path);
    var t := Trim(path, '/');
    JoinSplit(t, '/');
    JoinOfSegments(Split(t, '/'));
  }

  lemma JoinOfSegments(parts: seq<string>)
    requires |parts| >= 1
    ensures var r := FromSegments(parts);
      if |parts| > 1 then JoinPath(parts) == r.bucket + "/" + r.prefix
      else r.bucket == JoinPath(parts) && r.prefix == ""
  {
  }

  /**
    The parent prefix is a string prefix of the prefix: with three or more segments
    the prefix is the parent prefix, a '/' and the last segment; with at most two
    the parent prefix is empty.
   */
  lemma ParentPrefixOfPrefix(path: string)
    ensures var r := ParsePath(path); var parts := Segments(path); var n := |parts|;
      && r.parentPrefix <= r.prefix
      && (n >= 3 ==> r.prefix == r.parentPrefix + "/" + parts[n - 1])
      && (n <= 2 ==> r.parentPrefix == "")
  {
    ParentOfSegments(Segments(path));
  }

  lemma ParentOfSegments(parts: seq<string>)
    requires |parts| >= 1
    ensures var r := FromSegments(parts); var n := |parts|;
      && r.parentPrefix <= r.prefix
      && (n >= 3 ==> r.prefix == r.parentPrefix + "/" + parts[n - 1])
      && (n <= 2 ==> r.parentPrefix == "")
  {
    var n := |parts|;
    if n >= 3 {
      assert parts[1..] == parts[1..n - 1] + [parts[n - 1]];
      JoinSnoc(parts[1..n - 1], parts[n - 1], '/');
    }
  }

  /** The prefix never ends with '/' (empty segments inside it are kept as they are). */
  lemma PrefixHasNoTrailingSlash(path: string)
    ensures var p := ParsePath(path).prefix; p == "" || p[|p| - 1] != '/'
  {
    SegmentsOfTrim(path);
    var t := Trim(path, '/');
    var parts := Split(t, '/');
    var n := |parts|;
    SplitPiecesFree(t, '/');
    if n >= 2 {
      TrimmedEnds(path, '/');
      if parts[n - 1] == "" {
        SplitLastEmpty(t, '/');
      }
    }
    LastOfSegments(parts);
  }

  lemma LastOfSegments(parts: seq<string>)
    requires |parts| >= 1
    requires forall i :: 0 <= i < |parts| ==> '/' !in parts[i]
    requires |parts| >= 2 ==> parts[|parts| - 1] != ""
    ensures var p := FromSegments(parts).prefix; p == "" || p[|p| - 1] != '/'
  {
    var n := |parts|;
    if n >= 2 {
      var last := parts[n - 1];
      if n == 2 {
        assert parts[1..] == [last];
      } else {
        assert parts[1..] == parts[1..n - 1] + [last];
        JoinSnoc(parts[1..n - 1], last, '/');
      }
      assert last[|last| - 1] in last;
    }
  }

  // ---------------------------------------------------------------------------
  // The cases of internal/util_test.go

  /** The segments of a path that neither starts nor ends with '/' are its split. */
  lemma SegmentsOfUntrimmed(path: string)
    requires path == [] || (path[0] != '/' && path[|path| - 1] != '/')
    ensures Segments(path) == Split(path, '/')
  {
    TrimNoop(path, '/');
  }

  lemma ParsePathEmptyExample()
    ensures ParsePath("") == ResolvedPath("", "", "")
  {
    SegmentsOfUntrimmed("");
  }

  lemma ParsePathBucketExample()
    ensures ParsePath("my-bucket") == ResolvedPath("my-bucket", "", "")
  {
    OneSegment("my-bucket");
  }

  /** A path of one non-empty segment names a bucket and no prefix. */
  lemma OneSegment(a: string)
    requires a != "" && '/' !in a
    ensures ParsePath(a) == ResolvedPath(a, "", "")
  {
    assert a[0] in a && a[|a| - 1] in a;
    SegmentsOfUntrimmed(a);
    assert Segments(a) == [a];
    assert [a][1..] == [];
  }

  /** The segments of a path made of separator-free, non-empty pieces are those pieces. */
  lemma SegmentsOfPieces(a: string, rest: seq<string>)
    requires a != "" && '/' !in a
    requires forall i :: 0 <= i < |rest| ==> '/' !in rest[i]
    requires |rest| > 0 ==> rest[|rest| - 1] != ""
    ensures Segments(JoinPath([a] + rest)) == [a] + rest
  {
    var parts := [a] + rest;
    var path := JoinPath(parts);
    SplitJoin(parts, '/');
    if |rest| == 0 {
      assert path == a;
      assert path[0] in a && path[|path| - 1] in a;
    } else {
      var last := rest[|rest| - 1];
      assert parts == parts[..|parts| - 1] + [last];
      JoinSnoc(parts[..|parts| - 1], last, '/');
      assert path[|path| - 1] == last[|last| - 1];
      assert last[|last| - 1] in last;
      assert path == a + ['/'] + JoinPath(rest);
      assert path[0] == a[0];
      assert a[0] in a;
    }
    SegmentsOfUntrimmed(path);
  }

  /** A path of two non-empty segments names a bucket and a top-level prefix. */
  lemma TwoSegments(a: string, b: string)
    requires a != "" && b != "" && '/' !in a && '/' !in b
    ensures ParsePath(a + "/" + b) == ResolvedPath(a, "", b)
  {
    assert JoinPath([a, b]) == a + "/" + b by {
      assert JoinPath([a, b]) == Join([a, b], '/');
      assert [a, b][1..] == [b];
    }
    SegmentsOfPieces(a, [b]);
    assert ([a] + [b])[1..] == [b] && ([a] + [b])[1..1] == [];
  }

  /** A path of three non-empty segments: the middle one is the parent prefix. */
  lemma ThreeSegments(a: string, b: string, d: string)
    requires a != "" && b != "" && d != "" && '/' !in a && '/' !in b && '/' !in d
    ensures ParsePath(a + "/" + b + "/" + d) == ResolvedPath(a, b, b + "/" + d)
  {
    assert JoinPath([b, d]) == b + "/" + d by {
      assert JoinPath([b, d]) == Join([b, d], '/');
      assert [b, d][1..] == [d];
    }
    assert JoinPath([a, b, d]) == a + "/" + b + "/" + d by {
      assert JoinPath([a, b, d]) == Join([a, b, d], '/');
      assert [a, b, d][1..] == [b, d];
    }
    SegmentsOfPieces(a, [b, d]);
    assert [a] + [b, d] == [a, b, d];
    assert [a, b, d][1..] == [b, d] && [a, b, d][1..2] == [b];
  }

  /** A path of four non-empty segments: the two middle ones form the parent prefix. */
  lemma FourSegments(a: string, b: string, d: string, e: string)
    requires a != "" && b != "" && d != "" && e != ""
    requires '/' !in a && '/' !in b && '/' !in d && '/' !in e
    ensures ParsePath(a + "/" + b + "/" + d + "/" + e) == ResolvedPath(a, b + "/" + d, b + "/" + d + "/" + e)
  {
    JoinFour(a, b, d, e);
    var parts := [a, b, d, e];
    SegmentsOfPieces(a, [b, d, e]);
    assert [a] + [b, d, e] == parts;
    assert Segments(a + "/" + b + "/" + d + "/" + e) == parts;
    assert parts[1..] == [b, d, e] && parts[1..|parts| - 1] == [b, d];
    assert FromSegments(parts) == ResolvedPath(a, JoinPath([b, d]), JoinPath([b, d, e]));
  }

  lemma JoinFour(a: string, b: string, d: string, e: string)
    ensures JoinPath([b, d]) == b + "/" + d
    ensures JoinPath([b, d, e]) == b + "/" + d + "/" + e
    ensures JoinPath([a, b, d, e]) == a + "/" + b + "/" + d + "/" + e
  {
    assert JoinPath([b, d]) == b + "/" + d by {
      assert JoinPath([b, d]) == Join([b, d], '/');
      assert [b, d][1..] == [d];
    }
    assert JoinPath([b, d, e]) == b + "/" + d + "/" + e by {
      assert JoinPath([b, d, e]) == Join([b, d, e], '/');
      assert [b, d, e][1..] == [d, e];
      assert [d, e][1..] == [e];
      assert Join([d, e], '/') == d + "/" + e;
      assert Join([b, d, e], '/') == b + "/" + Join([d, e], '/');
    }
    assert JoinPath([a, b, d, e]) == a + "/" + b + "/" + d + "/" + e by {
      assert JoinPath([a, b, d, e]) == Join([a, b, d, e], '/');
      assert [a, b, d, e][1..] == [b, d, e];
      assert Join([a, b, d, e], '/') == a + "/" + Join([b, d, e], '/');
    }
  }

  // The literal paths of the tests are written as concatenations of their segments.
  lemma ParsePathDirsExample()
    ensures ParsePath("my-bucket" + "/" + "dir1" + "/" + "dir2") == ResolvedPath("my-bucket", "dir1", "dir1" + "/" + "dir2")
  {
    ThreeSegments("my-bucket", "dir1", "dir2");
  }

  lemma ParsePathSlashesExample()
    ensures ParsePath("/" + ("my-bucket" + "/" + "dir1") + "/") == ResolvedPath("my-bucket", "", "dir1")
  {
    SlashedTwoSegments("my-bucket", "dir1");
  }

  /** Two segments between a leading and a trailing slash resolve as the two segments alone. */
  lemma SlashedTwoSegments(a: string, b: string)
    requires a != "" && b != "" && '/' !in a && '/' !in b
    ensures ParsePath("/" + (a + "/" + b) + "/") == ResolvedPath(a, "", b)
  {
    SlashInsensitive("/", a + "/" + b, "/");
    TwoSegments(a, b);
  }

  lemma ParsePathDeepExample()
    ensures ParsePath("my-bucket" + "/" + "parent" + "/" + "current" + "/" + "child")
         == ResolvedPath("my-bucket", "parent" + "/" + "current", "parent" + "/" + "current" + "/" + "child")
  {
    FourSegments("my-bucket", "parent", "current", "child");
  }

  /** An empty segment inside the path is kept: "b//x" has the prefix "/x". */
  lemma InteriorEmptySegmentExample()
    ensures ParsePath("b//x") == ResolvedPath("b", "", "/x")
  {
    SegmentsOfUntrimmed("b//x");
    assert "b//x" == "b" + "/" + "/x";
    assert "/x" == "" + "/" + "x";
    SplitAfterPiece("b", "/x", '/');
    SplitAfterPiece("", "x", '/');
  }

  lemma JoinPathExamples()
    ensures JoinPath([]) == ""
    ensures JoinPath(["dir"]) == "dir"
    ensures JoinPath(["parent", "child", "file.txt"]) == "parent/child/file.txt"
    ensures JoinPath(["", "dir", ""]) == "/dir/"
  {
  }

  /** joinPath undoes a split on '/': the segments of any string join back to it. */
  lemma JoinPathSplit(s: string)
    ensures JoinPath(Split(s, '/')) == s
  {
    JoinSplit(s, '/');
  }
}

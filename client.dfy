/**
  The S3 client wrapper of internal/s3client/client.go: the listing cache keyed by
  bucket and prefix, the transformation of a ListObjectsV2 response into the rows
  the browser shows, the human-readable size, and the bucket list.

  The remote store is a `Gateway` of two functions: the answer it gives to a
  request at a given instant. Clocks are passed in as `Time` parameters.
 */
module S3Client {
  import opened Wrappers
  import opened GoStrings
  import opened GoFormat
  import Env

  /** A time.Time, as nanoseconds since Go's zero time (so the zero Time is 0). */
  type Time = int

  type Duration = Env.Duration

  /** Go's int64. */
  type Int64 = x: int | -0x8000_0000_0000_0000 <= x < 0x8000_0000_0000_0000

  // ---------------------------------------------------------------------------
  // Gateway requests and responses

  /** A bucket in a ListBuckets response. */
  datatype Bucket = Bucket(name: string, creationDate: Time)

  /** An object in a ListObjectsV2 response. */
  datatype Object = Object(key: string, size: Int64, lastModified: Time)

  datatype ListObjectsV2Input = ListObjectsV2Input(bucket: string, prefix: string, delimiter: string)

  /** The directories (common prefixes) and the objects directly under the requested prefix. */
  datatype ListObjectsV2Output = ListObjectsV2Output(commonPrefixes: seq<string>, contents: seq<Object>)

  /** The remote store: its answer, or the error it reports, to a request sent at an instant. */
  datatype Gateway = Gateway(
    listBuckets: Time -> Result<seq<Bucket>, string>,
    listObjectsV2: (ListObjectsV2Input, Time) -> Result<ListObjectsV2Output, string>)

  // ---------------------------------------------------------------------------
  // What the client returns

  datatype BucketInfo = BucketInfo(name: string, creationDate: Time)

  /** One row of a listing: a directory (size "" and the zero time) or a file. */
  datatype ObjectInfo = ObjectInfo(name: string, shortName: string, isDirectory: bool, size: string, lastModified: Time)

  /** A cached ListObjectsV2 response and the instant it stops being served. */
  datatype ListObjectsCacheEntry = ListObjectsCacheEntry(data: ListObjectsV2Output, expiry: Time)

  // ---------------------------------------------------------------------------
  // formatSize

  datatype Unit = B | KB | MB | GB | TB

  const KiB: nat := 0x400
  const MiB: nat := 0x10_0000
  const GiB: nat := 0x4000_0000
  const TiB: nat := 0x100_0000_0000

  /** The unit formatSize picks: the largest binary unit the size reaches; negative sizes stay in bytes. */
  function UnitOf(size: int): Unit {
    if size >= TiB then TB
    else if size >= GiB then GB
    else if size >= MiB then MB
    else if size >= KiB then KB
    else B
  }

  function UnitScale(u: Unit): (s: nat)
    ensures s >= 1
  {
    match u
    case B => 1
    case KB => KiB
    case MB => MiB
    case GB => GiB
    case TB => TiB
  }

  function UnitName(u: Unit): string {
    match u
    case B => "B"
    case KB => "KB"
    case MB => "MB"
    case GB => "GB"
    case TB => "TB"
  }

  function Abs(n: int): nat {
    if n < 0 then -n else n
  }

  /**
    The number formatSize shows, in tenths of its unit: float64(size) divided by the
    unit (exact, a power of two) and rounded to one decimal by strconv.FormatFloat.
   */
  function ShownTenths(size: Int64): nat {
    RoundHalfEven(10 * Float64Of(Abs(size)), UnitScale(UnitOf(size)))
  }

  /** formatSize: the size with one decimal in the unit it reaches, e.g. "1.5 KB". */
  function FormatSize(size: Int64): string {
    FixedOneDecimal(size < 0, ShownTenths(size)) + " " + UnitName(UnitOf(size))
  }

  /** The unit of the text: " TB" exactly from 2^40 bytes up, " B" exactly below 1024 bytes (negative sizes included). */
  lemma FormatSizeUnit(size: Int64)
    ensures HasSuffix(FormatSize(size), " TB") <==> size >= TiB
    ensures HasSuffix(FormatSize(size), " GB") <==> GiB <= size < TiB
    ensures HasSuffix(FormatSize(size), " MB") <==> MiB <= size < GiB
    ensures HasSuffix(FormatSize(size), " KB") <==> KiB <= size < MiB
    ensures HasSuffix(FormatSize(size), " B") <==> size < KiB
  {
    var s := FormatSize(size);
    var n := FixedOneDecimal(size < 0, ShownTenths(size));
    var u := UnitName(UnitOf(size));
    assert s == n + " " + u;
    assert IsDigit(n[|n| - 1]);
    assert s[|s| - 1] == u[|u| - 1];
    assert s[|s| - 2] == (if |u| == 1 then ' ' else u[0]);
    if |u| == 2 {
      assert s[|s| - 3] == ' ';
      assert s[|s| - 3..] == " " + u;
    } else {
      assert s[|s| - 2..] == " " + u;
      assert s[|s| - 3] == n[|n| - 1];
    }
  }

  /**
    The number shown never drops below 1.0 of its unit; below the terabyte it never
    exceeds 1024.0 (rounding can reach it, as 1048575 bytes shows "1024.0 KB").
    Below 1024 bytes the count of bytes is shown exactly, and so is the magnitude of
    a negative size down to -2^53 (the sign is written separately).
   */
  lemma FormatSizeRange(size: Int64)
    ensures size >= KiB ==> ShownTenths(size) >= 10
    ensures KiB <= size < TiB ==> ShownTenths(size) <= 10240
    ensures size < KiB && Abs(size) < Pow53 ==> ShownTenths(size) == 10 * Abs(size)
  {
    var m := Abs(size);
    var s := UnitScale(UnitOf(size));
    var f := Float64Of(m);
    if 0 <= size < TiB {
      if size >= KiB {
        assert s <= m < 1024 * s;
        RoundHalfEvenBetween(10 * m, s, 10, 10240);
      } else {
        RoundHalfEvenExact(10 * m, 1);
      }
    } else if size < 0 && m < Pow53 {
      RoundHalfEvenExact(10 * m, 1);
    } else if size >= TiB {
      Float64OfNearest(m);
      UlpBounds(m);
      if m >= Pow53 {
        // float64 rounding moves m by at most half a spacing, well under 2^52.
        assert Pow53 * Ulp(m) <= 2 * m;
        assert 2 * (m - f) <= Ulp(m);
      } else {
      }
      assert f >= TiB;
      RoundHalfEvenBetween(10 * f, s, 10, 10 * f);
    }
  }

  /** Up to 2^53 bytes the number shown is within half a tenth of the exact size in its unit. */
  lemma FormatSizeAccuracy(size: Int64)
    requires Abs(size) < Pow53
    ensures var s := UnitScale(UnitOf(size)); var t := ShownTenths(size);
      2 * (t * s - 10 * Abs(size)) <= s && 2 * (10 * Abs(size) - t * s) <= s
  {
    RoundHalfEvenNearest(10 * Abs(size), UnitScale(UnitOf(size)));
  }

  /** A number and a unit name of one or two letters, separated by a space, split back apart. */
  lemma UnitSuffixSplit(n1: string, u1: string, n2: string, u2: string)
    requires 1 <= |u1| <= 2 && 1 <= |u2| <= 2 && u1[0] != ' ' && u2[0] != ' '
    requires n1 + " " + u1 == n2 + " " + u2
    ensures n1 == n2 && u1 == u2
  {
    var s := n1 + " " + u1;
    assert s == n2 + " " + u2;
    assert s[|s| - 2] == (if |u1| == 1 then ' ' else u1[0]);
    assert s[|s| - 2] == (if |u2| == 1 then ' ' else u2[0]);
    assert u1 == s[|s| - |u1|..] == u2;
    assert n1 == s[..|n1|] == n2;
  }

  /** The size can be read back from the text: sizes with the same text show the same tenths in the same unit. */
  lemma FormatSizeReadBack(a: Int64, b: Int64)
    requires FormatSize(a) == FormatSize(b)
    ensures UnitOf(a) == UnitOf(b) && (a < 0 <==> b < 0) && ShownTenths(a) == ShownTenths(b)
  {
    var na, nb := FixedOneDecimal(a < 0, ShownTenths(a)), FixedOneDecimal(b < 0, ShownTenths(b));
    var ua, ub := UnitName(UnitOf(a)), UnitName(UnitOf(b));
    UnitSuffixSplit(na, ua, nb, ub);
    FixedOneDecimalInjective(a < 0, ShownTenths(a), b < 0, ShownTenths(b));
    UnitNameInjective(UnitOf(a), UnitOf(b));
  }

  lemma UnitNameInjective(u: Unit, v: Unit)
    requires UnitName(u) == UnitName(v)
    ensures u == v
  {
    assert UnitName(u)[0] == UnitName(v)[0];
  }

  /** A whole number k of a unit, below the next unit, is shown as k with ".0" and that unit. */
  lemma FormatSizeWholeUnits(size: Int64, k: nat, u: Unit)
    requires size == k * UnitScale(u) && size < Pow53
    requires u == B || 1 <= k
    requires u == TB || k < 1024
    ensures FormatSize(size) == NatToString(k) + ".0 " + UnitName(u)
  {
    WholeUnitsTenths(size, k, u);
    WholeTenthsText(k);
  }

  lemma WholeUnitsTenths(size: Int64, k: nat, u: Unit)
    requires size == k * UnitScale(u) && size < Pow53
    requires u == B || 1 <= k
    requires u == TB || k < 1024
    ensures UnitOf(size) == u && ShownTenths(size) == 10 * k
  {
    var sc := UnitScale(u);
    assert UnitOf(size) == u by {
      match u
      case B =>
      case KB =>
      case MB =>
      case GB =>
      case TB =>
    }
    RoundHalfEvenExact(10 * k, sc);
    assert 10 * size == (10 * k) * sc;
  }

  lemma WholeTenthsText(k: nat)
    ensures FixedOneDecimal(false, 10 * k) == NatToString(k) + ".0"
  {
    var t := 10 * k;
    assert t / 10 == k && t % 10 == 0;
    assert DigitChar(0) == '0';
    var n := NatToString(k);
    assert FixedOneDecimal(false, t) == "" + n + "." + ['0'];
    assert "" + n + "." + ['0'] == n + ".0";
  }

  lemma FormatSizeByteExamples()
    ensures FormatSize(0) == "0.0 B"
    ensures FormatSize(500) == "500.0 B"
  {
    FormatSizeWholeUnits(0, 0, B);
    FormatSizeWholeUnits(500, 500, B);
    assert NatToString(500) == "500";
  }

  lemma FormatSizeSmallUnitExamples()
    ensures FormatSize(1024) == "1.0 KB"
    ensures FormatSize(1048576) == "1.0 MB"
  {
    FormatSizeWholeUnits(1024, 1, KB);
    FormatSizeWholeUnits(1048576, 1, MB);
  }

  lemma FormatSizeLargeUnitExamples()
    ensures FormatSize(1073741824) == "1.0 GB"
    ensures FormatSize(1099511627776) == "1.0 TB"
  {
    FormatSizeWholeUnits(1073741824, 1, GB);
    FormatSizeWholeUnits(1099511627776, 1, TB);
  }

  lemma FormatSizeHalfExample()
    ensures FormatSize(1536) == "1.5 KB"
  {
    RoundHalfEvenExact(15, KiB);
  }

  /** An exact tie rounds to the even tenth: 1280 bytes are 1.25 KB, shown as 1.2 KB. */
  lemma FormatSizeTieExample()
    ensures FormatSize(1280) == "1.2 KB"
  {
    assert RoundHalfEven(12800, KiB) == 12;
  }

  /** A negative size is shown in bytes, with its sign. */
  lemma FormatSizeNegativeExample()
    ensures FormatSize(-5) == "-5.0 B"
  {
    RoundHalfEvenExact(50, 1);
  }

  /** One byte short of a mebibyte is shown as 1024.0 KB: the unit follows the size, not the rounded value. */
  lemma FormatSizeBelowMiBExample()
    ensures FormatSize(1048575) == "1024.0 KB"
  {
    assert UnitOf(1048575) == KB;
    assert Float64Of(1048575) == 1048575;
    assert RoundHalfEven(10485750, KiB) == 10240;
    assert ShownTenths(1048575) == 10 * 1024;
    WholeTenthsText(1024);
    assert NatToString(1024) == "1024";
  }

  // ---------------------------------------------------------------------------
  // convertToObjectInfo

  /** The row of a common prefix: a directory named by the prefix, shown without the listed prefix. */
  function DirEntry(commonPrefix: string, prefix: string): ObjectInfo {
    ObjectInfo(commonPrefix, TrimPrefix(commonPrefix, prefix), true, "", 0)
  }

  /** The row of an object: a file with its formatted size and modification time. */
  function FileEntry(obj: Object, prefix: string): ObjectInfo {
    ObjectInfo(obj.key, TrimPrefix(obj.key, prefix), false, FormatSize(obj.size), obj.lastModified)
  }

  function DirEntries(commonPrefixes: seq<string>, prefix: string): (rows: seq<ObjectInfo>)
    ensures |rows| == |commonPrefixes|
    ensures forall i :: 0 <= i < |rows| ==> rows[i] == DirEntry(commonPrefixes[i], prefix)
  {
    seq(|commonPrefixes|, i requires 0 <= i < |commonPrefixes| => DirEntry(commonPrefixes[i], prefix))
  }

  /** The objects that are listed: all of them, in order, except the marker object whose key is the prefix itself. */
  function Listed(contents: seq<Object>, prefix: string): (r: seq<Object>)
    ensures |r| <= |contents|
    decreases |contents|
  {
    if contents == [] then []
    else if contents[0].key == prefix then Listed(contents[1..], prefix)
    else [contents[0]] + Listed(contents[1..], prefix)
  }

  /** The file rows of the listed objects, one each, in order. */
  function FileEntries(listed: seq<Object>, prefix: string): (rows: seq<ObjectInfo>)
    ensures |rows| == |listed|
    ensures forall j :: 0 <= j < |rows| ==> rows[j] == FileEntry(listed[j], prefix)
  {
    seq(|listed|, j requires 0 <= j < |listed| => FileEntry(listed[j], prefix))
  }

  /** convertToObjectInfo: the directories first, then the files. */
  function ObjectInfos(result: ListObjectsV2Output, prefix: string): seq<ObjectInfo> {
    DirEntries(result.commonPrefixes, prefix) + FileEntries(Listed(result.contents, prefix), prefix)
  }

  /** An object is listed exactly when it is in the response and its key is not the prefix. */
  lemma {:induction false} ListedMembers(contents: seq<Object>, prefix: string, o: Object)
    ensures o in Listed(contents, prefix) <==> o in contents && o.key != prefix
    decreases |contents|
  {
    if contents != [] {
      ListedMembers(contents[1..], prefix, o);
      assert contents == [contents[0]] + contents[1..];
    }
  }

  /** Listing a concatenation lists each part. */
  lemma {:induction false} ListedAppend(a: seq<Object>, b: seq<Object>, prefix: string)
    ensures Listed(a + b, prefix) == Listed(a, prefix) + Listed(b, prefix)
    decreases |a|
  {
    if a == [] {
      assert a + b == b;
    } else {
      ListedAppend(a[1..], b, prefix);
      assert (a + b)[0] == a[0];
      assert (a + b)[1..] == a[1..] + b;
      var rest := Listed(a[1..], prefix) + Listed(b, prefix);
      if a[0].key == prefix {
        assert Listed(a + b, prefix) == rest;
      } else {
        assert Listed(a + b, prefix) == [a[0]] + rest;
      }
    }
  }

  /**
    The shape of a listing: one directory row per common prefix, in order, then one
    file row per listed object, in order, and nothing else.
   */
  lemma ObjectInfosShape(result: ListObjectsV2Output, prefix: string)
    ensures var rows := ObjectInfos(result, prefix);
      var dirs := result.commonPrefixes; var files := Listed(result.contents, prefix);
      && |rows| == |dirs| + |files|
      && (forall i :: 0 <= i < |dirs| ==> rows[i] == DirEntry(dirs[i], prefix) && rows[i].isDirectory)
      && (forall j :: 0 <= j < |files| ==> rows[|dirs| + j] == FileEntry(files[j], prefix) && !rows[|dirs| + j].isDirectory)
  {
    var dirs := result.commonPrefixes;
    var files := Listed(result.contents, prefix);
    var d, f := DirEntries(dirs, prefix), FileEntries(files, prefix);
    var rows := ObjectInfos(result, prefix);
    assert rows == d + f;
    forall i | 0 <= i < |dirs|
      ensures rows[i] == DirEntry(dirs[i], prefix)
    {
      assert rows[i] == d[i];
    }
    forall j | 0 <= j < |files|
      ensures rows[|dirs| + j] == FileEntry(files[j], prefix)
    {
      assert rows[|dirs| + j] == f[j];
    }
  }

  /** No file row is the marker object of the listed prefix, and none is a directory. */
  lemma NoMarkerRow(result: ListObjectsV2Output, prefix: string)
    ensures forall j :: |result.commonPrefixes| <= j < |ObjectInfos(result, prefix)| ==>
      ObjectInfos(result, prefix)[j].name != prefix && !ObjectInfos(result, prefix)[j].isDirectory
  {
    var l := Listed(result.contents, prefix);
    forall j | |result.commonPrefixes| <= j < |ObjectInfos(result, prefix)|
      ensures ObjectInfos(result, prefix)[j].name != prefix
    {
      var o := l[j - |result.commonPrefixes|];
      ListedMembers(result.contents, prefix, o);
    }
  }

  /** Every row's short name is its name without the listed prefix. */
  lemma ShortNames(result: ListObjectsV2Output, prefix: string)
    ensures forall r :: r in ObjectInfos(result, prefix) ==> r.shortName == TrimPrefix(r.name, prefix)
  {
  }

  /** Every row under the listed prefix is named by the prefix followed by its short name. */
  lemma ShortNameRoundTrip(result: ListObjectsV2Output, prefix: string)
    ensures forall r :: r in ObjectInfos(result, prefix) && HasPrefix(r.name, prefix) ==> prefix + r.shortName == r.name
  {
    ShortNames(result, prefix);
  }

  /** convertToObjectInfo: two loops that append the directory rows, then the file rows. */
  method ConvertToObjectInfo(result: ListObjectsV2Output, prefix: string) returns (objects: seq<ObjectInfo>)
    ensures objects == ObjectInfos(result, prefix)
  {
    objects := [];
    var i := 0;
    while i < |result.commonPrefixes|
      invariant 0 <= i <= |result.commonPrefixes|
      invariant objects == DirEntries(result.commonPrefixes[..i], prefix)
    {
      objects := objects + [DirEntry(result.commonPrefixes[i], prefix)];
      i := i + 1;
    }
    assert result.commonPrefixes[..i] == result.commonPrefixes;
    ghost var dirs := objects;
    var j := 0;
    while j < |result.contents|
      invariant 0 <= j <= |result.contents|
      invariant objects == dirs + FileEntries(Listed(result.contents[..j], prefix), prefix)
    {
      var obj := result.contents[j];
      ListedAppend(result.contents[..j], [obj], prefix);
      assert result.contents[..j + 1] == result.contents[..j] + [obj];
      if obj.key == prefix {
        // the marker object of the listed prefix is skipped
        j := j + 1;
        continue;
      }
      objects := objects + [FileEntry(obj, prefix)];
      j := j + 1;
    }
    assert result.contents[..j] == result.contents;
  }

  lemma ConvertToObjectInfoExample(t: Time)
    ensures ObjectInfos(
        ListObjectsV2Output(
          ["test/prefix/dir1/", "test/prefix/dir2/"],
          [Object("test/prefix/file1.txt", 1024, t)]),
        "test/prefix/")
      == [
        ObjectInfo("test/prefix/dir1/", "dir1/", true, "", 0),
        ObjectInfo("test/prefix/dir2/", "dir2/", true, "", 0),
        ObjectInfo("test/prefix/file1.txt", "file1.txt", false, "1.0 KB", t)
      ]
  {
    var obj := Object("test/prefix/file1.txt", 1024, t);
    ExampleDirRows();
    ExampleFileRow(obj);
    assert Listed([obj], "test/prefix/") == [obj];
  }

  lemma ExampleDirRows()
    ensures DirEntries(["test/prefix/dir1/", "test/prefix/dir2/"], "test/prefix/")
      == [
        ObjectInfo("test/prefix/dir1/", "dir1/", true, "", 0),
        ObjectInfo("test/prefix/dir2/", "dir2/", true, "", 0)
      ]
  {
    var p := "test/prefix/";
    assert "test/prefix/dir1/" == p + "dir1/";
    assert "test/prefix/dir2/" == p + "dir2/";
  }

  lemma ExampleFileRow(obj: Object)
    requires obj == Object("test/prefix/file1.txt", 1024, obj.lastModified)
    ensures FileEntries([obj], "test/prefix/")
      == [ObjectInfo("test/prefix/file1.txt", "file1.txt", false, "1.0 KB", obj.lastModified)]
  {
    var p := "test/prefix/";
    FormatSizeWholeUnits(1024, 1, KB);
    assert "test/prefix/file1.txt" == p + "file1.txt";
    assert FileEntry(obj, p) == ObjectInfo("test/prefix/file1.txt", "file1.txt", false, "1.0 KB", obj.lastModified);
  }

  // ---------------------------------------------------------------------------
  // ListBuckets

  function BucketInfoOf(b: Bucket): BucketInfo {
    BucketInfo(b.name, b.creationDate)
  }

  function ListBucketsError(cause: string): string {
    "ListBuckets operation failed: " + cause
  }

  // ---------------------------------------------------------------------------
  // The listing cache

  /** The key of a listing in the cache: the bucket, '/', and the prefix exactly as requested. */
  function CacheKey(bucket: string, prefix: string): string {
    bucket + "/" + prefix
  }

  /** The prefix sent to the store: a non-empty prefix gets a trailing '/' if it lacks one. */
  function QueryPrefix(prefix: string): (q: string)
    ensures q == "" || HasSuffix(q, "/")
    ensures HasPrefix(q, prefix) && |q| <= |prefix| + 1
    ensures prefix == "" || HasSuffix(prefix, "/") ==> q == prefix
    ensures prefix != "" && !HasSuffix(prefix, "/") ==> q == prefix + "/"
  {
    if prefix != "" && !HasSuffix(prefix, "/") then prefix + "/" else prefix
  }

  /** The request a cache miss sends: the normalised prefix with '/' as delimiter. */
  function ListQuery(bucket: string, prefix: string): ListObjectsV2Input {
    ListObjectsV2Input(bucket, QueryPrefix(prefix), "/")
  }

  function ListObjectsError(bucket: string, cause: string): string {
    "ListObjectsV2 operation failed for bucket " + Quote(bucket) + ": " + cause
  }

  /** A bucket name without quotes, backslashes or control characters appears in the error verbatim, in double quotes. */
  lemma ListObjectsErrorPlain(bucket: string, cause: string)
    requires forall i :: 0 <= i < |bucket| ==> bucket[i] != '"' && bucket[i] != '\\' && !IsControl(bucket[i])
    ensures ListObjectsError(bucket, cause) == "ListObjectsV2 operation failed for bucket \"" + bucket + "\": " + cause
  {
    EscapePlain(bucket);
  }

  /** The error of a failed listing of "invalid-bucket" whose cause reads "access denied". */
  lemma ListObjectsErrorExample()
    ensures ListObjectsError("invalid-bucket", "access denied")
         == "ListObjectsV2 operation failed for bucket \"" + "invalid-bucket" + "\": " + "access denied"
  {
    ListObjectsErrorPlain("invalid-bucket", "access denied");
  }

  /** A listing is served from the cache when its entry exists and expires strictly after now. */
  predicate Fresh(cache: map<string, ListObjectsCacheEntry>, key: string, now: Time) {
    key in cache && cache[key].expiry > now
  }

  /** ClearOldListObjectsCache's result: the entries that have not expired before now. */
  function Sweep(cache: map<string, ListObjectsCacheEntry>, now: Time): map<string, ListObjectsCacheEntry> {
    map k | k in cache && !(cache[k].expiry < now) :: cache[k]
  }

  /** Normalising twice is normalising once. */
  lemma QueryPrefixIdempotent(prefix: string)
    ensures QueryPrefix(QueryPrefix(prefix)) == QueryPrefix(prefix)
  {
  }

  /**
    The key uses the raw prefix while the request uses the normalised one: a prefix
    and the same prefix with a trailing '/' are two cache entries for one request.
   */
  lemma RawPrefixKeys(bucket: string, prefix: string)
    requires prefix != "" && !HasSuffix(prefix, "/")
    ensures CacheKey(bucket, prefix) != CacheKey(bucket, prefix + "/")
    ensures ListQuery(bucket, prefix) == ListQuery(bucket, prefix + "/")
  {
    var p2 := prefix + "/";
    assert |CacheKey(bucket, prefix)| < |CacheKey(bucket, p2)|;
    assert p2[|p2| - 1..] == "/";
  }

  lemma RawPrefixKeysExample()
    ensures CacheKey("b", "d") != CacheKey("b", "d/")
    ensures ListQuery("b", "d") == ListQuery("b", "d/")
  {
    RawPrefixKeys("b", "d");
  }

  /** Buckets never contain '/', so distinct (bucket, prefix) pairs get distinct keys. */
  lemma CacheKeyInjective(b1: string, p1: string, b2: string, p2: string)
    requires '/' !in b1 && '/' !in b2
    requires CacheKey(b1, p1) == CacheKey(b2, p2)
    ensures b1 == b2 && p1 == p2
  {
    var k := CacheKey(b1, p1);
    assert k == b2 + "/" + p2;
    assert k[|b1|] == '/' && k[|b2|] == '/';
    assert forall i :: 0 <= i < |b1| ==> k[i] == b1[i];
    assert forall i :: 0 <= i < |b2| ==> k[i] == b2[i];
    assert |b1| == |b2|;
    assert b1 == k[..|b1|] == b2;
    assert p1 == k[|b1| + 1..] == p2;
  }

  /** The sweep removes exactly the entries that expired strictly before now; the others keep their values. */
  lemma SweepRemovesExpired(cache: map<string, ListObjectsCacheEntry>, now: Time, k: string)
    ensures k in Sweep(cache, now) <==> k in cache && cache[k].expiry >= now
    ensures k in Sweep(cache, now) ==> Sweep(cache, now)[k] == cache[k]
  {
  }

  /** A sweep never changes whether a listing is served from the cache at any later instant. */
  lemma SweepPreservesHits(cache: map<string, ListObjectsCacheEntry>, sweepNow: Time, key: string, t: Time)
    requires t >= sweepNow
    ensures Fresh(Sweep(cache, sweepNow), key, t) <==> Fresh(cache, key, t)
  {
  }

  /** Sweeping twice at the same instant is sweeping once. */
  lemma SweepIdempotent(cache: map<string, ListObjectsCacheEntry>, now: Time)
    ensures Sweep(Sweep(cache, now), now) == Sweep(cache, now)
  {
  }

  /** After a sweep no entry is older than the sweep. */
  lemma SweepLeavesNoExpired(cache: map<string, ListObjectsCacheEntry>, now: Time)
    ensures forall k :: k in Sweep(cache, now) ==> Sweep(cache, now)[k].expiry >= now
  {
  }

  /**
    The client: the store it talks to, how long listings are cached, and the cache
    of ListObjectsV2 responses keyed by CacheKey.
   */
  class Client {
    const s3: Gateway
    var cacheDuration: Duration
    var cache: map<string, ListObjectsCacheEntry>
    /** Every ListObjectsV2 request sent to the store, oldest first. */
    ghost var queries: seq<ListObjectsV2Input>

    /** A client over the given store with an empty cache. */
    constructor (gateway: Gateway, cacheDuration: Duration)
      ensures s3 == gateway && this.cacheDuration == cacheDuration
      ensures cache == map[] && queries == []
    {
      s3 := gateway;
      this.cacheDuration := cacheDuration;
      cache := map[];
      queries := [];
    }

    /** ClearListObjectsCache: forgets the listing of one bucket and prefix, if cached. */
    method ClearListObjectsCache(bucket: string, prefix: string)
      modifies this
      ensures cache == old(cache) - {CacheKey(bucket, prefix)}
      ensures cacheDuration == old(cacheDuration) && queries == old(queries)
    {
      cache := cache - {CacheKey(bucket, prefix)};
    }

    /** GetListObjectsCacheEntry: the cached entry of a bucket and prefix, expired or not. */
    function GetListObjectsCacheEntry(bucket: string, prefix: string): (e: Option<ListObjectsCacheEntry>)
      reads this
      ensures e.Some? <==> CacheKey(bucket, prefix) in cache
      ensures e.Some? ==> e.value == cache[CacheKey(bucket, prefix)]
    {
      var key := CacheKey(bucket, prefix);
      if key in cache then Some(cache[key]) else None
    }

    /** ClearOldListObjectsCache: a pass over the keys that deletes every entry expired before now. */
    method ClearOldListObjectsCache(now: Time)
      modifies this
      ensures cache == Sweep(old(cache), now)
      ensures cacheDuration == old(cacheDuration) && queries == old(queries)
    {
      var pending := cache.Keys;
      while pending != {}
        invariant pending <= old(cache).Keys
        invariant cache == map k | k in old(cache) && (k in pending || !(old(cache)[k].expiry < now)) :: old(cache)[k]
        invariant cacheDuration == old(cacheDuration) && queries == old(queries)
        decreases pending
      {
        var key :| key in pending;
        if cache[key].expiry < now {
          cache := cache - {key};
        }
        pending := pending - {key};
      }
    }

    /** ListBuckets: the store's buckets, copied one by one, or its error wrapped. */
    method ListBuckets(now: Time) returns (r: Result<seq<BucketInfo>, string>)
      ensures match s3.listBuckets(now)
        case Failure(cause) => r == Failure(ListBucketsError(cause))
        case Success(bs) =>
          (r.Success? && |r.value| == |bs| && forall i :: 0 <= i < |bs| ==> r.value[i] == BucketInfoOf(bs[i]))
    {
      match s3.listBuckets(now)
      case Failure(cause) =>
        return Failure(ListBucketsError(cause));
      case Success(bs) =>
        var buckets := new BucketInfo[|bs|];
        for i := 0 to |bs|
          invariant forall j :: 0 <= j < i ==> buckets[j] == BucketInfoOf(bs[j])
        {
          buckets[i] := BucketInfoOf(bs[i]);
        }
        return Success(buckets[..]);
    }

    /**
      ListObjects: served from the cache when the entry of (bucket, prefix) is fresh;
      otherwise the store is asked, and a successful answer is cached until
      now + cacheDuration. Either way the rows are built with the normalised prefix.
     */
    method ListObjects(bucket: string, prefix: string, now: Time)
      returns (objects: seq<ObjectInfo>, hitCache: bool, err: Option<string>)
      modifies this
      ensures cacheDuration == old(cacheDuration)
      ensures hitCache <==> Fresh(old(cache), CacheKey(bucket, prefix), now)
      ensures var key := CacheKey(bucket, prefix);
        if hitCache then
          && cache == old(cache) && queries == old(queries) && err == None
          && objects == ObjectInfos(old(cache)[key].data, QueryPrefix(prefix))
        else
          && queries == old(queries) + [ListQuery(bucket, prefix)]
          && match s3.listObjectsV2(ListQuery(bucket, prefix), now)
             case Success(out) =>
               && cache == old(cache)[key := ListObjectsCacheEntry(out, now + cacheDuration)]
               && err == None && objects == ObjectInfos(out, QueryPrefix(prefix))
             case Failure(cause) =>
               && cache == old(cache) && objects == [] && err == Some(ListObjectsError(bucket, cause))
    {
      var key := CacheKey(bucket, prefix);
      var p := QueryPrefix(prefix);
      if key in cache && cache[key].expiry > now {
        objects := ConvertToObjectInfo(cache[key].data, p);
        return objects, true, None;
      }
      var input := ListObjectsV2Input(bucket, p, "/");
      queries := queries + [input];
      match s3.listObjectsV2(input, now)
      case Failure(cause) =>
        return [], false, Some(ListObjectsError(bucket, cause));
      case Success(out) =>
        cache := cache[key := ListObjectsCacheEntry(out, now + cacheDuration)];
        objects := ConvertToObjectInfo(out, p);
        return objects, false, None;
    }
  }
}

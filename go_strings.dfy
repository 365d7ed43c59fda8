/**
  The functions of Go's `strings` package that the browser's path handling and
  listing transform rely on, over `seq<char>`, with the separator or cut set
  restricted to the single character the program passes (always '/').
 */
module GoStrings {

  /** strings.HasPrefix */
  predicate HasPrefix(s: string, p: string) {
    p <= s
  }

  /** strings.HasSuffix */
  predicate HasSuffix(s: string, p: string) {
    |p| <= |s| && s[|s| - |p|..] == p
  }

  /** strings.TrimPrefix: `s` without a leading `p`, or `s` itself when it does not start with `p`. */
  function TrimPrefix(s: string, p: string): (r: string)
    ensures HasPrefix(s, p) ==> p + r == s
    ensures !HasPrefix(s, p) ==> r == s
  {
    if HasPrefix(s, p) then s[|p|..] else s
  }

  /** True when every character of `s` is `c` (vacuously so for the empty string). */
  predicate AllAre(s: string, c: char) {
    forall i :: 0 <= i < |s| ==> s[i] == c
  }

  /** strings.TrimLeft(s, cutset) with a one-character cut set: the longest suffix not starting with `c`. */
  function TrimLeft(s: string, c: char): string
    decreases |s|
  {
    if |s| > 0 && s[0] == c then TrimLeft(s[1..], c) else s
  }

  /** strings.TrimRight(s, cutset) with a one-character cut set: the longest prefix not ending with `c`. */
  function TrimRight(s: string, c: char): string
    decreases |s|
  {
    if |s| > 0 && s[|s| - 1] == c then TrimRight(s[..|s| - 1], c) else s
  }

  /** strings.Trim(s, cutset) with a one-character cut set: trim on the left, then on the right. */
  function Trim(s: string, c: char): string {
    TrimRight(TrimLeft(s, c), c)
  }

  /**
    strings.Split(s, sep) with a one-character separator: the pieces between
    occurrences of `c`, in order. Splitting the empty string gives one empty piece.
   */
  function Split(s: string, c: char): (parts: seq<string>)
    ensures |parts| >= 1
    ensures |parts| == 1 <==> c !in s
    ensures c !in s ==> parts == [s]
    decreases |s|
  {
    if |s| == 0 then [""]
    else
      var rest := Split(s[1..], c);
      if s[0] == c then [""] + rest
      else
        assert s == [s[0]] + s[1..];
        [[s[0]] + rest[0]] + rest[1..]
  }

  /** strings.Join(parts, sep) with a one-character separator. */
  function Join(parts: seq<string>, c: char): string
    decreases |parts|
  {
    if |parts| == 0 then ""
    else if |parts| == 1 then parts[0]
    else parts[0] + [c] + Join(parts[1..], c)
  }

  // ---------------------------------------------------------------------------
  // Split and Join

  /** No piece of a split contains the separator. */
  lemma {:induction false} SplitPiecesFree(s: string, c: char)
    ensures forall i :: 0 <= i < |Split(s, c)| ==> c !in Split(s, c)[i]
    decreases |s|
  {
    if |s| > 0 {
      SplitPiecesFree(s[1..], c);
    }
  }

  /** Joining the pieces of a split gives back the original string. */
  lemma {:induction false} JoinSplit(s: string, c: char)
    ensures Join(Split(s, c), c) == s
    decreases |s|
  {
    if |s| > 0 {
      var rest := Split(s[1..], c);
      JoinSplit(s[1..], c);
      if s[0] == c {
        assert Split(s, c) == [""] + rest;
        assert ([""] + rest)[1..] == rest;
        assert s == [c] + s[1..];
      } else if |rest| == 1 {
        assert Split(s, c) == [[s[0]] + rest[0]];
        assert s == [s[0]] + s[1..];
      } else {
        var parts := [[s[0]] + rest[0]] + rest[1..];
        assert parts[1..] == rest[1..];
        assert Join(rest, c) == rest[0] + [c] + Join(rest[1..], c);
        assert s == [s[0]] + s[1..];
      }
    }
  }

  /** A piece free of the separator, followed by the separator, splits off as the first piece. */
  lemma {:induction false} SplitAfterPiece(a: string, b: string, c: char)
    requires c !in a
    ensures Split(a + [c] + b, c) == [a] + Split(b, c)
    decreases |a|
  {
    if |a| == 0 {
      assert ([] + [c] + b)[1..] == b;
    } else {
      SplitAfterPiece(a[1..], b, c);
      assert (a + [c] + b)[1..] == a[1..] + [c] + b;
      assert [a[0]] + a[1..] == a;
    }
  }

  /** Splitting the join of separator-free pieces gives back the pieces. */
  lemma {:induction false} SplitJoin(parts: seq<string>, c: char)
    requires |parts| >= 1
    requires forall i :: 0 <= i < |parts| ==> c !in parts[i]
    ensures Split(Join(parts, c), c) == parts
    decreases |parts|
  {
    if |parts| > 1 {
      SplitJoin(parts[1..], c);
      SplitAfterPiece(parts[0], Join(parts[1..], c), c);
      assert [parts[0]] + parts[1..] == parts;
    }
  }

  /** Joining a list with one more piece appends the separator and that piece. */
  lemma {:induction false} JoinSnoc(xs: seq<string>, y: string, c: char)
    requires |xs| >= 1
    ensures Join(xs + [y], c) == Join(xs, c) + [c] + y
    decreases |xs|
  {
    if |xs| > 1 {
      JoinSnoc(xs[1..], y, c);
      assert (xs + [y])[1..] == xs[1..] + [y];
    }
  }

  /** The last piece of a split is empty only when the string is empty or ends with the separator. */
  lemma {:induction false} SplitLastEmpty(s: string, c: char)
    requires Split(s, c)[|Split(s, c)| - 1] == ""
    ensures s == [] || s[|s| - 1] == c
    decreases |s|
  {
    if |s| > 0 {
      var rest := Split(s[1..], c);
      if s[0] == c {
        if |s| > 1 {
          assert Split(s, c)[|Split(s, c)| - 1] == rest[|rest| - 1];
          SplitLastEmpty(s[1..], c);
          assert s[|s| - 1] == s[1..][|s| - 2];
        }
      } else {
        if |rest| > 1 {
          assert Split(s, c)[|Split(s, c)| - 1] == rest[|rest| - 1];
          SplitLastEmpty(s[1..], c);
          assert s[|s| - 1] == s[1..][|s| - 2];
        }
      }
    }
  }

  /** The first piece of a split is empty only when the string is empty or starts with the separator. */
  lemma SplitFirstEmpty(s: string, c: char)
    ensures Split(s, c)[0] == "" <==> (s == [] || s[0] == c)
  {
  }

  // ---------------------------------------------------------------------------
  // Trimming

  /** TrimLeft removes exactly the leading run of `c`: what is left is a suffix that does not start with `c`. */
  lemma {:induction false} TrimLeftSpec(s: string, c: char)
    ensures var r := TrimLeft(s, c);
      && |r| <= |s| && r == s[|s| - |r|..]
      && (r == [] || r[0] != c)
      && AllAre(s[..|s| - |r|], c)
    decreases |s|
  {
    if |s| > 0 && s[0] == c {
      TrimLeftSpec(s[1..], c);
      var r := TrimLeft(s, c);
      assert s[1..][|s| - 1 - |r|..] == s[|s| - |r|..];
      var p, q := s[..|s| - |r|], s[1..][..|s| - 1 - |r|];
      forall i | 0 <= i < |p| ensures p[i] == c {
        if i > 0 {
          assert p[i] == q[i - 1];
        }
      }
    } else {
      assert s[|s|..] == [];
    }
  }

  /** TrimRight removes exactly the trailing run of `c`: what is left is a prefix that does not end with `c`. */
  lemma {:induction false} TrimRightSpec(s: string, c: char)
    ensures var r := TrimRight(s, c);
      && |r| <= |s| && r == s[..|r|]
      && (r == [] || r[|r| - 1] != c)
      && AllAre(s[|r|..], c)
    decreases |s|
  {
    if |s| > 0 && s[|s| - 1] == c {
      var q := s[..|s| - 1];
      TrimRightSpec(q, c);
      var r := TrimRight(s, c);
      assert q[..|r|] == s[..|r|];
      forall i | |r| <= i < |s| ensures s[i] == c {
        if i < |s| - 1 {
          assert s[i] == q[|r|..][i - |r|];
        }
      }
    } else {
      assert s[..|s|] == s;
    }
  }

  /** Trimming yields the empty string exactly when the string consists of the cut character only. */
  lemma TrimEmptyIff(s: string, c: char)
    ensures Trim(s, c) == [] <==> AllAre(s, c)
  {
    var l := TrimLeft(s, c);
    TrimLeftSpec(s, c);
    TrimRightSpec(l, c);
    assert TrimRight(l, c) == [] ==> AllAre(l, c) by {
      assert l[0..] == l;
    }
    assert AllAre(l, c) ==> l == [];
    assert s[..|s|] == s;
  }

  /** A trimmed string neither starts nor ends with the cut character. */
  lemma TrimmedEnds(s: string, c: char)
    ensures var t := Trim(s, c); t == [] || (t[0] != c && t[|t| - 1] != c)
  {
    var l := TrimLeft(s, c);
    var t := Trim(s, c);
    TrimLeftSpec(s, c);
    TrimRightSpec(l, c);
    if t != [] {
      assert t[0] == l[0];
    }
  }

  /** A leading run of cut characters does not change TrimLeft. */
  lemma {:induction false} TrimLeftSkips(pre: string, s: string, c: char)
    requires AllAre(pre, c)
    ensures TrimLeft(pre + s, c) == TrimLeft(s, c)
    decreases |pre|
  {
    if |pre| > 0 {
      assert (pre + s)[0] == pre[0] == c;
      var q := pre[1..];
      assert (pre + s)[1..] == q + s;
      assert AllAre(q, c) by {
        forall i | 0 <= i < |q| ensures q[i] == c { assert q[i] == pre[i + 1]; }
      }
      TrimLeftSkips(q, s, c);
    } else {
      assert pre + s == s;
    }
  }

  /** A trailing run of cut characters does not change TrimRight. */
  lemma {:induction false} TrimRightSkips(s: string, post: string, c: char)
    requires AllAre(post, c)
    ensures TrimRight(s + post, c) == TrimRight(s, c)
    decreases |post|
  {
    if |post| > 0 {
      var t := s + post;
      assert t[|t| - 1] == post[|post| - 1] == c;
      var q := post[..|post| - 1];
      assert t[..|t| - 1] == s + q;
      assert AllAre(q, c) by {
        forall i | 0 <= i < |q| ensures q[i] == c { assert q[i] == post[i]; }
      }
      TrimRightSkips(s, q, c);
    } else {
      assert s + post == s;
    }
  }

  /** A trailing run of cut characters does not change Trim, even when it meets the leading one. */
  lemma {:induction false} TrimIgnoresTrailing(s: string, post: string, c: char)
    requires AllAre(post, c)
    ensures Trim(s + post, c) == Trim(s, c)
    decreases |s|
  {
    if |s| == 0 {
      assert s + post == post + [];
      TrimLeftSkips(post, [], c);
    } else if s[0] == c {
      assert (s + post)[1..] == s[1..] + post;
      TrimIgnoresTrailing(s[1..], post, c);
    } else {
      TrimRightSkips(s, post, c);
    }
  }

  /** Leading and trailing runs of the cut character do not change Trim. */
  lemma TrimIgnoresOuter(pre: string, s: string, post: string, c: char)
    requires AllAre(pre, c) && AllAre(post, c)
    ensures Trim(pre + s + post, c) == Trim(s, c)
  {
    assert pre + s + post == pre + (s + post);
    TrimLeftSkips(pre, s + post, c);
    TrimIgnoresTrailing(s, post, c);
  }

  /** A string that neither starts nor ends with the cut character is its own trim. */
  lemma TrimNoop(s: string, c: char)
    requires s == [] || (s[0] != c && s[|s| - 1] != c)
    ensures Trim(s, c) == s
  {
  }

  /** Trimming twice is trimming once. */
  lemma TrimIdempotent(s: string, c: char)
    ensures Trim(Trim(s, c), c) == Trim(s, c)
  {
    var t := Trim(s, c);
    TrimmedEnds(s, c);
  }
}

/**
 * The engine removes matching entries from an array with the loop
 *
 *     for (let i = 0; i < a.length; i++) if (matches(a[i])) a.splice(i, 1);
 *
 * (the older `destroyAll`, the event-listener purge and the mouse-out
 * pass). Because `i` still advances after a removal, the entry that slides
 * into position `i` is never examined: it stays whether it matches or not.
 * `SkipSplice` is what that loop leaves behind.
 */
module Splicing {
  /** The result of the splice-while-incrementing loop over `s`. */
  function SkipSplice<T>(s: seq<T>, matches: T -> bool): (r: seq<T>)
    ensures |r| <= |s|
    decreases |s|
  {
    if |s| == 0 then []
    else if matches(s[0]) then (if |s| == 1 then [] else [s[1]] + SkipSplice(s[2..], matches))
    else [s[0]] + SkipSplice(s[1..], matches)
  }

  /** The entries of `s` that satisfy `keep`, in order. */
  function Filter<T>(s: seq<T>, keep: T -> bool): (r: seq<T>)
    ensures |r| <= |s|
    ensures forall x :: x in r ==> x in s && keep(x)
  {
    if |s| == 0 then []
    else if keep(s[0]) then [s[0]] + Filter(s[1..], keep)
    else Filter(s[1..], keep)
  }

  lemma {:induction false} FilterAll<T>(s: seq<T>, keep: T -> bool)
    requires forall i :: 0 <= i < |s| ==> keep(s[i])
    ensures Filter(s, keep) == s
  {
    if |s| > 0 {
      FilterAll(s[1..], keep);
    }
  }

  lemma {:induction false} FilterConcat<T>(a: seq<T>, b: seq<T>, keep: T -> bool)
    ensures Filter(a + b, keep) == Filter(a, keep) + Filter(b, keep)
  {
    if |a| == 0 {
      assert a + b == b;
    } else {
      assert (a + b)[1..] == a[1..] + b;
      FilterConcat(a[1..], b, keep);
    }
  }

  /**
   * The loop never removes an entry that does not match: the non-matching
   * entries (those `keep` selects) of the result are those of the input, in
   * the same order.
   */
  lemma {:induction false} SkipSpliceKeepsNonMatching<T>(s: seq<T>, matches: T -> bool, keep: T -> bool)
    requires forall x :: keep(x) == !matches(x)
    ensures Filter(SkipSplice(s, matches), keep) == Filter(s, keep)
    decreases |s|
  {
    if |s| == 0 {
    } else if matches(s[0]) {
      if |s| > 1 {
        SkipSpliceKeepsNonMatching(s[2..], matches, keep);
        assert s[1..][1..] == s[2..];
        FilterConcat([s[1]], SkipSplice(s[2..], matches), keep);
      }
    } else {
      SkipSpliceKeepsNonMatching(s[1..], matches, keep);
      FilterConcat([s[0]], SkipSplice(s[1..], matches), keep);
    }
  }

  /** The loop only removes entries: everything in the result was in the input. */
  lemma {:induction false} SkipSpliceSubset<T>(s: seq<T>, matches: T -> bool)
    ensures forall x :: x in SkipSplice(s, matches) ==> x in s
    decreases |s|
  {
    if |s| == 0 {
    } else if matches(s[0]) {
      if |s| > 1 {
        SkipSpliceSubset(s[2..], matches);
      }
    } else {
      SkipSpliceSubset(s[1..], matches);
    }
  }

  /** With nothing matching, the loop changes nothing. */
  lemma {:induction false} SkipSpliceNoMatch<T>(s: seq<T>, matches: T -> bool)
    requires forall i :: 0 <= i < |s| ==> !matches(s[i])
    ensures SkipSplice(s, matches) == s
    decreases |s|
  {
    if |s| > 0 {
      SkipSpliceNoMatch(s[1..], matches);
    }
  }

  /** With exactly one matching entry, at index `k`, the loop removes just that entry. */
  lemma {:induction false} SkipSpliceSingleMatch<T>(s: seq<T>, matches: T -> bool, k: nat)
    requires k < |s| && matches(s[k])
    requires forall i :: 0 <= i < |s| && i != k ==> !matches(s[i])
    ensures SkipSplice(s, matches) == s[..k] + s[k + 1..]
    decreases |s|
  {
    if k == 0 {
      if |s| > 1 {
        SkipSpliceNoMatch(s[2..], matches);
        assert [s[1]] + s[2..] == s[1..];
      }
    } else {
      SkipSpliceSingleMatch(s[1..], matches, k - 1);
      assert s[..k] == [s[0]] + s[1..][..k - 1];
      assert s[k + 1..] == s[1..][k..];
    }
  }

  /**
   * Two adjacent matching entries, the first of them the first match,
   * leave the second one behind.
   */
  lemma {:induction false} SkipSpliceSkipsNext<T>(s: seq<T>, matches: T -> bool, k: nat)
    requires k + 1 < |s| && matches(s[k]) && matches(s[k + 1])
    requires forall i :: 0 <= i < k ==> !matches(s[i])
    ensures SkipSplice(s, matches) == s[..k] + [s[k + 1]] + SkipSplice(s[k + 2..], matches)
    ensures s[k + 1] in SkipSplice(s, matches)
    decreases |s|
  {
    var rest := SkipSplice(s[k + 2..], matches);
    if k == 0 {
      assert s[..0] + [s[1]] + rest == [s[1]] + rest;
      assert s[2..] == s[k + 2..];
    } else {
      var t := s[1..];
      assert !matches(s[0]);
      SkipSpliceSkipsNext(t, matches, k - 1);
      assert t[k] == s[k + 1] && t[k + 1..] == s[k + 2..];
      assert s[..k] == [s[0]] + t[..k - 1];
      assert SkipSplice(s, matches) == [s[0]] + SkipSplice(t, matches);
      assert [s[0]] + (t[..k - 1] + [s[k + 1]] + rest) == s[..k] + [s[k + 1]] + rest;
    }
    assert (s[..k] + [s[k + 1]] + rest)[k] == s[k + 1];
  }

  /** The entries at odd positions, in order. */
  function OddIndexed<T>(s: seq<T>): (r: seq<T>)
    ensures |r| == |s| / 2
    ensures forall i :: 0 <= i < |r| ==> r[i] == s[2 * i + 1]
  {
    if |s| < 2 then [] else [s[1]] + OddIndexed(s[2..])
  }

  /**
   * When every entry matches, the loop removes the entries at positions
   * 0, 2, 4, … and leaves the odd-indexed half.
   */
  lemma {:induction false} SkipSpliceAll<T>(s: seq<T>, matches: T -> bool)
    requires forall i :: 0 <= i < |s| ==> matches(s[i])
    ensures SkipSplice(s, matches) == OddIndexed(s)
    decreases |s|
  {
    if |s| >= 2 {
      SkipSpliceAll(s[2..], matches);
    }
  }

  /** One turn of the loop, as the loop invariant needs it. */
  lemma SkipSpliceStep<T>(r: seq<T>, i: nat, matches: T -> bool)
    requires i < |r|
    ensures matches(r[i]) && i + 1 < |r| ==>
      (r[..i] + r[i + 1..])[..i + 1] + SkipSplice((r[..i] + r[i + 1..])[i + 1..], matches) == r[..i] + SkipSplice(r[i..], matches)
    ensures matches(r[i]) && i + 1 == |r| ==> r[..i] + r[i + 1..] == r[..i] + SkipSplice(r[i..], matches)
    ensures !matches(r[i]) ==> r[..i + 1] + SkipSplice(r[i + 1..], matches) == r[..i] + SkipSplice(r[i..], matches)
  {
    var t := r[i..];
    assert t[0] == r[i];
    if matches(r[i]) && i + 1 < |r| {
      var r' := r[..i] + r[i + 1..];
      assert r'[..i + 1] == r[..i] + [r[i + 1]];
      assert r'[i + 1..] == r[i + 2..] == t[2..];
      assert SkipSplice(t, matches) == [r[i + 1]] + SkipSplice(t[2..], matches);
    } else if !matches(r[i]) {
      assert r[..i + 1] == r[..i] + [r[i]];
      assert r[i + 1..] == t[1..];
    }
  }

  /** The loop itself, on a copy of the array. */
  method SpliceWhileIncrementing<T>(a: seq<T>, matches: T -> bool) returns (r: seq<T>)
    ensures r == SkipSplice(a, matches)
  {
    r := a;
    var i := 0;
    while i < |r|
      invariant i <= |r| + 1
      invariant i <= |r| ==> r[..i] + SkipSplice(r[i..], matches) == SkipSplice(a, matches)
      invariant i == |r| + 1 ==> r == SkipSplice(a, matches)
    {
      SkipSpliceStep(r, i, matches);
      if matches(r[i]) {
        r := r[..i] + r[i + 1..];
      }
      i := i + 1;
    }
    if i == |r| {
      assert r[..i] == r && r[i..] == [];
    }
  }
}

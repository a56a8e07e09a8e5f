/** The string helpers of the document service (crates/doscenario-docs/src/utils.rs). */
module Utils {
  import opened Proto

  function Min(a: int, b: int): int { if a <= b then a else b }

  /** The test the range removal applies to the character at index `i`: it is kept. */
  predicate Kept(i: nat, start: nat, stop: nat)
  {
    start > i || stop < i + 1
  }

  /**
   * Reference definition of `to_remove_range`: the characters of `s` whose
   * index passes `Kept`, in their original order.
   */
  function RemoveRange(s: string, start: nat, stop: nat): string
    decreases |s|
  {
    if s == [] then []
    else RemoveRange(s[..|s| - 1], start, stop) + (if Kept(|s| - 1, start, stop) then [s[|s| - 1]] else [])
  }

  /** Number of indices of a string of length `n` that fall in `[start, stop)`. */
  function Overlap(n: nat, start: nat, stop: nat): nat
  {
    if start >= stop then 0 else Min(stop, n) - Min(start, n)
  }

  /**
   * `to_remove_range`: walks the characters with their index and pushes those
   * outside `[start, stop)` onto a fresh accumulator. The receiver is only read.
   */
  method ToRemoveRange(s: string, start: nat, stop: nat) returns (r: string)
    ensures r == RemoveRange(s, start, stop)
    ensures start <= stop ==> r == s[..Min(start, |s|)] + s[Min(stop, |s|)..]
    ensures |r| == |s| - Overlap(|s|, start, stop)
  {
    r := "";
    var i := 0;
    while i < |s|
      invariant 0 <= i <= |s|
      invariant r == RemoveRange(s[..i], start, stop)
    {
      assert s[..i + 1][..i] == s[..i];
      if start > i || stop < i + 1 {
        r := r + [s[i]];
      }
      i := i + 1;
    }
    assert s[..i] == s;
    if start <= stop {
      RemoveRangeSplice(s, start, stop);
    }
    RemoveRangeLength(s, start, stop);
  }

  /** For `start <= stop`, the kept characters are the prefix before `start` and the suffix from `stop`, both clamped. */
  lemma {:induction false} RemoveRangeSplice(s: string, start: nat, stop: nat)
    requires start <= stop
    ensures RemoveRange(s, start, stop) == s[..Min(start, |s|)] + s[Min(stop, |s|)..]
    decreases |s|
  {
    if s != [] {
      var n := |s| - 1;
      var p := s[..n];
      RemoveRangeSplice(p, start, stop);
      assert p[..Min(start, n)] == s[..Min(start, n)];
      if n < start {
        assert s[..Min(start, |s|)] == p + [s[n]];
      } else if n < stop {
        assert Min(stop, |s|) == |s|;
        assert p[Min(stop, n)..] == [];
      } else {
        assert s[Min(stop, |s|)..] == p[Min(stop, n)..] + [s[n]];
      }
    }
  }

  /** An empty or inverted range, or one that starts past the end, removes nothing. */
  lemma {:induction false} RemoveRangeIdentity(s: string, start: nat, stop: nat)
    requires start >= stop || start >= |s|
    ensures RemoveRange(s, start, stop) == s
    decreases |s|
  {
    if s != [] {
      RemoveRangeIdentity(s[..|s| - 1], start, stop);
      assert s[..|s| - 1] + [s[|s| - 1]] == s;
    }
  }

  /** The result loses exactly the characters of `[start, stop)` that exist in `s`; it is never longer than `s`. */
  lemma RemoveRangeLength(s: string, start: nat, stop: nat)
    ensures |RemoveRange(s, start, stop)| == |s| - Overlap(|s|, start, stop) <= |s|
  {
    if start >= stop {
      RemoveRangeIdentity(s, start, stop);
    } else {
      RemoveRangeSplice(s, start, stop);
    }
  }

  /**
   * The result keeps the relative order of the kept characters: the `k`-th
   * character of the result is the source character at `SourceIndex(k)`,
   * which is a kept index, and distinct positions come from increasing indices.
   */
  function SourceIndex(n: nat, start: nat, stop: nat, k: nat): nat
  {
    if start >= stop || k < Min(start, n) then k else k + Overlap(n, start, stop)
  }

  lemma RemoveRangeAt(s: string, start: nat, stop: nat, k: nat)
    requires k < |RemoveRange(s, start, stop)|
    ensures SourceIndex(|s|, start, stop, k) < |s|
    ensures Kept(SourceIndex(|s|, start, stop, k), start, stop)
    ensures RemoveRange(s, start, stop)[k] == s[SourceIndex(|s|, start, stop, k)]
  {
    RemoveRangeLength(s, start, stop);
    if start >= stop {
      RemoveRangeIdentity(s, start, stop);
    } else {
      RemoveRangeSplice(s, start, stop);
    }
  }

  lemma SourceIndexIncreasing(n: nat, start: nat, stop: nat, j: nat, k: nat)
    requires j < k
    ensures SourceIndex(n, start, stop, j) < SourceIndex(n, start, stop, k)
  {
  }

  /** "abc" with the range (1, 101) keeps only "a": an out-of-range stop is clamped rather than failing. */
  lemma ClampedRemoveExample()
    ensures RemoveRange("abc", 1, 101) == "a"
  {
    RemoveRangeSplice("abc", 1, 101);
  }

  /** `unpack_req`: the request's inner payload and the attached `UserId`, both unchanged. */
  function UnpackReq<T>(req: Request<T>): (r: (T, UserId))
    ensures Request(r.0, r.1) == req
  {
    (req.inner, req.userId)
  }

  /** Chooses some id of a non-empty set; the callers fix no order among them. */
  method Pick(ids: set<int>) returns (id: int)
    requires ids != {}
    ensures id in ids
  {
    HasElement(ids);
    id :| id in ids;
  }

  lemma HasElement(ids: set<int>)
    ensures ids != {} ==> exists id :: id in ids
  {
    if forall id :: id !in ids {
      assert ids == {};
    }
  }
}

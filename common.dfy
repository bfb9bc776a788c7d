/** Vocabulary shared by every page: optional values, results carrying the
    message a page shows, order-preserving filtering, and the handful of
    JavaScript string operations the pages rely on (ASCII `toLowerCase`,
    `String.prototype.includes`, `Array.prototype.join`). */
module Common {

  datatype Option<T> = None | Some(value: T)

  /** A page action either yields a value or the message it shows to the user. */
  datatype Result<T> = Ok(value: T) | Err(message: string)

  // ---------------------------------------------------------------------------
  // Subsequences and `Array.prototype.filter`
  // ---------------------------------------------------------------------------

  /** `r` can be obtained from `s` by deleting elements, keeping the order. */
  ghost predicate IsSubsequence<T>(r: seq<T>, s: seq<T>)
  {
    if r == [] then true
    else if s == [] then false
    else if r[0] == s[0] then IsSubsequence(r[1..], s[1..])
    else IsSubsequence(r, s[1..])
  }

  lemma {:induction false} SubsequenceDropHead<T>(r: seq<T>, s: seq<T>)
    requires r != [] && IsSubsequence(r, s)
    ensures IsSubsequence(r[1..], s)
    decreases |s|
  {
    if r[1..] != [] {
      if r[0] != s[0] {
        SubsequenceDropHead(r, s[1..]);
      }
      if r[1] == s[0] {
        SubsequenceDropHead(r[1..], s[1..]);
        assert r[1..][1..] == r[2..];
      }
    }
  }

  /** Prepending an element to the larger sequence keeps a subsequence. */
  lemma SubsequenceSkip<T>(r: seq<T>, x: T, s: seq<T>)
    requires IsSubsequence(r, s)
    ensures IsSubsequence(r, [x] + s)
  {
    var xs := [x] + s;
    assert xs[1..] == s;
    if r != [] && r[0] == x {
      SubsequenceDropHead(r, s);
    }
  }

  lemma {:induction false} SubsequenceReflexive<T>(s: seq<T>)
    ensures IsSubsequence(s, s)
  {
    if s != [] {
      SubsequenceReflexive(s[1..]);
    }
  }

  /** The `filter` of `s` by `keep`: the elements of `s` that pass `keep`, in their order. */
  function Filter<T>(s: seq<T>, keep: T -> bool): (r: seq<T>)
    ensures IsSubsequence(r, s)
    ensures forall i :: 0 <= i < |r| ==> keep(r[i])
    ensures forall x :: x in s && keep(x) ==> x in r
    ensures forall x :: x in r ==> x in s
    ensures (forall i :: 0 <= i < |s| ==> keep(s[i])) ==> r == s
  {
    if s == [] then []
    else
      var rest := Filter(s[1..], keep);
      if keep(s[0]) then
        assert ([s[0]] + rest)[1..] == rest;
        [s[0]] + rest
      else
        SubsequenceSkip(rest, s[0], s[1..]);
        assert [s[0]] + s[1..] == s;
        rest
  }

  /** Filtering keeps every copy of an element that passes and none of one that fails. */
  lemma {:induction false} FilterCount<T>(s: seq<T>, keep: T -> bool, x: T)
    ensures multiset(Filter(s, keep))[x] == if keep(x) then multiset(s)[x] else 0
  {
    if s != [] {
      FilterCount(s[1..], keep, x);
      assert s == [s[0]] + s[1..];
      assert multiset(s) == multiset{s[0]} + multiset(s[1..]);
    }
  }

  lemma FilterSingle<T>(x: T, keep: T -> bool)
    ensures Filter([x], keep) == if keep(x) then [x] else []
  {
    assert [x][1..] == [];
  }

  /** Nothing passes a filter that every element fails. */
  lemma {:induction false} FilterNone<T>(s: seq<T>, keep: T -> bool)
    requires forall i :: 0 <= i < |s| ==> !keep(s[i])
    ensures Filter(s, keep) == []
  {
    if s != [] {
      assert forall i :: 0 <= i < |s[1..]| ==> s[1..][i] == s[i + 1];
      FilterNone(s[1..], keep);
    }
  }

  /** Filtering twice by the same predicate is filtering once. */
  lemma FilterTwice<T>(s: seq<T>, keep: T -> bool)
    ensures Filter(Filter(s, keep), keep) == Filter(s, keep)
  {
  }

  lemma {:induction false} FilterConcat<T>(a: seq<T>, b: seq<T>, keep: T -> bool)
    ensures Filter(a + b, keep) == Filter(a, keep) + Filter(b, keep)
  {
    if a != [] {
      assert (a + b)[0] == a[0];
      assert (a + b)[1..] == a[1..] + b;
      FilterConcat(a[1..], b, keep);
    } else {
      assert a + b == b;
    }
  }

  /** Filtering by `keep` after filtering by a stronger predicate `first`
      changes nothing; filtering by a predicate `first` rules out leaves nothing. */
  lemma {:induction false} FilterAfterFilter<T>(s: seq<T>, first: T -> bool, keep: T -> bool)
    ensures (forall x :: first(x) ==> keep(x)) ==> Filter(Filter(s, first), keep) == Filter(s, first)
    ensures (forall x :: first(x) ==> !keep(x)) ==> Filter(Filter(s, first), keep) == []
    ensures (forall x :: keep(x) ==> first(x)) ==> Filter(Filter(s, first), keep) == Filter(s, keep)
  {
    if s != [] {
      FilterAfterFilter(s[1..], first, keep);
    }
  }

  // ---------------------------------------------------------------------------
  // Strings
  // ---------------------------------------------------------------------------

  /** ASCII part of `toLowerCase`: 'A'..'Z' become 'a'..'z'; every other character stays. */
  function LowerChar(c: char): char
  {
    if 'A' <= c <= 'Z' then (c as int + 32) as char else c
  }

  function Lower(s: string): (r: string)
    ensures |r| == |s|
    ensures forall i :: 0 <= i < |s| ==> r[i] == LowerChar(s[i])
  {
    if s == [] then [] else [LowerChar(s[0])] + Lower(s[1..])
  }

  lemma {:induction false} LowerConcat(a: string, b: string)
    ensures Lower(a + b) == Lower(a) + Lower(b)
  {
    if a == [] {
      assert a + b == b;
    } else {
      assert (a + b)[0] == a[0];
      assert (a + b)[1..] == a[1..] + b;
      LowerConcat(a[1..], b);
    }
  }

  /** Lowercasing twice is lowercasing once. */
  lemma LowerIdempotent(s: string)
    ensures Lower(Lower(s)) == Lower(s)
  {
    assert |Lower(Lower(s))| == |Lower(s)|;
  }

  predicate StartsWith(s: string, prefix: string)
  {
    |prefix| <= |s| && s[..|prefix|] == prefix
  }

  /** The string `includes`: `t` occurs somewhere in `s` as a contiguous block. */
  predicate Includes(s: string, t: string)
  {
    StartsWith(s, t) || (s != [] && Includes(s[1..], t))
  }

  ghost predicate OccursAt(s: string, t: string, i: int)
  {
    0 <= i && i + |t| <= |s| && s[i..i + |t|] == t
  }

  /** `Includes` means exactly: there is a position where `t` occurs. */
  lemma {:induction false} IncludesIff(s: string, t: string)
    ensures Includes(s, t) <==> exists i :: OccursAt(s, t, i)
  {
    if s != [] {
      IncludesIff(s[1..], t);
      if StartsWith(s, t) {
        assert OccursAt(s, t, 0);
      }
      if Includes(s[1..], t) {
        var i :| OccursAt(s[1..], t, i);
        assert s[1..][i..i + |t|] == s[i + 1..i + 1 + |t|];
        assert OccursAt(s, t, i + 1);
      }
      if i :| OccursAt(s, t, i) {
        if i > 0 {
          assert s[1..][i - 1..i - 1 + |t|] == s[i..i + |t|];
          assert OccursAt(s[1..], t, i - 1);
        } else {
          assert StartsWith(s, t);
        }
      }
    } else if Includes(s, t) {
      assert OccursAt(s, t, 0);
    }
  }

  lemma IncludesEmpty(s: string)
    ensures Includes(s, "")
  {
    assert StartsWith(s, "");
  }

  /** A block found in either half of a concatenation is found in the whole. */
  lemma IncludesConcat(a: string, b: string, t: string)
    requires Includes(a, t) || Includes(b, t)
    ensures Includes(a + b, t)
  {
    IncludesIff(a, t);
    IncludesIff(b, t);
    IncludesIff(a + b, t);
    if Includes(a, t) {
      var i :| OccursAt(a, t, i);
      assert (a + b)[i..i + |t|] == a[i..i + |t|];
      assert OccursAt(a + b, t, i);
    } else {
      var i :| OccursAt(b, t, i);
      assert (a + b)[|a| + i..|a| + i + |t|] == b[i..i + |t|];
      assert OccursAt(a + b, t, |a| + i);
    }
  }

  /** The `join` of `parts`: the parts in order with `sep` between neighbours. */
  function Join(parts: seq<string>, sep: string): string
  {
    if |parts| == 0 then ""
    else if |parts| == 1 then parts[0]
    else parts[0] + sep + Join(parts[1..], sep)
  }

  /** Whatever one part contains, the joined text contains. */
  lemma {:induction false} IncludesJoinedPart(parts: seq<string>, sep: string, k: int, t: string)
    requires 0 <= k < |parts| && Includes(parts[k], t)
    ensures Includes(Join(parts, sep), t)
  {
    if |parts| > 1 {
      if k == 0 {
        IncludesConcat(parts[0], sep + Join(parts[1..], sep), t);
        assert parts[0] + sep + Join(parts[1..], sep) == parts[0] + (sep + Join(parts[1..], sep));
      } else {
        IncludesJoinedPart(parts[1..], sep, k - 1, t);
        IncludesConcat(parts[0] + sep, Join(parts[1..], sep), t);
      }
    }
  }

  /** The same, after lowercasing both the part and the joined text. */
  lemma {:induction false} IncludesLowerJoinedPart(parts: seq<string>, sep: string, k: int, t: string)
    requires 0 <= k < |parts| && Includes(Lower(parts[k]), t)
    ensures Includes(Lower(Join(parts, sep)), t)
  {
    if |parts| > 1 {
      var rest := Join(parts[1..], sep);
      LowerConcat(parts[0] + sep, rest);
      LowerConcat(parts[0], sep);
      if k == 0 {
        IncludesConcat(Lower(parts[0]), Lower(sep), t);
        IncludesConcat(Lower(parts[0]) + Lower(sep), Lower(rest), t);
      } else {
        IncludesLowerJoinedPart(parts[1..], sep, k - 1, t);
        IncludesConcat(Lower(parts[0]) + Lower(sep), Lower(rest), t);
      }
    }
  }
}

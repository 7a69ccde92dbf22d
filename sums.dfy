/** Folds from zero over a sequence (`map(..).sum()` and `fold(ZERO, |a, v| a + v)`),
    and the facts about them that the kernel sums and the fluid step rely on. */
module Sums {
  import opened Vectors

  /** Left fold of `f` from 0, as Rust's `Iterator::sum` does. */
  function Sum<T>(s: seq<T>, f: T --> real): real
    requires forall i :: 0 <= i < |s| ==> f.requires(s[i])
  {
    if |s| == 0 then 0.0 else Sum(s[..|s| - 1], f) + f(s[|s| - 1])
  }

  /** Left fold of `f` from the zero vector. */
  function VSum<T>(s: seq<T>, f: T --> Vec3): Vec3
    requires forall i :: 0 <= i < |s| ==> f.requires(s[i])
  {
    if |s| == 0 then Zero else Add(VSum(s[..|s| - 1], f), f(s[|s| - 1]))
  }

  ghost predicate Distinct<T>(s: seq<T>) {
    forall i, j :: 0 <= i < j < |s| ==> s[i] != s[j]
  }

  /** The elements of `s` at the positions listed in `idx`, in the order of `idx`. */
  function Select<T>(s: seq<T>, idx: seq<nat>): (r: seq<T>)
    requires forall k :: 0 <= k < |idx| ==> idx[k] < |s|
    ensures |r| == |idx|
    ensures forall k :: 0 <= k < |idx| ==> r[k] == s[idx[k]]
  {
    seq(|idx|, k requires 0 <= k < |idx| => s[idx[k]])
  }

  /** `[0, 1, ..., n - 1]` */
  function Range(n: nat): (r: seq<nat>)
    ensures |r| == n
    ensures forall k :: 0 <= k < n ==> r[k] == k
    ensures forall k :: 0 <= k < n ==> k in r
  {
    var r := seq(n, k => k);
    assert forall k :: 0 <= k < n ==> k in r by {
      forall k | 0 <= k < n ensures k in r {
        assert r[k] == k;
      }
    }
    r
  }

  lemma SelectRange<T>(s: seq<T>)
    ensures Select(s, Range(|s|)) == s
  {
  }

  lemma {:induction false} SumAppend<T>(a: seq<T>, b: seq<T>, f: T --> real)
    requires forall i :: 0 <= i < |a| ==> f.requires(a[i])
    requires forall i :: 0 <= i < |b| ==> f.requires(b[i])
    ensures Sum(a + b, f) == Sum(a, f) + Sum(b, f)
  {
    if |b| > 0 {
      assert (a + b)[..|a + b| - 1] == a + b[..|b| - 1];
      SumAppend(a, b[..|b| - 1], f);
    } else {
      assert a + b == a;
    }
  }

  lemma {:induction false} VSumAppend<T>(a: seq<T>, b: seq<T>, f: T --> Vec3)
    requires forall i :: 0 <= i < |a| ==> f.requires(a[i])
    requires forall i :: 0 <= i < |b| ==> f.requires(b[i])
    ensures VSum(a + b, f) == Add(VSum(a, f), VSum(b, f))
  {
    if |b| > 0 {
      assert (a + b)[..|a + b| - 1] == a + b[..|b| - 1];
      VSumAppend(a, b[..|b| - 1], f);
    } else {
      assert a + b == a;
    }
  }

  /** A sum of non-negative terms is at least any one of them. */
  lemma {:induction false} SumAtLeastTerm<T>(s: seq<T>, f: T --> real, k: nat)
    requires forall i :: 0 <= i < |s| ==> f.requires(s[i]) && f(s[i]) >= 0.0
    requires k < |s|
    ensures Sum(s, f) >= f(s[k])
  {
    var n := |s| - 1;
    SumNonNegative(s[..n], f);
    if k < n {
      SumAtLeastTerm(s[..n], f, k);
    }
  }

  lemma {:induction false} SumNonNegative<T>(s: seq<T>, f: T --> real)
    requires forall i :: 0 <= i < |s| ==> f.requires(s[i]) && f(s[i]) >= 0.0
    ensures Sum(s, f) >= 0.0
  {
    if |s| > 0 {
      SumNonNegative(s[..|s| - 1], f);
    }
  }

  lemma {:induction false} SumOfZeros<T>(s: seq<T>, f: T --> real)
    requires forall i :: 0 <= i < |s| ==> f.requires(s[i]) && f(s[i]) == 0.0
    ensures Sum(s, f) == 0.0
  {
    if |s| > 0 {
      SumOfZeros(s[..|s| - 1], f);
    }
  }

  /** Replacing one element changes the sum by the change in its term. */
  lemma {:induction false} SumUpdate<T>(s: seq<T>, k: nat, v: T, f: T --> real)
    requires forall i :: 0 <= i < |s| ==> f.requires(s[i])
    requires k < |s| && f.requires(v)
    ensures Sum(s[k := v], f) == Sum(s, f) - f(s[k]) + f(v)
  {
    var n := |s| - 1;
    if k < n {
      assert s[k := v][..n] == s[..n][k := v];
      SumUpdate(s[..n], k, v, f);
    } else {
      assert s[k := v][..n] == s[..n];
    }
  }

  /** `idx` with its entry at position `p` removed */
  function RemoveAt(idx: seq<nat>, p: nat): (r: seq<nat>)
    requires p < |idx|
    ensures |r| == |idx| - 1
    ensures forall k :: 0 <= k < |r| ==> r[k] == (if k < p then idx[k] else idx[k + 1])
  {
    idx[..p] + idx[p + 1..]
  }

  lemma RemoveAtDistinct(idx: seq<nat>, p: nat)
    requires p < |idx| && Distinct(idx)
    ensures Distinct(RemoveAt(idx, p))
    ensures forall j :: j in RemoveAt(idx, p) <==> j in idx && j != idx[p]
  {
    var rest := RemoveAt(idx, p);
    forall i, j | 0 <= i < j < |rest| ensures rest[i] != rest[j] {
      var i' := if i < p then i else i + 1;
      var j' := if j < p then j else j + 1;
      assert rest[i] == idx[i'] && rest[j] == idx[j'];
    }
    forall j ensures j in rest <==> j in idx && j != idx[p] {
      if j in idx && j != idx[p] {
        var q :| 0 <= q < |idx| && idx[q] == j;
        if q < p { assert rest[q] == j; } else { assert rest[q - 1] == j; }
      }
    }
  }

  lemma SelectAppend<T>(s: seq<T>, i1: seq<nat>, i2: seq<nat>)
    requires forall k :: 0 <= k < |i1| ==> i1[k] < |s|
    requires forall k :: 0 <= k < |i2| ==> i2[k] < |s|
    ensures Select(s, i1 + i2) == Select(s, i1) + Select(s, i2)
  {
  }

  lemma SumSingle<T>(t: T, f: T --> real)
    requires f.requires(t)
    ensures Sum([t], f) == f(t)
  {
    assert [t][..0] == [];
  }

  /** Taking one entry out of a selection takes its term out of the sum. */
  lemma SumSelectRemove<T>(s: seq<T>, idx: seq<nat>, p: nat, f: T --> real)
    requires forall i :: 0 <= i < |s| ==> f.requires(s[i])
    requires forall k :: 0 <= k < |idx| ==> idx[k] < |s|
    requires p < |idx|
    ensures Sum(Select(s, idx), f) == Sum(Select(s, RemoveAt(idx, p)), f) + f(s[idx[p]])
  {
    var pre, mid, post := idx[..p], [idx[p]], idx[p + 1..];
    assert idx == (pre + mid) + post;
    SelectAppend(s, pre + mid, post);
    SelectAppend(s, pre, mid);
    SelectAppend(s, pre, post);
    var a, m, b := Select(s, pre), Select(s, mid), Select(s, post);
    assert m == [s[idx[p]]];
    SumAppend(a + m, b, f);
    SumAppend(a, m, f);
    SumAppend(a, b, f);
    SumSingle(s[idx[p]], f);
  }

  lemma SelectPrefix<T>(s: seq<T>, n: nat, idx: seq<nat>)
    requires n <= |s|
    requires forall k :: 0 <= k < |idx| ==> idx[k] < n
    ensures Select(s, idx) == Select(s[..n], idx)
  {
  }

  /** The selection `idx` of `s` sums to the same value as all of `s` when it lists
      no position twice and leaves out only positions whose term is 0. */
  lemma {:induction false} SumOfSelection<T>(s: seq<T>, idx: seq<nat>, f: T --> real)
    requires forall i :: 0 <= i < |s| ==> f.requires(s[i])
    requires forall k :: 0 <= k < |idx| ==> idx[k] < |s|
    requires Distinct(idx)
    requires forall j :: 0 <= j < |s| && j !in idx ==> f(s[j]) == 0.0
    ensures Sum(Select(s, idx), f) == Sum(s, f)
    decreases |s|, 1
  {
    if idx != [] {
      assert idx[0] < |s|;
    }
    if |s| == 0 {
      assert idx == [];
    } else if |s| - 1 in idx {
      SumOfSelectionWithLast(s, idx, f);
    } else {
      SumOfSelectionWithoutLast(s, idx, f);
    }
  }

  /** `SumOfSelection` when the selection lists the last position of `s`. */
  lemma {:induction false} SumOfSelectionWithLast<T>(s: seq<T>, idx: seq<nat>, f: T --> real)
    requires forall i :: 0 <= i < |s| ==> f.requires(s[i])
    requires forall k :: 0 <= k < |idx| ==> idx[k] < |s|
    requires Distinct(idx)
    requires forall j :: 0 <= j < |s| && j !in idx ==> f(s[j]) == 0.0
    requires |s| > 0 && |s| - 1 in idx
    ensures Sum(Select(s, idx), f) == Sum(s, f)
    decreases |s|, 0
  {
    var n := |s| - 1;
    var s' := s[..n];
    var p :| 0 <= p < |idx| && idx[p] == n;
    var rest := RemoveAt(idx, p);
    RemoveAtDistinct(idx, p);
    forall k | 0 <= k < |rest| ensures rest[k] < n {
      assert rest[k] in rest;
    }
    forall j | 0 <= j < n && j !in rest ensures f(s'[j]) == 0.0 {
      assert j !in idx && s'[j] == s[j];
    }
    SumOfSelection(s', rest, f);
    SumSelectRemove(s, idx, p, f);
    SelectPrefix(s, n, rest);
    assert Sum(s, f) == Sum(s', f) + f(s[n]);
  }

  /** `SumOfSelection` when the selection leaves out the last position of `s`. */
  lemma {:induction false} SumOfSelectionWithoutLast<T>(s: seq<T>, idx: seq<nat>, f: T --> real)
    requires forall i :: 0 <= i < |s| ==> f.requires(s[i])
    requires forall k :: 0 <= k < |idx| ==> idx[k] < |s|
    requires Distinct(idx)
    requires forall j :: 0 <= j < |s| && j !in idx ==> f(s[j]) == 0.0
    requires |s| > 0 && |s| - 1 !in idx
    ensures Sum(Select(s, idx), f) == Sum(s, f)
    decreases |s|, 0
  {
    var n := |s| - 1;
    var s' := s[..n];
    forall k | 0 <= k < |idx| ensures idx[k] < n {
      assert idx[k] in idx;
    }
    forall j | 0 <= j < n && j !in idx ensures f(s'[j]) == 0.0 {
      assert s'[j] == s[j];
    }
    SumOfSelection(s', idx, f);
    SelectPrefix(s, n, idx);
    assert Sum(s, f) == Sum(s', f) + f(s[n]);
  }

  /** The components of a vector sum are the sums of the components. */
  lemma {:induction false} VSumComponents<T>(s: seq<T>, f: T --> Vec3)
    requires forall i :: 0 <= i < |s| ==> f.requires(s[i])
    ensures VSum(s, f).x == Sum(s, XOf(f))
    ensures VSum(s, f).y == Sum(s, YOf(f))
    ensures VSum(s, f).z == Sum(s, ZOf(f))
  {
    if |s| > 0 {
      VSumComponents(s[..|s| - 1], f);
    }
  }

  function XOf<T>(f: T --> Vec3): T --> real { t requires f.requires(t) => f(t).x }
  function YOf<T>(f: T --> Vec3): T --> real { t requires f.requires(t) => f(t).y }
  function ZOf<T>(f: T --> Vec3): T --> real { t requires f.requires(t) => f(t).z }

  /** `SumOfSelection` for vector sums. */
  lemma VSumOfSelection<T>(s: seq<T>, idx: seq<nat>, f: T --> Vec3)
    requires forall i :: 0 <= i < |s| ==> f.requires(s[i])
    requires forall k :: 0 <= k < |idx| ==> idx[k] < |s|
    requires Distinct(idx)
    requires forall j :: 0 <= j < |s| && j !in idx ==> f(s[j]) == Zero
    ensures VSum(Select(s, idx), f) == VSum(s, f)
  {
    VSumComponents(s, f);
    VSumComponents(Select(s, idx), f);
    SumOfSelection(s, idx, XOf(f));
    SumOfSelection(s, idx, YOf(f));
    SumOfSelection(s, idx, ZOf(f));
  }
}

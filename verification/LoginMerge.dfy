/** The Plus login scheme's character interleaving (protocols/http/crypt.py). */
module LoginMerge {

  /** Alternate characters until one string runs out, then the rest of the other. */
  function Interleave(a: string, b: string): string {
    if a == [] then b
    else if b == [] then a
    else [a[0], b[0]] + Interleave(a[1..], b[1..])
  }

  /** Split an interleaving back into its parts, given their lengths. */
  function Separate(m: string, n: nat, k: nat): (string, string)
    requires n + k == |m|
  {
    if n == 0 then ([], m)
    else if k == 0 then (m, [])
    else
      var (a, b) := Separate(m[2..], n - 1, k - 1);
      ([m[0]] + a, [m[1]] + b)
  }

  /** The two-index loop. */
  method Merge(str1: string, str2: string) returns (out: string)
    ensures out == Interleave(str1, str2)
  {
    out := [];
    var i, j := 0, 0;
    while i < |str1| || j < |str2|
      invariant 0 <= i <= |str1| && 0 <= j <= |str2|
      invariant i == j || (i < j && i == |str1|) || (j < i && j == |str2|)
      invariant Interleave(str1, str2) == out + Interleave(str1[i..], str2[j..])
      decreases |str1| - i + |str2| - j
    {
      ghost var i0, j0, was := i, j, out;
      if i < |str1| {
        out := out + [str1[i]];
        i := i + 1;
      }
      if j < |str2| {
        out := out + [str2[j]];
        j := j + 1;
      }
      assert out == was + Next(str1, i0) + Next(str2, j0);
      Regroup(was, Next(str1, i0), Next(str2, j0), Interleave(str1[i..], str2[j..]));
      OneRound(str1, str2, i0, j0);
    }
  }

  lemma Regroup(a: string, b: string, c: string, d: string)
    ensures a + ((b + c) + d) == ((a + b) + c) + d
  {
  }

  /** The character at index `i`, if any. */
  function Next(s: string, i: nat): string
    requires i <= |s|
  {
    if i < |s| then [s[i]] else []
  }

  /** What one round of the loop takes from the front of what is left of each string. */
  lemma OneRound(a: string, b: string, i: nat, j: nat)
    requires i <= |a| && j <= |b| && (i < |a| || j < |b|)
    ensures Interleave(a[i..], b[j..])
         == (Next(a, i) + Next(b, j))
            + Interleave(a[if i < |a| then i + 1 else i..], b[if j < |b| then j + 1 else j..])
  {
    var p, q := a[i..], b[j..];
    if i < |a| && j < |b| {
      assert p[1..] == a[i + 1..] && q[1..] == b[j + 1..];
    } else if i < |a| {
      assert p == [a[i]] + a[i + 1..] && q == [];
    } else {
      assert q == [b[j]] + b[j + 1..] && p == [];
    }
  }

  lemma {:induction false} SeparateUndoes(a: string, b: string)
    ensures |Interleave(a, b)| == |a| + |b|
    ensures Separate(Interleave(a, b), |a|, |b|) == (a, b)
  {
    if a != [] && b != [] {
      SeparateUndoes(a[1..], b[1..]);
      assert Interleave(a, b)[2..] == Interleave(a[1..], b[1..]);
      assert a == [a[0]] + a[1..] && b == [b[0]] + b[1..];
    }
  }

  lemma {:induction false} InterleaveUndoes(m: string, n: nat, k: nat)
    requires n + k == |m|
    ensures var (a, b) := Separate(m, n, k);
            |a| == n && |b| == k && Interleave(a, b) == m
    decreases n
  {
    if n > 0 && k > 0 {
      InterleaveUndoes(m[2..], n - 1, k - 1);
      var (a, b) := Separate(m[2..], n - 1, k - 1);
      assert ([m[0]] + a)[1..] == a && ([m[1]] + b)[1..] == b;
      assert m == [m[0], m[1]] + m[2..];
    }
  }

  /** For one nonce, different passwords, of whatever lengths, give different strings to hash. */
  lemma MergeInjectiveInPassword(p: string, q: string, nonce: string)
    requires Interleave(p, nonce) == Interleave(q, nonce)
    ensures p == q
  {
    SeparateUndoes(p, nonce);
    SeparateUndoes(q, nonce);
  }
}

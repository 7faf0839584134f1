/** The first-difference operation `diffArr`: out[i] = in[i+1] - in[i], with the
    output padded by a trailing 0 so that it keeps the input's length. */
module DiffArray {

  /** First differences of `s`, padded with 0. `diffArr` computes in.size()-1
      with unsigned arithmetic, so an empty input is outside its domain. */
  function Diff(s: seq<real>): (d: seq<real>)
    requires |s| >= 1
    ensures |d| == |s| && d[|s| - 1] == 0.0
  {
    seq(|s|, i requires 0 <= i < |s| => if i < |s| - 1 then s[i + 1] - s[i] else 0.0)
  }

  /** A sequence that agrees with the forward differences of `s` and ends in 0 is Diff(s). */
  lemma DiffUnique(s: seq<real>, d: seq<real>)
    requires |s| >= 1 && |d| == |s| && d[|s| - 1] == 0.0
    requires forall k :: 0 <= k < |s| - 1 ==> d[k] == s[k + 1] - s[k]
    ensures d == Diff(s)
  {
  }

  /** The sum of a sequence of reals. */
  function Sum(xs: seq<real>): real
  {
    if |xs| == 0 then 0.0 else Sum(xs[..|xs| - 1]) + xs[|xs| - 1]
  }

  /** The differences lose nothing but the starting value: adding the first k
      of them to s[0] gives back s[k]. */
  lemma {:induction false} DiffRecovers(s: seq<real>, k: nat)
    requires k < |s|
    ensures s[0] + Sum(Diff(s)[..k]) == s[k]
  {
    if k > 0 {
      DiffRecovers(s, k - 1);
      assert Diff(s)[..k][..k - 1] == Diff(s)[..k - 1];
    }
  }

  /** diffArr(in, out): clears `out`, pushes each forward difference, then pushes 0. */
  method DiffArr(input: seq<real>) returns (out: seq<real>)
    requires |input| >= 1
    ensures |out| == |input| && out[|input| - 1] == 0.0
    ensures forall k :: 0 <= k < |input| - 1 ==> out[k] == input[k + 1] - input[k]
    ensures out == Diff(input)
  {
    out := [];
    var i := 0;
    while i < |input| - 1
      invariant 0 <= i <= |input| - 1
      invariant |out| == i
      invariant forall k :: 0 <= k < i ==> out[k] == input[k + 1] - input[k]
    {
      out := out + [input[i + 1] - input[i]];
      i := i + 1;
    }
    out := out + [0.0];
    DiffUnique(input, out);
  }
}

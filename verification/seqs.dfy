/** Order-preserving selection over sequences, the shape of JavaScript's
    `Array.prototype.filter`, with an independent description by positions. */
module Seqs {

  /** The elements of s that satisfy p, in their order in s. */
  function Filter<T>(p: T -> bool, s: seq<T>): (r: seq<T>)
    ensures |r| <= |s|
    ensures forall k :: 0 <= k < |r| ==> r[k] in s && p(r[k])
    ensures forall i :: 0 <= i < |s| && p(s[i]) ==> s[i] in r
  {
    if |s| == 0 then []
    else
      assert s == s[..|s| - 1] + [s[|s| - 1]];
      Filter(p, s[..|s| - 1]) + (if p(s[|s| - 1]) then [s[|s| - 1]] else [])
  }

  /** The positions of s whose element satisfies p, in increasing order. */
  function Positions<T>(p: T -> bool, s: seq<T>): (ps: seq<nat>)
    ensures forall k :: 0 <= k < |ps| ==> ps[k] < |s| && p(s[ps[k]])
    ensures forall k, l :: 0 <= k < l < |ps| ==> ps[k] < ps[l]
    ensures forall i :: 0 <= i < |s| && p(s[i]) ==> i in ps
  {
    if |s| == 0 then []
    else Positions(p, s[..|s| - 1]) + (if p(s[|s| - 1]) then [|s| - 1] else [])
  }

  /** Filter keeps exactly the elements found at Positions, in that order:
      nothing is dropped that satisfies p, and the relative order is kept. */
  lemma {:induction false} FilterAtPositions<T>(p: T -> bool, s: seq<T>)
    ensures |Filter(p, s)| == |Positions(p, s)|
    ensures forall k :: 0 <= k < |Positions(p, s)| ==> Filter(p, s)[k] == s[Positions(p, s)[k]]
  {
    if |s| > 0 {
      var s' := s[..|s| - 1];
      FilterAtPositions(p, s');
      var f, ps := Filter(p, s), Positions(p, s);
      var f', ps' := Filter(p, s'), Positions(p, s');
      var tail := if p(s[|s| - 1]) then [s[|s| - 1]] else [];
      assert f == f' + tail;
      assert ps == ps' + (if p(s[|s| - 1]) then [|s| - 1] else []);
      forall k | 0 <= k < |ps| ensures f[k] == s[ps[k]] {
        if k < |ps'| {
          assert f[k] == f'[k] == s'[ps'[k]];
        }
      }
    }
  }
}

/**
 * Integer sequences as the source builds them: `Array.from` ranges,
 * `filter` chains and `reverse`.
 */
module IntSeqs {

  predicate StrictlyAscending(s: seq<int>) {
    forall i, j :: 0 <= i < j < |s| ==> s[i] < s[j]
  }

  predicate StrictlyDescending(s: seq<int>) {
    forall i, j :: 0 <= i < j < |s| ==> s[i] > s[j]
  }

  /** `Array.from({ length: hi - lo }, (_, i) => lo + i)`: empty when the length is not positive. */
  function Range(lo: int, hi: int): (r: seq<int>)
    ensures |r| == if lo <= hi then hi - lo else 0
    ensures forall i :: 0 <= i < |r| ==> r[i] == lo + i
    ensures forall x :: x in r <==> lo <= x < hi
    ensures StrictlyAscending(r)
  {
    var r := if hi <= lo then [] else seq(hi - lo, i => lo + i);
    assert forall x :: lo <= x < hi ==> x in r by {
      forall x | lo <= x < hi ensures x in r {
        assert r[x - lo] == x;
      }
    }
    r
  }

  /** `s.filter(p)`: the elements of `s` satisfying `p`, in their original order. */
  function Filter(s: seq<int>, p: int -> bool): (r: seq<int>)
    ensures |r| <= |s|
    ensures forall x :: x in r <==> x in s && p(x)
  {
    if s == [] then []
    else
      assert s == [s[0]] + s[1..];
      (if p(s[0]) then [s[0]] else []) + Filter(s[1..], p)
  }

  /** Filtering keeps a strictly ascending sequence strictly ascending. */
  lemma {:induction false} FilterAscending(s: seq<int>, p: int -> bool)
    requires StrictlyAscending(s)
    ensures StrictlyAscending(Filter(s, p))
  {
    if s != [] {
      var rest := Filter(s[1..], p);
      FilterAscending(s[1..], p);
      forall x | x in rest ensures s[0] < x {
        var k :| 0 <= k < |s[1..]| && s[1..][k] == x;
        assert s[k + 1] == x;
      }
      var r := Filter(s, p);
      if p(s[0]) {
        assert r == [s[0]] + rest;
        forall i, j | 0 <= i < j < |r| ensures r[i] < r[j] {
          if i == 0 {
            assert r[j] == rest[j - 1];
            assert rest[j - 1] in rest;
          } else {
            assert r[i] == rest[i - 1] && r[j] == rest[j - 1];
          }
        }
      } else {
        assert r == rest;
      }
    }
  }

  /** `s.reverse()` applied to a fresh copy. */
  function Reversed(s: seq<int>): (r: seq<int>)
    ensures |r| == |s|
    ensures forall i :: 0 <= i < |s| ==> r[i] == s[|s| - 1 - i]
  {
    if s == [] then [] else Reversed(s[1..]) + [s[0]]
  }

  /** Reversing keeps the elements and turns ascending into descending. */
  lemma ReversedFacts(s: seq<int>)
    ensures forall x :: x in Reversed(s) <==> x in s
    ensures StrictlyAscending(s) ==> StrictlyDescending(Reversed(s))
  {
    var r := Reversed(s);
    forall x | x in s ensures x in r {
      var k :| 0 <= k < |s| && s[k] == x;
      assert r[|s| - 1 - k] == x;
    }
  }

  /** A strictly ascending sequence is determined by the set of its elements. */
  lemma {:induction false} AscendingUnique(a: seq<int>, b: seq<int>)
    requires StrictlyAscending(a) && StrictlyAscending(b)
    requires forall x :: x in a <==> x in b
    ensures a == b
  {
    assert |b| > 0 ==> b[0] in b;
    if a == [] {
    } else {
      assert b != [] by { assert a[0] in a; }
      assert b[0] in b && a[0] in a;
      var ka :| 0 <= ka < |a| && a[ka] == b[0];
      var kb :| 0 <= kb < |b| && b[kb] == a[0];
      assert a[0] == b[0] by {
        assert a[0] <= a[ka] && b[0] <= b[kb];
      }
      forall x ensures x in a[1..] <==> x in b[1..] {
        if x in a[1..] {
          var i :| 0 <= i < |a[1..]| && a[1..][i] == x;
          assert a[0] < x by { assert a[i + 1] == x; }
          assert x in b;
          var j :| 0 <= j < |b| && b[j] == x;
          assert j != 0;
          assert b[1..][j - 1] == x;
        }
        if x in b[1..] {
          var i :| 0 <= i < |b[1..]| && b[1..][i] == x;
          assert b[0] < x by { assert b[i + 1] == x; }
          assert x in a;
          var j :| 0 <= j < |a| && a[j] == x;
          assert j != 0;
          assert a[1..][j - 1] == x;
        }
      }
      AscendingUnique(a[1..], b[1..]);
      assert a == [a[0]] + a[1..] && b == [b[0]] + b[1..];
    }
  }
}

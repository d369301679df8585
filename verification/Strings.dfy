/** String operations shared by the components: splitting, joining, substrings, distinct elements. */
module Strings {

  predicate HasAt(s: string, i: nat, p: string) { i + |p| <= |s| && s[i..i + |p|] == p }

  /** Position of the first `c` at or after `i`, or the length. */
  function CharFrom(s: string, c: char, i: nat): (r: nat)
    requires i <= |s|
    ensures i <= r <= |s| && (r < |s| ==> s[r] == c) && forall k :: i <= k < r ==> s[k] != c
    decreases |s| - i
  {
    if i == |s| || s[i] == c then i else CharFrom(s, c, i + 1)
  }

  function Split(s: string, c: char): (parts: seq<string>)
    ensures parts != [] && forall i :: 0 <= i < |parts| ==> c !in parts[i]
    decreases |s|
  {
    var e := CharFrom(s, c, 0);
    if e == |s| then [s] else [s[..e]] + Split(s[e + 1..], c)
  }

  function Join(parts: seq<string>, c: char): string {
    if parts == [] then "" else if |parts| == 1 then parts[0] else parts[0] + [c] + Join(parts[1..], c)
  }

  lemma {:induction false} SplitJoin(parts: seq<string>, c: char)
    requires parts != [] && forall i :: 0 <= i < |parts| ==> c !in parts[i]
    ensures Split(Join(parts, c), c) == parts
  {
    var text := Join(parts, c);
    var head := parts[0];
    if |parts| > 1 {
      SplitJoin(parts[1..], c);
      assert text[|head|] == c && text[..|head|] == head && text[|head| + 1..] == Join(parts[1..], c);
    }
    assert forall k :: 0 <= k < |head| ==> text[k] == head[k] && head[k] in head;
    assert CharFrom(text, c, 0) == |head|;
  }

  /** The first occurrences, in order. */
  function Distinct<T(==)>(xs: seq<T>): seq<T> {
    if xs == [] then []
    else
      var rest, x := xs[..|xs| - 1], xs[|xs| - 1];
      if x in rest then Distinct(rest) else Distinct(rest) + [x]
  }

  lemma DistinctSnoc<T>(xs: seq<T>, x: T)
    ensures Distinct(xs + [x]) == if x in xs then Distinct(xs) else Distinct(xs) + [x]
  {
    assert (xs + [x])[..|xs|] == xs;
  }

  lemma {:induction false} DistinctFacts<T(!new)>(xs: seq<T>)
    ensures forall x :: x in Distinct(xs) <==> x in xs
    ensures forall i, j :: 0 <= i < j < |Distinct(xs)| ==> Distinct(xs)[i] != Distinct(xs)[j]
  {
    if xs != [] {
      var rest, x := xs[..|xs| - 1], xs[|xs| - 1];
      DistinctFacts(rest);
      assert xs == rest + [x];
      if x !in rest {
        assert Distinct(xs) == Distinct(rest) + [x];
        forall i | 0 <= i < |Distinct(rest)| ensures Distinct(rest)[i] != x {
          assert Distinct(rest)[i] in Distinct(rest);
        }
      }
    }
  }

  function Elements<T(==)>(xs: seq<T>): set<T> { set x | x in xs }

  lemma {:induction false} DistinctSize<T>(xs: seq<T>)
    requires forall i, j :: 0 <= i < j < |xs| ==> xs[i] != xs[j]
    ensures |Elements(xs)| == |xs|
  {
    if xs != [] {
      var rest, x := xs[..|xs| - 1], xs[|xs| - 1];
      DistinctSize(rest);
      assert xs == rest + [x];
      assert Elements(xs) == Elements(rest) + {x};
      assert x !in rest;
    }
  }

  /** The images of the elements, one after the other. */
  function Flat<T, U>(xs: seq<T>, f: T -> seq<U>): seq<U> {
    if xs == [] then [] else Flat(xs[..|xs| - 1], f) + f(xs[|xs| - 1])
  }

  lemma FlatSnoc<T, U>(xs: seq<T>, i: nat, f: T -> seq<U>)
    requires i < |xs|
    ensures Flat(xs[..i + 1], f) == Flat(xs[..i], f) + f(xs[i])
  {
    assert xs[..i + 1][..i] == xs[..i];
  }

  /** The element an image comes from, and its place among that element's images. */
  lemma {:induction false} FlatPlace<T, U>(xs: seq<T>, f: T -> seq<U>, j: nat) returns (q: nat, l: nat)
    requires j < |Flat(xs, f)|
    ensures q < |xs| && l < |f(xs[q])| && j == |Flat(xs[..q], f)| + l
  {
    var n := |xs| - 1;
    if j < |Flat(xs[..n], f)| {
      q, l := FlatPlace(xs[..n], f, j);
      assert xs[..n][..q] == xs[..q];
    } else {
      q, l := n, j - |Flat(xs[..n], f)|;
    }
  }

  lemma {:induction false} FlatGrows<T, U>(xs: seq<T>, f: T -> seq<U>, q: nat, r: nat)
    requires q < r <= |xs|
    ensures |Flat(xs[..q], f)| + |f(xs[q])| <= |Flat(xs[..r], f)|
  {
    FlatSnoc(xs, r - 1, f);
    if q < r - 1 {
      FlatGrows(xs, f, q, r - 1);
    }
  }

  lemma {:induction false} FlatMember<T, U>(xs: seq<T>, f: T -> seq<U>, y: U)
    ensures y in Flat(xs, f) <==> exists i :: 0 <= i < |xs| && y in f(xs[i])
  {
    if xs != [] {
      FlatMember(xs[..|xs| - 1], f, y);
    }
  }

  function Mapped<T, U>(xs: seq<T>, f: T -> U): (r: seq<U>)
    ensures |r| == |xs| && forall i :: 0 <= i < |xs| ==> r[i] == f(xs[i])
  {
    seq(|xs|, i requires 0 <= i < |xs| => f(xs[i]))
  }

  lemma MappedAppend<T, U>(a: seq<T>, b: seq<T>, f: T -> U)
    ensures Mapped(a + b, f) == Mapped(a, f) + Mapped(b, f)
  {
  }

  /** `out` lists the images of the elements at `ks`: all that are kept, in order, each as often as
      it occurs. */
  ghost predicate Filtered<T(!new), U(!new)>(xs: seq<T>, keep: T -> bool, f: T -> U, out: seq<U>, ks: seq<nat>) {
    && |ks| == |out| && (forall i, j :: 0 <= i < j < |ks| ==> ks[i] < ks[j])
    && (forall i :: 0 <= i < |ks| ==> ks[i] < |xs| && out[i] == f(xs[ks[i]]))
    && (forall k :: 0 <= k < |xs| ==> (k in ks <==> keep(xs[k])))
  }

  lemma ShiftedIn(later: seq<nat>, shifted: seq<nat>, k: nat)
    requires |shifted| == |later| && forall i :: 0 <= i < |later| ==> shifted[i] == later[i] + 1
    ensures k in shifted <==> k > 0 && k - 1 in later
  {
    if k > 0 && k - 1 in later {
      var i :| 0 <= i < |later| && later[i] == k - 1;
      assert shifted[i] == k;
    }
  }

  /** The positions of the rest, seen from the whole. */
  ghost predicate FilteredRest<T(!new), U(!new)>(xs: seq<T>, keep: T -> bool, f: T -> U, out: seq<U>, ks: seq<nat>) {
    && |ks| == |out| && (forall i, j :: 0 <= i < j < |ks| ==> ks[i] < ks[j])
    && (forall i :: 0 <= i < |ks| ==> 0 < ks[i] < |xs| && out[i] == f(xs[ks[i]]))
    && (forall k :: 0 <= k < |xs| ==> (k in ks <==> k > 0 && keep(xs[k])))
  }

  lemma {:induction false} FilteredShift<T(!new), U(!new)>(xs: seq<T>, keep: T -> bool, f: T -> U, out: seq<U>, later: seq<nat>,
                                                           shifted: seq<nat>)
    requires xs != [] && Filtered(xs[1..], keep, f, out, later)
    requires |shifted| == |later| && forall i :: 0 <= i < |later| ==> shifted[i] == later[i] + 1
    ensures FilteredRest(xs, keep, f, out, shifted)
  {
    forall i | 0 <= i < |shifted| ensures 0 < shifted[i] < |xs| && out[i] == f(xs[shifted[i]]) {
      assert xs[1..][later[i]] == xs[shifted[i]];
    }
    forall k | 0 <= k < |xs| ensures k in shifted <==> k > 0 && keep(xs[k]) {
      ShiftedIn(later, shifted, k);
      assert k > 0 ==> xs[k] == xs[1..][k - 1];
    }
  }

  lemma {:induction false} FilteredTake<T(!new), U(!new)>(xs: seq<T>, keep: T -> bool, f: T -> U, out: seq<U>, shifted: seq<nat>)
    requires xs != [] && FilteredRest(xs, keep, f, out, shifted) && keep(xs[0])
    ensures Filtered(xs, keep, f, [f(xs[0])] + out, [0] + shifted)
  {
    var ks := [0] + shifted;
    forall k | 0 <= k < |xs| ensures k in ks <==> keep(xs[k]) {
      assert k in ks <==> k == 0 || k in shifted;
    }
    forall i, j | 0 <= i < j < |ks| ensures ks[i] < ks[j] {
      assert ks[j] == shifted[j - 1];
      assert i > 0 ==> ks[i] == shifted[i - 1];
    }
  }

  /** One more element in front. */
  lemma {:induction false} FilteredCons<T(!new), U(!new)>(xs: seq<T>, keep: T -> bool, f: T -> U, out: seq<U>, later: seq<nat>)
    returns (ks: seq<nat>)
    requires xs != [] && Filtered(xs[1..], keep, f, out, later)
    ensures Filtered(xs, keep, f, if keep(xs[0]) then [f(xs[0])] + out else out, ks)
  {
    var shifted := seq(|later|, i requires 0 <= i < |later| => later[i] + 1);
    FilteredShift(xs, keep, f, out, later, shifted);
    if keep(xs[0]) {
      FilteredTake(xs, keep, f, out, shifted);
      ks := [0] + shifted;
    } else {
      ks := shifted;
    }
  }

  lemma {:induction false} SubsetSize<T>(a: set<T>, b: set<T>)
    requires a <= b
    ensures |a| <= |b| && (|b| <= |a| ==> a == b)
  {
    if a == {} {
      assert |b| <= 0 ==> b == {};
    } else {
      var x :| x in a;
      SubsetSize(a - {x}, b - {x});
    }
  }
}

/** Option and Result, and the two sequence queries the controllers are built from:
    `FirstOrDefault` (first match in table order) and `Where` (order-preserving filter). */
module Base {

  datatype Option<T> = None | Some(value: T) {
    /** `x ?? default` */
    function GetOr(default: T): T {
      if Some? then value else default
    }
  }

  datatype Result<T, E> = Success(value: T) | Failure(error: E)

  /** `a` is obtained from `b` by deleting elements, without reordering. */
  ghost predicate IsSubsequence<T>(a: seq<T>, b: seq<T>)
    decreases |b|
  {
    if a == [] then true
    else if b == [] then false
    else if a[0] == b[0] then IsSubsequence(a[1..], b[1..])
    else IsSubsequence(a, b[1..])
  }

  /** Index of the first element satisfying `p`, the element `FirstOrDefault(p)` picks. */
  function FirstIndex<T>(s: seq<T>, p: T -> bool): (r: Option<nat>)
    ensures r.Some? ==> r.value < |s| && p(s[r.value])
    ensures r.Some? ==> forall j :: 0 <= j < r.value ==> !p(s[j])
    ensures r.None? <==> forall j :: 0 <= j < |s| ==> !p(s[j])
  {
    if |s| == 0 then None
    else if p(s[0]) then Some(0)
    else match FirstIndex(s[1..], p)
      case None => None
      case Some(k) => Some(k + 1)
  }

  /** Two sequences on which `p` holds at the same positions have the same first match. */
  lemma {:induction false} FirstIndexAgree<T>(s: seq<T>, t: seq<T>, p: T -> bool, q: T -> bool)
    requires |s| == |t|
    requires forall i :: 0 <= i < |s| ==> p(s[i]) == q(t[i])
    ensures FirstIndex(s, p) == FirstIndex(t, q)
  {
    if |s| > 0 && !p(s[0]) {
      FirstIndexAgree(s[1..], t[1..], p, q);
    }
  }

  /** A position that matches, with no match before it, is the first match. */
  lemma {:induction false} FirstIndexIs<T>(s: seq<T>, p: T -> bool, k: nat)
    requires k < |s| && p(s[k])
    requires forall j :: 0 <= j < k ==> !p(s[j])
    ensures FirstIndex(s, p) == Some(k)
  {
    if k > 0 {
      FirstIndexIs(s[1..], p, k - 1);
    }
  }

  /** The first match in `s + [x]` is the first match in `s`, else `x` when it matches. */
  lemma FirstIndexAppend<T>(s: seq<T>, x: T, p: T -> bool)
    ensures FirstIndex(s + [x], p) ==
      (if FirstIndex(s, p).Some? then FirstIndex(s, p) else if p(x) then Some(|s|) else None)
  {
    var all := s + [x];
    match FirstIndex(s, p)
    case Some(k) =>
      assert forall j :: 0 <= j <= k ==> all[j] == s[j];
      FirstIndexIs(all, p, k);
    case None =>
      assert forall j :: 0 <= j < |s| ==> all[j] == s[j];
      if p(x) {
        FirstIndexIs(all, p, |s|);
      } else {
        assert forall j :: 0 <= j < |all| ==> !p(all[j]);
      }
  }

  /** `FirstOrDefault(p)`: the first element satisfying `p`, or None. */
  function FirstWhere<T>(s: seq<T>, p: T -> bool): (r: Option<T>)
    ensures r.Some? <==> exists i :: 0 <= i < |s| && p(s[i])
    ensures r.Some? ==> r.value in s && p(r.value)
  {
    match FirstIndex(s, p)
    case None => None
    case Some(k) => Some(s[k])
  }

  /** `Where(p)`: exactly the elements satisfying `p`, in their original order. */
  function Filter<T>(s: seq<T>, p: T -> bool): (r: seq<T>)
    ensures |r| <= |s|
    ensures forall i :: 0 <= i < |r| ==> p(r[i]) && r[i] in s
    ensures forall i :: 0 <= i < |s| && p(s[i]) ==> s[i] in r
    ensures IsSubsequence(r, s)
  {
    if |s| == 0 then []
    else if p(s[0]) then [s[0]] + Filter(s[1..], p)
    else
      var r := Filter(s[1..], p);
      assert r != [] ==> p(r[0]);
      r
  }

  /** A filter every element passes is the identity. */
  lemma {:induction false} FilterKeepsAll<T>(s: seq<T>, p: T -> bool)
    requires forall i :: 0 <= i < |s| ==> p(s[i])
    ensures Filter(s, p) == s
  {
    if |s| > 0 {
      FilterKeepsAll(s[1..], p);
    }
  }

  /** Deleting position `i > 0` keeps the head in front of the tail's deletion at `i - 1`. */
  lemma DropAtCons<T>(s: seq<T>, i: nat)
    requires 0 < i < |s|
    ensures s[..i] + s[i + 1..] == [s[0]] + (s[1..][..i - 1] + s[1..][i..])
  {
    assert s[..i] == [s[0]] + s[1..][..i - 1];
    assert s[i + 1..] == s[1..][i..];
  }

  /** Filtering out the one element that fails `p` is deleting its position. */
  lemma {:induction false} FilterDropsOne<T>(s: seq<T>, p: T -> bool, i: nat)
    requires i < |s| && !p(s[i])
    requires forall j :: 0 <= j < |s| && j != i ==> p(s[j])
    ensures Filter(s, p) == s[..i] + s[i + 1..]
  {
    var t := s[1..];
    if i == 0 {
      FilterKeepsAll(t, p);
      assert s[..0] + t == t;
    } else {
      assert forall j :: 0 <= j < |t| && j != i - 1 ==> p(t[j]) by {
        forall j | 0 <= j < |t| && j != i - 1 ensures p(t[j]) {
          assert t[j] == s[j + 1];
        }
      }
      FilterDropsOne(t, p, i - 1);
      assert Filter(s, p) == [s[0]] + Filter(t, p);
      DropAtCons(s, i);
    }
  }
}

/** The few JavaScript operations the resolver relies on, over `seq<char>`
    and sequences of strings: string and array `indexOf`, `startsWith`,
    truthiness and the `||` operator. */
module JsString {
  import opened Wrappers

  /** `p` occurs in `s` at position `i`. */
  predicate OccursAt(s: string, p: string, i: int) {
    0 <= i && i + |p| <= |s| && s[i..i + |p|] == p
  }

  /** `p` occurs somewhere in `s`. */
  predicate Contains(s: string, p: string) {
    exists i :: 0 <= i <= |s| && OccursAt(s, p, i)
  }

  /** All positions at which `p` occurs in `s`. */
  function Occurrences(s: string, p: string): set<int> {
    set i | 0 <= i <= |s| && OccursAt(s, p, i)
  }

  /** Inside an occurrence of `p` at `i`, `s` spells `p`. (No precondition,
      so that a call adds facts without adding checks.) */
  lemma CharInOccurrence(s: string, p: string, i: int, j: int)
    ensures OccursAt(s, p, i) && i <= j < i + |p| ==> s[j] == p[j - i]
  {
  }

  /** An occurrence in `a + b` that lies wholly inside `a`, or wholly inside
      `b`, is an occurrence there. */
  lemma OccursInParts(a: string, b: string, p: string, i: int)
    ensures OccursAt(a + b, p, i) && i + |p| <= |a| ==> OccursAt(a, p, i)
    ensures OccursAt(a + b, p, i) && i >= |a| ==> OccursAt(b, p, i - |a|)
  {
  }

  /** An occurrence in either part is an occurrence in the concatenation. */
  lemma ContainsInParts(a: string, b: string, p: string)
    ensures Contains(a, p) || Contains(b, p) ==> Contains(a + b, p)
  {
    if Contains(a, p) {
      var i :| 0 <= i <= |a| && OccursAt(a, p, i);
      assert (a + b)[i..i + |p|] == a[i..i + |p|];
      assert OccursAt(a + b, p, i);
    } else if Contains(b, p) {
      var i :| 0 <= i <= |b| && OccursAt(b, p, i);
      assert (a + b)[|a| + i..|a| + i + |p|] == b[i..i + |p|];
      assert OccursAt(a + b, p, |a| + i);
    }
  }

  /** A string none of whose characters is `ch` does not contain it. */
  lemma CharAbsent(s: string, ch: char)
    requires forall k | 0 <= k < |s| :: s[k] != ch
    ensures !Contains(s, [ch])
  {
    forall i | 0 <= i <= |s| && OccursAt(s, [ch], i) ensures false {
      CharInOccurrence(s, [ch], i, i);
    }
  }

  /** A single character absent from both halves is absent from the whole. */
  lemma CharAbsentConcat(a: string, b: string, ch: char)
    requires !Contains(a, [ch]) && !Contains(b, [ch])
    ensures !Contains(a + b, [ch])
  {
    forall i | 0 <= i <= |a + b| && OccursAt(a + b, [ch], i) ensures false {
      OccursInParts(a, b, [ch], i);
    }
  }

  /** `s.indexOf(p, from)`: the first position at or after `from` where `p`
      occurs, or -1. */
  function IndexOfFrom(s: string, p: string, from: nat): (r: int)
    requires from <= |s|
    decreases |s| - from
    ensures r == -1 || (from <= r && OccursAt(s, p, r))
    ensures r == -1 ==> forall j :: from <= j ==> !OccursAt(s, p, j)
    ensures r != -1 ==> forall j :: from <= j < r ==> !OccursAt(s, p, j)
  {
    if from + |p| > |s| then -1
    else if s[from..from + |p|] == p then from
    else IndexOfFrom(s, p, from + 1)
  }

  /** `s.indexOf(p)`. */
  function IndexOf(s: string, p: string): (r: int)
    ensures r == -1 <==> !Contains(s, p)
    ensures r != -1 ==> OccursAt(s, p, r) && forall j :: 0 <= j < r ==> !OccursAt(s, p, j)
  {
    IndexOfFrom(s, p, 0)
  }

  /** `a.indexOf(x)` on an array: the first position holding `x`, or -1. */
  function ArrayIndexOf(a: seq<string>, x: string): (r: int)
    ensures r == -1 <==> x !in a
    ensures r != -1 ==> 0 <= r < |a| && a[r] == x && x !in a[..r]
  {
    if a == [] then -1
    else if a[0] == x then 0
    else
      var r := ArrayIndexOf(a[1..], x);
      assert a[1..][..if r == -1 then 0 else r] == a[1..1 + if r == -1 then 0 else r];
      if r == -1 then -1 else r + 1
  }

  /** `s.startsWith(p)`. */
  predicate StartsWith(s: string, p: string) {
    p <= s
  }

  /** JavaScript truthiness of an optional string: present and non-empty. */
  predicate Truthy(s: Option<string>) {
    s.Some? && s.value != ""
  }

  /** `a || b`: `a` when it is truthy, `b` otherwise. */
  function Or(a: Option<string>, b: Option<string>): (r: Option<string>)
    ensures Truthy(a) ==> r == a
    ensures !Truthy(a) ==> r == b
    ensures r == a || r == b
    ensures Truthy(r) <==> Truthy(a) || Truthy(b)
  {
    if Truthy(a) then a else b
  }
}

/** Order-preserving duplicate removal and first-index lookup: the behaviour of a Python
    list used as an "append if absent" set together with `list.index`. */
module Sequences {

  predicate NoDuplicates<T(==)>(s: seq<T>)
  {
    forall i, j :: 0 <= i < j < |s| ==> s[i] != s[j]
  }

  /** The distinct elements of `s`, each at the position of its first occurrence. */
  function Distinct<T(==)>(s: seq<T>): (r: seq<T>)
    ensures |r| <= |s|
  {
    if |s| == 0 then []
    else
      var d := Distinct(s[..|s| - 1]);
      if s[|s| - 1] in d then d else d + [s[|s| - 1]]
  }

  /** Python's `list.index`: the position of the first occurrence of `x`. */
  function IndexOf<T(==)>(s: seq<T>, x: T): (r: nat)
    requires x in s
    ensures r < |s| && s[r] == x
    ensures forall k :: 0 <= k < r ==> s[k] != x
  {
    if s[0] == x then 0 else 1 + IndexOf(s[1..], x)
  }

  /** The distinct list holds exactly the elements of `s`. */
  lemma {:induction false} DistinctMembers<T>(s: seq<T>)
    ensures forall x :: x in Distinct(s) <==> x in s
  {
    if |s| > 0 {
      var u := s[..|s| - 1];
      DistinctMembers(u);
      assert s == u + [s[|s| - 1]];
    }
  }

  /** The distinct list holds no element twice. */
  lemma {:induction false} DistinctNoDuplicates<T>(s: seq<T>)
    ensures NoDuplicates(Distinct(s))
  {
    if |s| > 0 {
      var u := s[..|s| - 1];
      DistinctNoDuplicates(u);
      DistinctMembers(u);
    }
  }

  /** One more element either leaves the distinct list alone or appends that element. */
  lemma DistinctSnoc<T>(s: seq<T>, x: T)
    ensures Distinct(s + [x]) == if x in Distinct(s) then Distinct(s) else Distinct(s) + [x]
  {
    assert (s + [x])[..|s|] == s;
  }

  /** The distinct elements of a prefix are a prefix of the distinct elements of the whole. */
  lemma {:induction false} DistinctPrefix<T>(s: seq<T>, t: seq<T>)
    ensures Distinct(s) <= Distinct(s + t)
    decreases |t|
  {
    if |t| > 0 {
      var u := t[..|t| - 1];
      DistinctPrefix(s, u);
      assert s + t == (s + u) + [t[|t| - 1]];
      DistinctSnoc(s + u, t[|t| - 1]);
    } else {
      assert s + t == s;
    }
  }

  /** A prefix one longer is the prefix followed by the next element. */
  lemma TakeStep<T>(t: seq<T>, k: nat)
    requires k < |t|
    ensures t[..k + 1] == t[..k] + [t[k]]
  {
  }

  /** Extending a prefix of `t` by one element of `t`. */
  lemma PrefixStep<T>(s: seq<T>, t: seq<T>, k: nat)
    requires k < |t|
    ensures s + t[..k + 1] == (s + t[..k]) + [t[k]]
  {
    TakeStep(t, k);
  }

  /** In a list without duplicates, an element's position is the only one holding it. */
  lemma IndexOfUnique<T>(s: seq<T>, k: nat)
    requires NoDuplicates(s) && k < |s|
    ensures IndexOf(s, s[k]) == k
  {
  }

  /** Growing a list at the end does not move the first occurrence of an element already in it. */
  lemma IndexOfExtend<T>(s: seq<T>, t: seq<T>, x: T)
    requires x in s && s <= t
    ensures x in t && IndexOf(t, x) == IndexOf(s, x)
  {
    var i := IndexOf(s, x);
    assert t[i] == x;
  }
}

/** Optional values and error results shared by every module of the model. */
module Wrappers {
  datatype Option<T> = None | Some(value: T)
  {
    predicate IsSome() { this.Some? }
  }

  /** An operation either succeeds with a value or fails with an error of type E
      (a thrown exception in the backend). */
  datatype Result<T, E> = Ok(value: T) | Err(error: E)
  {
    predicate IsOk() { this.Ok? }
  }

  /** The value of an option as a sequence of zero or one element. */
  function AsSeq<T>(o: Option<T>): (r: seq<T>)
    ensures |r| <= 1
    ensures o.Some? ==> r == [o.value]
    ensures o.None? ==> r == []
  {
    match o
    case Some(x) => [x]
    case None => []
  }

  /** The values of the present options, in order (a `map` followed by a
      `filter`). */
  function Somes<T>(os: seq<Option<T>>): seq<T> {
    if os == [] then [] else Somes(os[..|os| - 1]) + AsSeq(os[|os| - 1])
  }

  lemma {:induction false} SomesSnoc<T>(os: seq<Option<T>>, o: Option<T>)
    ensures Somes(os + [o]) == Somes(os) + AsSeq(o)
  {
    assert (os + [o])[..|os|] == os;
  }

  /** At most one value per option. */
  lemma {:induction false} SomesCount<T>(os: seq<Option<T>>)
    ensures |Somes(os)| <= |os|
  {
    if os != [] {
      SomesCount(os[..|os| - 1]);
    }
  }

  /** A value is kept exactly when some option holds it. */
  lemma {:induction false} SomesMember<T>(os: seq<Option<T>>, x: T)
    ensures x in Somes(os) <==> exists k :: 0 <= k < |os| && os[k] == Some(x)
  {
    if os != [] {
      var init := os[..|os| - 1];
      SomesMember(init, x);
      if exists k :: 0 <= k < |init| && init[k] == Some(x) {
        var k :| 0 <= k < |init| && init[k] == Some(x);
        assert os[k] == Some(x);
      }
      if exists k :: 0 <= k < |os| && os[k] == Some(x) {
        var k :| 0 <= k < |os| && os[k] == Some(x);
        if k < |init| {
          assert init[k] == Some(x);
        }
      }
    }
  }

  /** A present option's value is kept. */
  lemma {:induction false} SomesAt<T>(os: seq<Option<T>>, k: nat, x: T)
    requires k < |os| && os[k] == Some(x)
    ensures x in Somes(os)
  {
    SomesMember(os, x);
  }

  /** With every option present, the values are the options' values. */
  lemma {:induction false} SomesAll<T>(os: seq<Option<T>>)
    requires forall k :: 0 <= k < |os| ==> os[k].Some?
    ensures |Somes(os)| == |os|
    ensures forall k :: 0 <= k < |os| ==> Somes(os)[k] == os[k].value
  {
    if os != [] {
      var init := os[..|os| - 1];
      SomesAll(init);
      assert forall k :: 0 <= k < |init| ==> init[k] == os[k];
    }
  }

  /** No present option, no value. */
  lemma {:induction false} SomesNone<T>(os: seq<Option<T>>)
    requires forall k :: 0 <= k < |os| ==> os[k].None?
    ensures Somes(os) == []
  {
    if os != [] {
      SomesNone(os[..|os| - 1]);
    }
  }

  /** No value is kept exactly when no option is present. */
  lemma {:induction false} SomesEmpty<T>(os: seq<Option<T>>)
    ensures Somes(os) == [] <==> forall k :: 0 <= k < |os| ==> os[k].None?
  {
    if forall k :: 0 <= k < |os| ==> os[k].None? {
      SomesNone(os);
    } else {
      var k :| 0 <= k < |os| && os[k].Some?;
      SomesMember(os, os[k].value);
    }
  }

  /** A prefix one element longer. */
  lemma {:induction false} PrefixSnoc<T>(s: seq<T>, k: nat)
    requires k < |s|
    ensures s[..k + 1] == s[..k] + [s[k]]
  {
  }

  lemma {:induction false} PrefixAll<T>(s: seq<T>)
    ensures s[..|s|] == s
  {
  }

  /** `s.findIndex(p)`: the first index whose element satisfies `p`, or -1. */
  function FindIndex<T>(s: seq<T>, p: T -> bool): (r: int)
    ensures -1 <= r < |s|
    ensures r >= 0 ==> p(s[r]) && forall k :: 0 <= k < r ==> !p(s[k])
    ensures r == -1 ==> forall k :: 0 <= k < |s| ==> !p(s[k])
  {
    if s == [] then -1
    else if p(s[0]) then 0
    else
      var r := FindIndex(s[1..], p);
      assert forall k :: 1 <= k < |s| ==> s[k] == s[1..][k - 1];
      if r == -1 then -1 else r + 1
  }

  /** `s.map(f)`. */
  function MapSeq<A, B>(s: seq<A>, f: A -> B): (r: seq<B>)
    ensures |r| == |s|
    ensures forall i :: 0 <= i < |s| ==> r[i] == f(s[i])
  {
    seq(|s|, i requires 0 <= i < |s| => f(s[i]))
  }

  lemma {:induction false} MapSeqStep<A, B>(s: seq<A>, f: A -> B, n: nat)
    requires n < |s|
    ensures MapSeq(s[..n + 1], f) == MapSeq(s[..n], f) + [f(s[n])]
  {
    var l, r := MapSeq(s[..n + 1], f), MapSeq(s[..n], f) + [f(s[n])];
    assert |l| == |r|;
    forall k | 0 <= k < |l| ensures l[k] == r[k] {
      if k < n {
        assert s[..n + 1][k] == s[..n][k];
      }
    }
  }

  lemma SeqAssoc<T>(x: seq<T>, y: seq<T>, z: seq<T>)
    ensures x + (y + z) == (x + y) + z
  {
  }

  lemma {:induction false} InitLast<T>(s: seq<T>)
    requires s != []
    ensures s == s[..|s| - 1] + [s[|s| - 1]]
  {
  }

  /** The last element of `a + b` and what precedes it, for a non-empty `b`. */
  lemma {:induction false} AppendInitLast<T>(a: seq<T>, b: seq<T>)
    requires b != []
    ensures (a + b)[..|a + b| - 1] == a + b[..|b| - 1] && (a + b)[|a + b| - 1] == b[|b| - 1]
  {
    assert (a + b)[..|a + b| - 1] == a + b[..|b| - 1];
  }

  /** One more element of `s` adds what `f` gives for it. */
  lemma {:induction false} SomesMapStep<A, B>(s: seq<A>, f: A -> Option<B>, n: nat)
    requires n < |s|
    ensures Somes(MapSeq(s[..n + 1], f)) == Somes(MapSeq(s[..n], f)) + AsSeq(f(s[n]))
  {
    MapSeqStep(s, f, n);
    SomesSnoc(MapSeq(s[..n], f), f(s[n]));
  }

  lemma {:induction false} PrefixTrans<T>(a: seq<T>, b: seq<T>, c: seq<T>)
    requires |a| <= |b| <= |c| && c[..|b|] == b && b[..|a|] == a
    ensures c[..|a|] == a
  {
    assert c[..|a|] == c[..|b|][..|a|];
  }

  lemma {:induction false} PrefixIndex<T>(a: seq<T>, b: seq<T>, k: nat)
    requires k < |a|
    ensures (a + b)[k] == a[k]
  {
  }

  lemma {:induction false} LastIndex<T>(a: seq<T>, x: T)
    ensures (a + [x])[|a|] == x
  {
  }

  /** The elements satisfying `p`, in order (`Array.prototype.filter`). */
  function Filter<T>(s: seq<T>, p: T -> bool): (r: seq<T>)
    ensures |r| <= |s|
  {
    if s == [] then [] else Filter(s[..|s| - 1], p) + (if p(s[|s| - 1]) then [s[|s| - 1]] else [])
  }

  /** An element is kept exactly when it is present and satisfies `p`. */
  lemma {:induction false} FilterMember<T>(s: seq<T>, p: T -> bool, x: T)
    ensures x in Filter(s, p) <==> x in s && p(x)
  {
    if s != [] {
      var init := s[..|s| - 1];
      FilterMember(init, p, x);
      assert s == init + [s[|s| - 1]];
    }
  }

  /** All the values when every option is present, nothing otherwise (a
      `map` whose first failure throws). */
  function AllSome<T>(os: seq<Option<T>>): (r: Option<seq<T>>)
    ensures r.Some? <==> forall i :: 0 <= i < |os| ==> os[i].Some?
    ensures r.Some? ==> |r.value| == |os| && forall i :: 0 <= i < |os| ==> os[i] == Some(r.value[i])
  {
    if os == [] then Some([])
    else
      var init := os[..|os| - 1];
      assert forall i :: 0 <= i < |init| ==> os[i] == init[i];
      var r := AllSome(init);
      if r.Some? && os[|os| - 1].Some? then Some(r.value + [os[|os| - 1].value]) else None
  }
}

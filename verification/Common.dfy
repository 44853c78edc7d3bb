/** Small notions shared by every component of the model. */
module Common {

  datatype Option<+T> = None | Some(value: T)

  datatype Result<+T, +E> = Ok(value: T) | Err(error: E)

  /** No element occurs twice. */
  ghost predicate Distinct<T(!new)>(s: seq<T>) {
    forall i, j :: 0 <= i < j < |s| ==> s[i] != s[j]
  }

  lemma {:induction false} DistinctConcat<T(!new)>(a: seq<T>, b: seq<T>)
    requires Distinct(a) && Distinct(b) && forall x :: x in a ==> x !in b
    ensures Distinct(a + b)
  {
    forall i, j | 0 <= i < j < |a + b| ensures (a + b)[i] != (a + b)[j] {
      if i < |a| <= j {
        assert (a + b)[i] in a && (a + b)[j] in b;
      }
    }
  }

  lemma {:induction false} DistinctTail<T(!new)>(x: T, rest: seq<T>)
    requires Distinct([x] + rest)
    ensures Distinct(rest) && x !in rest
  {
    forall i | 0 <= i < |rest| ensures rest[i] != x {
      assert ([x] + rest)[0] != ([x] + rest)[i + 1];
    }
    forall i, j | 0 <= i < j < |rest| ensures rest[i] != rest[j] {
      assert ([x] + rest)[i + 1] != ([x] + rest)[j + 1];
    }
  }

  lemma {:induction false} DistinctInit<T(!new)>(rest: seq<T>, x: T)
    requires Distinct(rest + [x])
    ensures Distinct(rest) && x !in rest
  {
    forall i | 0 <= i < |rest| ensures rest[i] != x {
      assert (rest + [x])[i] != (rest + [x])[|rest|];
    }
    forall i, j | 0 <= i < j < |rest| ensures rest[i] != rest[j] {
      assert (rest + [x])[i] != (rest + [x])[j];
    }
  }

  /** An element of a duplicate-free sequence is counted once, and any other element not at all. */
  lemma {:induction false} DistinctCount<T(!new)>(s: seq<T>, x: T)
    requires Distinct(s)
    ensures multiset(s)[x] == if x in s then 1 else 0
  {
    if s != [] {
      DistinctCount(s[1..], x);
      assert s == [s[0]] + s[1..];
    }
  }

  /** How many of the elements from i to j are of the given kind. */
  function Count<T>(s: seq<T>, i: nat, j: nat, kind: T -> bool): nat
    requires i <= j <= |s|
  {
    if i == j then 0 else Count(s, i, j - 1, kind) + if kind(s[j - 1]) then 1 else 0
  }
}

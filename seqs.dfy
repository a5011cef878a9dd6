/** Small facts about sequences shared by the registries and the text helpers. */
module Seqs {

  /** No element occurs twice. */
  predicate NoDuplicates<T(==)>(s: seq<T>) {
    forall i, j :: 0 <= i < j < |s| ==> s[i] != s[j]
  }

  /** Every element except those equal to `x`, in their original order. */
  function Remove<T(==)>(s: seq<T>, x: T): (r: seq<T>)
    ensures multiset(r) == multiset(s)[x := 0]
    ensures x !in s ==> r == s
  {
    if s == [] then []
    else
      assert s == [s[0]] + s[1..];
      if s[0] == x then Remove(s[1..], x) else [s[0]] + Remove(s[1..], x)
  }

  /** Removing an element keeps a duplicate-free sequence duplicate-free. */
  lemma {:induction false} RemoveKeepsNoDuplicates<T>(s: seq<T>, x: T)
    requires NoDuplicates(s)
    ensures NoDuplicates(Remove(s, x))
  {
    if s != [] {
      assert NoDuplicates(s[1..]) by {
        forall i, j | 0 <= i < j < |s[1..]| ensures s[1..][i] != s[1..][j] {
          assert s[1..][i] == s[i + 1] && s[1..][j] == s[j + 1];
        }
      }
      RemoveKeepsNoDuplicates(s[1..], x);
      if s[0] != x {
        var r := Remove(s[1..], x);
        HeadNotInTail(s);
        assert s[0] !in r by {
          assert multiset(r)[s[0]] <= multiset(s[1..])[s[0]] == 0;
        }
        forall i, j | 0 <= i < j < |[s[0]] + r| ensures ([s[0]] + r)[i] != ([s[0]] + r)[j] {
          if i == 0 { assert ([s[0]] + r)[j] == r[j - 1]; }
        }
      }
    }
  }

  /** Appending an absent element keeps a duplicate-free sequence duplicate-free. */
  lemma AppendAbsentKeepsNoDuplicates<T>(s: seq<T>, x: T)
    requires NoDuplicates(s) && x !in s
    ensures NoDuplicates(s + [x])
  {
    forall i, j | 0 <= i < j < |s + [x]| ensures (s + [x])[i] != (s + [x])[j] {
      if j == |s| { assert (s + [x])[i] == s[i]; }
    }
  }

  /** In a duplicate-free sequence an element occurs at most once. */
  lemma {:induction false} NoDuplicatesCount<T>(s: seq<T>, x: T)
    requires NoDuplicates(s)
    ensures multiset(s)[x] == if x in s then 1 else 0
  {
    if s != [] {
      assert s == [s[0]] + s[1..];
      assert NoDuplicates(s[1..]) by {
        forall i, j | 0 <= i < j < |s[1..]| ensures s[1..][i] != s[1..][j] {
          assert s[1..][i] == s[i + 1] && s[1..][j] == s[j + 1];
        }
      }
      NoDuplicatesCount(s[1..], x);
      HeadNotInTail(s);
    }
  }

  lemma HeadNotInTail<T>(s: seq<T>)
    requires NoDuplicates(s) && s != []
    ensures s[0] !in s[1..]
  {
    forall j | 0 <= j < |s[1..]| ensures s[1..][j] != s[0] {
      assert s[1..][j] == s[j + 1];
    }
  }

  /** Appending three sequences at once is appending them one after the other. */
  lemma AppendAssoc3<T>(s: seq<T>, a: seq<T>, b: seq<T>, c: seq<T>)
    ensures s + (a + b + c) == s + a + b + c
  {
  }
}

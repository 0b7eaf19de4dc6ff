/** The parts of `DBusList` the bus relies on, as functions on sequences. */
module Lists {

  ghost predicate NoRepeats<T>(s: seq<T>) {
    forall i, j :: 0 <= i < j < |s| ==> s[i] != s[j]
  }

  /** `_dbus_list_remove`: drop the first link holding x, if any. */
  function RemoveFirst<T(==)>(s: seq<T>, x: T): (r: seq<T>) {
    if s == [] then []
    else if s[0] == x then s[1..]
    else [s[0]] + RemoveFirst(s[1..], x)
  }

  lemma {:induction false} RemoveFirstCounts<T>(s: seq<T>, x: T)
    ensures multiset(RemoveFirst(s, x)) == multiset(s) - multiset{x}
    ensures x !in s ==> RemoveFirst(s, x) == s
  {
    if s != [] {
      assert s == [s[0]] + s[1..];
      if s[0] != x {
        RemoveFirstCounts(s[1..], x);
      }
    }
  }

  lemma NoRepeatsCounts<T>(s: seq<T>)
    ensures NoRepeats(s) <==> forall x :: x in s ==> multiset(s)[x] == 1
  {
    if s != [] {
      var rest := s[1..];
      assert s == [s[0]] + rest;
      NoRepeatsCounts(rest);
      if NoRepeats(s) {
        assert forall i :: 0 <= i < |rest| ==> rest[i] == s[i + 1];
        assert s[0] !in rest;
        assert multiset(rest)[s[0]] == 0;
        forall x | x in s ensures multiset(s)[x] == 1 {
          if x != s[0] { assert x in rest; }
        }
      }
      if forall x :: x in s ==> multiset(s)[x] == 1 {
        assert s[0] in s;
        assert s[0] !in multiset(rest);
        forall x | x in rest ensures multiset(rest)[x] == 1 {
          assert x in s;
          assert x in multiset(rest);
        }
        forall i, j | 0 <= i < j < |s| ensures s[i] != s[j] {
          assert s[j] == rest[j - 1];
          if i > 0 { assert s[i] == rest[i - 1]; }
        }
      }
    }
  }

  /** Lists holding the same links, in whatever order, repeat alike. */
  lemma SameLinks<T>(s: seq<T>, t: seq<T>)
    requires multiset(s) == multiset(t)
    ensures forall x :: x in s <==> x in t
    ensures NoRepeats(s) <==> NoRepeats(t)
  {
    NoRepeatsCounts(s);
    NoRepeatsCounts(t);
    forall x ensures x in s <==> x in t {
      assert x in s <==> x in multiset(s);
      assert x in t <==> x in multiset(t);
    }
  }

  lemma RemoveFirstNoRepeats<T>(s: seq<T>, x: T)
    requires NoRepeats(s)
    ensures NoRepeats(RemoveFirst(s, x))
    ensures forall y :: y in RemoveFirst(s, x) <==> y in s && y != x
  {
    var r := RemoveFirst(s, x);
    RemoveFirstCounts(s, x);
    NoRepeatsCounts(s);
    NoRepeatsCounts(r);
    forall y ensures y in r <==> y in s && y != x {
      assert y in r <==> y in multiset(r);
      assert y in s <==> y in multiset(s);
    }
    forall y | y in r ensures multiset(r)[y] == 1 {
      assert y in s;
    }
  }

  /** The links of s that pass a test, in order. */
  function Filter<T(!new)>(s: seq<T>, keep: T -> bool): (r: seq<T>)
    ensures forall x :: x in r <==> x in s && keep(x)
  {
    if s == [] then []
    else
      var rest := Filter(s[1..], keep);
      if keep(s[0]) then [s[0]] + rest else rest
  }

  lemma FilterAppend<T(!new)>(s: seq<T>, t: seq<T>, keep: T -> bool)
    ensures Filter(s + t, keep) == Filter(s, keep) + Filter(t, keep)
  {
    if s == [] {
      assert s + t == t;
    } else {
      assert (s + t)[1..] == s[1..] + t;
      FilterAppend(s[1..], t, keep);
    }
  }

  lemma FilterNoRepeats<T(!new)>(s: seq<T>, keep: T -> bool)
    requires NoRepeats(s)
    ensures NoRepeats(Filter(s, keep))
  {
    if s != [] {
      FilterNoRepeats(s[1..], keep);
      assert forall i :: 0 <= i < |s| - 1 ==> s[1..][i] == s[i + 1];
      assert s[0] !in Filter(s[1..], keep);
    }
  }

  /** `_dbus_list_remove_link` and `_dbus_list_unlink`: drop the link at i. */
  function Unlink<T>(s: seq<T>, i: nat): seq<T>
    requires i < |s|
  {
    s[..i] + s[i + 1..]
  }

  lemma UnlinkLinks<T>(s: seq<T>, i: nat)
    requires i < |s|
    ensures multiset(Unlink(s, i)) == multiset(s) - multiset{s[i]}
  {
    assert s == s[..i] + [s[i]] + s[i + 1..];
  }

  lemma {:induction false} FilterUnlinked<T(!new)>(s: seq<T>, i: nat, keep: T -> bool)
    requires i < |s| && !keep(s[i])
    ensures Filter(Unlink(s, i), keep) == Filter(s, keep)
  {
    if i == 0 {
      assert Unlink(s, i) == s[1..];
    } else {
      FilterUnlinked(s[1..], i - 1, keep);
      assert Unlink(s, i)[1..] == Unlink(s[1..], i - 1);
    }
  }

  lemma Regroup<T>(a: seq<T>, b: seq<T>, c: seq<T>)
    ensures a + b + c == a + (b + c)
  {
  }
}

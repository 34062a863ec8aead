/** The character registry (CharacterManager.Characters) as a list to which a
    character is appended only when it is not already present. */
module Registry {

  /** The list after registering c: c is appended only if it is absent. */
  function Registered<T(==)>(list: seq<T>, c: T): (r: seq<T>)
    ensures c in r
    ensures c in list ==> r == list
    ensures |list| <= |r| <= |list| + 1 && r[..|list|] == list
    ensures forall x :: x in r ==> x in list || x == c
  {
    if c in list then list else list + [c]
  }

  /** The list after registering each of cs in turn. */
  function RegisteredAll<T(==)>(list: seq<T>, cs: seq<T>): seq<T>
    decreases |cs|
  {
    if cs == [] then list else RegisteredAll(Registered(list, cs[0]), cs[1..])
  }

  /** Number of times x occurs in s. */
  function Occurrences<T(==)>(s: seq<T>, x: T): nat
  {
    if s == [] then 0 else (if s[0] == x then 1 else 0) + Occurrences(s[1..], x)
  }

  /** No entry occurs twice. */
  ghost predicate Distinct<T>(s: seq<T>) {
    forall i, j :: 0 <= i < j < |s| ==> s[i] != s[j]
  }

  /** Registering is idempotent: a second registration of the same character
      leaves the list as the first one left it. */
  lemma RegisterIdempotent<T>(list: seq<T>, c: T)
    ensures Registered(Registered(list, c), c) == Registered(list, c)
  {
  }

  /** Registering keeps a duplicate-free list duplicate-free. */
  lemma RegisterKeepsDistinct<T>(list: seq<T>, c: T)
    requires Distinct(list)
    ensures Distinct(Registered(list, c))
  {
    if c !in list {
      var r := list + [c];
      forall i, j | 0 <= i < j < |r| ensures r[i] != r[j] {
        if j == |list| {
          assert r[i] == list[i];
        }
      }
    }
  }

  /** Any sequence of registrations, starting from a duplicate-free registry,
      leaves a duplicate-free registry that holds every registered character. */
  lemma {:induction false} RegisterAllDistinct<T>(list: seq<T>, cs: seq<T>)
    requires Distinct(list)
    ensures Distinct(RegisteredAll(list, cs))
    ensures forall c :: c in cs ==> c in RegisteredAll(list, cs)
    ensures forall x :: x in list ==> x in RegisteredAll(list, cs)
    decreases |cs|
  {
    if cs != [] {
      var next := Registered(list, cs[0]);
      RegisterKeepsDistinct(list, cs[0]);
      assert forall x :: x in list ==> x in next by {
        assert next[..|list|] == list;
      }
      RegisterAllDistinct(next, cs[1..]);
      forall c | c in cs ensures c in RegisteredAll(list, cs) {
        if c != cs[0] {
          assert c in cs[1..];
        }
      }
    }
  }

  /** In a duplicate-free list, an entry that is present occurs exactly once. */
  lemma {:induction false} DistinctOccursOnce<T>(s: seq<T>, x: T)
    requires Distinct(s)
    ensures Occurrences(s, x) == (if x in s then 1 else 0)
  {
    if s != [] {
      assert Distinct(s[1..]) by {
        forall i, j | 0 <= i < j < |s[1..]| ensures s[1..][i] != s[1..][j] {
          assert s[1..][i] == s[i + 1] && s[1..][j] == s[j + 1];
        }
      }
      DistinctOccursOnce(s[1..], x);
      if s[0] == x {
        assert x !in s[1..] by {
          forall k | 0 <= k < |s[1..]| ensures s[1..][k] != x {
            assert s[1..][k] == s[k + 1];
          }
        }
      } else {
        assert x in s <==> x in s[1..] by {
          assert s == [s[0]] + s[1..];
        }
      }
    }
  }

  /** After any non-empty sequence of registrations that includes c, starting
      from a duplicate-free registry, c appears in the registry exactly once. */
  lemma RegisteredExactlyOnce<T>(list: seq<T>, cs: seq<T>, c: T)
    requires Distinct(list)
    requires c in cs
    ensures Occurrences(RegisteredAll(list, cs), c) == 1
  {
    RegisterAllDistinct(list, cs);
    DistinctOccursOnce(RegisteredAll(list, cs), c);
  }
}

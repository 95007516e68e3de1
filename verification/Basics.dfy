/** Shared vocabulary: options, SQLite's 64-bit integers, and the ascending
    enumeration that `ORDER BY <integer primary key>` produces. */
module Basics {

  datatype Option<+T> = None | Some(value: T)

  function Min(a: int, b: int): int { if a < b then a else b }

  const MAX_ID := 0x7FFF_FFFF_FFFF_FFFF

  /** SQLite's INTEGER: 64-bit signed. */
  type Id = x: int | -0x8000_0000_0000_0000 <= x <= MAX_ID

  predicate StrictlyAscending(r: seq<Id>) {
    forall i, j | 0 <= i < j < |r| :: r[i] < r[j]
  }

  /** `r` lists exactly the elements of `s`. */
  ghost predicate Lists(r: seq<Id>, s: set<Id>) {
    forall x :: x in r <==> x in s
  }

  predicate IsLeast(m: Id, s: set<Id>) {
    m in s && forall y | y in s :: m <= y
  }

  lemma {:induction false} LeastExists(s: set<Id>)
    requires s != {}
    ensures exists m :: IsLeast(m, s)
    decreases |s|
  {
    var m :| m in s;
    var rest := s - {m};
    if rest == {} {
      assert s == {m};
      assert IsLeast(m, s);
    } else {
      LeastExists(rest);
      var m' :| IsLeast(m', rest);
      assert forall y | y in s :: y == m || y in rest;
      assert IsLeast(if m' < m then m' else m, s);
    }
  }

  function Least(s: set<Id>): (m: Id)
    requires s != {}
    ensures IsLeast(m, s)
  {
    LeastExists(s);
    var m :| IsLeast(m, s);
    m
  }

  /** The elements of `s` in increasing order. */
  function Ascending(s: set<Id>): (r: seq<Id>)
    ensures |r| == |s|
  {
    if s == {} then [] else [Least(s)] + Ascending(s - {Least(s)})
  }

  lemma ConsAscends(m: Id, rest: seq<Id>, s: set<Id>)
    requires IsLeast(m, s) && StrictlyAscending(rest) && Lists(rest, s - {m})
    ensures StrictlyAscending([m] + rest) && Lists([m] + rest, s)
  {
    forall j | 0 <= j < |rest| ensures m < rest[j] {
      assert rest[j] in rest;
    }
    assert forall x :: x in [m] + rest <==> x == m || x in rest;
  }

  lemma {:induction false} AscendingSpec(s: set<Id>)
    ensures StrictlyAscending(Ascending(s)) && Lists(Ascending(s), s)
  {
    if s != {} {
      AscendingSpec(s - {Least(s)});
      ConsAscends(Least(s), Ascending(s - {Least(s)}), s);
    }
  }

  lemma AscendingMember(s: set<Id>, i: nat)
    requires i < |s|
    ensures Ascending(s)[i] in s
  {
    AscendingSpec(s);
    assert Ascending(s)[i] in Ascending(s);
  }

  /** A strictly ascending sequence is determined by its elements. */
  lemma {:induction false} AscendingUnique(a: seq<Id>, b: seq<Id>, s: set<Id>)
    requires StrictlyAscending(a) && StrictlyAscending(b) && Lists(a, s) && Lists(b, s)
    ensures a == b
  {
    assert a == [] || a[0] in s;
    assert b == [] || b[0] in s;
    if a != [] && b != [] {
      assert a[0] in b && b[0] in a;
      AscendingUnique(a[1..], b[1..], s - {a[0]});
      assert a == [a[0]] + a[1..] && b == [b[0]] + b[1..];
    }
  }

  lemma AppendAscends(r: seq<Id>, s: set<Id>, n: Id)
    requires StrictlyAscending(r) && Lists(r, s) && forall x | x in s :: x < n
    ensures StrictlyAscending(r + [n]) && Lists(r + [n], s + {n})
  {
    forall i | 0 <= i < |r| ensures r[i] < n {
      assert r[i] in s;
    }
  }

  lemma AscendingIs(r: seq<Id>, s: set<Id>)
    requires StrictlyAscending(r) && Lists(r, s)
    ensures Ascending(s) == r
  {
    AscendingSpec(s);
    AscendingUnique(Ascending(s), r, s);
  }

  /** A new largest element goes to the end of the enumeration. */
  lemma AscendingAppend(s: set<Id>, n: Id)
    requires forall x | x in s :: x < n
    ensures Ascending(s + {n}) == Ascending(s) + [n]
  {
    AscendingSpec(s);
    AppendAscends(Ascending(s), s, n);
    AscendingIs(Ascending(s) + [n], s + {n});
  }

  function Elements(r: seq<Id>): set<Id> {
    set i | i in r
  }

  lemma SuffixLists(r: seq<Id>, s: set<Id>, k: nat)
    requires StrictlyAscending(r) && Lists(r, s) && k <= |r|
    ensures StrictlyAscending(r[k..]) && Lists(r[k..], s - Elements(r[..k]))
  {
    forall x ensures x in r[k..] <==> x in s - Elements(r[..k]) {
      assert x in r <==> x in s;
    }
  }

  /** Removing the k smallest elements drops the first k of the enumeration. */
  lemma AscendingDropPrefix(s: set<Id>, k: nat)
    requires k <= |s|
    ensures Ascending(s - Elements(Ascending(s)[..k])) == Ascending(s)[k..]
  {
    var r := Ascending(s);
    AscendingSpec(s);
    SuffixLists(r, s, k);
    AscendingIs(r[k..], s - Elements(r[..k]));
  }
}

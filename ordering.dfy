/**
  Python's ordering of `str` values (code point by code point, a proper
  prefix first) and `sorted(list(s))` of a set of strings, which yields the
  unique strictly ascending sequence of the set's elements.
 */
module Ordering {

  /** `a < b` on Python strings. */
  predicate Less(a: string, b: string)
    decreases |a|
  {
    if a == [] then b != []
    else if b == [] then false
    else if a[0] != b[0] then a[0] < b[0]
    else Less(a[1..], b[1..])
  }

  lemma {:induction false} LessIrreflexive(a: string)
    ensures !Less(a, a)
  {
    if a != [] {
      LessIrreflexive(a[1..]);
    }
  }

  lemma {:induction false} LessTransitive(a: string, b: string, c: string)
    requires Less(a, b) && Less(b, c)
    ensures Less(a, c)
    decreases |a|
  {
    if a != [] && a[0] == b[0] && b[0] == c[0] {
      LessTransitive(a[1..], b[1..], c[1..]);
    }
  }

  lemma {:induction false} LessTotal(a: string, b: string)
    ensures a == b || Less(a, b) || Less(b, a)
    decreases |a|
  {
    if a != [] && b != [] && a[0] == b[0] {
      LessTotal(a[1..], b[1..]);
      if a[1..] == b[1..] {
        assert a == [a[0]] + a[1..] && b == [b[0]] + b[1..];
      }
    }
  }

  lemma LessAsymmetric(a: string, b: string)
    requires Less(a, b)
    ensures !Less(b, a)
  {
    if Less(b, a) {
      LessTransitive(a, b, a);
      LessIrreflexive(a);
    }
  }

  predicate StrictlyAscending(s: seq<string>)
  {
    forall i, j :: 0 <= i < j < |s| ==> Less(s[i], s[j])
  }

  function Elements(s: seq<string>): set<string>
  {
    set x | x in s
  }

  predicate IsMinimum(m: string, items: set<string>)
  {
    m in items && forall y :: y in items ==> !Less(y, m)
  }

  lemma {:induction false} MinimumExists(items: set<string>)
    requires items != {}
    ensures exists m :: IsMinimum(m, items)
    decreases |items|
  {
    var y :| y in items;
    var rest := items - {y};
    if rest == {} {
      assert items == {y};
      LessIrreflexive(y);
      assert IsMinimum(y, items);
    } else {
      MinimumExists(rest);
      var m :| IsMinimum(m, rest);
      if Less(y, m) {
        LessIrreflexive(y);
        forall x | x in items ensures !Less(x, y) {
          if x != y && Less(x, y) {
            LessTransitive(x, y, m);
          }
        }
        assert IsMinimum(y, items);
      } else {
        assert IsMinimum(m, items);
      }
    }
  }

  /** `sorted(list(items))`: the elements of the set in ascending order. */
  method SortedList(items: set<string>) returns (r: seq<string>)
    ensures StrictlyAscending(r)
    ensures Elements(r) == items
  {
    var rem := items;
    r := [];
    while rem != {}
      invariant StrictlyAscending(r)
      invariant Elements(r) + rem == items
      invariant forall x, y :: x in r && y in rem ==> Less(x, y)
      decreases |rem|
    {
      MinimumExists(rem);
      var m :| IsMinimum(m, rem);
      forall y | y in rem - {m} ensures Less(m, y) {
        LessTotal(m, y);
      }
      r := r + [m];
      rem := rem - {m};
    }
  }

  lemma ElementsEmpty(s: seq<string>)
    ensures Elements(s) == {} <==> s == []
  {
    if s != [] {
      assert s[0] in Elements(s);
    }
  }

  /** A set has exactly one strictly ascending enumeration. */
  lemma {:induction false} AscendingUnique(a: seq<string>, b: seq<string>)
    requires StrictlyAscending(a) && StrictlyAscending(b)
    requires Elements(a) == Elements(b)
    ensures a == b
  {
    ElementsEmpty(a);
    ElementsEmpty(b);
    if a != [] && b != [] {
      assert a[0] in Elements(b) && b[0] in Elements(a);
      if a[0] != b[0] {
        var i :| 0 <= i < |b| && b[i] == a[0];
        var j :| 0 <= j < |a| && a[j] == b[0];
        assert Less(b[0], a[0]) && Less(a[0], b[0]);
        LessAsymmetric(b[0], a[0]);
      }
      forall x ensures x in a[1..] <==> x in a && x != a[0] {
        if x in a[1..] {
          LessIrreflexive(a[0]);
        }
        if x in a && x != a[0] {
          var k :| 0 <= k < |a| && a[k] == x;
          assert a[k] == a[1..][k - 1];
        }
      }
      forall x ensures x in b[1..] <==> x in b && x != b[0] {
        if x in b[1..] {
          LessIrreflexive(b[0]);
        }
        if x in b && x != b[0] {
          var k :| 0 <= k < |b| && b[k] == x;
          assert b[k] == b[1..][k - 1];
        }
      }
      assert Elements(a[1..]) == Elements(a) - {a[0]};
      assert Elements(b[1..]) == Elements(b) - {b[0]};
      AscendingUnique(a[1..], b[1..]);
      assert a == [a[0]] + a[1..] && b == [b[0]] + b[1..];
    }
  }
}

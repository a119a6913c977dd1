/** The order in which a map with names for keys is iterated (std::map<std::string, ...>). */
module NameOrder {

  /** operator< of std::string. */
  predicate Before(a: string, b: string) {
    b != [] && (a == [] || a[0] < b[0] || (a[0] == b[0] && Before(a[1..], b[1..])))
  }

  /** The names agree up to i, where the character of the first is the smaller. */
  predicate SmallerAt(a: string, b: string, i: nat) {
    i < |a| && i < |b| && a[..i] == b[..i] && a[i] < b[i]
  }

  /** The order is the lexicographic one: a proper prefix comes first, and otherwise the
    first differing characters decide. */
  lemma {:induction false} BeforeIs(a: string, b: string)
    ensures Before(a, b) <==> (a <= b && a != b) || exists i: nat :: SmallerAt(a, b, i)
    decreases |a|
  {
    if a != [] && b != [] {
      if i: nat :| i > 0 && SmallerAt(a, b, i) {
        SmallerInTail(a, b, i);
      }
      if a[0] == b[0] {
        var s, t := a[1..], b[1..];
        assert a == [a[0]] + s && b == [b[0]] + t;
        BeforeIs(s, t);
        if i: nat :| SmallerAt(s, t, i) {
          assert a[..i + 1] == [a[0]] + s[..i] && b[..i + 1] == [b[0]] + t[..i];
          assert SmallerAt(a, b, i + 1);
        }
      } else {
        assert a[0] < b[0] ==> SmallerAt(a, b, 0);
      }
    }
  }

  lemma SmallerInTail(a: string, b: string, i: nat)
    requires i > 0 && SmallerAt(a, b, i)
    ensures a[0] == b[0] && SmallerAt(a[1..], b[1..], i - 1)
  {
    assert a[0] == a[..i][0] && b[0] == b[..i][0];
    assert a[1..][..i - 1] == a[..i][1..] && b[1..][..i - 1] == b[..i][1..];
  }

  lemma {:induction false} BeforeIsTotal(a: string, b: string)
    ensures if a == b then !Before(a, b) else Before(a, b) != Before(b, a)
    decreases |a|
  {
    if a != [] && b != [] && a[0] == b[0] {
      assert a == [a[0]] + a[1..] && b == [b[0]] + b[1..];
      BeforeIsTotal(a[1..], b[1..]);
    }
  }

  lemma {:induction false} BeforeIsTransitive(a: string, b: string, c: string)
    requires Before(a, b) && Before(b, c)
    ensures Before(a, c)
    decreases |a|
  {
    if a != [] && a[0] == b[0] == c[0] {
      BeforeIsTransitive(a[1..], b[1..], c[1..]);
    }
  }

  lemma {:induction false} PrefixIsBefore(a: string, b: string)
    requires a <= b && a != b
    ensures Before(a, b)
    decreases |a|
  {
    if a != [] {
      assert a == [a[0]] + a[1..] && b == [b[0]] + b[1..];
      PrefixIsBefore(a[1..], b[1..]);
    }
  }

  ghost predicate IsFirst(name: string, names: set<string>) {
    name in names && forall other :: other in names && other != name ==> Before(name, other)
  }

  lemma {:induction false} FirstExists(names: set<string>)
    requires names != {}
    ensures exists name :: IsFirst(name, names)
    decreases |names|
  {
    var name :| name in names;
    var rest := names - {name};
    if rest != {} {
      FirstExists(rest);
      var first :| IsFirst(first, rest);
      BeforeIsTotal(name, first);
      if Before(name, first) {
        forall other | other in rest && other != first ensures Before(name, other) {
          BeforeIsTransitive(name, first, other);
        }
        assert IsFirst(name, names);
      } else {
        assert IsFirst(first, names);
      }
    } else {
      assert names == {name};
      assert IsFirst(name, names);
    }
  }

  lemma FirstIsUnique(name: string, other: string, names: set<string>)
    requires IsFirst(name, names) && IsFirst(other, names)
    ensures name == other
  {
    BeforeIsTotal(name, other);
  }

  method FirstName(names: set<string>) returns (first: string)
    requires names != {}
    ensures IsFirst(first, names)
  {
    FirstExists(names);
    first :| first in names && forall other :: other in names && other != first ==> Before(first, other);
  }

  /** The names as the map gives them. */
  ghost function InOrder(names: set<string>): seq<string>
    decreases |names|
  {
    if names == {} then []
    else
      FirstExists(names);
      var name :| IsFirst(name, names);
      [name] + InOrder(names - {name})
  }

  lemma NextInOrder(names: set<string>, name: string)
    requires IsFirst(name, names)
    ensures InOrder(names) == [name] + InOrder(names - {name})
  {
    assert names != {};
    var first :| IsFirst(first, names) && InOrder(names) == [first] + InOrder(names - {first});
    FirstIsUnique(name, first, names);
  }

  lemma {:induction false} NamesInOrder(names: set<string>)
    ensures |InOrder(names)| == |names|
    ensures forall name :: name in InOrder(names) <==> name in names
    decreases |names|
  {
    if names != {} {
      FirstExists(names);
      var name :| IsFirst(name, names);
      NextInOrder(names, name);
      NamesInOrder(names - {name});
    }
  }

  ghost predicate Sorted(names: seq<string>) {
    forall i, j :: 0 <= i < j < |names| ==> Before(names[i], names[j])
  }

  lemma {:induction false} InOrderIsSorted(names: set<string>)
    ensures Sorted(InOrder(names))
    decreases |names|
  {
    if names != {} {
      FirstExists(names);
      var name :| IsFirst(name, names);
      NextInOrder(names, name);
      InOrderIsSorted(names - {name});
      NamesInOrder(names - {name});
      SortedMore(name, InOrder(names - {name}));
    }
  }

  lemma SortedMore(name: string, rest: seq<string>)
    requires Sorted(rest) && forall other :: other in rest ==> Before(name, other)
    ensures Sorted([name] + rest)
  {
  }
}

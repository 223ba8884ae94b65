/** Names in lexicographic order, and the sorted listing of a set of names. */
module SortedNames {

  /** Lexicographic order on names, as sorted() compares them. */
  predicate LexLess(a: string, b: string) {
    if b == [] then false
    else if a == [] then true
    else a[0] < b[0] || (a[0] == b[0] && LexLess(a[1..], b[1..]))
  }

  lemma {:induction false} LexTotal(a: string, b: string)
    ensures LexLess(a, b) || a == b || LexLess(b, a)
    ensures !(LexLess(a, b) && LexLess(b, a)) && !LexLess(a, a)
  {
    if a != [] && b != [] {
      LexTotal(a[1..], b[1..]);
      LexTotal(a[1..], a[1..]);
      assert a == [a[0]] + a[1..] && b == [b[0]] + b[1..];
    } else if a != [] {
      LexTotal(a[1..], a[1..]);
    }
  }

  lemma {:induction false} LexTransitive(a: string, b: string, c: string)
    requires LexLess(a, b) && LexLess(b, c)
    ensures LexLess(a, c)
  {
    if a != [] && a[0] == b[0] && b[0] == c[0] {
      LexTransitive(a[1..], b[1..], c[1..]);
    }
  }

  /** Names of one length compare by their first difference, whatever follows. */
  lemma {:induction false} LexExtend(a: string, b: string, x: string, y: string)
    requires |a| == |b| && LexLess(a, b)
    ensures LexLess(a + x, b + y)
  {
    assert (a + x)[0] == a[0] && (b + y)[0] == b[0];
    if a[0] == b[0] {
      LexExtend(a[1..], b[1..], x, y);
      assert (a + x)[1..] == a[1..] + x && (b + y)[1..] == b[1..] + y;
    }
  }

  lemma {:induction false} LexSamePrefix(p: string, a: string, b: string)
    requires LexLess(a, b)
    ensures LexLess(p + a, p + b)
  {
    if p == [] {
      assert p + a == a && p + b == b;
    } else {
      LexSamePrefix(p[1..], a, b);
      assert (p + a)[1..] == p[1..] + a && (p + b)[1..] == p[1..] + b;
    }
  }

  // ---- sorted listings

  ghost predicate Ascending(names: seq<string>) {
    forall i, j :: 0 <= i < j < |names| ==> LexLess(names[i], names[j])
  }

  predicate IsLeast(m: string, names: set<string>) {
    m in names && forall x :: x in names ==> x == m || LexLess(m, x)
  }

  lemma {:induction false} LeastExists(names: set<string>)
    requires names != {}
    ensures exists m :: IsLeast(m, names)
  {
    var x :| x in names;
    var rest := names - {x};
    assert names == rest + {x};
    if rest == {} {
      assert IsLeast(x, names);
    } else {
      LeastExists(rest);
      var m :| IsLeast(m, rest);
      LexTotal(x, m);
      if LexLess(x, m) {
        forall y | y in rest ensures LexLess(x, y) {
          if y != m {
            LexTransitive(x, m, y);
          }
        }
        assert IsLeast(x, names);
      } else {
        assert IsLeast(m, names);
      }
    }
  }

  lemma LeastUnique(m: string, n: string, names: set<string>)
    requires IsLeast(m, names) && IsLeast(n, names)
    ensures m == n
  {
    LexTotal(m, n);
  }

  ghost function Sorted(names: set<string>): seq<string> {
    if names == {} then []
    else
      LeastExists(names);
      var m :| IsLeast(m, names);
      [m] + Sorted(names - {m})
  }

  lemma {:induction false} SortedFacts(names: set<string>)
    ensures Ascending(Sorted(names))
    ensures forall x :: x in Sorted(names) <==> x in names
    ensures |Sorted(names)| == |names|
  {
    if names != {} {
      var s := Sorted(names);
      SortedFacts(names - {s[0]});
      assert s == [s[0]] + Sorted(names - {s[0]});
    }
  }

  /** An ascending sequence is the sorted listing of its elements. */
  lemma {:induction false} SortedUnique(s: seq<string>, names: set<string>)
    requires Ascending(s) && forall x :: x in s <==> x in names
    ensures Sorted(names) == s
  {
    if s != [] {
      var rest := s[1..];
      assert s == [s[0]] + rest;
      assert s[0] in names;
      forall x | x in rest ensures LexLess(s[0], x) && x != s[0] {
        var k :| 0 <= k < |rest| && rest[k] == x;
        assert LexLess(s[0], s[k + 1]);
        LexTotal(s[0], x);
      }
      assert IsLeast(s[0], names);
      SortedUnique(rest, names - {s[0]});
      LeastUnique(Sorted(names)[0], s[0], names);
    }
  }

  lemma SortedAppend(names: set<string>, x: string)
    requires forall y :: y in names ==> LexLess(y, x)
    ensures Sorted(names + {x}) == Sorted(names) + [x]
  {
    SortedFacts(names);
    var s := Sorted(names);
    forall i | 0 <= i < |s| ensures LexLess(s[i], x) {
      assert s[i] in names;
    }
    SortedUnique(s + [x], names + {x});
  }

  lemma AscendingDistinct(s: seq<string>, i: nat, j: nat)
    requires Ascending(s) && i < |s| && j < |s| && i != j
    ensures s[i] != s[j]
  {
    LexTotal(s[i], s[j]);
  }

  /** An ascending sequence without one of its elements. */
  lemma DropAt(s: seq<string>, k: nat, x: string)
    requires Ascending(s) && k < |s|
    ensures x in s[..k] + s[k + 1..] <==> x in s && x != s[k]
  {
    assert s == s[..k] + [s[k]] + s[k + 1..];
    forall i | 0 <= i < |s| && i != k ensures s[i] != s[k] {
      AscendingDistinct(s, i, k);
    }
  }

  lemma AscendingWithout(s: seq<string>, k: nat)
    requires Ascending(s) && k < |s|
    ensures Ascending(s[..k] + s[k + 1..])
  {
  }

  lemma SortedRemove(names: set<string>, k: nat)
    requires k < |Sorted(names)|
    ensures Sorted(names)[k] in names
    ensures Sorted(names - {Sorted(names)[k]}) == Sorted(names)[..k] + Sorted(names)[k + 1..]
  {
    var s := Sorted(names);
    SortedFacts(names);
    AscendingWithout(s, k);
    forall x ensures x in s[..k] + s[k + 1..] <==> x in names - {s[k]} {
      DropAt(s, k, x);
    }
    SortedUnique(s[..k] + s[k + 1..], names - {s[k]});
  }
}

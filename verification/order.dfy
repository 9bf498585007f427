/** Python's ordering of `str` values (code point by code point, a proper
    prefix first) and `sorted()` over a set of strings, which the exporter
    uses for dictionary keys and ECO code sets. */
module Order {

  /** `a < b` on Python strings. */
  predicate Below(a: string, b: string)
    decreases |a|
  {
    if a == [] then b != []
    else if b == [] then false
    else a[0] < b[0] || (a[0] == b[0] && Below(a[1..], b[1..]))
  }

  lemma {:induction false} BelowIrreflexive(a: string)
    ensures !Below(a, a)
    decreases |a|
  {
    if a != [] {
      BelowIrreflexive(a[1..]);
    }
  }

  lemma {:induction false} BelowAsymmetric(a: string, b: string)
    requires Below(a, b)
    ensures !Below(b, a)
    decreases |a|
  {
    if a != [] && b != [] && a[0] == b[0] {
      BelowAsymmetric(a[1..], b[1..]);
    }
  }

  lemma {:induction false} BelowTransitive(a: string, b: string, c: string)
    requires Below(a, b) && Below(b, c)
    ensures Below(a, c)
    decreases |a|
  {
    if a != [] && a[0] == b[0] && b[0] == c[0] {
      BelowTransitive(a[1..], b[1..], c[1..]);
    }
  }

  /** Any two different strings are ordered one way or the other. */
  lemma {:induction false} BelowTotal(a: string, b: string)
    requires a != b
    ensures Below(a, b) || Below(b, a)
    decreases |a|
  {
    if a != [] && b != [] && a[0] == b[0] {
      assert a == [a[0]] + a[1..] && b == [b[0]] + b[1..];
      BelowTotal(a[1..], b[1..]);
    }
  }

  /** `ks` is in strictly ascending order (so also free of duplicates). */
  predicate Ascending(ks: seq<string>) {
    forall i, j :: 0 <= i < j < |ks| ==> Below(ks[i], ks[j])
  }

  predicate IsLeast(m: string, s: set<string>) {
    m in s && forall x :: x in s && x != m ==> Below(m, x)
  }

  lemma {:induction false} LeastExists(s: set<string>)
    requires s != {}
    ensures exists m :: IsLeast(m, s)
    decreases s
  {
    var x :| x in s;
    if s != {x} {
      LeastExists(s - {x});
      var m :| IsLeast(m, s - {x});
      if Below(m, x) {
        assert IsLeast(m, s);
      } else {
        BelowTotal(m, x);
        forall y | y in s && y != x ensures Below(x, y) {
          if y != m { BelowTransitive(x, m, y); }
        }
        assert IsLeast(x, s);
      }
    } else {
      assert IsLeast(x, s);
    }
  }

  lemma LeastUnique(m: string, n: string, s: set<string>)
    requires IsLeast(m, s) && IsLeast(n, s)
    ensures m == n
  {
    if m != n {
      BelowAsymmetric(m, n);
    }
  }

  ghost function Least(s: set<string>): (m: string)
    requires s != {}
    ensures IsLeast(m, s)
  {
    LeastExists(s);
    var m :| IsLeast(m, s); m
  }

  /** `sorted(s)`: the elements of `s` in ascending order. */
  ghost function SortedKeys(s: set<string>): (ks: seq<string>)
    ensures forall x :: x in ks <==> x in s
    decreases s
  {
    if s == {} then [] else
      var m := Least(s);
      [m] + SortedKeys(s - {m})
  }

  /** `sorted(s)` lists every element of `s` once, in ascending order. */
  lemma {:induction false} SortedKeysSpec(s: set<string>)
    ensures Ascending(SortedKeys(s))
    ensures |SortedKeys(s)| == |s|
    ensures forall x :: x in SortedKeys(s) <==> x in s
    decreases s
  {
    if s != {} {
      var m := Least(s);
      var rest := SortedKeys(s - {m});
      SortedKeysSpec(s - {m});
      var ks := [m] + rest;
      forall i, j | 0 <= i < j < |ks| ensures Below(ks[i], ks[j]) {
        if i == 0 {
          assert ks[j] == rest[j - 1] && ks[j] in s - {m};
        } else {
          assert ks[i] == rest[i - 1] && ks[j] == rest[j - 1];
        }
      }
    }
  }

  /** The ascending listing of a set is unique, so any ascending sequence
      holding exactly the elements of `s` is `sorted(s)`. */
  lemma {:induction false} SortedKeysUnique(ks: seq<string>, s: set<string>)
    requires Ascending(ks)
    requires forall x :: x in ks <==> x in s
    ensures ks == SortedKeys(s)
    decreases |ks|
  {
    if ks == [] {
      assert s == {};
    } else {
      assert IsLeast(ks[0], s) by {
        forall x | x in s && x != ks[0] ensures Below(ks[0], x) {
          var j :| 0 <= j < |ks| && ks[j] == x;
          assert j != 0;
        }
      }
      LeastUnique(ks[0], Least(s), s);
      var rest := ks[1..];
      forall x ensures x in rest <==> x in s - {ks[0]} {
        if x in rest {
          var j :| 0 <= j < |rest| && rest[j] == x;
          assert Below(ks[0], ks[j + 1]);
          BelowIrreflexive(x);
        }
        if x in s - {ks[0]} {
          var j :| 0 <= j < |ks| && ks[j] == x;
          assert rest[j - 1] == x;
        }
      }
      SortedKeysUnique(rest, s - {ks[0]});
      assert ks == [ks[0]] + rest;
    }
  }

  /** Python's `sorted()` over a set of strings, as repeated selection of
      the least remaining element. */
  method SortLabels(s: set<string>) returns (ks: seq<string>)
    ensures ks == SortedKeys(s)
  {
    ks := [];
    var rest := s;
    while rest != {}
      invariant Ascending(ks)
      invariant forall x :: x in ks <==> x in s && x !in rest
      invariant rest <= s
      invariant forall i, y :: 0 <= i < |ks| && y in rest ==> Below(ks[i], y)
      decreases rest
    {
      var m :| m in rest;
      var others := rest - {m};
      while others != {}
        invariant others <= rest && m in rest && m !in others
        invariant forall y :: y in rest && y !in others && y != m ==> Below(m, y)
        decreases others
      {
        var y :| y in others;
        if Below(y, m) {
          forall z | z in rest && z !in others && z != m && z != y ensures Below(y, z) {
            BelowTransitive(y, m, z);
          }
          BelowAsymmetric(y, m);
          m := y;
        } else if y != m {
          BelowTotal(y, m);
        }
        others := others - {y};
      }
      ks := ks + [m];
      rest := rest - {m};
    }
    SortedKeysUnique(ks, s);
  }
}

/** The order both SQLite and Rust sort ids by, and the sorted list of a set of ids. */
module StringOrder {

  predicate StringLe(a: string, b: string) {
    a == "" || (b != "" && (a[0] < b[0] || (a[0] == b[0] && StringLe(a[1..], b[1..]))))
  }

  /** A prefix comes first; otherwise the first character that differs decides. */
  lemma {:induction false} StringLeIff(a: string, b: string)
    ensures StringLe(a, b) <==> a <= b || exists i :: 0 <= i < |a| && i < |b| && a[..i] == b[..i] && a[i] < b[i]
  {
    if a != "" && b != "" {
      forall i | 0 < i < |a| && i < |b| && a[..i] == b[..i] ensures a[0] == b[0] {
        assert a[0] == a[..i][0] == b[..i][0];
      }
      if a[0] == b[0] {
        StringLeIff(a[1..], b[1..]);
        assert a == [a[0]] + a[1..] && b == [b[0]] + b[1..];
        if i :| 0 <= i < |a[1..]| && i < |b[1..]| && a[1..][..i] == b[1..][..i] && a[1..][i] < b[1..][i] {
          assert a[..i + 1] == [a[0]] + a[1..][..i] && b[..i + 1] == [b[0]] + b[1..][..i];
          assert a[..i + 1] == b[..i + 1] && a[i + 1] < b[i + 1];
        }
        if i :| 0 <= i < |a| && i < |b| && a[..i] == b[..i] && a[i] < b[i] {
          assert a[1..][..i - 1] == a[..i][1..] && b[1..][..i - 1] == b[..i][1..];
          assert a[1..][i - 1] < b[1..][i - 1];
        }
      }
      if a[0] < b[0] { assert a[..0] == b[..0]; }
    }
  }

  lemma {:induction false} StringLeTotal(a: string, b: string)
    ensures StringLe(a, b) || StringLe(b, a)
    ensures StringLe(a, b) && StringLe(b, a) ==> a == b
  {
    if a != "" && b != "" && a[0] == b[0] {
      StringLeTotal(a[1..], b[1..]);
      assert a == [a[0]] + a[1..] && b == [b[0]] + b[1..];
    }
  }

  lemma {:induction false} StringLeTransitive(a: string, b: string, c: string)
    requires StringLe(a, b) && StringLe(b, c)
    ensures StringLe(a, c)
  {
    if a != "" && b != "" && c != "" && a[0] == b[0] && b[0] == c[0] {
      StringLeTransitive(a[1..], b[1..], c[1..]);
    }
  }

  lemma {:induction false} LeastOf(s: set<string>) returns (least: string)
    requires s != {}
    ensures least in s && forall b :: b in s ==> StringLe(least, b)
    decreases |s|
  {
    var a :| a in s;
    if s == {a} {
      least := a;
      StringLeTotal(a, a);
    } else {
      var rest := LeastOf(s - {a});
      StringLeTotal(a, rest);
      StringLeTotal(a, a);
      least := if StringLe(a, rest) then a else rest;
      forall b | b in s ensures StringLe(least, b) {
        if b != a { StringLeTransitive(least, rest, b); }
      }
    }
  }

  function Least(s: set<string>): (least: string)
    requires s != {}
    ensures least in s && forall b :: b in s ==> StringLe(least, b)
  {
    assert exists a :: a in s && forall b :: b in s ==> StringLe(a, b) by { var least := LeastOf(s); }
    assert forall a, a' :: StringLe(a, a') && StringLe(a', a) ==> a == a' by {
      forall a, a' | StringLe(a, a') && StringLe(a', a) ensures a == a' { StringLeTotal(a, a'); }
    }
    var a :| a in s && forall b :: b in s ==> StringLe(a, b);
    a
  }

  /** Collecting a set and sorting it. */
  function Sorted(s: set<string>): (ids: seq<string>)
    decreases |s|
  {
    if s == {} then [] else [Least(s)] + Sorted(s - {Least(s)})
  }

  lemma {:induction false} SortedHasAll(s: set<string>)
    ensures |Sorted(s)| == |s|
    ensures forall id :: id in Sorted(s) <==> id in s
    decreases |s|
  {
    hide StringLe;
    if s != {} { SortedHasAll(s - {Least(s)}); }
  }

  lemma {:induction false} SortedInOrder(s: set<string>, i: nat, j: nat)
    requires i < j < |Sorted(s)|
    ensures Sorted(s)[i] != Sorted(s)[j] && StringLe(Sorted(s)[i], Sorted(s)[j])
    decreases |s|
  {
    hide StringLe;
    var rest := s - {Least(s)};
    assert Sorted(s) == [Least(s)] + Sorted(rest);
    if i == 0 {
      SortedHasAll(rest);
      assert Sorted(rest)[j - 1] in Sorted(rest);
    } else {
      SortedInOrder(rest, i - 1, j - 1);
    }
  }
}

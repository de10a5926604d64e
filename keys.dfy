/** The order in which encoding/json writes the keys of a Go map: ascending by string comparison.
    Comparing characters by code point orders strings as their UTF-8 bytes do. */
module Keys {

  /** `a` sorts no later than `b`. */
  predicate NoLater(a: string, b: string)
    decreases |a|
  {
    a == [] || (b != [] && (a[0] < b[0] || (a[0] == b[0] && NoLater(a[1..], b[1..]))))
  }

  lemma {:induction false} Reflexive(a: string)
    ensures NoLater(a, a)
  {
    if a != [] { Reflexive(a[1..]); }
  }

  lemma {:induction false} Antisymmetric(a: string, b: string)
    requires NoLater(a, b) && NoLater(b, a)
    ensures a == b
  {
    if a != [] && b != [] {
      Antisymmetric(a[1..], b[1..]);
      assert a == [a[0]] + a[1..] && b == [b[0]] + b[1..];
    }
  }

  lemma AntisymmetricAll()
    ensures forall a, b :: NoLater(a, b) && NoLater(b, a) ==> a == b
  {
    forall a, b | NoLater(a, b) && NoLater(b, a) ensures a == b { Antisymmetric(a, b); }
  }

  lemma {:induction false} Transitive(a: string, b: string, c: string)
    requires NoLater(a, b) && NoLater(b, c)
    ensures NoLater(a, c)
  {
    if a != [] && b != [] && c != [] && a[0] == b[0] == c[0] {
      Transitive(a[1..], b[1..], c[1..]);
    }
  }

  lemma {:induction false} Total(a: string, b: string)
    ensures NoLater(a, b) || NoLater(b, a)
  {
    if a != [] && b != [] && a[0] == b[0] { Total(a[1..], b[1..]); }
  }

  predicate IsLeast(k: string, s: set<string>) {
    k in s && forall j :: j in s ==> NoLater(k, j)
  }

  lemma {:induction false} LeastExists(s: set<string>)
    requires s != {}
    ensures exists k :: IsLeast(k, s)
    decreases s
  {
    var x :| x in s;
    if s == {x} {
      Reflexive(x);
      assert IsLeast(x, s);
    } else {
      LeastExists(s - {x});
      var k :| IsLeast(k, s - {x});
      Total(k, x);
      if NoLater(k, x) {
        assert IsLeast(k, s);
      } else {
        Reflexive(x);
        forall j | j in s ensures NoLater(x, j) {
          if j != x { Transitive(x, k, j); }
        }
        assert IsLeast(x, s);
      }
    }
  }

  /** The key that sorts first. */
  function Least(s: set<string>): (k: string)
    requires s != {}
    ensures k in s && forall j :: j in s ==> NoLater(k, j)
  {
    LeastExists(s);
    AntisymmetricAll();
    var k :| IsLeast(k, s);
    k
  }

  /** The keys of a map in the order encoding/json writes them: every key once, ascending. */
  function SortedKeys(s: set<string>): (r: seq<string>)
    ensures |r| == |s|
    ensures forall k :: k in s <==> k in r
    ensures forall i, j :: 0 <= i < j < |r| ==> r[i] != r[j] && NoLater(r[i], r[j])
    decreases s
  {
    if s == {} then []
    else
      var k := Least(s);
      [k] + SortedKeys(s - {k})
  }
}

/** `StringDecorator` (src/codegen/string_decorator.rs): a table from a base
    string to the next free index, which hands out `base_0`, `base_1`, ...
    The code generator uses it for branch labels. */
module LabelDecorator {
  import opened Strings

  /** The index stored for `s` in `m`, 0 when absent. */
  function IndexOf(m: map<string, nat>, s: string): nat {
    if s in m then m[s] else 0
  }

  /** `m` with the index of `s` raised by one (inserted as 1 when absent). */
  function Bumped(m: map<string, nat>, s: string): map<string, nat> {
    m[s := IndexOf(m, s) + 1]
  }

  class StringDecorator {
    var decorationIndices: map<string, nat>
    /** Every (base, index) pair handed out so far. */
    ghost var issued: set<(string, nat)>

    /** Every pair handed out lies below its base's stored index. */
    ghost predicate Valid()
      reads this
    {
      forall p :: p in issued ==> p.0 in decorationIndices && p.1 < decorationIndices[p.0]
    }

    /** `StringDecorator::default`: no entries. */
    constructor Default()
      ensures Valid()
      ensures decorationIndices == map[] && issued == {}
    {
      decorationIndices := map[];
      issued := {};
    }

    /** The stored index of `s`, 0 when absent. */
    function Index(s: string): nat
      reads this
    {
      IndexOf(decorationIndices, s)
    }

    /** `decorate`: the name the next `decorate_and_increment(s)` will return.
        It differs from every name handed out so far. */
    function Decorate(s: string): (r: string)
      requires Valid()
      reads this
      ensures r == Decorated(s, Index(s))
      ensures forall p :: p in issued ==> Decorated(p.0, p.1) != r
    {
      var r := Decorated(s, Index(s));
      assert forall p :: p in issued ==> Decorated(p.0, p.1) != r by {
        forall p | p in issued ensures Decorated(p.0, p.1) != r {
          if Decorated(p.0, p.1) == r {
            DecoratedInjective(p.0, p.1, s, Index(s));
          }
        }
      }
      r
    }

    /** `decorate_and_increment`: returns `s_k` for the stored index k (0 when
        absent) and stores k + 1; no other index changes. */
    method DecorateAndIncrement(s: string) returns (r: string)
      requires Valid()
      modifies this
      ensures Valid()
      ensures r == old(Decorate(s)) && r == Decorated(s, old(Index(s)))
      ensures decorationIndices == Bumped(old(decorationIndices), s)
      ensures issued == old(issued) + {(s, old(Index(s)))}
      ensures forall p :: p in old(issued) ==> Decorated(p.0, p.1) != r
    {
      var index: nat := 0;
      if s in decorationIndices {
        index := decorationIndices[s];
      }
      r := Decorated(s, index);
      assert r == Decorate(s);
      decorationIndices := decorationIndices[s := index + 1];
      issued := issued + {(s, index)};
    }

    /** `increment`: raises the index of `s` by one, inserting 1 when absent. */
    method Increment(s: string)
      requires Valid()
      modifies this
      ensures Valid()
      ensures decorationIndices == Bumped(old(decorationIndices), s)
      ensures issued == old(issued)
    {
      if s in decorationIndices {
        decorationIndices := decorationIndices[s := decorationIndices[s] + 1];
      } else {
        decorationIndices := decorationIndices[s := 1];
      }
    }
  }

  /** A fresh decorator asked three times for the same base answers
      `s_0`, `s_1` and `s_2`, pairwise distinct. */
  method RepeatedLabels(s: string) returns (a: string, b: string, c: string)
    ensures a == Decorated(s, 0) && b == Decorated(s, 1) && c == Decorated(s, 2)
    ensures a != b && b != c && a != c
  {
    var d := new StringDecorator.Default();
    a := d.DecorateAndIncrement(s);
    b := d.DecorateAndIncrement(s);
    c := d.DecorateAndIncrement(s);
    DecoratedDistinct(s, 0, 1);
    DecoratedDistinct(s, 1, 2);
    DecoratedDistinct(s, 0, 2);
  }

  /** `decorate_and_increment` agrees with `decorate` followed by `increment`. */
  method DecorateThenIncrement(s: string, start: map<string, nat>)
    returns (r1: string, m1: map<string, nat>, r2: string, m2: map<string, nat>)
    ensures r1 == r2 && m1 == m2
    ensures var k := if s in start then start[s] else 0;
            r1 == Decorated(s, k) && m1 == start[s := k + 1]
  {
    var d1 := new StringDecorator.Default();
    d1.decorationIndices := start;
    var d2 := new StringDecorator.Default();
    d2.decorationIndices := start;
    r1 := d1.DecorateAndIncrement(s);
    r2 := d2.Decorate(s);
    d2.Increment(s);
    m1, m2 := d1.decorationIndices, d2.decorationIndices;
  }
}

/** The scoped symbol environment of the code generator (`Env` in
    src/codegen/codegen.rs; src/codegen.rs holds the same code with the
    shadow-count helpers named `*_in_head`).

    A scope holds a table from DECORATED names (`x_1`, `x_2`, ...) to symbols,
    a per-name shadow counter, and a frame-offset allocator seeded from the
    enclosing scope. The source links a scope to its parent with a raw
    pointer that is only read; here the enclosing scopes are the value
    `parents` (nearest first), which cannot change while the child lives. */
module ScopeEnv {
  import opened Common
  import opened Strings

  /** Every symbol occupies one 8-byte slot. */
  const SlotSize: nat := 8

  datatype Symbol = Symbol(decoratedLexeme: string, sizeBytes: nat, rbpOffset: nat, initialized: bool)

  datatype Scope = Scope(symtable: map<string, Symbol>, shadowCounts: map<string, nat>, currentRbpOffset: nat)

  /** A scope with empty tables whose allocator starts at `offset`. */
  function EmptyScope(offset: nat): Scope {
    Scope(map[], map[], offset)
  }

  /** The count a scope record stores for `name`, 0 when it never registered the name. */
  function ShadowCount(sc: Scope, name: string): nat {
    if name in sc.shadowCounts then sc.shadowCounts[name] else 0
  }

  /** The decorated name under which scope `sc` holds the current generation of `name`. */
  function CurrentKey(sc: Scope, name: string): string {
    Decorated(name, ShadowCount(sc, name))
  }

  predicate HasCurrent(sc: Scope, name: string) {
    CurrentKey(sc, name) in sc.symtable
  }

  /** `get_symbol`: try the head's current generation, else the enclosing scopes. */
  function Lookup(chain: seq<Scope>, name: string): Option<Symbol> {
    if chain == [] then None
    else if HasCurrent(chain[0], name) then Some(chain[0].symtable[CurrentKey(chain[0], name)])
    else Lookup(chain[1..], name)
  }

  /** `register_symbol` (with the builder's size and flag as parameters): the
      head's counter for `name` goes up by one, the allocator by 8, and the
      symbol is stored under the new generation's decorated name with the new
      offset. */
  function Registered(sc: Scope, name: string, sizeBytes: nat, initialized: bool): (r: Scope)
    ensures ShadowCount(r, name) == ShadowCount(sc, name) + 1
    ensures forall other :: other != name ==> ShadowCount(r, other) == ShadowCount(sc, other)
    ensures r.currentRbpOffset == sc.currentRbpOffset + SlotSize
    ensures HasCurrent(r, name)
    ensures r.symtable[CurrentKey(r, name)]
         == Symbol(Decorated(name, ShadowCount(sc, name) + 1), sizeBytes, sc.currentRbpOffset + SlotSize, initialized)
  {
    var g := ShadowCount(sc, name) + 1;
    var key := Decorated(name, g);
    var offset := sc.currentRbpOffset + SlotSize;
    Scope(sc.symtable[key := Symbol(key, sizeBytes, offset, initialized)],
          sc.shadowCounts[name := g],
          offset)
  }

  /** The invariant of one scope: each symbol is stored under its own
      decorated name, at a generation between 1 and the name's counter, at an
      offset above `floor` (the allocator value inherited from the parent)
      and not above the scope's allocator; distinct entries have distinct
      offsets. */
  ghost predicate ScopeValid(sc: Scope, floor: nat) {
    && floor <= sc.currentRbpOffset
    && (forall k :: k in sc.symtable ==> sc.symtable[k].decoratedLexeme == k)
    && (forall k :: k in sc.symtable ==> floor < sc.symtable[k].rbpOffset <= sc.currentRbpOffset)
    && (forall k1, k2 :: k1 in sc.symtable && k2 in sc.symtable && k1 != k2 ==>
          sc.symtable[k1].rbpOffset != sc.symtable[k2].rbpOffset)
    && (forall n: string, g: nat :: Decorated(n, g) in sc.symtable ==> 1 <= g <= ShadowCount(sc, n))
  }

  /** The floor of scope `i` of a chain: its parent's allocator, 0 at the root. */
  function Floor(chain: seq<Scope>, i: nat): nat
    requires i < |chain|
  {
    if i + 1 < |chain| then chain[i + 1].currentRbpOffset else 0
  }

  /** A chain is valid when every scope is, relative to its parent's
      allocator. So offsets strictly increase from the root towards the head. */
  ghost predicate ChainValid(chain: seq<Scope>)
    decreases |chain|
  {
    && |chain| >= 1
    && ScopeValid(chain[0], Floor(chain, 0))
    && (|chain| > 1 ==> ChainValid(chain[1..]))
  }

  class Env {
    var symtable: map<string, Symbol>
    var shadowCounts: map<string, nat>
    var currentRbpOffset: nat
    /** The enclosing scopes, nearest first (the `prev` chain). */
    const parents: seq<Scope>

    function Head(): Scope
      reads this
    {
      Scope(symtable, shadowCounts, currentRbpOffset)
    }

    function Chain(): seq<Scope>
      reads this
    {
      [Head()] + parents
    }

    ghost predicate Valid()
      reads this
    {
      ChainValid(Chain())
    }

    /** `Env::new`: a root scope. */
    constructor New()
      ensures Valid()
      ensures Chain() == [EmptyScope(0)]
    {
      symtable, shadowCounts, currentRbpOffset := map[], map[], 0;
      parents := [];
    }

    /** `Env::with_tail`: an empty scope below `tail` that starts allocating
        where `tail` stands. */
    constructor WithTail(tail: Env)
      requires tail.Valid()
      ensures Valid()
      ensures Head() == EmptyScope(tail.currentRbpOffset)
      ensures parents == tail.Chain()
    {
      symtable, shadowCounts, currentRbpOffset := map[], map[], tail.currentRbpOffset;
      parents := tail.Chain();
      new;
      assert Chain() == [EmptyScope(tail.Chain()[0].currentRbpOffset)] + tail.Chain();
      EmptyScopeValid(tail.Chain());
    }

    /** `get_shadow_count`: the head's count for `name`, read from its `shadowCounts` field. */
    function GetShadowCount(name: string): (c: nat)
      reads this
      ensures name in shadowCounts ==> c == shadowCounts[name]
      ensures name !in shadowCounts ==> c == 0
    {
      ShadowCount(Head(), name)
    }

    /** `get_shadow_count_mut`: the counter slot of `name`, created at 0 when missing. */
    method GetShadowCountMut(name: string) returns (c: nat)
      requires Valid()
      modifies this
      ensures Valid()
      ensures c == old(GetShadowCount(name))
      ensures name in shadowCounts && shadowCounts == old(shadowCounts)[name := c]
      ensures symtable == old(symtable) && currentRbpOffset == old(currentRbpOffset)
      ensures Lookup(Chain(), name) == old(Lookup(Chain(), name))
    {
      if name in shadowCounts {
        c := shadowCounts[name];
      } else {
        ghost var before := Head();
        shadowCounts := shadowCounts[name := 0];
        c := 0;
        SameCountsValid(before, Head(), Floor([before] + parents, 0));
        assert Chain()[1..] == parents == ([before] + parents)[1..];
      }
    }

    /** `get_symbol` */
    function GetSymbol(name: string): Option<Symbol>
      reads this
    {
      Lookup(Chain(), name)
    }

    /** `register_symbol` */
    method RegisterSymbol(name: string, sizeBytes: nat, initialized: bool)
      requires Valid()
      modifies this
      ensures Valid()
      ensures Head() == Registered(old(Head()), name, sizeBytes, initialized)
      ensures GetSymbol(name)
           == Some(Symbol(Decorated(name, old(GetShadowCount(name)) + 1), sizeBytes, currentRbpOffset, initialized))
      ensures forall other :: other != name ==> GetSymbol(other) == old(GetSymbol(other))
    {
      ghost var before := Head();
      var count := GetShadowCountMut(name);
      assert count == ShadowCount(before, name) && symtable == before.symtable;
      count := count + 1;
      shadowCounts := shadowCounts[name := count];
      assert shadowCounts == before.shadowCounts[name := count];
      var key := Decorated(name, count);
      currentRbpOffset := currentRbpOffset + SlotSize;
      symtable := symtable[key := Symbol(key, sizeBytes, currentRbpOffset, initialized)];
      assert Head() == Registered(before, name, sizeBytes, initialized);
      RegisterFacts(before, parents, name, sizeBytes, initialized);
      assert Chain() == [Registered(before, name, sizeBytes, initialized)] + parents;
    }

    /** `declare`: an 8-byte, uninitialised symbol. */
    method Declare(name: string)
      requires Valid()
      modifies this
      ensures Valid()
      ensures Head() == Registered(old(Head()), name, SlotSize, false)
      ensures GetSymbol(name)
           == Some(Symbol(Decorated(name, old(GetShadowCount(name)) + 1), SlotSize, currentRbpOffset, false))
      ensures forall other :: other != name ==> GetSymbol(other) == old(GetSymbol(other))
    {
      RegisterSymbol(name, SlotSize, false);
    }

    /** `initialize`: an 8-byte, initialised symbol. */
    method Initialize(name: string)
      requires Valid()
      modifies this
      ensures Valid()
      ensures Head() == Registered(old(Head()), name, SlotSize, true)
      ensures GetSymbol(name)
           == Some(Symbol(Decorated(name, old(GetShadowCount(name)) + 1), SlotSize, currentRbpOffset, true))
      ensures forall other :: other != name ==> GetSymbol(other) == old(GetSymbol(other))
    {
      RegisterSymbol(name, SlotSize, true);
    }
  }

  // ---------------------------------------------------------------------
  // Properties of lookup and registration

  lemma EmptyScopeValid(chain: seq<Scope>)
    requires ChainValid(chain)
    ensures ChainValid([EmptyScope(chain[0].currentRbpOffset)] + chain)
  {
    assert ([EmptyScope(chain[0].currentRbpOffset)] + chain)[1..] == chain;
  }

  /** Each scope of a valid chain is valid relative to its parent's allocator. */
  lemma {:induction false} ChainValidAt(chain: seq<Scope>, i: nat)
    requires ChainValid(chain) && i < |chain|
    ensures ScopeValid(chain[i], Floor(chain, i))
  {
    if i > 0 {
      ChainValidAt(chain[1..], i - 1);
      assert chain[1..][i - 1] == chain[i];
      assert Floor(chain[1..], i - 1) == Floor(chain, i);
    }
  }

  /** A scope stays valid when only entries of its counter map that keep
      their value are touched (`get_shadow_count_mut` inserting a 0). */
  lemma SameCountsValid(sc: Scope, sc': Scope, floor: nat)
    requires ScopeValid(sc, floor)
    requires sc'.symtable == sc.symtable && sc'.currentRbpOffset == sc.currentRbpOffset
    requires forall n :: ShadowCount(sc', n) == ShadowCount(sc, n)
    ensures ScopeValid(sc', floor)
  {
  }

  /** `get_symbol` answers `None` exactly when no scope of the chain holds
      the generation of `name` that is current in that scope. */
  lemma {:induction false} LookupNoneIff(chain: seq<Scope>, name: string)
    ensures Lookup(chain, name).None? <==> forall i :: 0 <= i < |chain| ==> !HasCurrent(chain[i], name)
  {
    if chain != [] {
      LookupNoneIff(chain[1..], name);
      if !HasCurrent(chain[0], name) {
        forall i | 1 <= i < |chain| ensures chain[i] == chain[1..][i - 1] {}
      }
    }
  }

  /** When `get_symbol` finds a symbol it is the current generation in the
      NEAREST scope that holds one; every scope in front of it misses. */
  lemma {:induction false} LookupWitness(chain: seq<Scope>, name: string) returns (i: nat)
    requires Lookup(chain, name).Some?
    ensures i < |chain| && HasCurrent(chain[i], name)
    ensures Lookup(chain, name).value == chain[i].symtable[CurrentKey(chain[i], name)]
    ensures forall j :: 0 <= j < i ==> !HasCurrent(chain[j], name)
  {
    if HasCurrent(chain[0], name) {
      i := 0;
    } else {
      var k := LookupWitness(chain[1..], name);
      i := k + 1;
    }
  }

  /** In a valid scope a name that was never registered there has no entry,
      so its lookup falls through to the enclosing scopes. */
  lemma UnregisteredFallsThrough(chain: seq<Scope>, name: string)
    requires |chain| >= 1 && ScopeValid(chain[0], Floor(chain, 0))
    requires ShadowCount(chain[0], name) == 0
    ensures Lookup(chain, name) == Lookup(chain[1..], name)
  {
  }

  /** Right after registering `name`, the lookup of `name` yields the new symbol. */
  lemma LookupRegistered(sc: Scope, parents: seq<Scope>, name: string, sizeBytes: nat, initialized: bool)
    ensures Lookup([Registered(sc, name, sizeBytes, initialized)] + parents, name)
         == Some(Symbol(Decorated(name, ShadowCount(sc, name) + 1), sizeBytes, sc.currentRbpOffset + SlotSize, initialized))
  {
  }

  /** What `register_symbol` guarantees of the chain it leaves: still
      valid, `name` resolves to the new symbol and every other name to
      what it resolved to before. */
  lemma RegisterFacts(sc: Scope, parents: seq<Scope>, name: string, sizeBytes: nat, initialized: bool)
    requires ChainValid([sc] + parents)
    ensures var c := [Registered(sc, name, sizeBytes, initialized)] + parents;
            ChainValid(c)
            && Lookup(c, name)
               == Some(Symbol(Decorated(name, ShadowCount(sc, name) + 1), sizeBytes, sc.currentRbpOffset + SlotSize, initialized))
            && forall other :: other != name ==> Lookup(c, other) == Lookup([sc] + parents, other)
  {
    RegisterValid(sc, parents, name, sizeBytes, initialized);
    LookupRegistered(sc, parents, name, sizeBytes, initialized);
    forall other | other != name
      ensures Lookup([Registered(sc, name, sizeBytes, initialized)] + parents, other) == Lookup([sc] + parents, other)
    {
      LookupOtherRegistered(sc, parents, name, other, sizeBytes, initialized);
    }
  }

  /** Registering `name` does not change what any other name resolves to. */
  lemma LookupOtherRegistered(sc: Scope, parents: seq<Scope>, name: string, other: string,
                              sizeBytes: nat, initialized: bool)
    requires other != name
    ensures Lookup([Registered(sc, name, sizeBytes, initialized)] + parents, other)
         == Lookup([sc] + parents, other)
  {
    var r := Registered(sc, name, sizeBytes, initialized);
    var newKey := Decorated(name, ShadowCount(sc, name) + 1);
    assert CurrentKey(r, other) == CurrentKey(sc, other);
    if CurrentKey(sc, other) == newKey {
      DecoratedInjective(other, ShadowCount(sc, other), name, ShadowCount(sc, name) + 1);
    }
    assert r.symtable == sc.symtable[newKey := r.symtable[newKey]];
    assert ([r] + parents)[1..] == parents == ([sc] + parents)[1..];
  }

  /** Registration keeps the chain valid: the new offset is above every
      offset in the chain, and the new generation is fresh in the head. */
  lemma RegisterValid(sc: Scope, parents: seq<Scope>, name: string, sizeBytes: nat, initialized: bool)
    requires ChainValid([sc] + parents)
    ensures ChainValid([Registered(sc, name, sizeBytes, initialized)] + parents)
  {
    var old_ := [sc] + parents;
    var r := Registered(sc, name, sizeBytes, initialized);
    var c := [r] + parents;
    var floor := Floor(old_, 0);
    assert Floor(c, 0) == floor;
    assert ScopeValid(sc, floor);
    var g := ShadowCount(sc, name) + 1;
    var key := Decorated(name, g);
    assert r.symtable == sc.symtable[key := Symbol(key, sizeBytes, sc.currentRbpOffset + SlotSize, initialized)];
    forall n: string, h: nat | Decorated(n, h) in r.symtable ensures 1 <= h <= ShadowCount(r, n) {
      if Decorated(n, h) == key {
        DecoratedInjective(n, h, name, g);
      } else {
        assert Decorated(n, h) in sc.symtable;
      }
    }
    assert ScopeValid(r, floor);
    assert c[1..] == parents == old_[1..];
  }

  /** Offsets along a valid chain never repeat: two entries of the chain at
      different places (different scopes, or different names in one scope)
      have different offsets. */
  lemma ChainOffsetsDistinct(chain: seq<Scope>, i: nat, k1: string, j: nat, k2: string)
    requires ChainValid(chain)
    requires i < |chain| && j < |chain| && k1 in chain[i].symtable && k2 in chain[j].symtable
    requires i != j || k1 != k2
    ensures chain[i].symtable[k1].rbpOffset != chain[j].symtable[k2].rbpOffset
  {
    var o1, o2 := chain[i].symtable[k1].rbpOffset, chain[j].symtable[k2].rbpOffset;
    ChainValidAt(chain, i);
    ChainValidAt(chain, j);
    if i < j {
      ChainFloorsDecrease(chain, i + 1, j);
      assert o2 <= chain[j].currentRbpOffset <= Floor(chain, i) < o1;
    } else if j < i {
      ChainFloorsDecrease(chain, j + 1, i);
      assert o1 <= chain[i].currentRbpOffset <= Floor(chain, j) < o2;
    }
  }

  /** Allocators do not decrease from the root towards the head. */
  lemma {:induction false} ChainFloorsDecrease(chain: seq<Scope>, i: nat, j: nat)
    requires ChainValid(chain) && i <= j < |chain|
    ensures chain[j].currentRbpOffset <= chain[i].currentRbpOffset
    decreases j - i
  {
    if i < j {
      ChainFloorsDecrease(chain, i + 1, j);
      ChainValidAt(chain, i);
    }
  }
}

/** What the deep merge means path by path, and exactly when it is an override of flat maps and associative. */
module DeepMergeLaws {
  import opened Results
  import opened ConfigTree
  import opened DeepMerge

  // ----- path semantics -----

  /** Whether the merge reaches into both trees at key `k` instead of choosing one side. */
  ghost predicate BothDicts(b: Tree, o: Tree, k: string) {
    k in b && k in o && b[k].Dict? && o[k].Dict?
  }

  lemma MergedAt(b: Tree, o: Tree, k: string, p: Path)
    ensures At(Merged(b, o), [k] + p) ==
      if BothDicts(b, o, k) then At(Merged(b[k].entries, o[k].entries), p)
      else if k in o && o[k] != Null then Sub(o[k], p)
      else if k in b then Sub(b[k], p)
      else None
  {
    AtStep(Merged(b, o), k, p);
  }

  /** The override always wins: every leaf it sets is in the result, whatever the base holds. */
  lemma {:induction false} OverrideWins(b: Tree, o: Tree, p: Path)
    requires LeafAt(o, p)
    ensures At(Merged(b, o), p) == At(o, p)
    decreases p
  {
    var k, rest := p[0], p[1..];
    assert p == [k] + rest;
    AtStep(o, k, rest);
    MergedAt(b, o, k, rest);
    if BothDicts(b, o, k) {
      OverrideWins(b[k].entries, o[k].entries, rest);
    }
  }

  /** The dictionary that `p` would stand in is there, and holds nothing or None under the last key. */
  ghost predicate NothingAt(t: Tree, p: Path) {
    p != [] && DictAt(t, p[..|p| - 1]) && (At(t, p) == None || NullAt(t, p))
  }

  /** Where the override sets nothing in a dictionary of its own, the base decides if it has that dictionary too. */
  lemma {:induction false} NothingInOverride(b: Tree, o: Tree, p: Path)
    requires NothingAt(o, p)
    ensures At(Merged(b, o), p) == if DictAt(b, p[..|p| - 1]) then At(b, p) else At(o, p)
    decreases p
  {
    var k, rest := p[0], p[1..];
    assert p == [k] + rest;
    AtStep(o, k, rest);
    AtStep(b, k, rest);
    MergedAt(b, o, k, rest);
    if rest != [] {
      assert p[..|p| - 1] == [k] + rest[..|rest| - 1];
      AtStep(b, k, rest[..|rest| - 1]);
      AtStep(o, k, rest[..|rest| - 1]);
      if BothDicts(b, o, k) {
        NothingInOverride(b[k].entries, o[k].entries, rest);
      }
    }
  }

  /** A None of the override gives way to the base as far as the merge reaches into both; elsewhere it is copied. */
  lemma NoneInOverride(b: Tree, o: Tree, p: Path)
    requires p != [] && NullAt(o, p)
    ensures At(Merged(b, o), p) == if DictAt(b, p[..|p| - 1]) then At(b, p) else Some(Null)
  {
    SubOfConcat(Dict(o), p[..|p| - 1], p[|p| - 1..]);
    assert p == p[..|p| - 1] + p[|p| - 1..];
    NothingInOverride(b, o, p);
  }

  /** Of two None values one level apart, one loses to the base and one stands. */
  lemma NoneLosesAndStands(k: string, j: string, v: Value)
    requires v != Null
    ensures At(Merged(map[k := v], map[k := Null]), [k]) == Some(v)
    ensures At(Merged(map[], map[k := Dict(map[j := Null])]), [k, j]) == Some(Null)
  {
    AtStep(map[k := Null], k, []);
    AtStep(map[k := v], k, []);
    NoneInOverride(map[k := v], map[k := Null], [k] + []);
    AtStep(map[k := Dict(map[j := Null])], k, [j]);
    AtStep(map[j := Null], j, []);
    assert [k, j] == [k] + [j] && [j] == [j] + [] && [k, j][..1] == [k];
    AtStep(map[], k, []);
    NoneInOverride(map[], map[k := Dict(map[j := Null])], [k, j]);
  }

  lemma {:induction false} DictSurvives(b: Tree, o: Tree, p: Path)
    requires DictAt(o, p)
    ensures DictAt(Merged(b, o), p)
    decreases p
  {
    if p != [] {
      var k, rest := p[0], p[1..];
      assert p == [k] + rest;
      AtStep(o, k, rest);
      MergedAt(b, o, k, rest);
      if BothDicts(b, o, k) {
        DictSurvives(b[k].entries, o[k].entries, rest);
      }
    }
  }

  lemma {:induction false} DictComesFrom(b: Tree, o: Tree, p: Path)
    requires DictAt(Merged(b, o), p)
    ensures DictAt(b, p) || DictAt(o, p)
    decreases p
  {
    if p != [] {
      var k, rest := p[0], p[1..];
      assert p == [k] + rest;
      AtStep(b, k, rest);
      AtStep(o, k, rest);
      MergedAt(b, o, k, rest);
      if BothDicts(b, o, k) {
        DictComesFrom(b[k].entries, o[k].entries, rest);
      }
    }
  }

  /** Read as a flat map, the result at `p` is the override's leaf, or the base's where the override has none. */
  ghost predicate OverridesAt(b: Tree, o: Tree, p: Path) {
    Leaf(Merged(b, o), p) == if Leaf(o, p).Some? then Leaf(o, p) else Leaf(b, p)
  }

  /** A leaf of the override above a leaf of the base. */
  ghost predicate Shadows(b: Tree, o: Tree, p: Path, q: Path) {
    q != [] && LeafAt(o, p) && LeafAt(b, p + q)
  }

  /** No leaf of one tree sits where the other has a dictionary that matters. */
  ghost predicate ShapeCompatible(b: Tree, o: Tree) {
    && (forall p, q :: !Shadows(b, o, p, q))
    && (forall p :: !(LeafAt(b, p) && DictAt(o, p)))
  }

  lemma CompatibleBelow(b: Tree, o: Tree, k: string)
    requires ShapeCompatible(b, o) && BothDicts(b, o, k)
    ensures ShapeCompatible(b[k].entries, o[k].entries)
  {
    var b', o' := b[k].entries, o[k].entries;
    forall p, q ensures !Shadows(b', o', p, q) {
      AtStep(o, k, p);
      AtStep(b, k, p + q);
      assert [k] + (p + q) == ([k] + p) + q;
      assert !Shadows(b, o, [k] + p, q);
    }
    forall p ensures !(LeafAt(b', p) && DictAt(o', p)) {
      AtStep(b, k, p);
      AtStep(o, k, p);
      assert !(LeafAt(b, [k] + p) && DictAt(o, [k] + p));
    }
  }

  lemma {:induction false} CompatibleOverrides(b: Tree, o: Tree, p: Path)
    requires ShapeCompatible(b, o)
    ensures OverridesAt(b, o, p)
    decreases p
  {
    if p != [] {
      var k, rest := p[0], p[1..];
      assert p == [k] + rest;
      AtStep(b, k, rest);
      AtStep(o, k, rest);
      MergedAt(b, o, k, rest);
      if BothDicts(b, o, k) {
        CompatibleBelow(b, o, k);
        CompatibleOverrides(b[k].entries, o[k].entries, rest);
      } else if k in b && k in o && o[k] != Null {
        ReplacedHidesNothing(b, o, k, rest);
      }
    }
  }

  /** Where the override replaces the base outright, the base has no leaf the override does not set. */
  lemma ReplacedHidesNothing(b: Tree, o: Tree, k: string, rest: Path)
    requires ShapeCompatible(b, o) && k in b && k in o && o[k] != Null && !BothDicts(b, o, k)
    ensures LeafAt(b, [k] + rest) ==> LeafAt(o, [k] + rest)
  {
    assert !Shadows(b, o, [k] + [], rest);
    assert !(LeafAt(b, [k] + []) && DictAt(o, [k] + []));
    assert [k] + [] + rest == [k] + rest;
    AtStep(b, k, rest);
    AtStep(b, k, []);
    AtStep(o, k, []);
    AtStep(o, k, rest);
  }

  /** The merge is a flat override of path-to-value maps exactly when the two shapes are compatible. */
  lemma FlatOverrideExactly(b: Tree, o: Tree)
    ensures (forall p :: OverridesAt(b, o, p)) <==> ShapeCompatible(b, o)
  {
    if ShapeCompatible(b, o) {
      forall p ensures OverridesAt(b, o, p) {
        CompatibleOverrides(b, o, p);
      }
    }
    if forall p :: OverridesAt(b, o, p) {
      forall p, q ensures !Shadows(b, o, p, q) {
        if Shadows(b, o, p, q) {
          assert OverridesAt(b, o, p + q);
          OverrideWins(b, o, p);
          SubOfConcat(Dict(o), p, q);
          SubOfConcat(Dict(Merged(b, o)), p, q);
        }
      }
      forall p ensures !(LeafAt(b, p) && DictAt(o, p)) {
        if LeafAt(b, p) && DictAt(o, p) {
          assert OverridesAt(b, o, p);
          DictSurvives(b, o, p);
        }
      }
    }
  }

  // ----- algebra -----

  /** Merging a tree into itself changes nothing. */
  lemma {:induction false} MergeIdempotent(t: Tree)
    ensures Merged(t, t) == t
    decreases Dict(t)
  {
    forall k | k in t ensures Merged(t, t)[k] == t[k] {
      if t[k].Dict? {
        MergeIdempotent(t[k].entries);
      }
    }
    assert Merged(t, t).Keys == t.Keys;
  }

  /** Merging `z` over `x` gives `z`: it has every key of `x`, and None only where `x` has it. */
  ghost predicate NothingToAdd(x: Tree, z: Tree)
    decreases Dict(x)
  {
    && x.Keys <= z.Keys
    && (forall k :: k in z && z[k] == Null ==> k in x && x[k] == Null)
    && (forall k :: k in x && k in z && x[k].Dict? && z[k].Dict? ==> NothingToAdd(x[k].entries, z[k].entries))
  }

  lemma {:induction false} NothingToAddExactly(x: Tree, z: Tree)
    ensures Merged(x, z) == z <==> NothingToAdd(x, z)
    decreases Dict(x)
  {
    forall k | k in x && k in z && x[k].Dict? && z[k].Dict?
      ensures Merged(x[k].entries, z[k].entries) == z[k].entries <==> NothingToAdd(x[k].entries, z[k].entries)
    {
      NothingToAddExactly(x[k].entries, z[k].entries);
    }
    if NothingToAdd(x, z) {
      assert Merged(x, z).Keys == z.Keys;
      forall k | k in z ensures Merged(x, z)[k] == z[k] {}
    }
    if Merged(x, z) == z {
      forall k | k in z && z[k] == Null ensures k in x && x[k] == Null {
        assert k in Merged(x, z);
      }
      forall k | k in x && k in z && x[k].Dict? && z[k].Dict? ensures NothingToAdd(x[k].entries, z[k].entries) {
        assert Merged(x, z)[k] == z[k];
      }
    }
  }

  /**
   At `p` a leaf in the middle stands between a dictionary of `a` and one of `c`, and the first has a
   key that the second lacks, or lacks a None that the second has.
   */
  ghost predicate Sandwiched(a: Tree, b: Tree, c: Tree, p: Path) {
    && DictAt(a, p) && LeafAt(b, p) && DictAt(c, p)
    && !NothingToAdd(At(a, p).value.entries, At(c, p).value.entries)
  }

  ghost predicate AllDicts(a: Tree, b: Tree, c: Tree, k: string) {
    BothDicts(a, b, k) && BothDicts(b, c, k)
  }

  ghost predicate SandwichedAtKey(a: Tree, b: Tree, c: Tree, k: string) {
    && k in a && k in b && k in c && a[k].Dict? && b[k].Atom? && c[k].Dict?
    && !NothingToAdd(a[k].entries, c[k].entries)
  }

  lemma SandwichStep(a: Tree, b: Tree, c: Tree, k: string, p: Path)
    ensures Sandwiched(a, b, c, [k] + p) ==
      if AllDicts(a, b, c, k) then Sandwiched(a[k].entries, b[k].entries, c[k].entries, p)
      else p == [] && SandwichedAtKey(a, b, c, k)
  {
    AtStep(a, k, p);
    AtStep(b, k, p);
    AtStep(c, k, p);
  }

  ghost function Look(t: Tree, k: string): Option<Value> {
    if k in t then Some(t[k]) else None
  }

  /** The merge of what two trees hold at one key. */
  ghost function Combined(x: Option<Value>, y: Option<Value>): Option<Value> {
    if y.None? || y.value == Null then x
    else if x.Some? && x.value.Dict? && y.value.Dict? then Some(Dict(Merged(x.value.entries, y.value.entries)))
    else y
  }

  lemma LookMerged(b: Tree, o: Tree, k: string)
    ensures Look(Merged(b, o), k) == Combined(Look(b, k), Look(o, k))
  {}

  lemma SameLooks(s: Tree, t: Tree)
    requires forall k :: Look(s, k) == Look(t, k)
    ensures s == t
  {
    forall k ensures k in s <==> k in t { assert Look(s, k) == Look(t, k); }
    forall k | k in s ensures s[k] == t[k] { assert Look(s, k) == Look(t, k); }
  }

  lemma RegroupAt(a: Tree, b: Tree, c: Tree, k: string)
    ensures Look(Merged(Merged(a, b), c), k) == Combined(Combined(Look(a, k), Look(b, k)), Look(c, k))
    ensures Look(Merged(a, Merged(b, c)), k) == Combined(Look(a, k), Combined(Look(b, k), Look(c, k)))
  {
    LookMerged(a, b, k);
    LookMerged(b, c, k);
    LookMerged(Merged(a, b), c, k);
    LookMerged(a, Merged(b, c), k);
  }

  lemma RegroupInside(a: Tree, b: Tree, c: Tree, k: string)
    requires AllDicts(a, b, c, k)
    ensures var x, y, z := a[k].entries, b[k].entries, c[k].entries;
      && Look(Merged(Merged(a, b), c), k) == Some(Dict(Merged(Merged(x, y), z)))
      && Look(Merged(a, Merged(b, c)), k) == Some(Dict(Merged(x, Merged(y, z))))
  {
    RegroupAt(a, b, c, k);
  }

  lemma RegroupElsewhere(a: Tree, b: Tree, c: Tree, k: string)
    requires !AllDicts(a, b, c, k)
    ensures Look(Merged(Merged(a, b), c), k) == Look(Merged(a, Merged(b, c)), k) <==> !SandwichedAtKey(a, b, c, k)
  {
    RegroupAt(a, b, c, k);
    if SandwichedAtKey(a, b, c, k) || (k in a && k in c && a[k].Dict? && c[k].Dict?) {
      NothingToAddExactly(a[k].entries, c[k].entries);
    }
  }

  lemma {:induction false} AssociativeUnlessSandwiched(a: Tree, b: Tree, c: Tree)
    requires forall p :: !Sandwiched(a, b, c, p)
    ensures Merged(Merged(a, b), c) == Merged(a, Merged(b, c))
    decreases Dict(a), 1
  {
    forall k ensures Look(Merged(Merged(a, b), c), k) == Look(Merged(a, Merged(b, c)), k) {
      if AllDicts(a, b, c, k) {
        AssociativeInside(a, b, c, k);
      } else {
        SandwichStep(a, b, c, k, []);
        assert !Sandwiched(a, b, c, [k] + []);
        RegroupElsewhere(a, b, c, k);
      }
    }
    SameLooks(Merged(Merged(a, b), c), Merged(a, Merged(b, c)));
  }

  lemma {:induction false} AssociativeInside(a: Tree, b: Tree, c: Tree, k: string)
    requires AllDicts(a, b, c, k) && forall p :: !Sandwiched(a, b, c, p)
    ensures Look(Merged(Merged(a, b), c), k) == Look(Merged(a, Merged(b, c)), k)
    decreases Dict(a), 0
  {
    forall p ensures !Sandwiched(a[k].entries, b[k].entries, c[k].entries, p) {
      SandwichStep(a, b, c, k, p);
      assert !Sandwiched(a, b, c, [k] + p);
    }
    AssociativeUnlessSandwiched(a[k].entries, b[k].entries, c[k].entries);
    RegroupInside(a, b, c, k);
  }

  lemma {:induction false} SandwichBreaksAssociativity(a: Tree, b: Tree, c: Tree, p: Path)
    requires Sandwiched(a, b, c, p)
    ensures Merged(Merged(a, b), c) != Merged(a, Merged(b, c))
    decreases p
  {
    var k, rest := p[0], p[1..];
    assert p == [k] + rest;
    SandwichStep(a, b, c, k, rest);
    if AllDicts(a, b, c, k) {
      SandwichBreaksAssociativity(a[k].entries, b[k].entries, c[k].entries, rest);
      RegroupInside(a, b, c, k);
    } else {
      RegroupElsewhere(a, b, c, k);
    }
  }

  /** Grouping matters exactly at a sandwiched leaf. */
  lemma AssociativeExactly(a: Tree, b: Tree, c: Tree)
    ensures Merged(Merged(a, b), c) == Merged(a, Merged(b, c)) <==> forall p :: !Sandwiched(a, b, c, p)
  {
    if forall p :: !Sandwiched(a, b, c, p) {
      AssociativeUnlessSandwiched(a, b, c);
    } else {
      var p :| Sandwiched(a, b, c, p);
      SandwichBreaksAssociativity(a, b, c, p);
    }
  }

  /** Layers of compatible shapes can be grouped either way; it is enough that the upper two are compatible. */
  lemma CompatibleAssociative(a: Tree, b: Tree, c: Tree)
    requires ShapeCompatible(b, c)
    ensures Merged(Merged(a, b), c) == Merged(a, Merged(b, c))
  {
    forall p ensures !Sandwiched(a, b, c, p) {
      assert !(LeafAt(b, p) && DictAt(c, p));
    }
    AssociativeUnlessSandwiched(a, b, c);
  }

  /** A None of the last layer is enough to tell the groupings apart, though the first layer adds nothing. */
  lemma NoneTellsGroupingsApart(x: string, k: string, leaf: Value)
    requires leaf.Atom?
    ensures var a, b, c := map[x := Dict(map[])], map[x := leaf], map[x := Dict(map[k := Null])];
      Merged(Merged(a, b), c) != Merged(a, Merged(b, c))
  {
    var a, b, c := map[x := Dict(map[])], map[x := leaf], map[x := Dict(map[k := Null])];
    AtStep(a, x, []);
    AtStep(b, x, []);
    AtStep(c, x, []);
    assert c[x].entries[k] == Null && k !in a[x].entries;
    assert Sandwiched(a, b, c, [x] + []);
    SandwichBreaksAssociativity(a, b, c, [x] + []);
  }

  // ----- an override that is not flat -----

  /** A leaf of the override removes what stands below it in the base. */
  lemma LeafHidesASubtree(x: string, k: string, below: Value, leaf: Value)
    requires below.Atom? && leaf.Atom?
    ensures var b, o := map[x := Dict(map[k := below])], map[x := leaf];
      LeafAt(b, [x, k]) && !LeafAt(Merged(b, o), [x, k]) && !OverridesAt(b, o, [x, k])
  {
    var b, o := map[x := Dict(map[k := below])], map[x := leaf];
    assert [x, k] == [x] + [k] && [k] == [k] + [];
    AtStep(map[k := below], k, []);
    AtStep(b, x, [k]);
    AtStep(o, x, [k]);
    MergedAt(b, o, x, [k]);
  }

  // ----- stacking more than two layers -----

  lemma CompatibleWithMerge(b: Tree, x: Tree, y: Tree)
    requires ShapeCompatible(b, x) && ShapeCompatible(b, y) && ShapeCompatible(x, y)
    ensures ShapeCompatible(b, Merged(x, y))
  {
    forall p, q ensures !Shadows(b, Merged(x, y), p, q) {
      CompatibleOverrides(x, y, p);
      assert !Shadows(b, x, p, q) && !Shadows(b, y, p, q);
    }
    forall p ensures !(LeafAt(b, p) && DictAt(Merged(x, y), p)) {
      assert !(LeafAt(b, p) && DictAt(x, p)) && !(LeafAt(b, p) && DictAt(y, p));
      if DictAt(Merged(x, y), p) {
        DictComesFrom(x, y, p);
      }
    }
  }
}

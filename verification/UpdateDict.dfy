/**
 `update_dict`, the report's deep update, as a function of the two trees: unlike the deep merge it
 writes None, keeps a dictionary when the new value is falsy, and raises when a dictionary would
 have to give way to anything else. `UpdateInPlace` is the method over linked dictionaries.
 */
module UpdateDict {
  import opened Results
  import opened ConfigTree
  import opened DeepMerge
  import opened DeepMergeLaws

  /** Whether `update_dict(dest, source)` raises TypeError. */
  ghost predicate Raises(dest: Tree, source: Tree)
    decreases Dict(source)
  {
    exists k :: k in source && RaisesAtKey(dest, source, k)
  }

  ghost predicate RaisesAtKey(dest: Tree, source: Tree, k: string)
    requires k in source
    decreases Dict(source), 0
  {
    && k in dest && dest[k].Dict? && Truthy(source[k])
    && (source[k].Dict? ==> Raises(dest[k].entries, source[k].entries))
  }

  /** The updated tree, when nothing raises. */
  ghost function Updated(dest: Tree, source: Tree): (r: Tree)
    ensures r.Keys == dest.Keys + source.Keys
    decreases Dict(source)
  {
    map k | k in dest.Keys + source.Keys ::
      if k !in source then dest[k]
      else if k !in dest || !dest[k].Dict? then source[k]
      else if source[k].Dict? then Dict(Updated(dest[k].entries, source[k].entries))
      else dest[k]
  }

  lemma UpdatedAt(d: Tree, s: Tree, k: string, p: Path)
    ensures At(Updated(d, s), [k] + p) ==
      if BothDicts(d, s, k) then At(Updated(d[k].entries, s[k].entries), p)
      else if k in s && !(k in d && d[k].Dict?) then Sub(s[k], p)
      else if k in d then Sub(d[k], p)
      else None
  {
    AtStep(Updated(d, s), k, p);
  }

  // ----- when it raises -----

  ghost predicate ConflictAt(d: Tree, s: Tree, p: Path) {
    DictAt(d, p) && LeafAt(s, p) && Truthy(At(s, p).value)
  }

  lemma ConflictStep(d: Tree, s: Tree, k: string, p: Path)
    ensures ConflictAt(d, s, [k] + p) ==
      (if BothDicts(d, s, k) then ConflictAt(d[k].entries, s[k].entries, p)
       else k in d && k in s && p == [] && d[k].Dict? && s[k].Atom? && s[k].truthy)
  {
    AtStep(d, k, p);
    AtStep(s, k, p);
  }

  lemma {:induction false} ConflictRaises(d: Tree, s: Tree, p: Path)
    requires ConflictAt(d, s, p)
    ensures Raises(d, s)
    decreases p
  {
    var k, rest := p[0], p[1..];
    assert p == [k] + rest;
    ConflictStep(d, s, k, rest);
    AtStep(s, k, rest);
    if BothDicts(d, s, k) {
      ConflictRaises(d[k].entries, s[k].entries, rest);
    }
    assert RaisesAtKey(d, s, k);
  }

  lemma {:induction false} RaisesFromConflict(d: Tree, s: Tree) returns (p: Path)
    requires Raises(d, s)
    ensures ConflictAt(d, s, p)
    decreases Dict(s)
  {
    var k :| k in s && RaisesAtKey(d, s, k);
    if s[k].Dict? {
      var rest := RaisesFromConflict(d[k].entries, s[k].entries);
      ConflictStep(d, s, k, rest);
      p := [k] + rest;
    } else {
      ConflictStep(d, s, k, []);
      p := [k] + [];
    }
  }

  /** It raises exactly when some path holds a dictionary in `dest` and a truthy leaf in `source`. */
  lemma RaisesExactly(d: Tree, s: Tree)
    ensures Raises(d, s) <==> exists p :: ConflictAt(d, s, p)
  {
    if Raises(d, s) {
      var p := RaisesFromConflict(d, s);
    }
    if p :| ConflictAt(d, s, p) {
      ConflictRaises(d, s, p);
    }
  }

  // ----- what reading a path gives afterwards -----

  /** The value `get_nested` finds at `p` after the update; a dictionary stands for "still a dictionary". */
  ghost predicate ReadsBack(d: Tree, s: Tree, p: Path) {
    var after := At(Updated(d, s), p);
    match At(s, p)
    case None => after == At(d, p)
    case Some(Dict(_)) => DictAt(Updated(d, s), p)
    case Some(v) => after == if DictAt(d, p) then At(d, p) else Some(v)
  }

  /**
   Unless it raises, every path reads afterwards as the source's value if the source has one there,
   and as before otherwise; a falsy leaf does not replace a dictionary.
   */
  lemma {:induction false} UpdateReadsBack(d: Tree, s: Tree, p: Path)
    requires !Raises(d, s)
    ensures ReadsBack(d, s, p)
    decreases p
  {
    if p != [] {
      var k, rest := p[0], p[1..];
      assert p == [k] + rest;
      AtStep(d, k, rest);
      AtStep(s, k, rest);
      UpdatedAt(d, s, k, rest);
      if BothDicts(d, s, k) {
        if s[k].entries == map[] {
          NothingToUpdate(d[k].entries);
        } else {
          assert !RaisesAtKey(d, s, k);
        }
        UpdateReadsBack(d[k].entries, s[k].entries, rest);
      } else if k in d && k in s && d[k].Dict? {
        assert !RaisesAtKey(d, s, k);
      }
    }
  }

  lemma NothingToUpdate(d: Tree)
    ensures Updated(d, map[]) == d && !Raises(d, map[])
  {}

  // ----- twice is once -----

  lemma {:induction false} SelfUpdate(t: Tree)
    ensures Updated(t, t) == t && !Raises(t, t)
    decreases Dict(t)
  {
    forall k | k in t ensures Updated(t, t)[k] == t[k] && !RaisesAtKey(t, t, k) {
      if t[k].Dict? {
        SelfUpdate(t[k].entries);
      }
    }
  }

  lemma {:induction false} UpdateTwiceAtKey(d: Tree, s: Tree, k: string)
    requires !Raises(d, s) && k in s
    ensures Updated(Updated(d, s), s)[k] == Updated(d, s)[k] && !RaisesAtKey(Updated(d, s), s, k)
    decreases Dict(s), 0
  {
    assert !RaisesAtKey(d, s, k);
    if BothDicts(d, s, k) {
      if s[k].entries == map[] {
        NothingToUpdate(d[k].entries);
      }
      UpdateTwice(d[k].entries, s[k].entries);
    } else if s[k].Dict? {
      SelfUpdate(s[k].entries);
    }
  }

  /** Applying the same update twice neither raises nor changes anything the second time. */
  lemma {:induction false} UpdateTwice(d: Tree, s: Tree)
    requires !Raises(d, s)
    ensures Updated(Updated(d, s), s) == Updated(d, s) && !Raises(Updated(d, s), s)
    decreases Dict(s), 1
  {
    forall k | k in s
      ensures Updated(Updated(d, s), s)[k] == Updated(d, s)[k] && !RaisesAtKey(Updated(d, s), s, k)
    {
      UpdateTwiceAtKey(d, s, k);
    }
  }

  // ----- agreement with the other deep merge -----

  /** The two merges part ways at `p`: a leaf meets a dictionary, or a None meets a dictionary entry to be written. */
  ghost predicate DivergesAt(d: Tree, s: Tree, p: Path, k: string) {
    && DictAt(d, p) && DictAt(s, p)
    && var x, y := At(d, p).value.entries, At(s, p).value.entries;
       k in y && ((y[k].Atom? && k in x && x[k].Dict?) || (y[k].Null? && (k in x ==> x[k].Atom?)))
  }

  lemma DivergenceStep(d: Tree, s: Tree, j: string, p: Path, k: string)
    ensures DivergesAt(d, s, [j] + p, k) == (BothDicts(d, s, j) && DivergesAt(d[j].entries, s[j].entries, p, k))
  {
    AtStep(d, j, p);
    AtStep(s, j, p);
  }

  ghost predicate Agree(d: Tree, s: Tree) {
    !Raises(d, s) && Updated(d, s) == Merged(d, s)
  }

  lemma {:induction false} AgreeAtKey(d: Tree, s: Tree, k: string)
    requires k in s && forall p, j :: !DivergesAt(d, s, p, j)
    ensures k in Merged(d, s) && Updated(d, s)[k] == Merged(d, s)[k] && !RaisesAtKey(d, s, k)
    decreases Dict(s), 0
  {
    assert !DivergesAt(d, s, [], k);
    if BothDicts(d, s, k) {
      forall p, j ensures !DivergesAt(d[k].entries, s[k].entries, p, j) {
        DivergenceStep(d, s, k, p, j);
        assert !DivergesAt(d, s, [k] + p, j);
      }
      AgreeUnlessDiverging(d[k].entries, s[k].entries);
    }
  }

  lemma {:induction false} AgreeUnlessDiverging(d: Tree, s: Tree)
    requires forall p, k :: !DivergesAt(d, s, p, k)
    ensures Agree(d, s)
    decreases Dict(s), 1
  {
    forall k | k in s
      ensures k in Merged(d, s) && Updated(d, s)[k] == Merged(d, s)[k] && !RaisesAtKey(d, s, k)
    {
      AgreeAtKey(d, s, k);
    }
    assert Updated(d, s).Keys == Merged(d, s).Keys;
  }

  lemma {:induction false} DivergenceBreaksAgreement(d: Tree, s: Tree, p: Path, k: string)
    requires DivergesAt(d, s, p, k)
    ensures !Agree(d, s)
    decreases p
  {
    if p == [] {
      if s[k].Null? {
        assert k in Updated(d, s) && Updated(d, s)[k] == Null;
        assert k in Merged(d, s) ==> Merged(d, s)[k] != Null;
      } else {
        assert Updated(d, s)[k] != Merged(d, s)[k];
      }
    } else {
      var j, rest := p[0], p[1..];
      assert p == [j] + rest;
      DivergenceStep(d, s, j, rest, k);
      DivergenceBreaksAgreement(d[j].entries, s[j].entries, rest, k);
      assert RaisesAtKey(d, s, j) || Updated(d, s)[j] != Merged(d, s)[j] || !Truthy(s[j]);
    }
  }

  /** `update_dict` agrees with `_deep_merge_dicts` exactly where no leaf meets a dictionary and no None is written. */
  lemma AgreeExactly(d: Tree, s: Tree)
    ensures Agree(d, s) <==> forall p, k :: !DivergesAt(d, s, p, k)
  {
    if p, k :| DivergesAt(d, s, p, k) {
      DivergenceBreaksAgreement(d, s, p, k);
    } else {
      AgreeUnlessDiverging(d, s);
    }
  }

  // ----- an update that stops half-way -----

  /** Every entry is the old one, the updated one, or a dictionary for whose entries the same holds. */
  ghost predicate Between(d: Tree, now: Tree, u: Tree)
    decreases Dict(now)
  {
    && d.Keys <= now.Keys <= u.Keys
    && forall k :: k in now ==>
         || (k in d && now[k] == d[k])
         || now[k] == u[k]
         || (&& k in d && d[k].Dict? && now[k].Dict? && u[k].Dict?
             && Between(d[k].entries, now[k].entries, u[k].entries))
  }

  /** So every path reads as before or as after the update, unless it leads to a dictionary half-way between. */
  lemma {:induction false} BetweenReads(d: Tree, now: Tree, u: Tree, p: Path)
    requires Between(d, now, u)
    ensures || At(now, p) == At(d, p)
            || At(now, p) == At(u, p)
            || (DictAt(d, p) && DictAt(now, p) && DictAt(u, p))
    decreases p
  {
    if p != [] {
      var k, rest := p[0], p[1..];
      if k in now && k in d && d[k].Dict? && now[k].Dict? && u[k].Dict? && now[k] != d[k] && now[k] != u[k] {
        BetweenReads(d[k].entries, now[k].entries, u[k].entries, rest);
      }
    }
  }

  // ----- where it is not an overwrite -----

  /** A true leaf meeting a dictionary raises; a false one leaves the dictionary, where the deep merge replaces it. */
  lemma LeafMeetsADict(x: string, below: Tree, leaf: Value)
    requires leaf.Atom?
    ensures var d, s := map[x := Dict(below)], map[x := leaf];
      && Raises(d, s) == leaf.truthy
      && Updated(d, s) == d && Merged(d, s) == s
      && !Agree(d, s)
  {
    var d, s := map[x := Dict(below)], map[x := leaf];
    assert RaisesAtKey(d, s, x) == leaf.truthy;
    assert Updated(d, s)[x] == d[x] && Merged(d, s)[x] == s[x];
    assert s[x] != d[x];
  }

  /** A None is written by the update and skipped by the deep merge. */
  lemma NoneIsWritten(x: string)
    ensures Updated(map[], map[x := Null]) == map[x := Null] && Merged(map[], map[x := Null]) == map[]
    ensures !Agree(map[], map[x := Null])
  {
    assert x in Updated(map[], map[x := Null]) && x !in Merged(map[], map[x := Null]);
  }
}

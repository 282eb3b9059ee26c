/** The override layers of a standup: `--set` over the description over `--no-pvc` over `--cluster-config`. */
module SetupOverrides {
  import opened Results
  import opened ConfigTree
  import opened DeepMerge
  import opened DeepMergeLaws

  const GLOBAL_SELECTOR := "*"

  type Selectors = map<string, Tree>

  function Bucket(bySelector: Selectors): Tree {
    if GLOBAL_SELECTOR in bySelector then bySelector[GLOBAL_SELECTOR] else map[]
  }

  /** `text` and the parsed keyword list enter the description only when given. */
  function DescriptionOverrides(text: string, keywords: Option<Value>): Tree {
    var description := (if text != "" then map["text" := Atom(text, true)] else map[])
                     + (if keywords.Some? then map["keywords" := keywords.value] else map[]);
    if description == map[] then map[] else map["description" := Dict(description)]
  }

  function NoPvcOverrides(command: string, noPvc: bool): Tree {
    if command !in ["standup", "update"] || !noPvc then map[]
    else map[
      "modelservice" := Dict(map["uriProtocol" := Atom("hf", true)]),
      "standalone" := Dict(map["mountModelVolume" := Atom("false", false)])
    ]
  }

  /** A layer that is given goes underneath the bucket; an empty one leaves it as it was. */
  function Under(layer: Tree, bucket: Tree): Tree {
    if layer == map[] then bucket else Merged(layer, bucket)
  }

  function Layered(set_: Tree, description: Tree, noPvc: Tree, cluster: Tree): Tree {
    Under(cluster, Under(noPvc, Under(description, set_)))
  }

  /** `by_selector["*"] = _deep_merge_dicts(layer, by_selector.get("*", {}))`, guarded by the layer being given. */
  method Underlay(layer: Tree, bySelector: Selectors) returns (r: Selectors)
    ensures Bucket(r) == Under(layer, Bucket(bySelector))
    ensures r - {GLOBAL_SELECTOR} == bySelector - {GLOBAL_SELECTOR}
    ensures GLOBAL_SELECTOR in r <==> GLOBAL_SELECTOR in bySelector || layer != map[]
  {
    r := bySelector;
    if layer != map[] {
      var merged := DeepMergeDicts(layer, Bucket(bySelector));
      r := r[GLOBAL_SELECTOR := merged];
    }
  }

  method BuildSetupOverridesByStack(setOverrides: Selectors, text: string, keywords: Option<Value>,
                                    command: string, noPvc: bool, clusterOverrides: Tree)
    returns (bySelector: Selectors)
    ensures Bucket(bySelector) == Layered(Bucket(setOverrides), DescriptionOverrides(text, keywords),
                                          NoPvcOverrides(command, noPvc), clusterOverrides)
    ensures bySelector - {GLOBAL_SELECTOR} == setOverrides - {GLOBAL_SELECTOR}
    ensures GLOBAL_SELECTOR in bySelector <==>
      || GLOBAL_SELECTOR in setOverrides
      || DescriptionOverrides(text, keywords) != map[]
      || NoPvcOverrides(command, noPvc) != map[]
      || clusterOverrides != map[]
  {
    bySelector := Underlay(DescriptionOverrides(text, keywords), setOverrides);
    bySelector := Underlay(NoPvcOverrides(command, noPvc), bySelector);
    bySelector := Underlay(clusterOverrides, bySelector);
  }

  // ----- the precedence contract -----

  /** An explicit `--set` value wins at its path over every other layer, whatever their shapes. */
  lemma SetAlwaysWins(set_: Tree, description: Tree, noPvc: Tree, cluster: Tree, p: Path)
    requires LeafAt(set_, p)
    ensures At(Layered(set_, description, noPvc, cluster), p) == At(set_, p)
  {
    var one := Under(description, set_);
    var two := Under(noPvc, one);
    OverrideWins(description, set_, p);
    OverrideWins(noPvc, one, p);
    OverrideWins(cluster, two, p);
  }

  // ----- a None given by `--set` -----

  /** A layer that is given and has the dictionary that `p` stands in. */
  ghost predicate Reaches(layer: Tree, p: Path)
    requires p != []
  {
    layer != map[] && DictAt(layer, p[..|p| - 1])
  }

  /** What the layers below make of a path that holds `now`: the first that reaches it with a value settles it. */
  ghost function Fate(layers: seq<Tree>, p: Path, now: Option<Value>): Option<Value>
    requires p != []
  {
    if layers == [] || (now.Some? && now.value != Null) then now
    else Fate(layers[1..], p, if Reaches(layers[0], p) then At(layers[0], p) else now)
  }

  /** A path that is settled stays so: its value, or that it is a dictionary. */
  ghost predicate HasFate(t: Tree, p: Path, fate: Option<Value>)
    requires p != []
  {
    if fate.None? || fate.value == Null then NothingAt(t, p) && At(t, p) == fate
    else if fate.value.Dict? then DictAt(t, p)
    else At(t, p) == fate
  }

  lemma DictAbove(t: Tree, p: Path)
    requires p != [] && At(t, p).Some?
    ensures DictAt(t, p[..|p| - 1])
  {
    SubOfConcat(Dict(t), p[..|p| - 1], p[|p| - 1..]);
    assert p == p[..|p| - 1] + p[|p| - 1..];
  }

  lemma UnderKeepsFate(layer: Tree, bucket: Tree, p: Path, now: Option<Value>)
    requires p != [] && HasFate(bucket, p, now)
    ensures HasFate(Under(layer, bucket), p, Fate([layer], p, now))
  {
    assert [layer][1..] == [];
    if layer != map[] {
      if now.None? || now.value == Null {
        NothingInOverride(layer, bucket, p);
        assert Fate([layer], p, now) == if Reaches(layer, p) then At(layer, p) else now;
        assert At(Under(layer, bucket), p) == Fate([layer], p, now);
        assert p[..|p| - 1] + p[|p| - 1..] == p;
        DictSurvives(layer, bucket, p[..|p| - 1]);
      } else if now.value.Dict? {
        DictSurvives(layer, bucket, p);
      } else {
        OverrideWins(layer, bucket, p);
      }
    }
  }

  /**
   A None given by `--set` is not a value: the first layer below it that has the dictionary it stands in
   and something there decides; a layer that has the dictionary and nothing there removes the None.
   */
  lemma FateOfNone(set_: Tree, description: Tree, noPvc: Tree, cluster: Tree, p: Path)
    requires p != [] && NullAt(set_, p)
    ensures HasFate(Layered(set_, description, noPvc, cluster), p, Fate([description, noPvc, cluster], p, Some(Null)))
  {
    var one := Under(description, set_);
    var two := Under(noPvc, one);
    DictAbove(set_, p);
    var first := Fate([description], p, Some(Null));
    var second := Fate([noPvc], p, first);
    UnderKeepsFate(description, set_, p, Some(Null));
    UnderKeepsFate(noPvc, one, p, first);
    UnderKeepsFate(cluster, two, p, second);
    FateInTurn(description, [noPvc, cluster], p, Some(Null));
    FateInTurn(noPvc, [cluster], p, first);
  }

  lemma FateInTurn(layer: Tree, layers: seq<Tree>, p: Path, now: Option<Value>)
    requires p != []
    ensures Fate([layer] + layers, p, now) == Fate(layers, p, Fate([layer], p, now))
  {
    assert ([layer] + layers)[1..] == layers && [layer][1..] == [];
  }

  /** `--set modelservice.uriProtocol=null` with `--no-pvc` gives `hf`, whatever the cluster config holds. */
  lemma NoneLosesToNoPvc(cluster: Tree)
    ensures var p, set_ := ["modelservice", "uriProtocol"], map["modelservice" := Dict(map["uriProtocol" := Null])];
      && NullAt(set_, p)
      && At(Layered(set_, map[], NoPvcOverrides("standup", true), cluster), p) == Some(Atom("hf", true))
  {
    var p, set_ := ["modelservice", "uriProtocol"], map["modelservice" := Dict(map["uriProtocol" := Null])];
    var noPvc, hf := NoPvcOverrides("standup", true), Some(Atom("hf", true));
    assert p == ["modelservice"] + ["uriProtocol"] && ["uriProtocol"] == ["uriProtocol"] + [];
    assert p[..1] == ["modelservice"] + [];
    AtStep(set_, "modelservice", ["uriProtocol"]);
    AtStep(map["uriProtocol" := Null], "uriProtocol", []);
    AtStep(noPvc, "modelservice", ["uriProtocol"]);
    AtStep(map["uriProtocol" := Atom("hf", true)], "uriProtocol", []);
    AtStep(noPvc, "modelservice", []);
    FateOfNone(set_, map[], noPvc, cluster, p);
    FateInTurn(map[], [noPvc, cluster], p, Some(Null));
    FateInTurn(noPvc, [cluster], p, Some(Null));
    assert [noPvc][1..] == [] && [cluster][1..] == [];
    assert Fate([noPvc], p, Some(Null)) == hf;
  }

  // ----- the first layer that sets a path -----

  ghost function FirstLeaf(layers: seq<Tree>, p: Path): Option<Value> {
    if layers == [] then None
    else if LeafAt(layers[0], p) then Leaf(layers[0], p)
    else FirstLeaf(layers[1..], p)
  }

  lemma NoLeafInEmpty(p: Path)
    ensures !LeafAt(map[], p)
  {}

  lemma UnderOverrides(layer: Tree, bucket: Tree, p: Path)
    requires ShapeCompatible(layer, bucket)
    ensures Leaf(Under(layer, bucket), p) == if LeafAt(bucket, p) then Leaf(bucket, p) else Leaf(layer, p)
  {
    CompatibleOverrides(layer, bucket, p);
    NoLeafInEmpty(p);
  }

  lemma CompatibleWithUnder(b: Tree, layer: Tree, bucket: Tree)
    requires ShapeCompatible(b, layer) && ShapeCompatible(b, bucket) && ShapeCompatible(layer, bucket)
    ensures ShapeCompatible(b, Under(layer, bucket))
  {
    CompatibleWithMerge(b, layer, bucket);
  }

  /**
   For layers of compatible shapes the whole build reads, at every path, as the first layer that
   sets it: `--set`, then the description, then `--no-pvc`, then `--cluster-config`. So every path
   only a lower layer sets survives.
   */
  lemma PrecedenceChain(set_: Tree, description: Tree, noPvc: Tree, cluster: Tree, p: Path)
    requires ShapeCompatible(description, set_) && ShapeCompatible(noPvc, set_) && ShapeCompatible(cluster, set_)
    requires ShapeCompatible(noPvc, description) && ShapeCompatible(cluster, description)
    requires ShapeCompatible(cluster, noPvc)
    ensures Leaf(Layered(set_, description, noPvc, cluster), p) == FirstLeaf([set_, description, noPvc, cluster], p)
  {
    var one := Under(description, set_);
    var two := Under(noPvc, one);
    CompatibleWithUnder(noPvc, description, set_);
    CompatibleWithUnder(cluster, description, set_);
    CompatibleWithUnder(cluster, noPvc, one);
    UnderOverrides(description, set_, p);
    UnderOverrides(noPvc, one, p);
    UnderOverrides(cluster, two, p);
    assert [set_, description, noPvc, cluster][1..] == [description, noPvc, cluster];
    assert [description, noPvc, cluster][1..] == [noPvc, cluster];
    assert [noPvc, cluster][1..] == [cluster];
    assert FirstLeaf([cluster], p) == Leaf(cluster, p);
    assert FirstLeaf([noPvc, cluster], p) == if LeafAt(noPvc, p) then Leaf(noPvc, p) else Leaf(cluster, p);
  }

  /** The synthetic layers never clash with each other, whatever their flags. */
  lemma SyntheticLayersCompatible(text: string, keywords: Option<Value>, command: string, noPvc: bool)
    ensures ShapeCompatible(NoPvcOverrides(command, noPvc), DescriptionOverrides(text, keywords))
  {
    DisjointKeysCompatible(NoPvcOverrides(command, noPvc), DescriptionOverrides(text, keywords));
  }

  lemma DisjointKeysCompatible(b: Tree, o: Tree)
    requires b.Keys !! o.Keys
    ensures ShapeCompatible(b, o)
  {
    forall p, q ensures !Shadows(b, o, p, q) {
      if p != [] {
        assert (p + q)[0] == p[0];
      }
    }
  }

  // ----- what the synthetic layers hold -----

  lemma LeavesOfTwoLevels(t: Tree, p: Path)
    requires forall k :: k in t ==> t[k].Dict? && forall j :: j in t[k].entries ==> t[k].entries[j].Atom?
    ensures Leaf(t, p) ==
      if |p| == 2 && p[0] in t && p[1] in t[p[0]].entries then Some(t[p[0]].entries[p[1]]) else None
  {
    if p != [] && p[0] in t {
      var below := t[p[0]];
      assert At(t, p) == Sub(below, p[1..]);
      if |p| == 1 {
        assert p[1..] == [];
      } else if p[1] in below.entries {
        var leaf := below.entries[p[1]];
        assert p[1..][0] == p[1] && p[1..][1..] == p[2..];
        assert leaf.Atom? && Sub(below, p[1..]) == Sub(leaf, p[2..]);
        assert |p| == 2 ==> p[2..] == [];
      }
    }
  }

  /** `--no-pvc` sets two values, for a standup or an update, and nothing anywhere else. */
  lemma NoPvcLeaves(command: string, noPvc: bool, p: Path)
    ensures Leaf(NoPvcOverrides(command, noPvc), p) ==
      if !noPvc || (command != "standup" && command != "update") then None
      else if p == ["modelservice", "uriProtocol"] then Some(Atom("hf", true))
      else if p == ["standalone", "mountModelVolume"] then Some(Atom("false", false))
      else None
  {
    LeavesOfTwoLevels(NoPvcOverrides(command, noPvc), p);
    assert |p| == 2 ==> p == [p[0], p[1]];
  }

  /** The description holds a text that is not empty, and the keywords if any were given, and nothing else. */
  lemma DescriptionLeaves(text: string, keywords: Option<Value>, p: Path)
    requires keywords.Some? ==> keywords.value.Atom?
    ensures Leaf(DescriptionOverrides(text, keywords), p) ==
      if p == ["description", "text"] && text != "" then Some(Atom(text, true))
      else if p == ["description", "keywords"] then keywords
      else None
  {
    var t := DescriptionOverrides(text, keywords);
    var inner := if "description" in t then t["description"].entries else map[];
    assert "text" in inner <==> text != "";
    assert "keywords" in inner <==> keywords.Some?;
    LeavesOfTwoLevels(t, p);
    assert |p| == 2 ==> p == [p[0], p[1]];
  }
}

/** Layered request configuration: the recursive merge, and what it puts at every path. */
module ConfigMerge {
  import opened Wrappers

  /** A JSON value. Whatever is not a dictionary (scalars, lists, null) is merged as one piece. */
  datatype Json = Leaf(text: string) | Obj(fields: map<string, Json>)

  const EMPTY_OBJECT := Obj(map[])

  type Path = seq<string>

  /** The value of merging two dictionaries; anything else is simply overridden. */
  function Merge(base: Json, overrides: Json): Json
    decreases base
  {
    if base.Leaf? || overrides.Leaf? then overrides
    else
      Obj(map key | key in base.fields.Keys + overrides.fields.Keys ::
            if key in base.fields && key in overrides.fields then Merge(base.fields[key], overrides.fields[key])
            else if key in overrides.fields then overrides.fields[key]
            else base.fields[key])
  }

  lemma MergedFields(base: Json, overrides: Json)
    requires base.Obj? && overrides.Obj?
    ensures Merge(base, overrides).Obj?
    ensures
      var fields := Merge(base, overrides).fields;
      && fields.Keys == base.fields.Keys + overrides.fields.Keys
      && (forall key :: key in base.fields && key !in overrides.fields ==> fields[key] == base.fields[key])
      && (forall key :: key in overrides.fields ==>
            fields[key] == if key in base.fields then Merge(base.fields[key], overrides.fields[key]) else overrides.fields[key])
  {
  }

  /** Copies the base and overlays the overriding keys one by one. */
  method DeepMerge(base: Json, overrides: Json) returns (merged: Json)
    requires base.Obj? && overrides.Obj?
    ensures merged == Merge(base, overrides)
    decreases base
  {
    MergedFields(base, overrides);
    ghost var goal := Merge(base, overrides).fields;
    var fields := base.fields;
    var todo := overrides.fields.Keys;
    while todo != {}
      invariant todo <= overrides.fields.Keys
      invariant fields.Keys == base.fields.Keys + (overrides.fields.Keys - todo)
      invariant forall key :: key in base.fields && (key in todo || key !in overrides.fields) ==> fields[key] == base.fields[key]
      invariant forall key :: key in overrides.fields && key !in todo ==> fields[key] == goal[key]
      decreases |todo|
    {
      var key :| key in todo;
      var value := overrides.fields[key];
      assert key in fields <==> key in base.fields;
      if key in fields && fields[key].Obj? && value.Obj? {
        value := DeepMerge(fields[key], value);
      }
      assert value == goal[key];
      hide Merge;
      fields := fields[key := value];
      todo := todo - {key};
    }
    assert fields == goal;
    merged := Obj(fields);
  }

  // --------------------------------------------------------------------- reading a config

  datatype Slot = Missing | Dict | Value(text: string)

  /** What a configuration holds at a path. */
  function At(config: Json, path: Path): Slot {
    if path == [] then if config.Obj? then Dict else Value(config.text)
    else if config.Obj? && path[0] in config.fields then At(config.fields[path[0]], path[1..])
    else Missing
  }

  /** A configuration settles a path when it holds something there, or a non-dictionary somewhere above it. */
  ghost predicate Settles(config: Json, path: Path) {
    At(config, path) != Missing || exists n :: 0 <= n < |path| && At(config, path[..n]).Value?
  }

  /** Walking down the path: it is settled when the walk ends at a value or at the path's end. */
  predicate WalkSettles(config: Json, path: Path) {
    path == [] || config.Leaf? || (path[0] in config.fields && WalkSettles(config.fields[path[0]], path[1..]))
  }

  lemma {:induction false} SettlesByWalking(config: Json, path: Path)
    ensures Settles(config, path) <==> WalkSettles(config, path)
  {
    if path != [] && config.Obj? {
      assert At(config, path[..0]) == Dict;
      if path[0] in config.fields {
        var child, rest := config.fields[path[0]], path[1..];
        SettlesByWalking(child, rest);
        forall n | 1 <= n < |path| ensures At(config, path[..n]) == At(child, rest[..n - 1]) {
          assert path[..n][0] == path[0] && path[..n][1..] == rest[..n - 1];
        }
        if m :| 0 <= m < |rest| && At(child, rest[..m]).Value? {
          assert At(config, path[..m + 1]).Value?;
        }
      } else {
        forall n | 1 <= n < |path| ensures At(config, path[..n]) == Missing {
          assert path[..n][0] == path[0];
        }
      }
    } else if path != [] {
      assert At(config, path[..0]).Value?;
    }
  }

  // ----------------------------------------------------------------- the priority semantics

  lemma {:induction false} WalkMerge(base: Json, overrides: Json, path: Path)
    requires base.Obj? && overrides.Obj?
    ensures At(Merge(base, overrides), path) ==
            if WalkSettles(overrides, path) then At(overrides, path) else At(base, path)
    decreases path
  {
    if path != [] {
      var key := path[0];
      if key in base.fields && key in overrides.fields && base.fields[key].Obj? && overrides.fields[key].Obj? {
        WalkMerge(base.fields[key], overrides.fields[key], path[1..]);
      } else if key in overrides.fields && overrides.fields[key].Obj? {
        UnsettledIsMissing(overrides.fields[key], path[1..]);
      }
    }
  }

  lemma UnsettledIsMissing(config: Json, path: Path)
    ensures !WalkSettles(config, path) ==> At(config, path) == Missing && path != []
  {
  }

  /** The higher of two layers wins at every path it settles; elsewhere the lower one shows through. */
  lemma MergeIsByPriority(base: Json, overrides: Json, path: Path)
    requires base.Obj? && overrides.Obj?
    ensures At(Merge(base, overrides), path) ==
            if Settles(overrides, path) then At(overrides, path) else At(base, path)
  {
    SettlesByWalking(overrides, path);
    WalkMerge(base, overrides, path);
  }

  type Layer = Option<map<string, Json>>

  function LayerOr(layer: Layer): (config: Json)
    ensures config.Obj?
  {
    if layer.Some? then Obj(layer.value) else EMPTY_OBJECT
  }

  function Effective(layers: seq<Layer>): (config: Json)
    ensures config.Obj?
  {
    if layers == [] then EMPTY_OBJECT
    else Merge(Effective(layers[..|layers| - 1]), LayerOr(layers[|layers| - 1]))
  }

  /** System defaults, profile, token overrides, strategy and request, merged in this order. */
  method ResolveEffectiveRequestConfig(system: Layer, profile: Layer, tokenOverride: Layer,
                                       strategy: Layer, request: Layer) returns (effective: Json)
    ensures effective == Effective([system, profile, tokenOverride, strategy, request])
  {
    var layers := [system, profile, tokenOverride, strategy, request];
    effective := EMPTY_OBJECT;
    for i := 0 to |layers|
      invariant effective == Effective(layers[..i])
    {
      assert layers[..i + 1][..i] == layers[..i];
      effective := DeepMerge(effective, LayerOr(layers[i]));
    }
    assert layers[..|layers|] == layers;
  }

  /** The layer is given, and its dictionary settles the path. */
  ghost predicate LayerSettles(layer: Layer, path: Path) {
    layer.Some? && Settles(Obj(layer.value), path)
  }

  lemma LayerStandsForItself(layer: Layer, path: Path)
    requires path != []
    ensures Settles(LayerOr(layer), path) <==> LayerSettles(layer, path)
    ensures layer.Some? ==> LayerOr(layer) == Obj(layer.value)
  {
    SettlesByWalking(LayerOr(layer), path);
  }

  /** At every path the effective configuration holds what the highest given layer that settles the path holds there,
      and nothing if none does; a layer that is not given says nothing. */
  lemma {:induction false} HighestLayerDecides(layers: seq<Layer>, path: Path)
    requires path != []
    ensures forall i :: 0 <= i < |layers| && LayerSettles(layers[i], path)
                        && (forall j :: i < j < |layers| ==> !LayerSettles(layers[j], path)) ==>
              At(Effective(layers), path) == At(Obj(layers[i].value), path)
    ensures (forall i :: 0 <= i < |layers| ==> !LayerSettles(layers[i], path)) ==> At(Effective(layers), path) == Missing
  {
    if layers != [] {
      hide Settles, At, Merge, LayerOr, LayerSettles;
      var n := |layers| - 1;
      var top, lower := layers[n], At(Effective(layers[..n]), path);
      LayerIsGiven(top, path);
      LayerStandsForItself(top, path);
      HighestLayerDecides(layers[..n], path);
      MergeIsByPriority(Effective(layers[..n]), LayerOr(top), path);
      assert At(Effective(layers), path) == if LayerSettles(top, path) then At(Obj(top.value), path) else lower;
      hide Effective;
      forall i | 0 <= i < |layers| && LayerSettles(layers[i], path)
                 && (forall j :: i < j < |layers| ==> !LayerSettles(layers[j], path))
        ensures layers[i].Some? && At(Effective(layers), path) == At(Obj(layers[i].value), path)
      {
        LayerIsGiven(layers[i], path);
        if i < n {
          assert layers[..n][i] == layers[i];
        }
      }
    }
  }

  lemma LayerIsGiven(layer: Layer, path: Path)
    ensures LayerSettles(layer, path) ==> layer.Some?
  {
  }

  lemma HoldsKey(config: Json, key: string)
    requires config.Obj?
    ensures key in config.fields <==> At(config, [key]) != Missing
  {
  }

  /** What a configuration holds at all paths is all there is to it. */
  lemma {:induction false} SamePathsSameConfig(a: Json, b: Json)
    requires forall path :: At(a, path) == At(b, path)
    ensures a == b
    decreases a
  {
    assert At(a, []) == At(b, []);
    if a.Obj? {
      forall key ensures key in a.fields <==> key in b.fields {
        assert At(a, [key]) == At(b, [key]);
        HoldsKey(a, key);
        HoldsKey(b, key);
      }
      forall key | key in a.fields ensures a.fields[key] == b.fields[key] {
        forall path ensures At(a.fields[key], path) == At(b.fields[key], path) {
          assert ([key] + path)[0] == key && ([key] + path)[1..] == path;
          assert At(a, [key] + path) == At(b, [key] + path);
        }
        SamePathsSameConfig(a.fields[key], b.fields[key]);
      }
      assert a.fields == b.fields;
    }
  }

  // ------------------------------------------------------------------------ algebraic laws

  lemma EmptyIsIdentity(config: Json)
    requires config.Obj?
    ensures Merge(EMPTY_OBJECT, config) == config && Merge(config, EMPTY_OBJECT) == config
  {
  }

  /** Merging a layer a second time changes nothing, whatever lies below. */
  lemma {:induction false} MergeIsIdempotent(base: Json, overrides: Json)
    requires base.Obj? && overrides.Obj?
    ensures Merge(Merge(base, overrides), overrides) == Merge(base, overrides)
    ensures Merge(overrides, overrides) == overrides
  {
    var merged := Merge(base, overrides);
    assert merged.Obj?;
    hide Merge, At, Settles;
    forall path ensures At(Merge(merged, overrides), path) == At(merged, path) {
      MergeIsByPriority(base, overrides, path);
      MergeIsByPriority(merged, overrides, path);
    }
    SamePathsSameConfig(Merge(merged, overrides), merged);
    forall path ensures At(Merge(overrides, overrides), path) == At(overrides, path) {
      MergeIsByPriority(overrides, overrides, path);
    }
    SamePathsSameConfig(Merge(overrides, overrides), overrides);
  }

  /** Above anything a configuration holds there are only dictionaries. */
  lemma {:induction false} AboveIsDict(config: Json, path: Path, n: nat)
    requires n < |path|
    ensures At(config, path) != Missing ==> At(config, path[..n]) == Dict
  {
    if n > 0 && At(config, path) != Missing {
      AboveIsDict(config.fields[path[0]], path[1..], n - 1);
      assert path[..n][0] == path[0] && path[..n][1..] == path[1..][..n - 1];
    }
  }

  /** A non-dictionary of the middle layer, between two dictionaries, that hides something the outer layer does not
      settle itself. */
  ghost predicate Unmasks(low: Json, middle: Json, high: Json, path: Path, n: nat) {
    && n < |path|
    && At(middle, path[..n]).Value? && At(high, path[..n]) == Dict
    && At(low, path) != Missing
    && !Settles(high, path)
  }

  /** When the two upper layers are merged first, their merge settles a path unless the upper one puts a dictionary
      over the value that settled it. */
  lemma MergedSettles(middle: Json, high: Json, path: Path)
    requires middle.Obj? && high.Obj?
    ensures Settles(high, path) ==> Settles(Merge(middle, high), path)
    ensures !Settles(high, path) && Settles(Merge(middle, high), path) ==> Settles(middle, path)
    ensures !Settles(high, path) && Settles(middle, path) && !Settles(Merge(middle, high), path) ==>
              At(middle, path) == Missing
              && exists n :: 0 <= n < |path| && At(middle, path[..n]).Value? && At(high, path[..n]) == Dict
  {
    var merged := Merge(middle, high);
    MergeIsByPriority(middle, high, path);
    forall n | 0 <= n < |path|
      ensures At(merged, path[..n]) == if Settles(high, path[..n]) then At(high, path[..n]) else At(middle, path[..n])
    {
      MergeIsByPriority(middle, high, path[..n]);
    }
    forall n | 0 <= n < |path| && Settles(high, path[..n]) && At(high, path[..n]) == Missing ensures Settles(high, path) {
      var m :| 0 <= m < |path[..n]| && At(high, path[..n][..m]).Value?;
      assert path[..n][..m] == path[..m];
    }
    hide At, Merge;
    if !Settles(high, path) && Settles(middle, path) && !Settles(merged, path) {
      var n :| 0 <= n < |path| && At(middle, path[..n]).Value?;
      assert !At(merged, path[..n]).Value?;
      assert Settles(high, path[..n]);
    }
  }

  /** Where the two groupings of three layers disagree. */
  lemma GroupingsAt(low: Json, middle: Json, high: Json, path: Path)
    requires low.Obj? && middle.Obj? && high.Obj?
    ensures At(Merge(Merge(low, middle), high), path) != At(Merge(low, Merge(middle, high)), path) ==>
              exists n: nat :: Unmasks(low, middle, high, path, n)
  {
    MergeIsByPriority(low, middle, path);
    MergeIsByPriority(middle, high, path);
    MergeIsByPriority(Merge(low, middle), high, path);
    MergeIsByPriority(low, Merge(middle, high), path);
    MergedSettles(middle, high, path);
    hide At, Merge;
    if At(Merge(Merge(low, middle), high), path) != At(Merge(low, Merge(middle, high)), path) {
      var n :| 0 <= n < |path| && At(middle, path[..n]).Value? && At(high, path[..n]) == Dict;
      assert Unmasks(low, middle, high, path, n);
    }
  }

  lemma UnmaskedDiffers(low: Json, middle: Json, high: Json, path: Path, n: nat)
    requires low.Obj? && middle.Obj? && high.Obj? && Unmasks(low, middle, high, path, n)
    ensures At(Merge(Merge(low, middle), high), path) == Missing
    ensures At(Merge(low, Merge(middle, high)), path) != Missing
  {
    var merged := Merge(middle, high);
    MergeIsByPriority(low, middle, path);
    MergeIsByPriority(middle, high, path);
    MergeIsByPriority(Merge(low, middle), high, path);
    MergeIsByPriority(low, merged, path);
    AboveIsDict(middle, path, n);
    forall m | 0 <= m < |path| ensures !At(merged, path[..m]).Value? {
      MergeIsByPriority(middle, high, path[..m]);
      if m < n {
        AboveIsDict(high, path[..n], m);
        assert path[..n][..m] == path[..m];
      } else if n < m {
        AboveIsDict(middle, path[..m], n);
        assert path[..m][..n] == path[..n];
      }
    }
    hide At, Merge;
  }

  /** Merging is associative exactly when no non-dictionary of the middle layer hides, between two dictionaries,
      something that the highest layer does not settle. */
  lemma AssociativeIff(low: Json, middle: Json, high: Json)
    requires low.Obj? && middle.Obj? && high.Obj?
    ensures Merge(Merge(low, middle), high) == Merge(low, Merge(middle, high)) <==>
            !exists path: Path, n: nat :: Unmasks(low, middle, high, path, n)
  {
    var left, right := Merge(Merge(low, middle), high), Merge(low, Merge(middle, high));
    if path: Path, n: nat :| Unmasks(low, middle, high, path, n) {
      UnmaskedDiffers(low, middle, high, path, n);
    } else {
      forall path ensures At(left, path) == At(right, path) {
        GroupingsAt(low, middle, high, path);
      }
      SamePathsSameConfig(left, right);
    }
  }
}

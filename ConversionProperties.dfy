/**
  What `convert_model` does to a whole tree, proved about Converted (which
  ConvertModel computes): the scope of its early return, that it changes nothing
  with both layer flags off, that running it twice is running it once, and which
  layer kinds are left below the root after a reverse or a forward conversion.
 */
module ConversionProperties {
  import opened Wrappers
  import opened Layers
  import opened Conversion

  /** With `_convert_linear` and `_convert_ln` both false the tree is unchanged. */
  lemma {:induction false} DisabledConversionIsIdentity(m: Module, o: Options)
    requires !o.convertLinear && !o.convertLn
    ensures Converted(m, o) == m
    decreases m
  {
    var r := Converted(m, o);
    forall i | 0 <= i < |m.children|
      ensures r.children[i] == m.children[i]
    {
      var c := m.children[i];
      assert EarlyReturnIndex(m.children, o) == |m.children|;
      assert r.children[i] == Rewritten(c, o);
      DisabledConversionIsIdentity(c.submodule, o);
    }
    assert r.children == m.children;
  }

  /** A child's rewrite, rewritten again, is what it was after the first rewrite. */
  lemma {:induction false} RewrittenIdempotent(c: Child, o: Options)
    ensures Rewritten(Rewritten(c, o), o) == Rewritten(c, o)
    decreases c, 0
  {
    var l := c.submodule.layer;
    if l.Linear? && o.toTransformerEngine && o.convertLinear {
    } else if l.LayerNorm? && o.toTransformerEngine && o.convertLn {
    } else if l.TeLinear? && !o.toTransformerEngine && o.convertLinear {
    } else if l.TeLayerNorm? && !o.toTransformerEngine && o.convertLn {
    } else {
      ConvertIdempotent(c.submodule, o);
    }
  }

  /** Rewriting the children before the early-return position moves that position nowhere. */
  lemma EarlyReturnIndexOfConverted(m: Module, o: Options)
    ensures EarlyReturnIndex(Converted(m, o).children, o) == EarlyReturnIndex(m.children, o)
  {
    var k := EarlyReturnIndex(m.children, o);
    var rs := Converted(m, o).children;
    forall j | 0 <= j < k
      ensures !StopsTraversal(rs[j], o)
    {
      assert rs[j] == Rewritten(m.children[j], o);
    }
    if k < |rs| {
      assert rs[k] == m.children[k];
    }
  }

  /** Converting an already converted tree with the same options changes nothing more. */
  lemma {:induction false} ConvertIdempotent(m: Module, o: Options)
    ensures Converted(Converted(m, o), o) == Converted(m, o)
    decreases m, 1
  {
    var r := Converted(m, o);
    var k := EarlyReturnIndex(m.children, o);
    EarlyReturnIndexOfConverted(m, o);
    var rr := Converted(r, o);
    forall i | 0 <= i < |m.children|
      ensures rr.children[i] == r.children[i]
    {
      if i < k {
        RewrittenIdempotent(m.children[i], o);
      }
    }
    assert rr.children == r.children;
  }

  /** Below the root there is no Transformer Engine linear or layer-norm layer. */
  ghost predicate NoEngineLinearOrNormBelow(m: Module)
    decreases m
  {
    forall i :: 0 <= i < |m.children| ==>
      !m.children[i].submodule.layer.TeLinear? &&
      !m.children[i].submodule.layer.TeLayerNorm? &&
      NoEngineLinearOrNormBelow(m.children[i].submodule)
  }

  /** Reverse conversion of both kinds never returns early, so it leaves no
      Transformer Engine linear or layer norm anywhere below the root. */
  lemma {:induction false} ReverseRemovesEngineLinearAndNorm(m: Module)
    ensures NoEngineLinearOrNormBelow(Converted(m, Options(false, true, true)))
    decreases m
  {
    var o := Options(false, true, true);
    var r := Converted(m, o);
    forall i | 0 <= i < |m.children|
      ensures !r.children[i].submodule.layer.TeLinear?
      ensures !r.children[i].submodule.layer.TeLayerNorm?
      ensures NoEngineLinearOrNormBelow(r.children[i].submodule)
    {
      var c := m.children[i];
      assert r.children[i] == Rewritten(c, o);
      var l := c.submodule.layer;
      if !l.TeLinear? && !l.TeLayerNorm? {
        ReverseRemovesEngineLinearAndNorm(c.submodule);
      }
    }
  }

  /** Every torch linear layer below the root has an aligned weight shape. */
  ghost predicate LinearsAlignedBelow(m: Module)
    decreases m
  {
    forall i :: 0 <= i < |m.children| ==>
      (m.children[i].submodule.layer.Linear? ==> WeightsAligned(m.children[i].submodule.layer.linear)) &&
      LinearsAlignedBelow(m.children[i].submodule)
  }

  /** Below the root there is no torch linear or layer-norm layer. */
  ghost predicate NoTorchLinearOrNormBelow(m: Module)
    decreases m
  {
    forall i :: 0 <= i < |m.children| ==>
      !m.children[i].submodule.layer.Linear? &&
      !m.children[i].submodule.layer.LayerNorm? &&
      NoTorchLinearOrNormBelow(m.children[i].submodule)
  }

  /** When no linear layer breaks the alignment, the default conversion replaces
      every torch linear and layer norm below the root. */
  lemma {:induction false} ForwardReplacesAlignedLayers(m: Module)
    requires LinearsAlignedBelow(m)
    ensures NoTorchLinearOrNormBelow(Converted(m, Defaults))
    decreases m
  {
    var r := Converted(m, Defaults);
    var k := EarlyReturnIndex(m.children, Defaults);
    assert k == |m.children|;
    forall i | 0 <= i < |m.children|
      ensures !r.children[i].submodule.layer.Linear?
      ensures !r.children[i].submodule.layer.LayerNorm?
      ensures NoTorchLinearOrNormBelow(r.children[i].submodule)
    {
      var c := m.children[i];
      assert r.children[i] == Rewritten(c, Defaults);
      var l := c.submodule.layer;
      if !l.Linear? && !l.LayerNorm? {
        ForwardReplacesAlignedLayers(c.submodule);
      }
    }
  }

  /** Forward conversion keeps what `has_transformer_engine_layers` reports as present. */
  lemma {:induction false} ForwardKeepsEngineLayers(m: Module, o: Options)
    requires o.toTransformerEngine
    requires ContainsEngineLayer(m)
    ensures ContainsEngineLayer(Converted(m, o))
    decreases m
  {
    var r := Converted(m, o);
    if !IsEngineLayer(m.layer) {
      var i :| 0 <= i < |m.children| && ContainsEngineLayer(m.children[i].submodule);
      var c := m.children[i];
      if i < EarlyReturnIndex(m.children, o) {
        assert r.children[i] == Rewritten(c, o);
        var l := c.submodule.layer;
        if l.Linear? && o.convertLinear {
          assert IsEngineLayer(r.children[i].submodule.layer);
        } else if l.LayerNorm? && o.convertLn {
          assert IsEngineLayer(r.children[i].submodule.layer);
        } else {
          ForwardKeepsEngineLayers(c.submodule, o);
        }
      } else {
        assert r.children[i] == c;
      }
      assert ContainsEngineLayer(r.children[i].submodule);
    }
  }

  /** A torch linear child that forward linear conversion reaches has aligned
      weights and becomes, under the same name, a childless Transformer Engine
      linear layer with the same sizes, dtype, weight and bias (or lack of one). */
  lemma ForwardLinearReplacement(m: Module, o: Options, i: nat)
    requires o.toTransformerEngine && o.convertLinear
    requires i < EarlyReturnIndex(m.children, o)
    requires m.children[i].submodule.layer.Linear?
    ensures var p := m.children[i].submodule.layer.linear;
      var r := Converted(m, o).children[i];
      WeightsAligned(p) &&
      r.name == m.children[i].name && r.submodule.children == [] &&
      r.submodule.layer.TeLinear? &&
      r.submodule.layer.linear.inFeatures == p.inFeatures &&
      r.submodule.layer.linear.outFeatures == p.outFeatures &&
      r.submodule.layer.linear.dtype == p.dtype &&
      r.submodule.layer.linear.weight == p.weight &&
      r.submodule.layer.linear.bias == p.bias
  {
    assert Converted(m, o).children[i] == Rewritten(m.children[i], o);
  }

  /** A torch layer-norm child that forward layer-norm conversion reaches becomes,
      under the same name, a childless Transformer Engine layer norm with the same
      size, eps, dtype, weight and bias. */
  lemma ForwardNormReplacement(m: Module, o: Options, i: nat)
    requires o.toTransformerEngine && o.convertLn
    requires i < EarlyReturnIndex(m.children, o)
    requires m.children[i].submodule.layer.LayerNorm?
    ensures var p := m.children[i].submodule.layer.norm;
      var r := Converted(m, o).children[i];
      r.name == m.children[i].name && r.submodule.children == [] &&
      r.submodule.layer.TeLayerNorm? &&
      r.submodule.layer.norm.size == p.size &&
      r.submodule.layer.norm.eps == p.eps &&
      r.submodule.layer.norm.dtype == p.dtype &&
      r.submodule.layer.norm.weight == p.weight &&
      r.submodule.layer.norm.bias == p.bias
  {
    assert Converted(m, o).children[i] == Rewritten(m.children[i], o);
  }

  /** Reverse conversion checks no alignment, so it never returns early, and a
      Transformer Engine linear child becomes, under the same name, a childless
      torch linear layer with the same sizes, dtype, weight and bias (or lack of one). */
  lemma ReverseLinearReplacement(m: Module, o: Options, i: nat)
    requires !o.toTransformerEngine && o.convertLinear
    requires i < |m.children|
    requires m.children[i].submodule.layer.TeLinear?
    ensures EarlyReturnIndex(m.children, o) == |m.children|
    ensures var p := m.children[i].submodule.layer.linear;
      var r := Converted(m, o).children[i];
      r.name == m.children[i].name && r.submodule.children == [] &&
      r.submodule.layer.Linear? &&
      r.submodule.layer.linear.inFeatures == p.inFeatures &&
      r.submodule.layer.linear.outFeatures == p.outFeatures &&
      r.submodule.layer.linear.dtype == p.dtype &&
      r.submodule.layer.linear.weight == p.weight &&
      r.submodule.layer.linear.bias == p.bias
  {
    assert Converted(m, o).children[i] == Rewritten(m.children[i], o);
  }

  /** Reverse layer-norm conversion turns a Transformer Engine layer-norm child into,
      under the same name, a childless torch layer norm with the same size, eps,
      dtype, weight and bias. */
  lemma ReverseNormReplacement(m: Module, o: Options, i: nat)
    requires !o.toTransformerEngine && o.convertLn
    requires i < |m.children|
    requires m.children[i].submodule.layer.TeLayerNorm?
    ensures var p := m.children[i].submodule.layer.norm;
      var r := Converted(m, o).children[i];
      r.name == m.children[i].name && r.submodule.children == [] &&
      r.submodule.layer.LayerNorm? &&
      r.submodule.layer.norm.size == p.size &&
      r.submodule.layer.norm.eps == p.eps &&
      r.submodule.layer.norm.dtype == p.dtype &&
      r.submodule.layer.norm.weight == p.weight &&
      r.submodule.layer.norm.bias == p.bias
  {
    assert EarlyReturnIndex(m.children, o) == |m.children|;
    assert Converted(m, o).children[i] == Rewritten(m.children[i], o);
  }

  /** The child at the early-return position and every later sibling are left
      exactly as they were, subtrees included. */
  lemma LaterSiblingsUntouched(m: Module, o: Options, j: nat)
    requires EarlyReturnIndex(m.children, o) <= j < |m.children|
    ensures Converted(m, o).children[j] == m.children[j]
  {
  }

  /** A child before the early-return position that matches none of the enabled
      replacements keeps its name, position and layer and is converted inside,
      whatever happens in that nested call: an early return there does not stop
      the enclosing call. */
  lemma RecursedChild(m: Module, o: Options, i: nat)
    requires i < EarlyReturnIndex(m.children, o)
    requires var l := m.children[i].submodule.layer;
      !(l.Linear? && o.toTransformerEngine && o.convertLinear) &&
      !(l.LayerNorm? && o.toTransformerEngine && o.convertLn) &&
      !(l.TeLinear? && !o.toTransformerEngine && o.convertLinear) &&
      !(l.TeLayerNorm? && !o.toTransformerEngine && o.convertLn)
    ensures Converted(m, o).children[i] ==
      Child(m.children[i].name, Converted(m.children[i].submodule, o))
    ensures Converted(m, o).children[i].submodule.layer == m.children[i].submodule.layer
  {
    assert Converted(m, o).children[i] == Rewritten(m.children[i], o);
  }

  /** A forward conversion that reaches a torch linear or layer-norm child whose
      kind is enabled leaves an engine layer in the tree. */
  lemma ForwardIntroducesEngineLayer(m: Module, o: Options, i: nat)
    requires o.toTransformerEngine
    requires i < EarlyReturnIndex(m.children, o)
    requires (m.children[i].submodule.layer.Linear? && o.convertLinear) ||
             (m.children[i].submodule.layer.LayerNorm? && o.convertLn)
    ensures ContainsEngineLayer(Converted(m, o))
  {
    var r := Converted(m, o);
    assert r.children[i] == Rewritten(m.children[i], o);
    assert IsEngineLayer(r.children[i].submodule.layer);
  }

  /** The early return ends only the call it happens in. Under the root, `block`
      holds a misaligned `proj` (10 inputs) before a layer norm `norm`, and the
      root's next child `head` is aligned: `proj` and `norm` stay as they are,
      while `head` is still converted, because the root's call goes on. */
  lemma EarlyReturnScopeExample()
    ensures
      var w := Tensor([1]);
      var proj := Module(Linear(LinearParams(10, 16, Float32, w, None)), []);
      var norm := Module(LayerNorm(NormParams(16, 0.00001, Float32, w, w)), []);
      var head := Module(Linear(LinearParams(16, 32, Float32, w, Some(w))), []);
      var block := Module(Other("Block"), [Child("proj", proj), Child("norm", norm)]);
      var root := Module(Other("Model"), [Child("block", block), Child("head", head)]);
      Converted(root, Defaults) ==
        Module(Other("Model"), [
          Child("block", block),
          Child("head", Module(TeLinear(LinearParams(16, 32, Float32, w, Some(w))), []))])
  {
    var w := Tensor([1]);
    var proj := Module(Linear(LinearParams(10, 16, Float32, w, None)), []);
    var norm := Module(LayerNorm(NormParams(16, 0.00001, Float32, w, w)), []);
    var head := Module(Linear(LinearParams(16, 32, Float32, w, Some(w))), []);
    var block := Module(Other("Block"), [Child("proj", proj), Child("norm", norm)]);
    var root := Module(Other("Model"), [Child("block", block), Child("head", head)]);
    assert !WeightsAligned(proj.layer.linear) by {
      assert 10 in WeightShape(proj.layer.linear);
    }
    assert EarlyReturnIndex(block.children, Defaults) == 0;
    var rb := Converted(block, Defaults);
    assert rb.children[0] == block.children[0] && rb.children[1] == block.children[1];
    assert rb.children == block.children;
    assert WeightsAligned(head.layer.linear);
    assert EarlyReturnIndex(root.children, Defaults) == 2;
    var r := Converted(root, Defaults);
    assert r.children[0] == Rewritten(root.children[0], Defaults) == Child("block", rb);
    assert r.children[1] == Rewritten(root.children[1], Defaults);
    assert r.children == [Child("block", block), r.children[1]];
  }
}

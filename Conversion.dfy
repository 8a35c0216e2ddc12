/**
  `convert_model`: a depth-first walk over a module's named children that swaps
  torch linear and layer-norm layers for their Transformer Engine counterparts
  (or back), copying their fields, and that returns from the current call as soon
  as it meets a linear layer whose weight shape breaks the 16-alignment.
 */
module Conversion {
  import opened Wrappers
  import opened Layers

  /** The keyword arguments `to_transformer_engine`, `_convert_linear` and `_convert_ln`. */
  datatype Options = Options(toTransformerEngine: bool, convertLinear: bool, convertLn: bool)

  /** The defaults of `convert_model`: forward conversion of both layer kinds. */
  const Defaults := Options(true, true, true)

  /** The child makes the loop of its parent's call return at once: a torch linear
      layer met in forward linear conversion whose weight shape is misaligned. */
  predicate StopsTraversal(c: Child, o: Options)
    ensures StopsTraversal(c, o) <==>
      c.submodule.layer.Linear? && o.toTransformerEngine && o.convertLinear &&
      (c.submodule.layer.linear.outFeatures % Granularity != 0 ||
       c.submodule.layer.linear.inFeatures % Granularity != 0)
  {
    c.submodule.layer.Linear? && o.toTransformerEngine && o.convertLinear &&
    !WeightsAligned(c.submodule.layer.linear)
  }

  /** Position of the first child that stops its parent's call, or the number of children. */
  function EarlyReturnIndex(cs: seq<Child>, o: Options): (k: nat)
    ensures k <= |cs|
    ensures forall j :: 0 <= j < k ==> !StopsTraversal(cs[j], o)
    ensures k < |cs| ==> StopsTraversal(cs[k], o)
  {
    if cs == [] then 0
    else if StopsTraversal(cs[0], o) then 0
    else 1 + EarlyReturnIndex(cs[1..], o)
  }

  /** A module after `convert_model` ran on it: the same layer, and the children
      before the early-return position rewritten, those from it on untouched. */
  function Converted(m: Module, o: Options): (r: Module)
    ensures r.layer == m.layer
    ensures |r.children| == |m.children|
    ensures forall i :: 0 <= i < |m.children| ==> r.children[i].name == m.children[i].name
    decreases m
  {
    var k := EarlyReturnIndex(m.children, o);
    Module(m.layer, seq(|m.children|, i requires 0 <= i < |m.children| =>
      if i < k then Rewritten(m.children[i], o) else m.children[i]))
  }

  /** What the loop does with one child it reaches: replace it by a freshly built
      layer of the other library holding the same fields (such a layer has no
      children of its own), or else convert inside it. The forward linear case is
      reached only for aligned weights (see EarlyReturnIndex). */
  function Rewritten(c: Child, o: Options): (r: Child)
    ensures r.name == c.name
    decreases c
  {
    var l := c.submodule.layer;
    if l.Linear? && o.toTransformerEngine && o.convertLinear then
      Child(c.name, Module(TeLinear(l.linear), []))
    else if l.LayerNorm? && o.toTransformerEngine && o.convertLn then
      Child(c.name, Module(TeLayerNorm(l.norm), []))
    else if l.TeLinear? && !o.toTransformerEngine && o.convertLinear then
      Child(c.name, Module(Linear(l.linear), []))
    else if l.TeLayerNorm? && !o.toTransformerEngine && o.convertLn then
      Child(c.name, Module(LayerNorm(l.norm), []))
    else
      Child(c.name, Converted(c.submodule, o))
  }

  /** Parameter storage of a layer just built, before values are copied into it. */
  const Uninitialized := Tensor([])

  /** A linear layer built from its sizes, bias flag and `params_dtype`. */
  function NewLinearParams(inFeatures: nat, outFeatures: nat, hasBias: bool, dtype: DType): (p: LinearParams)
    ensures p.inFeatures == inFeatures && p.outFeatures == outFeatures && p.dtype == dtype
    ensures p.bias.Some? <==> hasBias
  {
    LinearParams(inFeatures, outFeatures, dtype, Uninitialized, if hasBias then Some(Uninitialized) else None)
  }

  /** A layer norm built from its size, `eps` and `params_dtype`. */
  function NewNormParams(size: nat, eps: real, dtype: DType): (p: NormParams)
    ensures p.size == size && p.eps == eps && p.dtype == dtype
  {
    NormParams(size, eps, dtype, Uninitialized, Uninitialized)
  }

  /** `convert_model(model, ...)`. The import check comes first; the loop assigns
      each replaced child back under its own name, and the `return` inside it leaves
      the rest of this call's children as they are. */
  method ConvertModel(model: Module, available: bool, o: Options) returns (r: Result<Module, Error>)
    ensures !available ==> r == Failure(ImportError)
    ensures available ==> r == Success(Converted(model, o))
    decreases model
  {
    if !available {
      return Failure(ImportError);
    }
    ghost var k := EarlyReturnIndex(model.children, o);
    var children := model.children;
    var i := 0;
    while i < |children|
      invariant |children| == |model.children|
      invariant 0 <= i <= k
      invariant forall j :: 0 <= j < i ==> children[j] == Rewritten(model.children[j], o)
      invariant forall j :: i <= j < |children| ==> children[j] == model.children[j]
    {
      var name, submodule := children[i].name, children[i].submodule;
      var layer := submodule.layer;
      if layer.Linear? && o.toTransformerEngine && o.convertLinear {
        if !WeightsAligned(layer.linear) {
          r := Success(Module(model.layer, children));
          assert r.value.children == Converted(model, o).children;
          return;
        }
        var hasBias := layer.linear.bias.Some?;
        var p := NewLinearParams(layer.linear.inFeatures, layer.linear.outFeatures, hasBias, layer.linear.dtype);
        p := p.(weight := layer.linear.weight);
        if hasBias {
          p := p.(bias := layer.linear.bias);
        }
        children := children[i := Child(name, Module(TeLinear(p), []))];
      } else if layer.LayerNorm? && o.toTransformerEngine && o.convertLn {
        var p := NewNormParams(layer.norm.size, layer.norm.eps, layer.norm.dtype);
        p := p.(weight := layer.norm.weight);
        p := p.(bias := layer.norm.bias);
        children := children[i := Child(name, Module(TeLayerNorm(p), []))];
      } else if layer.TeLinear? && !o.toTransformerEngine && o.convertLinear {
        var hasBias := layer.linear.bias.Some?;
        var p := NewLinearParams(layer.linear.inFeatures, layer.linear.outFeatures, hasBias, layer.linear.dtype);
        p := p.(weight := layer.linear.weight);
        if hasBias {
          p := p.(bias := layer.linear.bias);
        }
        children := children[i := Child(name, Module(Linear(p), []))];
      } else if layer.TeLayerNorm? && !o.toTransformerEngine && o.convertLn {
        var p := NewNormParams(layer.norm.size, layer.norm.eps, layer.norm.dtype);
        p := p.(weight := layer.norm.weight);
        p := p.(bias := layer.norm.bias);
        children := children[i := Child(name, Module(LayerNorm(p), []))];
      } else {
        assert submodule == model.children[i].submodule;
        var sub := ConvertModel(submodule, available, o);
        children := children[i := Child(name, sub.value)];
      }
      i := i + 1;
    }
    r := Success(Module(model.layer, children));
    assert r.value.children == Converted(model, o).children;
  }
}

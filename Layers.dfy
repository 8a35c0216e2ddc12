/**
  The module tree that the Transformer Engine helpers of accelerate walk: every
  torch module is a value with a layer kind and an ordered list of named children
  (its `named_children()`), and the layer kinds the helpers look at carry the
  fields the helpers read and copy.
 */
module Layers {
  import opened Wrappers

  /** Element type of a layer's parameters (`module.weight.dtype`). */
  datatype DType = Float32 | Float16 | BFloat16

  /** The contents of one parameter tensor. Numerics are abstract: copying a tensor is equality. */
  datatype Tensor = Tensor(values: seq<int>)

  /** What a linear layer holds: `in_features`, `out_features`, the weight's dtype,
      the weight and the bias (`None` when the layer was built with `bias=False`). */
  datatype LinearParams = LinearParams(
    inFeatures: nat,
    outFeatures: nat,
    dtype: DType,
    weight: Tensor,
    bias: Option<Tensor>)

  /** What a one-dimensional layer norm holds: `normalized_shape[0]`, `eps`, the
      weight's dtype, the weight and the bias. */
  datatype NormParams = NormParams(
    size: nat,
    eps: real,
    dtype: DType,
    weight: Tensor,
    bias: Tensor)

  /** The kind of a module, as `isinstance` sees it. `Linear` and `LayerNorm` are
      `torch.nn.Linear` and `torch.nn.LayerNorm` (subclasses included); the `Te`
      kinds are `transformer_engine.pytorch.Linear`, `.LayerNorm` and
      `.TransformerLayer`; `Other` is any other module class. */
  datatype Layer =
    | Linear(linear: LinearParams)
    | LayerNorm(norm: NormParams)
    | TeLinear(linear: LinearParams)
    | TeLayerNorm(norm: NormParams)
    | TeTransformerLayer
    | Other(typeName: string)

  /** A module and its named children, in registration order. */
  datatype Module = Module(layer: Layer, children: seq<Child>)

  datatype Child = Child(name: string, submodule: Module)

  /** The exceptions the helpers raise. */
  datatype Error =
    | ImportError
    | AttributeError(attribute: string)
    | TypeError

  /** `module.weight.shape` of a linear layer: `(out_features, in_features)`. */
  function WeightShape(p: LinearParams): (shape: seq<nat>)
    ensures |shape| == 2
    ensures p.outFeatures in shape && p.inFeatures in shape
    ensures forall d <- shape :: d == p.outFeatures || d == p.inFeatures
  {
    [p.outFeatures, p.inFeatures]
  }

  /** The alignment the FP8 kernels need on every weight dimension. */
  const Granularity: nat := 16

  /** No dimension of the weight shape breaks the alignment. */
  predicate WeightsAligned(p: LinearParams)
    ensures WeightsAligned(p) <==> p.outFeatures % Granularity == 0 && p.inFeatures % Granularity == 0
  {
    forall d <- WeightShape(p) :: d % Granularity == 0
  }

  /** The classes `has_transformer_engine_layers` looks for. */
  predicate IsEngineLayer(l: Layer)
    ensures IsEngineLayer(l) <==> !(l.Linear? || l.LayerNorm? || l.Other?)
  {
    l.TeLinear? || l.TeLayerNorm? || l.TeTransformerLayer?
  }

  /** Some module of the tree, the root included, is of an engine class. */
  ghost predicate ContainsEngineLayer(m: Module)
    decreases m
  {
    IsEngineLayer(m.layer) ||
    exists i :: 0 <= i < |m.children| && ContainsEngineLayer(m.children[i].submodule)
  }
}

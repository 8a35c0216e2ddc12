# Transformer Engine layer conversion in accelerate, modelled in Dafny

This project models the helpers in `src/accelerate/utils/transformer_engine.py`.

- `convert_model` walks a torch module tree depth-first over its named children. It swaps `torch.nn.Linear` and `torch.nn.LayerNorm` children for `transformer_engine.pytorch.Linear` and `.LayerNorm`, or the reverse with `to_transformer_engine=False`. Each new layer keeps the sizes, bias presence, dtype, eps and copied parameter values.
- When a linear layer's weight shape `(out_features, in_features)` has a dimension that is not a multiple of 16, `convert_model` returns from the call that met it. That call's later children stay as they are. The calls above it go on with their own next children.
- `has_transformer_engine_layers` asks whether any module of the tree, the root included, is a Transformer Engine linear, layer norm or transformer layer.
- `apply_fp8_autowrap` builds the keyword arguments of a delayed-scaling recipe and rebinds the model's `forward` so that it runs under `fp8_autocast`.

Whether `transformer_engine` can be imported is a boolean parameter, `available`. Without it, every entry point returns `Failure(ImportError)`.

Files:
- `Wrappers.dfy` holds `Option` and `Result`.
- `Layers.dfy` holds the module tree. A `Module` has a `Layer` kind and a sequence of named `Child`ren. Parameter tensors are abstract values, so a copy is equality.
- `Conversion.dfy` holds the specification `Converted` and the loop `ConvertModel`, proved equal to it.
- `ConversionProperties.dfy` holds the lemmas about whole trees.
- `Introspection.dfy` holds `Modules` (the pre-order `modules()` listing) and the search `HasEngineLayers`.
- `Autowrap.dfy` holds the recipe kwargs and the `forward` rebinding.

A misaligned linear layer does not end the whole walk: the bare `return` at line 34 ends only the current recursive call. `EarlyReturnScopeExample` shows an enclosing call that goes on converting after a nested call returned early.

## Model

| member | source | states |
|---|---|---|
| `Layers.WeightShape` | src/accelerate/utils/transformer_engine.py:33 | `module.weight.shape` has two dimensions, and they are `out_features` and `in_features`. |
| `Layers.WeightsAligned` | src/accelerate/utils/transformer_engine.py:33 | No weight dimension breaks the alignment exactly when both `out_features` and `in_features` are multiples of 16. |
| `Layers.IsEngineLayer` | src/accelerate/utils/transformer_engine.py:82 | The `isinstance` tuple accepts exactly the Transformer Engine linear, layer norm and transformer layer, and no torch or other module. |
| `Conversion.StopsTraversal` | src/accelerate/utils/transformer_engine.py:31-34 | A child makes its parent's call return exactly when it is a torch linear, met with `to_transformer_engine` and `_convert_linear` set, whose out or in features are not a multiple of 16. |
| `Conversion.NewLinearParams` | src/accelerate/utils/transformer_engine.py:36-38 | A newly built linear layer (the `te.Linear` call at lines 36-38 and the `nn.Linear` call at lines 52-54) has the given in/out features and dtype, and a bias exactly when `bias=True`. |
| `Conversion.NewNormParams` | src/accelerate/utils/transformer_engine.py:45 | A newly built layer norm (the `te.LayerNorm` call at line 45 and the `nn.LayerNorm` call at line 61) has the given size, eps and dtype. |
| `Conversion.ConvertModel` | src/accelerate/utils/transformer_engine.py:24-72 | Without the engine, returns an import error before looking at any child. Otherwise returns exactly `Converted(model, o)`; the keyword defaults of line 24 are `Conversion.Defaults`. So the construct-then-copy steps give each replacement the old layer's sizes, bias presence, dtype, weight and bias, and the early `return` leaves this call's remaining children untouched. |
| `Conversion.EarlyReturnIndex` | src/accelerate/utils/transformer_engine.py:30-34 | The early-return position is the first child that is a torch linear with a misaligned weight shape, met in forward linear mode. No child before it is one, and it is at most the number of children. |
| `Conversion.Converted` | src/accelerate/utils/transformer_engine.py:30-72 | Conversion keeps the root's layer, the number of children and every child's name at its position. |
| `Conversion.Rewritten` | src/accelerate/utils/transformer_engine.py:31-72 | Rewriting a child, whether replaced or recursed into, keeps its name. |
| `ConversionProperties.ForwardLinearReplacement` | src/accelerate/utils/transformer_engine.py:31-43 | A torch linear child reached in forward linear mode has aligned weights. It becomes, under the same name, a childless Transformer Engine linear with the same in/out features, dtype and weight, and the same bias or none. |
| `ConversionProperties.ForwardNormReplacement` | src/accelerate/utils/transformer_engine.py:44-49 | A torch layer-norm child reached in forward layer-norm mode becomes, under the same name, a childless Transformer Engine layer norm with the same size, eps, dtype, weight and bias. |
| `ConversionProperties.ReverseLinearReplacement` | src/accelerate/utils/transformer_engine.py:50-59 | In the mirror of lines 50-59, reverse mode has no alignment check and never returns early. A Transformer Engine linear child becomes, under the same name, a childless torch linear with the same in/out features, dtype and weight, and the same bias or none. |
| `ConversionProperties.ReverseNormReplacement` | src/accelerate/utils/transformer_engine.py:60-65 | In the mirror of lines 60-65, a Transformer Engine layer-norm child becomes, under the same name, a childless torch layer norm with the same size, eps, dtype, weight and bias. |
| `ConversionProperties.RecursedChild` | src/accelerate/utils/transformer_engine.py:66-72 | A child before the early-return position that matches no enabled branch keeps its name, position and layer, and becomes its own conversion; an early return inside it does not stop the enclosing call. |
| `ConversionProperties.LaterSiblingsUntouched` | src/accelerate/utils/transformer_engine.py:33-34 | The child at the early-return position and every later sibling in that call are left exactly as they were, subtrees included. |
| `ConversionProperties.DisabledConversionIsIdentity` | src/accelerate/utils/transformer_engine.py:30-72 | With `_convert_linear` and `_convert_ln` both false, the whole tree is unchanged in either direction. |
| `ConversionProperties.EarlyReturnIndexOfConverted` | src/accelerate/utils/transformer_engine.py:30-34 | After conversion, a module's children trigger the early return at the same position as before. |
| `ConversionProperties.RewrittenIdempotent` | src/accelerate/utils/transformer_engine.py:31-72 | Rewriting a child a second time with the same options gives the first rewrite back. |
| `ConversionProperties.ConvertIdempotent` | src/accelerate/utils/transformer_engine.py:24-72 | Converting an already converted tree again with the same options changes nothing, with any flags, forward or (for the mirror of lines 50-65) reverse. |
| `ConversionProperties.ReverseRemovesEngineLinearAndNorm` | src/accelerate/utils/transformer_engine.py:50-65 | For the mirror of lines 50-65, reverse conversion of both kinds has no early return. It leaves no Transformer Engine linear or layer norm anywhere below the root. |
| `ConversionProperties.ForwardReplacesAlignedLayers` | src/accelerate/utils/transformer_engine.py:31-49 | If every torch linear below the root has aligned weights, the default conversion leaves no torch linear or layer norm below the root. |
| `ConversionProperties.ForwardKeepsEngineLayers` | src/accelerate/utils/transformer_engine.py:30-72 | Forward conversion never removes what `has_transformer_engine_layers` looks for: a tree holding an engine layer still holds one afterwards. |
| `ConversionProperties.ForwardIntroducesEngineLayer` | src/accelerate/utils/transformer_engine.py:31-49 | Forward conversion of a tree with an enabled torch linear or layer-norm child before the early-return position yields a tree holding an engine layer. |
| `ConversionProperties.EarlyReturnScopeExample` | src/accelerate/utils/transformer_engine.py:33-34 | A misaligned linear inside `block` leaves it and its later sibling unconverted, while the root's later child `head` is still converted. |
| `Introspection.Modules` | src/accelerate/utils/transformer_engine.py:81 | The `modules()` listing starts with the root itself, followed by `ModulesOfChildren`: each child's subtree listing in order. |
| `Introspection.ModulesListEngineLayers` | src/accelerate/utils/transformer_engine.py:81-84 | The pre-order listing holds an engine layer if and only if the tree does, the root included. |
| `Introspection.ChildrenListEngineLayers` | src/accelerate/utils/transformer_engine.py:81-84 | The listing of the subtrees of children `i..` holds an engine layer if and only if one of those subtrees does. |
| `Introspection.HasEngineLayers` | src/accelerate/utils/transformer_engine.py:75-84 | Without the engine, returns an import error. Otherwise returns true if and only if some module of the tree, the root included, is a Transformer Engine linear, layer norm or transformer layer. |
| `Autowrap.FormatNamed` | src/accelerate/utils/transformer_engine.py:96 | `getattr(Format, name)` succeeds exactly for `E4M3`, `E5M2` and `HYBRID`, and yields the member with that name. |
| `Autowrap.RecipeKwargs` | src/accelerate/utils/transformer_engine.py:94-96 | The kwargs are empty without a handler, and otherwise the handler's. Only `fp8_format` is translated, into the member of that name; every other key passes through unchanged. A non-string format is a type error, and an unknown name is an attribute error. |
| `Autowrap.ApplyFp8Autowrap` | src/accelerate/utils/transformer_engine.py:87-99 | Fails with an import error without the engine and with the kwargs error when translation fails; in both cases `forward` is unchanged. Otherwise `forward` becomes the old forward wrapped by an enabled autocast with `DelayedScaling(kwargs)`, and the same model object is returned. |

## Left out

- `src/accelerate/test_utils/scripts/external_deps/transformerengine/non_distributed.py`: a GPU training and evaluation script (CUDA, autocast, datasets, accuracy/F1 metrics). No logic in it is modelled.
- The module-level conditional import of `transformer_engine.pytorch` and `is_fp8_available`: replaced by the `available` parameter.
- In-place mutation and object identity: the tree is a value, and `ConvertModel` returns the rewritten tree instead of changing module objects through `setattr`. The model does not capture aliasing. Shared modules are not modelled: `named_children()` yields a module once per parent (and once when it is repeated under one parent), and `modules()` at line 81 yields a shared module only once in the whole tree. The latter does not change the answer of the existence check. `None` entries in `_modules` are not modelled either.
- Exceptions from the torch and engine constructors and from `copy_` are not modelled. These would be raised on invalid sizes or on weights of mismatched shape. A `LayerNorm` without affine parameters has no weight, so `module.weight.dtype` (line 45) raises `AttributeError`; this is not modelled either. Parameter numerics and `torch.no_grad` are not modelled: a copy is equality of abstract values.
- Multi-dimensional `normalized_shape`: a layer norm is modelled over one dimension, the `normalized_shape[0]` the code reads.
- Transformer Engine module internals: a freshly built layer of either library has no children in the model. Existing nodes of any kind may have children, and the walk recurses into them as the code does.
- The reverse branches (lines 50-65) pass `params_dtype=` to `nn.Linear` and `nn.LayerNorm`. Standard torch layers do not accept that keyword, so torch would raise a `TypeError` there. The model follows these branches as the structural mirror they are written as. It claims no convert-then-revert round trip for the real code.
- `fp8_autocast` and `DelayedScaling` semantics (FP8 scaling, amax history) and the behaviour of the wrapped forward are foreign library behaviour. The recipe is kept as its kwargs, and the wrapped forward as a description. Keys that `DelayedScaling` would reject are not modelled.
- `Autowrap.FormatNamed`: `getattr` on the enum class could also return non-member attributes (for example dunder names); only the three member names are modelled as found.
- `handler.to_kwargs()` is the handler's own method and is not modelled. The handler is modelled as the dictionary it returns.

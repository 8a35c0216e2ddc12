/**
  `has_transformer_engine_layers`: a search over `model.modules()`, the tree in
  pre-order with the root first, that stops at the first Transformer Engine
  linear, layer-norm or transformer layer.
 */
module Introspection {
  import opened Wrappers
  import opened Layers

  /** `m.modules()`: the module itself, then the modules of each child in order. */
  function Modules(m: Module): (r: seq<Module>)
    ensures |r| >= 1 && r[0] == m
    decreases m, |m.children| + 1
  {
    [m] + ModulesOfChildren(m, 0)
  }

  /** The modules of the children of `m` from position `i` on, each subtree in pre-order. */
  function ModulesOfChildren(m: Module, i: nat): seq<Module>
    requires i <= |m.children|
    decreases m, |m.children| - i
  {
    if i == |m.children| then []
    else Modules(m.children[i].submodule) + ModulesOfChildren(m, i + 1)
  }

  /** Some module of the list is of an engine class. */
  ghost predicate AnyEngineLayer(ms: seq<Module>) {
    exists k :: 0 <= k < |ms| && IsEngineLayer(ms[k].layer)
  }

  lemma AnyEngineLayerConcat(a: seq<Module>, b: seq<Module>)
    ensures AnyEngineLayer(a + b) <==> AnyEngineLayer(a) || AnyEngineLayer(b)
  {
    if AnyEngineLayer(a) {
      var k :| 0 <= k < |a| && IsEngineLayer(a[k].layer);
      assert (a + b)[k] == a[k];
    }
    if AnyEngineLayer(b) {
      var k :| 0 <= k < |b| && IsEngineLayer(b[k].layer);
      assert (a + b)[|a| + k] == b[k];
    }
    if AnyEngineLayer(a + b) {
      var k :| 0 <= k < |a + b| && IsEngineLayer((a + b)[k].layer);
      if k < |a| {
        assert a[k] == (a + b)[k];
      } else {
        assert b[k - |a|] == (a + b)[k];
      }
    }
  }

  /** The pre-order listing holds an engine layer exactly when the tree does. */
  lemma {:induction false} ModulesListEngineLayers(m: Module)
    ensures AnyEngineLayer(Modules(m)) <==> ContainsEngineLayer(m)
    decreases m, |m.children| + 1
  {
    AnyEngineLayerConcat([m], ModulesOfChildren(m, 0));
    ChildrenListEngineLayers(m, 0);
    assert AnyEngineLayer([m]) <==> IsEngineLayer(m.layer) by {
      assert [m][0] == m;
    }
  }

  lemma {:induction false} ChildrenListEngineLayers(m: Module, i: nat)
    requires i <= |m.children|
    ensures AnyEngineLayer(ModulesOfChildren(m, i)) <==>
      exists j :: i <= j < |m.children| && ContainsEngineLayer(m.children[j].submodule)
    decreases m, |m.children| - i
  {
    if i < |m.children| {
      AnyEngineLayerConcat(Modules(m.children[i].submodule), ModulesOfChildren(m, i + 1));
      ModulesListEngineLayers(m.children[i].submodule);
      ChildrenListEngineLayers(m, i + 1);
    }
  }

  /** `has_transformer_engine_layers(model)`: an import error without the
      engine, otherwise whether some module of the tree, the root included, is a
      Transformer Engine linear, layer norm or transformer layer. */
  method HasEngineLayers(model: Module, available: bool) returns (r: Result<bool, Error>)
    ensures !available ==> r == Failure(ImportError)
    ensures available ==> r == Success(ContainsEngineLayer(model))
  {
    if !available {
      return Failure(ImportError);
    }
    ModulesListEngineLayers(model);
    var ms := Modules(model);
    for i := 0 to |ms|
      invariant forall j :: 0 <= j < i ==> !IsEngineLayer(ms[j].layer)
    {
      if IsEngineLayer(ms[i].layer) {
        return Success(true);
      }
    }
    return Success(false);
  }
}

/**
  `apply_fp8_autowrap`: build the keyword arguments of a delayed-scaling recipe
  from an optional recipe handler, resolving the format name to the engine's
  enum, and rebind the model's `forward` to run under `fp8_autocast` with it.
 */
module Autowrap {
  import opened Wrappers
  import opened Layers

  /** The members of `transformer_engine.common.recipe.Format`. */
  datatype Fp8Format = E4M3 | E5M2 | Hybrid

  /** The member name of a format. */
  function FormatName(f: Fp8Format): string {
    match f
    case E4M3 => "E4M3"
    case E5M2 => "E5M2"
    case Hybrid => "HYBRID"
  }

  /** `getattr(Format, name)`: the member of that name, if there is one. */
  function FormatNamed(name: string): (r: Option<Fp8Format>)
    ensures r.Some? <==> name in {"E4M3", "E5M2", "HYBRID"}
    ensures r.Some? ==> FormatName(r.value) == name
  {
    if name == "E4M3" then Some(E4M3)
    else if name == "E5M2" then Some(E5M2)
    else if name == "HYBRID" then Some(Hybrid)
    else None
  }

  /** A keyword argument's value, as the handler's `to_kwargs()` can hold it. */
  datatype KwValue = Str(s: string) | Int(n: int) | Format(format: Fp8Format)

  type Kwargs = map<string, KwValue>

  const FormatKey := "fp8_format"

  /** The keyword arguments handed to `DelayedScaling`: none without a handler;
      otherwise the handler's, with only the `fp8_format` entry, when there is one,
      turned from a member name into the member. A value that is not a string is a
      type error, a name that is no member an attribute error. */
  function RecipeKwargs(handler: Option<Kwargs>): (r: Result<Kwargs, Error>)
    ensures handler.None? ==> r == Success(map[])
    ensures handler.Some? && FormatKey !in handler.value ==> r == Success(handler.value)
    ensures handler.Some? && FormatKey in handler.value && !handler.value[FormatKey].Str? ==>
      r == Failure(TypeError)
    ensures handler.Some? && FormatKey in handler.value && handler.value[FormatKey].Str? ==>
      var name := handler.value[FormatKey].s;
      (FormatNamed(name).None? ==> r == Failure(AttributeError(name))) &&
      (FormatNamed(name).Some? ==>
        r.Success? &&
        r.value.Keys == handler.value.Keys &&
        r.value[FormatKey].Format? && FormatName(r.value[FormatKey].format) == name &&
        forall key :: key in handler.value && key != FormatKey ==> r.value[key] == handler.value[key])
  {
    match handler
    case None => Success(map[])
    case Some(kwargs) =>
      if FormatKey !in kwargs then Success(kwargs)
      else match kwargs[FormatKey]
        case Str(name) =>
          (match FormatNamed(name)
           case Some(f) => Success(kwargs[FormatKey := Format(f)])
           case None => Failure(AttributeError(name)))
        case _ => Failure(TypeError)
  }

  /** `DelayedScaling(**kwargs)`, kept as the arguments it was built from. */
  datatype DelayedScaling = DelayedScaling(settings: Kwargs)

  /** What `model.forward` is bound to: the module's own forward, or a forward
      wrapped by `fp8_autocast(enabled=..., fp8_recipe=...)`. */
  datatype Forward =
    | ModuleForward
    | Autocast(enabled: bool, recipe: DelayedScaling, wrapped: Forward)

  /** A model object, as far as `apply_fp8_autowrap` touches it. */
  class Model {
    var forward: Forward

    constructor (forward: Forward)
      ensures this.forward == forward
    {
      this.forward := forward;
    }
  }

  /** `apply_fp8_autowrap(model, fp8_recipe_handler)`. The imports at its top fail
      without the engine; otherwise it builds the recipe kwargs (which may raise),
      wraps the model's current forward and returns the same model object. */
  method ApplyFp8Autowrap(model: Model, handler: Option<Kwargs>, available: bool) returns (r: Result<Model, Error>)
    modifies model
    ensures !available ==> r == Failure(ImportError) && model.forward == old(model.forward)
    ensures available && RecipeKwargs(handler).Failure? ==>
      r == Failure(RecipeKwargs(handler).error) && model.forward == old(model.forward)
    ensures available && RecipeKwargs(handler).Success? ==>
      r == Success(model) &&
      model.forward == Autocast(true, DelayedScaling(RecipeKwargs(handler).value), old(model.forward))
  {
    if !available {
      return Failure(ImportError);
    }
    var kwargs: Kwargs := if handler.Some? then handler.value else map[];
    if FormatKey in kwargs {
      var value := kwargs[FormatKey];
      if !value.Str? {
        return Failure(TypeError);
      }
      var format := FormatNamed(value.s);
      if format.None? {
        return Failure(AttributeError(value.s));
      }
      kwargs := kwargs[FormatKey := Format(format.value)];
    }
    var recipe := DelayedScaling(kwargs);
    model.forward := Autocast(true, recipe, model.forward);
    return Success(model);
  }
}

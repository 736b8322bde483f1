/**
 * Extension helpers on values, options and argument slices
 * (src/extensions.rs): typed access to the plugin's custom values and
 * bug-reporting positional access.
 */
module Extensions {
  import opened Wrappers
  import opened NuValues
  import opened Text
  import Utils
  import PluginValues
  import CustomLua

  /** `Option::ok_or_type_error`. */
  function OkOrTypeError<T>(o: Option<T>, typeName: string, span: Span): (r: Result<T, ShellError>)
    ensures o.Some? ==> r == Success(o.value)
    ensures o.None? ==> r == Failure(Utils.TypeError(typeName, span))
  {
    match o
    case Some(x) => Success(x)
    case None => Failure(Utils.TypeError(typeName, span))
  }

  const BugPrefix: string := "BUG: "

  /** `Option::ok_or_else_bug`: a missing value is reported as a plugin bug. */
  function OkOrElseBug<T>(o: Option<T>, msg: string): (r: Result<T, ShellError>)
    ensures o.Some? ==> r == Success(o.value)
    ensures o.None? ==> r == Failure(Labeled(BugPrefix + msg))
  {
    match o
    case Some(x) => Success(x)
    case None => Failure(Utils.SimpleError(BugPrefix + msg))
  }

  /** The downcast of a custom value to `PluginValue`. */
  function DowncastPluginValue(c: CustomValue): (r: Option<PluginValue>)
    ensures r.Some? <==> c.CustomPluginValue?
    ensures r.Some? ==> r.value == c.pluginValue
  {
    if c.CustomPluginValue? then Some(c.pluginValue) else None
  }

  /** `as_specific_plugin_value`: the plugin value inside `v`, or an error naming `typeName`. */
  function AsSpecificPluginValue(v: Value, typeName: string): (r: Result<PluginValue, ShellError>)
    ensures r.Success? <==> v.Custom? && v.custom.CustomPluginValue?
    ensures r.Success? ==> r.value == v.custom.pluginValue
    ensures !v.Custom? ==> r == Failure(CantConvert("custom value", v.span))
    ensures v.Custom? && !v.custom.CustomPluginValue? ==> r == Failure(Utils.TypeError(typeName, v.span))
  {
    match AsCustomValue(v)
    case Failure(e) => Failure(e)
    case Success(c) => OkOrTypeError(DowncastPluginValue(c), typeName, v.span)
  }

  /** `as_plugin_value`: as above, naming the plugin value type in the error. */
  function AsPluginValue(v: Value): (r: Result<PluginValue, ShellError>)
    ensures r.Success? <==> v.Custom? && v.custom.CustomPluginValue?
    ensures r.Success? ==> r.value == v.custom.pluginValue
    ensures !v.Custom? ==> r == Failure(CantConvert("custom value", v.span))
    ensures v.Custom? && !v.custom.CustomPluginValue? ==>
      r == Failure(TypeMismatch("expected " + PluginValues.TYPE_NAME, v.span))
  {
    AsSpecificPluginValue(v, PluginValues.TYPE_NAME)
  }

  /** `as_lua`: the session reference inside a `PluginValue::Lua`. */
  function AsLua(v: Value): (r: Result<Lua, ShellError>)
    ensures r.Success? <==> v.Custom? && v.custom.CustomPluginValue?
    ensures r.Success? ==> r.value == v.custom.pluginValue.lua
    ensures !v.Custom? ==> r == Failure(CantConvert("custom value", v.span))
    ensures v.Custom? && !v.custom.CustomPluginValue? ==>
      r == Failure(TypeMismatch("expected " + CustomLua.TYPE_NAME, v.span))
  {
    match AsSpecificPluginValue(v, CustomLua.TYPE_NAME)
    case Failure(e) => Failure(e)
    case Success(pv) => PluginValues.AsLua(pv, v.span)
  }

  /** `ArgSliceExt::arg`: slot `index` read by `fromArg`, or a bug report if it is absent. */
  function Arg<T>(slice: seq<Value>, index: nat, fromArg: Value -> Result<T, ShellError>): (r: Result<T, ShellError>)
    ensures index < |slice| ==> r == fromArg(slice[index])
    ensures index >= |slice| ==> r == Failure(Labeled(BugPrefix + ("expected arg " + NatToString(index))))
  {
    var value := OkOrElseBug(if index < |slice| then Some(slice[index]) else None, "expected arg " + NatToString(index));
    match value
    case Failure(e) => Failure(e)
    case Success(v) => fromArg(v)
  }

  /** `EvaluatedCallExt::arg`: the same, on the call's positional arguments. */
  function CallArg<T>(call: EvaluatedCall, index: nat, fromArg: Value -> Result<T, ShellError>): Result<T, ShellError> {
    Arg(call.positional, index, fromArg)
  }

  /** `FromArg for &str`: `from_arg`. */
  function StrFromArg(v: Value): (r: Result<string, ShellError>)
    ensures r.Success? <==> v.String?
    ensures r.Success? ==> r.value == v.str
  {
    AsStr(v)
  }

  /** `FromArg for &str`: `syntax_shape`; it admits exactly what `StrFromArg` accepts. */
  function StrArgShape(): (shape: SyntaxShape)
    ensures forall v :: ShapeAdmits(shape, v) <==> StrFromArg(v).Success?
  {
    ShapeString
  }
}

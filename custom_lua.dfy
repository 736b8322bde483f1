/** The second generation's session reference (src/custom/lua.rs). */
module CustomLua {
  import opened Wrappers
  import opened NuValues

  /** `Lua::TYPE_NAME`, the name used in type errors about it. */
  const TYPE_NAME: string := "lua instance"

  /** `Lua::new`. */
  function New(uuid: Uuid): (l: Lua)
    ensures l.uuid == uuid
  {
    Lua(uuid)
  }

  /** `Lua::uuid`. */
  function Key(l: Lua): (uuid: Uuid)
    ensures New(uuid) == l
  {
    l.uuid
  }

  /** `New` and `Key` are inverse. */
  lemma NewKeyRoundTrip(uuid: Uuid, l: Lua)
    ensures Key(New(uuid)) == uuid
    ensures New(Key(l)) == l
  {
  }

  /** `Lua::to_base_value`: a placeholder string that does not reveal the key. */
  function ToBaseValue(l: Lua, span: Span): (r: Result<Value, ShellError>)
    ensures r == Success(String("<Lua>", span))
  {
    Success(String("<Lua>", span))
  }
}

/** `impl FromValue for &Lua` (src/custom/lua.rs). */
module CustomLuaFromValue {
  import opened Wrappers
  import opened NuValues
  import Extensions
  import CustomLua

  /** `from_value`: the `Lua` inside a `PluginValue::Lua` custom value. */
  function FromValue(v: Value): (r: Result<Lua, ShellError>)
    ensures r.Success? <==> v.Custom? && v.custom.CustomPluginValue?
    ensures r.Success? ==> r.value == v.custom.pluginValue.lua
    ensures !v.Custom? ==> r == Failure(CantConvert("custom value", v.span))
    ensures v.Custom? && !v.custom.CustomPluginValue? ==>
      r == Failure(TypeMismatch("expected " + CustomLua.TYPE_NAME, v.span))
  {
    Extensions.AsLua(v)
  }

  /** `syntax_shape`: any value may be passed; the check happens in `FromValue`. */
  function SyntaxShape(): (shape: SyntaxShape)
    ensures forall v :: ShapeAdmits(shape, v)
  {
    ShapeAny
  }
}

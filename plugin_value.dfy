/** The plugin's custom value enum (src/custom/plugin_value.rs). */
module PluginValues {
  import opened Wrappers
  import opened NuValues
  import CustomLua

  /** `PluginValue::TYPE_NAME`. */
  const TYPE_NAME: string := "lua plugin value"

  /**
   * `PluginValue::as_lua`. The enum has one variant, so the type-error arm
   * of the source can never be taken and is not modelled.
   */
  function AsLua(pv: PluginValue, span: Span): (r: Result<Lua, ShellError>)
    ensures r.Success? && PluginLua(r.value) == pv
  {
    Success(pv.lua)
  }

  /** `CustomValue::type_name`. */
  function TypeName(pv: PluginValue): (name: string)
    ensures pv.PluginLua? ==> name == "Lua"
  {
    match pv
    case PluginLua(_) => "Lua"
  }

  /** `CustomValue::to_base_value`: delegates to the variant's own base value. */
  function ToBaseValue(pv: PluginValue, span: Span): (r: Result<Value, ShellError>)
    ensures r == CustomLua.ToBaseValue(pv.lua, span)
    ensures r == Success(String("<Lua>", span))
  {
    match pv
    case PluginLua(l) => CustomLua.ToBaseValue(l, span)
  }

  /** `CustomValue::clone_value`: a custom value holding an equal plugin value. */
  function CloneValue(pv: PluginValue, span: Span): (v: Value)
    ensures AsCustomValue(v) == Success(CustomPluginValue(pv))
    ensures v.span == span
  {
    Custom(CustomPluginValue(pv), span)
  }

  /** `CustomValue::notify_plugin_on_drop`: the host reports every dropped value. */
  function NotifyPluginOnDrop(pv: PluginValue): (notify: bool)
    ensures notify
  {
    true
  }
}

/**
 * The first generation's session handle (src/lua_handle.rs): a custom
 * value wrapping the session's key, with constant type name and base
 * value.
 */
module LuaHandles {
  import opened Wrappers
  import opened NuValues

  /** `LuaHandle::new`. */
  function New(uuid: Uuid): (h: LuaHandle)
    ensures h.uuid == uuid
  {
    LuaHandle(uuid)
  }

  /** `LuaHandle::uuid`. */
  function Key(h: LuaHandle): (uuid: Uuid)
    ensures New(uuid) == h
  {
    h.uuid
  }

  /** `New` and `Key` are inverse: a handle is its key and nothing more. */
  lemma NewKeyRoundTrip(uuid: Uuid, h: LuaHandle)
    ensures Key(New(uuid)) == uuid
    ensures New(Key(h)) == h
  {
  }

  /** `CustomValue::type_name`. */
  function TypeName(h: LuaHandle): (name: string)
    ensures name == "LuaHandle"
  {
    "LuaHandle"
  }

  /** `CustomValue::to_base_value`: a placeholder string that does not reveal the key. */
  function ToBaseValue(h: LuaHandle, span: Span): (r: Result<Value, ShellError>)
    ensures r == Success(String("<LuaState>", span))
  {
    Success(String("<LuaState>", span))
  }

  /** `CustomValue::clone_value`: a custom value holding the same handle. */
  function CloneValue(h: LuaHandle, span: Span): (v: Value)
    ensures AsCustomValue(v) == Success(CustomHandle(h))
    ensures v.span == span
  {
    Custom(CustomHandle(h), span)
  }

  /** `CustomValue::notify_plugin_on_drop`: the host reports every dropped handle. */
  function NotifyPluginOnDrop(h: LuaHandle): (notify: bool)
    ensures notify
  {
    true
  }
}

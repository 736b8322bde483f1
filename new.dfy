/**
 * The helper-based `lua new` (src/command/new.rs): a field-less derived
 * argument struct, and a handler that opens a session and returns it as
 * a plugin value.
 */
module NewCommand {
  import opened Wrappers
  import opened NuValues
  import opened Commands
  import opened LuaPlugin
  import CustomLua
  import EvalCommand
  import LuaCommands

  const NewName: string := "lua new"
  const NewDescription: string := "create a new lua instance"

  /** `new()`: the command built from the empty derived `Args`. */
  function NewDef(): (c: Command)
    ensures c.name == NewName && c.description == NewDescription
    ensures c.args == DerivedArgs([]) && c.argSignatures == []
  {
    New(NewName, NewDescription, DerivedArgs([]))
  }

  /**
   * The two generations describe the same commands: the helper-based `new`
   * and `eval` carry the names and descriptions that the hand-written
   * `LuaNew` and `LuaEval` give.
   */
  lemma GenerationsAgree()
    ensures NewDef().name == LuaCommands.LuaNewName && NewDef().description == LuaCommands.LuaNewDescription
    ensures EvalCommand.Eval().name == LuaCommands.LuaEvalName
    ensures EvalCommand.Eval().description == LuaCommands.LuaEvalDescription
  {
  }

  /** Binding a field-less struct succeeds on any positional values, binding nothing. */
  lemma NewBindsNothing(positional: seq<Value>)
    ensures ArgsFromValues(NewDef().args, positional) == Success([])
  {
  }

  /** The value the handler returns for the session under `key`. */
  function NewValue(key: Uuid): (v: Value)
    ensures v.Custom? && v.custom.CustomPluginValue? && v.custom.pluginValue.lua.uuid == key
    ensures v.span == UnknownSpan
  {
    Custom(CustomPluginValue(PluginLua(CustomLua.New(key))), UnknownSpan)
  }

  /**
   * Running `lua new`: binding cannot fail, so the handler runs; it asks
   * the host to stop collecting the plugin, and on success registers
   * `engine` under `key` and returns the plugin value for it.
   */
  method Run(plugin: Plugin, gcDisabled: Result<(), ShellError>, key: Uuid, engine: Engine,
             call: EvaluatedCall, input: Value) returns (r: Result<Value, ShellError>)
    modifies plugin
    ensures gcDisabled.Failure? ==>
      r == Failure(gcDisabled.error) && plugin.states == old(plugin.states)
    ensures gcDisabled.Success? ==>
      r == Success(NewValue(key)) && plugin.states == old(plugin.states)[key := engine]
  {
    NewBindsNothing(call.positional);
    if gcDisabled.Failure? {
      return Failure(gcDisabled.error);
    }
    var h := plugin.CreateLua(key, engine);
    r := Success(NewValue(h.uuid));
  }

  /**
   * The value `lua new` returns works with `lua eval`: passed with a code
   * string, the code runs in the new session.
   */
  lemma NewValueFeedsEval(states: map<Uuid, Engine>, key: Uuid, engine: Engine, call: EvaluatedCall,
                          input: Value, evaluator: Evaluator, code: string, s: Span)
    requires call.positional == [NewValue(key), String(code, s)]
    ensures EvalCommand.EvalRun(states[key := engine], call, input, evaluator) ==
      match evaluator(engine, code)
      case Failure(msg) => Failure(Labeled(msg))
      case Success(value) => LuaToNu(value)
  {
    EvalCommand.EvalDelegates(states[key := engine], call, input, evaluator, CustomLua.New(key), UnknownSpan, code, s);
  }

  /**
   * Dropping that value: as written the session stays registered; as
   * intended a registry that did not hold the key is back as it was.
   */
  lemma NewValueDropped(states: map<Uuid, Engine>, key: Uuid, engine: Engine)
    requires key !in states
    ensures key in DropAsWritten(states[key := engine], NewValue(key).custom)
    ensures DropIntended(states[key := engine], NewValue(key).custom) == states
  {
    var after := DropIntended(states[key := engine], NewValue(key).custom);
    assert after.Keys == states.Keys;
  }
}

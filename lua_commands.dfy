/**
 * The hand-written commands (src/command.rs): `lua new` opens a session
 * and returns its handle; `lua eval` evaluates code in the session a
 * handle names.
 */
module LuaCommands {
  import opened Wrappers
  import opened NuValues
  import opened LuaPlugin

  const LuaNewName: string := "lua new"
  const LuaNewDescription: string := "create a new lua instance"
  const LuaEvalName: string := "lua eval"
  const LuaEvalDescription: string := "evaluate lua to a nushell value"

  const Arg0Missing: string := "BUG: arg 0 missing"
  const Arg1Missing: string := "BUG: arg 1 missing"
  const ExpectedLuaState: string := "expected lua state"

  /** `LuaNew::signature`: the name and the help flag, no parameters. */
  function LuaNewSignature(): (sig: Signature)
    ensures sig.name == LuaNewName && sig.required == [] && sig.named == [HelpFlag]
  {
    AddHelp(NewSignature(LuaNewName))
  }

  /**
   * `LuaNew::run`. `gcDisabled` is the outcome of asking the host to stop
   * collecting the plugin; `key` and `engine` are the new session's random
   * key and fresh instance. The call and the input are not used.
   */
  method LuaNewRun(plugin: Plugin, gcDisabled: Result<(), ShellError>, key: Uuid, engine: Engine,
                   call: EvaluatedCall, input: Value) returns (r: Result<Value, ShellError>)
    modifies plugin
    ensures gcDisabled.Failure? ==>
      r == Failure(gcDisabled.error) && plugin.states == old(plugin.states)
    ensures gcDisabled.Success? ==>
      && r == Success(Custom(CustomHandle(LuaHandle(key)), UnknownSpan))
      && plugin.states == old(plugin.states)[key := engine]
  {
    if gcDisabled.Failure? {
      return Failure(gcDisabled.error);
    }
    var h := plugin.CreateLua(key, engine);
    r := Success(Custom(CustomHandle(h), UnknownSpan));
  }

  /**
   * Dropping the value `lua new` returned removes exactly the session it
   * added, so a registry that did not hold the key is back as it was.
   */
  lemma LuaNewThenDrop(states: map<Uuid, Engine>, key: Uuid, engine: Engine)
    requires key !in states
    ensures DropAsWritten(states[key := engine], CustomHandle(LuaHandle(key))) == states
  {
    var after := DropAsWritten(states[key := engine], CustomHandle(LuaHandle(key)));
    assert after.Keys == states.Keys;
  }

  /** `LuaEval::signature`: the handle (any shape) and the code (a string). */
  function LuaEvalSignature(): (sig: Signature)
    ensures sig.name == LuaEvalName && sig.named == [HelpFlag]
    ensures sig.required == [PositionalArg("lua", "the lua state", ShapeAny),
                             PositionalArg("code", "the lua code to evaluate", ShapeString)]
  {
    Required(Required(AddHelp(NewSignature(LuaEvalName)), "lua", ShapeAny, "the lua state"),
             "code", ShapeString, "the lua code to evaluate")
  }

  /**
   * The first argument of `lua eval`: it must be a custom value, and that
   * custom value must be a `LuaHandle`.
   */
  function LuaStateArg(v: Value): (r: Result<LuaHandle, ShellError>)
    ensures r.Success? <==> v.Custom? && v.custom.CustomHandle?
    ensures r.Success? ==> r.value == v.custom.handle
    ensures !v.Custom? ==> r == Failure(CantConvert("custom value", v.span))
    ensures v.Custom? && !v.custom.CustomHandle? ==> r == Failure(TypeMismatch(ExpectedLuaState, v.span))
  {
    match AsCustomValue(v)
    case Failure(e) => Failure(e)
    case Success(c) =>
      if c.CustomHandle? then Success(c.handle) else Failure(TypeMismatch(ExpectedLuaState, v.span))
  }

  /**
   * `LuaEval::run` on a registry: the handle is checked before the code is
   * looked at, and a missing argument panics (the host enforces the
   * signature first, so those panics mark bugs).
   */
  function LuaEvalRun(states: map<Uuid, Engine>, call: EvaluatedCall, input: Value, evaluator: Evaluator): (r: Result<Value, ShellError>)
    ensures |call.positional| == 0 ==> r == Failure(Panicked(Arg0Missing))
    ensures |call.positional| >= 1 && !call.positional[0].Custom? ==>
      r == Failure(CantConvert("custom value", call.positional[0].span))
    ensures |call.positional| == 1 && LuaStateArg(call.positional[0]).Success? ==> r == Failure(Panicked(Arg1Missing))
    ensures |call.positional| >= 2 && LuaStateArg(call.positional[0]).Success? && !call.positional[1].String? ==>
      r == Failure(CantConvert("string", call.positional[1].span))
  {
    if |call.positional| == 0 then Failure(Panicked(Arg0Missing))
    else
      match LuaStateArg(call.positional[0])
      case Failure(e) => Failure(e)
      case Success(h) =>
        if |call.positional| == 1 then Failure(Panicked(Arg1Missing))
        else
          match AsStr(call.positional[1])
          case Failure(e) => Failure(e)
          case Success(code) => EvalLuaResult(states, h, code, evaluator)
  }

  /** The session and the code `lua eval` evaluates, when both arguments are well-formed. */
  function LuaEvalTarget(call: EvaluatedCall): (t: Option<(LuaHandle, string)>)
    ensures t.Some? <==> |call.positional| >= 2 && LuaStateArg(call.positional[0]).Success? && call.positional[1].String?
    ensures t.Some? ==> t.value == (call.positional[0].custom.handle, call.positional[1].str)
  {
    if |call.positional| >= 2 && call.positional[0].Custom? && call.positional[0].custom.CustomHandle?
       && call.positional[1].String?
    then Some((call.positional[0].custom.handle, call.positional[1].str))
    else None
  }

  /**
   * `LuaEval::run` on the plugin: its result is `LuaEvalRun` of the registry
   * as it was; the named session evaluates the code only when both
   * arguments are well-formed, and nothing else changes.
   */
  method LuaEval(plugin: Plugin, call: EvaluatedCall, input: Value, evaluator: Evaluator) returns (r: Result<Value, ShellError>)
    modifies plugin
    ensures r == LuaEvalRun(old(plugin.states), call, input, evaluator)
    ensures LuaEvalTarget(call).Some? ==>
      plugin.states == AfterEval(old(plugin.states), LuaEvalTarget(call).value.0, LuaEvalTarget(call).value.1)
    ensures LuaEvalTarget(call).None? ==> plugin.states == old(plugin.states)
  {
    if |call.positional| == 0 {
      return Failure(Panicked(Arg0Missing));
    }
    var handle := LuaStateArg(call.positional[0]);
    if handle.Failure? {
      return Failure(handle.error);
    }
    if |call.positional| == 1 {
      return Failure(Panicked(Arg1Missing));
    }
    var code := AsStr(call.positional[1]);
    if code.Failure? {
      return Failure(code.error);
    }
    r := plugin.EvalLua(handle.value, code.value, evaluator);
  }

  /**
   * A bad first argument is reported whatever follows it, with the
   * argument's own span.
   */
  lemma LuaEvalChecksHandleFirst(states: map<Uuid, Engine>, call: EvaluatedCall, input: Value, evaluator: Evaluator)
    requires |call.positional| >= 1 && call.positional[0].Custom? && !call.positional[0].custom.CustomHandle?
    ensures LuaEvalRun(states, call, input, evaluator) == Failure(TypeMismatch(ExpectedLuaState, call.positional[0].span))
  {
  }

  /** With a handle and a string, `lua eval` is `eval_lua` on them. */
  lemma LuaEvalDelegates(states: map<Uuid, Engine>, call: EvaluatedCall, input: Value, evaluator: Evaluator, h: LuaHandle, s: Span, code: string, s': Span)
    requires |call.positional| >= 2
    requires call.positional[0] == Custom(CustomHandle(h), s) && call.positional[1] == String(code, s')
    ensures LuaEvalRun(states, call, input, evaluator) == EvalLuaResult(states, h, code, evaluator)
  {
  }

  /** A handle whose session was dropped can no longer be evaluated. */
  lemma LuaEvalAfterDrop(states: map<Uuid, Engine>, call: EvaluatedCall, input: Value, evaluator: Evaluator, h: LuaHandle, s: Span, code: string, s': Span)
    requires |call.positional| >= 2
    requires call.positional[0] == Custom(CustomHandle(h), s) && call.positional[1] == String(code, s')
    ensures LuaEvalRun(DropAsWritten(states, CustomHandle(h)), call, input, evaluator) == Failure(Labeled(InvalidHandleMessage))
  {
  }

  /** Only the first two positional values and the registry matter; the input never does. */
  lemma LuaEvalUsesTwoArgs(states: map<Uuid, Engine>, call: EvaluatedCall, call': EvaluatedCall, input: Value, input': Value, evaluator: Evaluator)
    requires |call.positional| >= 2 && |call'.positional| >= 2
    requires call.positional[..2] == call'.positional[..2]
    ensures LuaEvalRun(states, call, input, evaluator) == LuaEvalRun(states, call', input', evaluator)
  {
    assert call.positional[0] == call.positional[..2][0] && call'.positional[0] == call'.positional[..2][0];
    assert call.positional[1] == call.positional[..2][1] && call'.positional[1] == call'.positional[..2][1];
  }
}

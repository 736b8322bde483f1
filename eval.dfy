/**
 * The helper-based `lua eval` (src/command/eval.rs): a derived argument
 * struct with an instance and a code string, run through the generic
 * command wrapper.
 */
module EvalCommand {
  import opened Wrappers
  import opened NuValues
  import opened Text
  import opened HelperFromValues
  import opened DeriveFromValues
  import opened Commands
  import opened LuaPlugin
  import CustomLua
  import LuaCommands

  const EvalName: string := "lua eval"
  const EvalDescription: string := "evaluate lua to a nushell value"

  /**
   * The fields of `Args`: each `///` line becomes one doc value, which
   * keeps the space after the slashes.
   */
  const EvalFields: seq<Field> := [
    Field("lua", LuaRef, [" lua instance", " test D:"]),
    Field("code", StrRef, [" lua code to evaluate"])
  ]

  /** The message of the closure's unmatched case, which binding never reaches (see `BindingShape`). */
  const UnboundArgs: string := "arguments do not match Args"

  /** `eval()`: the command built from the derived `Args`. */
  function Eval(): (c: Command)
    ensures c.name == EvalName && c.description == EvalDescription
    ensures c.args == DerivedArgs(EvalFields)
    ensures |c.argSignatures| == 2
  {
    New(EvalName, EvalDescription, DerivedArgs(EvalFields))
  }

  /** The session and the code in bound values of the `Args` shape: `Args { lua, code }`. */
  function Target(args: seq<Bound>): (t: Option<(LuaHandle, string)>)
    ensures t.Some? <==> |args| == 2 && args[0].BoundLua? && args[1].BoundStr?
    ensures t.Some? ==> t.value == (LuaHandle(args[0].lua.uuid), args[1].str)
  {
    if |args| == 2 && args[0].BoundLua? && args[1].BoundStr? then
      Some((LuaHandle(CustomLua.Key(args[0].lua)), args[1].str))
    else None
  }

  /**
   * The closure: destructure `Args { lua, code }` and give `eval_lua`'s
   * result for `code` in the session `lua` names.
   */
  function Handler(states: map<Uuid, Engine>, evaluator: Evaluator, args: seq<Bound>): (r: Result<Value, ShellError>)
    ensures Target(args).Some? ==>
      r == EvalLuaResult(states, Target(args).value.0, Target(args).value.1, evaluator)
    ensures Target(args).None? ==> r == Failure(Panicked(UnboundArgs))
  {
    match Target(args)
    case Some((h, code)) => EvalLuaResult(states, h, code, evaluator)
    case None => Failure(Panicked(UnboundArgs))
  }

  /**
   * Running the command on a registry: binding failures are returned as
   * they are, and only a call whose first two arguments are a plugin value
   * and a string gets as far as the interpreter.
   */
  function EvalRun(states: map<Uuid, Engine>, call: EvaluatedCall, input: Value, evaluator: Evaluator): (r: Result<Value, ShellError>)
    ensures FromValues(EvalFields, call.positional).Failure? ==> r == Failure(FromValues(EvalFields, call.positional).error)
    ensures r.Success? ==>
      && |call.positional| >= 2
      && call.positional[0].Custom? && call.positional[0].custom.CustomPluginValue?
      && call.positional[1].String?
  {
    var r := Run(Eval(), call, input, args => Handler(states, evaluator, args));
    FromValuesSucceeds(EvalFields, call.positional);
    r
  }

  /**
   * Running the command on the plugin: the result is `EvalRun` of the
   * registry as it was; the named session evaluates the code exactly when
   * binding succeeds, and nothing else changes.
   */
  method EvalCall(plugin: Plugin, call: EvaluatedCall, input: Value, evaluator: Evaluator) returns (r: Result<Value, ShellError>)
    modifies plugin
    ensures r == EvalRun(old(plugin.states), call, input, evaluator)
    ensures FromValues(EvalFields, call.positional).Failure? ==> plugin.states == old(plugin.states)
    ensures FromValues(EvalFields, call.positional).Success? ==>
      var t := Target(FromValues(EvalFields, call.positional).value);
      t.Some? && plugin.states == AfterEval(old(plugin.states), t.value.0, t.value.1)
  {
    var bound := ArgsFromValues(Eval().args, call.positional);
    if bound.Failure? {
      return Failure(bound.error);
    }
    BindingShape(call.positional);
    var lua, code := bound.value[0].lua, bound.value[1].str;
    r := plugin.EvalLua(LuaHandle(CustomLua.Key(lua)), code, evaluator);
  }

  /** Successful binding yields exactly an instance followed by a string. */
  lemma BindingShape(positional: seq<Value>)
    requires FromValues(EvalFields, positional).Success?
    ensures var args := FromValues(EvalFields, positional).value;
      |args| == 2 && args[0].BoundLua? && args[1].BoundStr?
  {
    FromValuesSucceeds(EvalFields, positional);
  }

  /**
   * The declared parameters: `lua` of any shape described by both doc
   * lines trimmed and joined, then `code`, a string.
   */
  lemma EvalSignatures()
    ensures Eval().argSignatures == [
      ArgSignature("lua", "lua instance test D:", ShapeAny),
      ArgSignature("code", "lua code to evaluate", ShapeString)
    ]
  {
    LuaDescription();
    CodeDescription();
    var sigs := Eval().argSignatures;
    assert sigs == FieldSignatures(EvalFields);
    assert sigs[0] == ArgSignature("lua", "lua instance test D:", ShapeAny);
    assert sigs[1] == ArgSignature("code", "lua code to evaluate", ShapeString);
  }

  lemma LuaDescription()
    ensures DocDescription(EvalFields[0].docs) == "lua instance test D:"
  {
    var d := EvalFields[0].docs;
    TrimDocLine(d[0], "lua instance");
    TrimDocLine(d[1], "test D:");
    TwoLineDescription(d, "lua instance", "test D:");
  }

  /** Two doc lines give their trimmed texts joined by one space. */
  lemma TwoLineDescription(docs: seq<string>, first: string, second: string)
    requires |docs| == 2 && Trim(docs[0]) == first && Trim(docs[1]) == second
    ensures DocDescription(docs) == first + " " + second
  {
    var lines := TrimAll(docs);
    assert lines == [first, second];
    assert lines[1..] == [second];
    assert Join(lines[1..], " ") == second;
    assert Join(lines, " ") == lines[0] + " " + Join(lines[1..], " ");
  }

  lemma CodeDescription()
    ensures DocDescription(EvalFields[1].docs) == "lua code to evaluate"
  {
    TrimDocLine(EvalFields[1].docs[0], "lua code to evaluate");
  }

  /** A doc line is the text after one space; trimming recovers the text. */
  lemma TrimDocLine(line: string, text: string)
    requires line == " " + text && text != []
    requires !IsWhitespace(text[0]) && !IsWhitespace(text[|text| - 1])
    ensures Trim(line) == text
  {
    assert line[1..] == text;
    assert TrimStart(line) == TrimStart(text) == text;
    TrimKeepsUnpadded(text);
  }

  /**
   * Both generations of `lua eval` declare the same parameter names and
   * shapes; only the descriptions differ.
   */
  lemma SignaturesAgreeOnShapes()
    ensures Eval().name == LuaCommands.LuaEvalSignature().name
    ensures |Eval().argSignatures| == |LuaCommands.LuaEvalSignature().required|
    ensures forall i :: 0 <= i < |Eval().argSignatures| ==>
      && Eval().argSignatures[i].name == LuaCommands.LuaEvalSignature().required[i].name
      && Eval().argSignatures[i].shape == LuaCommands.LuaEvalSignature().required[i].shape
    ensures Eval().argSignatures[0].description != LuaCommands.LuaEvalSignature().required[0].desc
  {
    EvalSignatures();
  }

  /** No arguments: the first parameter is reported missing. */
  lemma EvalMissingFirst(states: map<Uuid, Engine>, call: EvaluatedCall, input: Value, evaluator: Evaluator)
    requires call.positional == []
    ensures EvalRun(states, call, input, evaluator) == Failure(Labeled("missing positional arg 0 (lua)"))
  {
    FromValuesReportsFirstMissing(EvalFields, []);
    assert MissingMessage(0, "lua") == "missing positional arg 0 (lua)";
  }

  /** An instance but no code: the second parameter is reported missing. */
  lemma EvalMissingSecond(states: map<Uuid, Engine>, call: EvaluatedCall, input: Value, evaluator: Evaluator, l: Lua, s: Span)
    requires call.positional == [Custom(CustomPluginValue(PluginLua(l)), s)]
    ensures EvalRun(states, call, input, evaluator) == Failure(Labeled("missing positional arg 1 (code)"))
  {
    FromValuesReportsFirstMissing(EvalFields, call.positional);
    assert MissingMessage(1, "code") == "missing positional arg 1 (code)";
  }

  /** An instance and a string: `eval_lua` in the instance's session. */
  lemma EvalDelegates(states: map<Uuid, Engine>, call: EvaluatedCall, input: Value, evaluator: Evaluator, l: Lua, s: Span, code: string, s': Span)
    requires |call.positional| >= 2
    requires call.positional[0] == Custom(CustomPluginValue(PluginLua(l)), s)
    requires call.positional[1] == String(code, s')
    ensures EvalRun(states, call, input, evaluator) == EvalLuaResult(states, LuaHandle(l.uuid), code, evaluator)
  {
    FromValuesSucceeds(EvalFields, call.positional);
  }

  /**
   * The handle the hand-written `lua new` returns is refused here: the
   * derived binder only accepts the plugin-value form.
   */
  lemma EvalRefusesHandle(states: map<Uuid, Engine>, call: EvaluatedCall, input: Value, evaluator: Evaluator, h: LuaHandle, s: Span)
    requires |call.positional| >= 1 && call.positional[0] == Custom(CustomHandle(h), s)
    ensures EvalRun(states, call, input, evaluator) == Failure(TypeMismatch("expected lua instance", s))
  {
    FromValuesFailsAtFirst(EvalFields, call.positional, 0);
    assert "expected " + CustomLua.TYPE_NAME == "expected lua instance";
  }

  /** An instance followed by something other than a string: the conversion error for the code. */
  lemma EvalRejectsNonString(states: map<Uuid, Engine>, call: EvaluatedCall, input: Value, evaluator: Evaluator, l: Lua, s: Span)
    requires |call.positional| >= 2
    requires call.positional[0] == Custom(CustomPluginValue(PluginLua(l)), s)
    requires !call.positional[1].String?
    ensures EvalRun(states, call, input, evaluator) == Failure(CantConvert("string", call.positional[1].span))
  {
    FromValuesFailsAtFirst(EvalFields, call.positional, 1);
  }
}

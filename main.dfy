/**
 * The plugin's state and its conversion of interpreter values
 * (src/main.rs): a registry from session keys to interpreter instances,
 * the create / destroy / look-up / evaluate operations on it, the
 * notification that a handle was dropped, and `lua_to_nushell`.
 */
module LuaPlugin {
  import opened Wrappers
  import opened Text
  import opened Utf8
  import opened NuValues

  /** An interpreter value as the evaluator hands it back. */
  datatype LuaValue =
    | Nil
    | Boolean(b: bool)
    | Integer(i: i64)
    | Number(n: FloatBits)
    | LuaString(bytes: seq<byte>)
    | Table(pairs: seq<LuaPair>)
    | Function(address: nat)
    | Thread
    | LightUserData
    | UserData
    | LuaError(message: string)

  /** One item of a table's pair iterator: a key/value pair, or the error it yielded. */
  datatype LuaPair = Pair(key: LuaValue, val: LuaValue) | PairError(message: string)

  /**
   * An interpreter instance: its identity and the chunks evaluated on it so
   * far, in order. Its globals are whatever those chunks left behind, so the
   * chunks stand for the instance's state.
   */
  datatype Engine = Engine(id: nat, chunks: seq<string>)

  /**
   * Loading and evaluating a chunk on an instance, with the interpreter's
   * error already rendered to its message. The instance passed in carries
   * every earlier chunk, so a result may depend on them.
   */
  type Evaluator = (Engine, string) -> Result<LuaValue, string>

  /** The instance after it has evaluated `code`, whether or not that succeeded. */
  function Ran(engine: Engine, code: string): (after: Engine)
    ensures after.id == engine.id && after.chunks == engine.chunks + [code]
  {
    Engine(engine.id, engine.chunks + [code])
  }

  /** The message a `todo!()` panics with. */
  const TodoMessage: string := "not yet implemented"

  /** What `format!("function: {:p}", ..)` puts before the hexadecimal address. */
  const FunctionPrefix: string := "function: 0x"

  const InvalidHandleMessage: string := "lua handle is invalid"

  /** The record built for one table pair. */
  function Entry(index: Value, item: Value): Value {
    Record([Column("index", index), Column("item", item)], UnknownSpan)
  }

  /**
   * A string converts to a shell string when its bytes are valid UTF-8
   * (and then encoding that string gives the bytes back), and to binary
   * holding the same bytes exactly when no string encodes to them.
   */
  function LuaStringToNu(bytes: seq<byte>): (r: Value)
    ensures r.span == UnknownSpan
    ensures r.String? || r.Binary?
    ensures r.String? ==> Encode(r.str) == bytes
    ensures r.Binary? ==> r.bytes == bytes && forall s :: Encode(s) != bytes
  {
    DecodeSucceedsIffEncoded(bytes);
    match Decode(bytes)
    case Some(s) => EncodeDecode(bytes); String(s, UnknownSpan)
    case None => Binary(bytes, UnknownSpan)
  }

  /** The cases of `lua_to_nushell` other than a table. */
  function ScalarToNu(v: LuaValue): (r: Result<Value, ShellError>)
    requires !v.Table?
    ensures r.Success? <==> !(v.Thread? || v.LightUserData? || v.UserData? || v.LuaError?)
    ensures r.Failure? ==> r.error == Panicked(TodoMessage)
    ensures r.Success? ==> r.value.span == UnknownSpan
    ensures v.Nil? ==> r == Success(Nothing(UnknownSpan))
    ensures v.Boolean? ==> r == Success(Bool(v.b, UnknownSpan))
    ensures v.Integer? ==> r == Success(Int(v.i, UnknownSpan))
    ensures v.Number? ==> r == Success(Float(v.n, UnknownSpan))
    ensures v.Function? ==>
      && r.Success? && r.value.String?
      && |FunctionPrefix| <= |r.value.str|
      && r.value.str[..|FunctionPrefix|] == FunctionPrefix
      && (forall k :: |FunctionPrefix| <= k < |r.value.str| ==> IsHexDigit(r.value.str[k]))
      && HexValue(r.value.str[|FunctionPrefix|..]) == v.address
  {
    match v
    case Nil => Success(Nothing(UnknownSpan))
    case Boolean(b) => Success(Bool(b, UnknownSpan))
    case Integer(i) => Success(Int(i, UnknownSpan))
    case Number(n) => Success(Float(n, UnknownSpan))
    case LuaString(bytes) => Success(LuaStringToNu(bytes))
    case Function(address) =>
      var s := FunctionPrefix + NatToHex(address);
      assert s[|FunctionPrefix|..] == NatToHex(address);
      NatToHexRoundTrip(address);
      Success(String(s, UnknownSpan))
    case Thread => Failure(Panicked(TodoMessage))
    case LightUserData => Failure(Panicked(TodoMessage))
    case UserData => Failure(Panicked(TodoMessage))
    case LuaError(_) => Failure(Panicked(TodoMessage))
  }

  /**
   * `lua_to_nushell`, as a function of the value: a converted table is a
   * list with one entry per pair, and every converted value has no span.
   */
  function LuaToNu(v: LuaValue): (r: Result<Value, ShellError>)
    ensures r.Success? ==> r.value.span == UnknownSpan
    ensures v.Table? && r.Success? ==> r.value.List? && |r.value.vals| == |v.pairs|
    decreases v, 1
  {
    if v.Table? then
      match TableRecords(v, 0)
      case Success(records) => Success(List(records, UnknownSpan))
      case Failure(e) => Failure(e)
    else ScalarToNu(v)
  }

  /**
   * The records for the pairs of table `t` from the `i`-th on: each pair
   * fails on an iterator error, then on its key, then on its value.
   */
  function TableRecords(t: LuaValue, i: nat): (r: Result<seq<Value>, ShellError>)
    requires t.Table? && i <= |t.pairs|
    ensures r.Success? ==> |r.value| == |t.pairs| - i
    ensures r.Success? ==> forall j :: 0 <= j < |r.value| ==> r.value[j].Record?
    decreases t, 0, |t.pairs| - i
  {
    if i == |t.pairs| then Success([])
    else
      var p := t.pairs[i];
      if p.PairError? then Failure(Labeled(p.message))
      else
        match LuaToNu(p.key)
        case Failure(e) => Failure(e)
        case Success(k) =>
          match LuaToNu(p.val)
          case Failure(e) => Failure(e)
          case Success(item) =>
            match TableRecords(t, i + 1)
            case Failure(e) => Failure(e)
            case Success(rest) => Success([Entry(k, item)] + rest)
  }

  /** A table pair that converts: no iterator error and both sides convert. */
  predicate PairConverts(p: LuaPair) {
    p.Pair? && LuaToNu(p.key).Success? && LuaToNu(p.val).Success?
  }

  function PairEntry(p: LuaPair): Value
    requires PairConverts(p)
  {
    Entry(LuaToNu(p.key).value, LuaToNu(p.val).value)
  }

  /** The error a failing pair reports: the iterator's, else the key's, else the value's. */
  function PairFailure(p: LuaPair): ShellError
    requires !PairConverts(p)
  {
    if p.PairError? then Labeled(p.message)
    else if LuaToNu(p.key).Failure? then LuaToNu(p.key).error
    else LuaToNu(p.val).error
  }

  lemma {:induction false} TableRecordsSucceeds(t: LuaValue, i: nat)
    requires t.Table? && i <= |t.pairs|
    ensures TableRecords(t, i).Success? <==> forall j :: i <= j < |t.pairs| ==> PairConverts(t.pairs[j])
    ensures TableRecords(t, i).Success? ==>
      && |TableRecords(t, i).value| == |t.pairs| - i
      && forall j :: i <= j < |t.pairs| ==> TableRecords(t, i).value[j - i] == PairEntry(t.pairs[j])
    decreases |t.pairs| - i
  {
    if i < |t.pairs| {
      TableRecordsSucceeds(t, i + 1);
    }
  }

  /**
   * A table converts exactly when every pair converts, and then to a list
   * holding one index/item record per pair, in iteration order.
   */
  lemma TableToList(t: LuaValue)
    requires t.Table?
    ensures LuaToNu(t).Success? <==> forall j :: 0 <= j < |t.pairs| ==> PairConverts(t.pairs[j])
    ensures LuaToNu(t).Success? ==>
      && LuaToNu(t).value.List?
      && LuaToNu(t).value.span == UnknownSpan
      && |LuaToNu(t).value.vals| == |t.pairs|
      && forall j :: 0 <= j < |t.pairs| ==> LuaToNu(t).value.vals[j] == PairEntry(t.pairs[j])
  {
    TableRecordsSucceeds(t, 0);
    if TableRecords(t, 0).Success? {
      assert LuaToNu(t) == Success(List(TableRecords(t, 0).value, UnknownSpan));
    }
  }

  lemma {:induction false} TableRecordsFailsAtFirst(t: LuaValue, i: nat, k: nat)
    requires t.Table? && i <= k < |t.pairs|
    requires forall j :: i <= j < k ==> PairConverts(t.pairs[j])
    requires !PairConverts(t.pairs[k])
    ensures TableRecords(t, i) == Failure(PairFailure(t.pairs[k]))
    decreases k - i
  {
    if i < k {
      TableRecordsFailsAtFirst(t, i + 1, k);
    }
  }

  /** The `?` inside the loop: the first pair that does not convert decides the error. */
  lemma TableFailsAtFirst(t: LuaValue, k: nat)
    requires t.Table? && k < |t.pairs|
    requires forall j :: 0 <= j < k ==> PairConverts(t.pairs[j])
    requires !PairConverts(t.pairs[k])
    ensures LuaToNu(t) == Failure(PairFailure(t.pairs[k]))
  {
    TableRecordsFailsAtFirst(t, 0, k);
  }

  /**
   * The values `lua_to_nushell` handles without panicking or erroring:
   * no thread, userdata or error value anywhere, and no iterator error in
   * any table.
   */
  predicate Supported(v: LuaValue) {
    match v
    case Thread => false
    case LightUserData => false
    case UserData => false
    case LuaError(_) => false
    case Table(pairs) => forall p | p in pairs :: p.Pair? && Supported(p.key) && Supported(p.val)
    case _ => true
  }

  lemma {:induction false} ConvertsIffSupported(v: LuaValue)
    ensures LuaToNu(v).Success? <==> Supported(v)
    decreases v
  {
    if v.Table? {
      forall j | 0 <= j < |v.pairs|
        ensures PairConverts(v.pairs[j]) <==> (v.pairs[j].Pair? && Supported(v.pairs[j].key) && Supported(v.pairs[j].val))
      {
        if v.pairs[j].Pair? {
          ConvertsIffSupported(v.pairs[j].key);
          ConvertsIffSupported(v.pairs[j].val);
        }
      }
      TableToList(v);
    }
  }

  /** `records` put in front of a result's records; an error passes through. */
  function Prepend(records: seq<Value>, rest: Result<seq<Value>, ShellError>): Result<seq<Value>, ShellError> {
    match rest
    case Success(rs) => Success(records + rs)
    case Failure(e) => Failure(e)
  }

  /** One loop step: a converting pair moves its record from the rest to the front. */
  lemma PrependStep(t: LuaValue, i: nat, records: seq<Value>)
    requires t.Table? && i < |t.pairs| && PairConverts(t.pairs[i])
    ensures Prepend(records, TableRecords(t, i)) == Prepend(records + [PairEntry(t.pairs[i])], TableRecords(t, i + 1))
  {
    if TableRecords(t, i + 1).Success? {
      var rest := TableRecords(t, i + 1).value;
      assert records + ([PairEntry(t.pairs[i])] + rest) == (records + [PairEntry(t.pairs[i])]) + rest;
    }
  }

  /** `lua_to_nushell`, with its loop over the table's pairs. */
  method LuaToNushell(v: LuaValue) returns (r: Result<Value, ShellError>)
    ensures r == LuaToNu(v)
    decreases v
  {
    if !v.Table? {
      return ScalarToNu(v);
    }
    var records: seq<Value> := [];
    var i := 0;
    if TableRecords(v, 0).Success? {
      assert [] + TableRecords(v, 0).value == TableRecords(v, 0).value;
    }
    while i < |v.pairs|
      invariant 0 <= i <= |v.pairs|
      invariant TableRecords(v, 0) == Prepend(records, TableRecords(v, i))
    {
      var p := v.pairs[i];
      if p.PairError? {
        return Failure(Labeled(p.message));
      }
      var k := LuaToNushell(p.key);
      if k.Failure? {
        return Failure(k.error);
      }
      var item := LuaToNushell(p.val);
      if item.Failure? {
        return Failure(item.error);
      }
      PrependStep(v, i, records);
      records := records + [Entry(k.value, item.value)];
      i := i + 1;
    }
    assert records + [] == records;
    return Success(List(records, UnknownSpan));
  }

  /** The instance stored under `key`, if any. */
  function Lookup(states: map<Uuid, Engine>, key: Uuid): (r: Option<Engine>)
    ensures r.Some? <==> key in states
    ensures r.Some? ==> r.value == states[key]
  {
    if key in states then Some(states[key]) else None
  }

  /**
   * `eval_lua` on a given registry: an unknown handle is an error before
   * the interpreter is consulted; an interpreter error is reported with
   * its message; otherwise the value is converted.
   */
  function EvalLuaResult(states: map<Uuid, Engine>, h: LuaHandle, code: string, evaluator: Evaluator): (r: Result<Value, ShellError>)
    ensures h.uuid !in states ==> r == Failure(Labeled(InvalidHandleMessage))
    ensures h.uuid in states && evaluator(states[h.uuid], code).Failure? ==>
      r == Failure(Labeled(evaluator(states[h.uuid], code).error))
    ensures h.uuid in states && evaluator(states[h.uuid], code).Success? ==>
      r == LuaToNu(evaluator(states[h.uuid], code).value)
  {
    match Lookup(states, h.uuid)
    case None => Failure(Labeled(InvalidHandleMessage))
    case Some(engine) =>
      match evaluator(engine, code)
      case Failure(msg) => Failure(Labeled(msg))
      case Success(value) => LuaToNu(value)
  }

  /**
   * The registry after `eval_lua`: the handle's session, if there is one,
   * has evaluated the code; every other session is untouched.
   */
  function AfterEval(states: map<Uuid, Engine>, h: LuaHandle, code: string): (r: map<Uuid, Engine>)
    ensures r.Keys == states.Keys
    ensures forall k | k in states && k != h.uuid :: r[k] == states[k]
    ensures h.uuid in states ==> r[h.uuid] == Ran(states[h.uuid], code)
  {
    if h.uuid in states then states[h.uuid := Ran(states[h.uuid], code)] else states
  }

  /**
   * An evaluator that answers with one more than the number of chunks the
   * instance evaluated before, as `x = (x or 0) + 1; return x` does.
   */
  function Counter(engine: Engine, code: string): Result<LuaValue, string> {
    Success(Integer(if |engine.chunks| < 0x7fff_ffff then |engine.chunks| + 1 else 0))
  }

  /**
   * A session keeps its state between evaluations: the same code evaluated
   * twice in a fresh session can give two different results.
   */
  lemma SessionKeepsState(states: map<Uuid, Engine>, h: LuaHandle, code: string)
    requires h.uuid in states && states[h.uuid].chunks == []
    ensures EvalLuaResult(states, h, code, Counter) == Success(Int(1, UnknownSpan))
    ensures EvalLuaResult(AfterEval(states, h, code), h, code, Counter) == Success(Int(2, UnknownSpan))
  {
  }

  /** An unknown handle fails the same way whatever the interpreter would do. */
  lemma InvalidHandleSkipsEngine(states: map<Uuid, Engine>, h: LuaHandle, code: string, e1: Evaluator, e2: Evaluator)
    requires h.uuid !in states
    ensures EvalLuaResult(states, h, code, e1) == EvalLuaResult(states, h, code, e2)
         == Failure(Labeled(InvalidHandleMessage))
  {
  }

  /**
   * Evaluation sees only the handle's own session: two registries that
   * agree on that key give the same result.
   */
  lemma SessionsAreIndependent(states: map<Uuid, Engine>, other: map<Uuid, Engine>, h: LuaHandle, code: string, evaluator: Evaluator)
    requires h.uuid in states <==> h.uuid in other
    requires h.uuid in states ==> states[h.uuid] == other[h.uuid]
    ensures EvalLuaResult(states, h, code, evaluator) == EvalLuaResult(other, h, code, evaluator)
  {
  }

  /**
   * Registering a key the registry did not hold adds exactly that key and
   * leaves every other session as it was.
   */
  lemma InsertFrame(states: map<Uuid, Engine>, key: Uuid, engine: Engine)
    requires key !in states
    ensures states[key := engine].Keys == states.Keys + {key}
    ensures |states[key := engine]| == |states| + 1
    ensures forall k | k in states :: states[key := engine][k] == states[k]
  {
  }

  /**
   * Removing a key touches no other session, removing an absent key
   * changes nothing, and so removing twice is removing once.
   */
  lemma RemoveFrame(states: map<Uuid, Engine>, key: Uuid)
    ensures forall k | k in states && k != key :: k in states - {key} && (states - {key})[k] == states[k]
    ensures key !in states ==> states - {key} == states
    ensures (states - {key}) - {key} == states - {key}
  {
  }

  /** The session key a dropped custom value carries, if any. */
  function SessionKey(value: CustomValue): (key: Option<Uuid>)
    ensures value.CustomHandle? ==> key == Some(value.handle.uuid)
    ensures value.CustomPluginValue? ==> key == Some(value.pluginValue.lua.uuid)
    ensures value.OtherCustom? ==> key == None
  {
    match value
    case CustomHandle(h) => Some(h.uuid)
    case CustomPluginValue(PluginLua(l)) => Some(l.uuid)
    case OtherCustom(_) => None
  }

  /** `custom_value_dropped` as written: only a `LuaHandle` is recognised. */
  function DropAsWritten(states: map<Uuid, Engine>, value: CustomValue): (r: map<Uuid, Engine>)
    ensures value.CustomHandle? ==> forall k :: k in r <==> k in states && k != value.handle.uuid
    ensures !value.CustomHandle? ==> r == states
    ensures forall k | k in r :: r[k] == states[k]
  {
    if value.CustomHandle? then states - {value.handle.uuid} else states
  }

  /**
   * `custom_value_dropped` as intended: the session of any value that
   * carries a key is destroyed, and no other session is touched.
   */
  function DropIntended(states: map<Uuid, Engine>, value: CustomValue): (r: map<Uuid, Engine>)
    ensures forall k :: k in r <==> k in states && SessionKey(value) != Some(k)
    ensures forall k | k in r :: r[k] == states[k]
  {
    match SessionKey(value)
    case Some(key) => states - {key}
    case None => states
  }

  /**
   * Dropping the value returned by the helper-based `lua new` (a plugin
   * value) leaves its session registered as written, but removes it as
   * intended.
   */
  lemma PluginValueDropLeaks(states: map<Uuid, Engine>, l: Lua)
    requires l.uuid in states
    ensures l.uuid in DropAsWritten(states, CustomPluginValue(PluginLua(l)))
    ensures l.uuid !in DropIntended(states, CustomPluginValue(PluginLua(l)))
  {
  }

  /** Both agree on the handles the hand-written commands hand out. */
  lemma DropAgreesOnHandles(states: map<Uuid, Engine>, h: LuaHandle)
    ensures DropIntended(states, CustomHandle(h)) == DropAsWritten(states, CustomHandle(h))
  {
  }

  /** A repeated drop notification changes nothing more. */
  lemma DropIdempotent(states: map<Uuid, Engine>, value: CustomValue)
    ensures DropIntended(DropIntended(states, value), value) == DropIntended(states, value)
  {
  }

  /** The plugin: a registry of interpreter sessions keyed by their handles' keys. */
  class Plugin {
    var states: map<Uuid, Engine>

    /** `Plugin::new`: no sessions. */
    constructor ()
      ensures states == map[]
    {
      states := map[];
    }

    /**
     * `create_lua`: registers `engine` under `key` and returns the handle
     * for it. The random key and the new instance are the caller's.
     */
    method CreateLua(key: Uuid, engine: Engine) returns (h: LuaHandle)
      modifies this
      ensures h.uuid == key
      ensures states == old(states)[key := engine]
    {
      states := states[key := engine];
      h := LuaHandle(key);
    }

    /** `destroy_lua`: forgets the handle's session; an unknown key is a no-op. */
    method DestroyLua(h: LuaHandle)
      modifies this
      ensures states == old(states) - {h.uuid}
    {
      states := states - {h.uuid};
    }

    /** `get_lua`. */
    method GetLua(h: LuaHandle) returns (engine: Option<Engine>)
      ensures engine == Lookup(states, h.uuid)
    {
      if h.uuid in states {
        engine := Some(states[h.uuid]);
      } else {
        engine := None;
      }
    }

    /**
     * `eval_lua`: the result is `EvalLuaResult` of the registry as it was,
     * and the handle's session keeps the state the code leaves behind.
     */
    method EvalLua(h: LuaHandle, code: string, evaluator: Evaluator) returns (r: Result<Value, ShellError>)
      modifies this
      ensures r == EvalLuaResult(old(states), h, code, evaluator)
      ensures states == AfterEval(old(states), h, code)
    {
      var engine := GetLua(h);
      if engine.None? {
        return Failure(Labeled(InvalidHandleMessage));
      }
      var value := evaluator(engine.value, code);
      states := states[h.uuid := Ran(engine.value, code)];
      if value.Failure? {
        return Failure(Labeled(value.error));
      }
      r := LuaToNushell(value.value);
    }

    /** `custom_value_dropped` as the source writes it. */
    method CustomValueDroppedAsWritten(value: CustomValue) returns (r: Result<(), ShellError>)
      modifies this
      ensures r == Success(())
      ensures states == DropAsWritten(old(states), value)
    {
      if value.CustomHandle? {
        DestroyLua(value.handle);
      }
      r := Success(());
    }

    /** `custom_value_dropped`, destroying the session behind either kind of value. */
    method CustomValueDropped(value: CustomValue) returns (r: Result<(), ShellError>)
      modifies this
      ensures r == Success(())
      ensures states == DropIntended(old(states), value)
    {
      var key := SessionKey(value);
      if key.Some? {
        DestroyLua(LuaHandle(key.value));
      }
      r := Success(());
    }
  }

  /**
   * One session's life: found while live, gone once destroyed, and a
   * second destroy leaves the registry as it was.
   */
  method SessionLifecycle(key: Uuid, engine: Engine) returns (whileLive: Option<Engine>, afterDestroy: Option<Engine>, remaining: map<Uuid, Engine>)
    ensures whileLive == Some(engine)
    ensures afterDestroy == None
    ensures remaining == map[]
  {
    var plugin := new Plugin();
    var h := plugin.CreateLua(key, engine);
    whileLive := plugin.GetLua(h);
    plugin.DestroyLua(h);
    afterDestroy := plugin.GetLua(h);
    plugin.DestroyLua(h);
    remaining := plugin.states;
  }
}

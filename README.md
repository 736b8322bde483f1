# nu_plugin_lua, modelled in Dafny

`nu_plugin_lua` is a Nushell plugin that embeds Lua. The `lua new`
command opens an interpreter session and returns a custom value that
refers to it. `lua eval` runs Lua code in the session that such a value
names and converts the result into a Nushell value. When the shell drops
one of these values, the plugin is told, so it can close the session.

The repository holds two generations of the commands:

- The hand-written `LuaNew` / `LuaEval` in `src/command.rs`. They read
  their arguments by position and hand out `LuaHandle` values.
- The helper-based `new` / `eval` in `src/command/`. They bind a typed
  argument struct through `#[derive(FromValues)]`, run it through a
  generic `Command` wrapper, and hand out `PluginValue::Lua` values.

This project models both generations on one session registry:

- The plugin state is a class `LuaPlugin.Plugin`. It holds a map from
  session keys to interpreter instances. Its methods insert, remove and
  look up entries in place.
- `lua_to_nushell` is a recursive specification function `LuaToNu`. The
  method `LuaToNushell` keeps the source's loop over table pairs and is
  proved equal to `LuaToNu`.
- The derive macro is modelled by the code it generates:
  - a left-to-right, fail-fast binder over positional slots;
  - a list of argument signatures whose descriptions are the trimmed doc
    lines, joined by spaces.
- The generic `Command` wrapper is one module. It stands for both
  `nu_plugin_helpers/src/command.rs` and its copy in `src/utils.rs`,
  which behave identically.
- The host library (`nu_protocol` values, errors and signatures) is
  modelled in `NuValues`, as far as the plugin observes it.
- Rust's `str::trim`, itertools' `join`, decimal and hexadecimal
  formatting, and UTF-8 validation (`to_str`) are written out in `Text`
  and `Utf8`.

Modelling conventions:

- A Rust panic (`todo!()`, `expect`) is the explicit error
  `ShellError.Panicked(message)`. Every function therefore stays total.
- The random session key (`Uuid::new_v4`) and the new interpreter
  instance (`Lua::new()`) are parameters of `CreateLua`.
- Evaluating Lua code is a function parameter
  `Evaluator = (Engine, string) -> Result<LuaValue, string>`. An `Engine`
  carries the chunks it has evaluated so far, and `EvalLua` stores the
  instance with the new chunk appended, so a session keeps its state
  between evaluations.
- The host's `set_gc_disabled(true)` is a parameter
  `gcDisabled: Result<(), ShellError>`.

The two draft generations do not type-check against each other, so the
model resolves them as follows:

- `src/main.rs:30` returns a `LuaHandle`, while `src/command/new.rs:19`
  destructures a pair. The model uses the `LuaHandle` form; `new` wraps
  its key as `PluginValue::Lua(Lua(key))`.
- `src/command/eval.rs:20` passes a `&custom::Lua` where `eval_lua`
  takes a `&LuaHandle`. The model looks up the session by the `Lua`'s key.

## Model

| member | source | states |
|---|---|---|
| `LuaPlugin.Plugin.constructor` | src/main.rs:24-28 | a new plugin has no sessions |
| `LuaPlugin.Plugin.CreateLua` | src/main.rs:30-37 | the registry becomes the old one with `key` bound to the new instance, and the returned handle carries `key` |
| `LuaPlugin.InsertFrame` | src/main.rs:30-37 | inserting a key that was absent adds exactly that key (size grows by one) and leaves every other session's instance unchanged |
| `LuaPlugin.Plugin.DestroyLua` | src/main.rs:39-41 | the registry becomes the old one without the handle's key |
| `LuaPlugin.RemoveFrame` | src/main.rs:39-41 | removal keeps every other session; removing an absent key changes nothing; removing twice equals removing once |
| `LuaPlugin.Lookup` | src/main.rs:43-48 | the lookup finds an instance exactly when the key is registered, and then it is the registered instance |
| `LuaPlugin.Plugin.GetLua` | src/main.rs:43-48 | returns `Lookup(states, key)` and changes no state (no `modifies`) |
| `LuaPlugin.Plugin.EvalLua` | src/main.rs:50-62 | the result is `EvalLuaResult` of the registry as it was, and the registry becomes `AfterEval` of it: the handle's session keeps the state the code leaves behind |
| `LuaPlugin.EvalLuaResult` | src/main.rs:50-62 | an unknown key gives "lua handle is invalid" before the interpreter is consulted; an interpreter error gives a labelled error with its message; otherwise the value converted by `LuaToNu` |
| `LuaPlugin.AfterEval` | src/main.rs:55-56 | the registry keeps the same keys and every other session; the handle's session, if registered, has evaluated the code after all its earlier chunks |
| `LuaPlugin.SessionKeepsState` | src/main.rs:55-59 | one session evaluating the same counting code twice answers 1 and then 2, so evaluation sees what earlier evaluations left behind |
| `LuaPlugin.InvalidHandleSkipsEngine` | src/main.rs:51-53 | with an unknown key, every evaluator gives the same "lua handle is invalid" error, so the interpreter is never consulted |
| `LuaPlugin.SessionsAreIndependent` | src/main.rs:50-62 | two registries that agree on the handle's key give the same evaluation result |
| `LuaPlugin.SessionLifecycle` | src/main.rs:24-48 | create, then look up finds the instance; destroy, then look up finds nothing; a second destroy leaves the registry empty |
| `LuaPlugin.DropAsWritten` | src/main.rs:66-76 | a dropped `LuaHandle`'s key is removed and every other session is kept unchanged; any other custom value leaves the registry as it was |
| `LuaPlugin.Plugin.CustomValueDroppedAsWritten` | src/main.rs:66-76 | always succeeds; removes the key of a dropped `LuaHandle` and leaves the registry unchanged for any other custom value |
| `LuaPlugin.PluginValueDropLeaks` | src/main.rs:71-73 | dropping a `PluginValue::Lua` whose key is registered leaves its session registered as written, but removes it as intended |
| `LuaPlugin.SessionKey` | src/main.rs:71 | a `LuaHandle` and a `PluginValue::Lua` each carry their key; any other custom value carries none |
| `LuaPlugin.DropIntended` | src/main.rs:66-76 | a key is kept exactly when it was registered and is not the dropped value's key, and kept sessions are unchanged |
| `LuaPlugin.Plugin.CustomValueDropped` | src/main.rs:66-76 | always succeeds and leaves the registry as `DropIntended` of the old one |
| `LuaPlugin.DropAgreesOnHandles` | src/main.rs:71-73 | for a `LuaHandle` the corrected drop equals the drop as written |
| `LuaPlugin.DropIdempotent` | src/main.rs:66-76 | a repeated drop notification changes nothing more |
| `LuaPlugin.LuaStringToNu` | src/main.rs:98-102 | a Lua string becomes a string exactly when its bytes are UTF-8 (and encoding it gives the bytes back), else binary with the same bytes; the span is unknown |
| `LuaPlugin.ScalarToNu` | src/main.rs:93-131 | nil, booleans, integers and numbers map to nothing, bool, int and float with the same payload; a function becomes "function: 0x" plus hex digits reading back as its address; thread, userdata and error values fail with the `todo!()` panic |
| `LuaPlugin.LuaToNu` | src/main.rs:90-132 | a converted value has no span; a converted table is a list with one entry per pair |
| `LuaPlugin.TableRecords` | src/main.rs:103-117 | the records from pair `i` on, when they convert, are one record per remaining pair |
| `LuaPlugin.TableRecordsSucceeds` | src/main.rs:106-117 | the records from pair `i` on exist exactly when every later pair converts, and then record `j-i` is pair `j`'s index/item record |
| `LuaPlugin.TableToList` | src/main.rs:103-120 | a table converts exactly when every pair converts, and then to a list with one index/item record per pair, in iteration order |
| `LuaPlugin.TableRecordsFailsAtFirst` | src/main.rs:106-109 | the first pair that fails decides the error, from any starting pair before it |
| `LuaPlugin.TableFailsAtFirst` | src/main.rs:106-109 | a table fails with the error of its first failing pair: the iterator's, else the key's, else the value's |
| `LuaPlugin.ConvertsIffSupported` | src/main.rs:90-132 | conversion succeeds exactly on `Supported` values: those with no thread, userdata or error value anywhere and no iterator error in any table |
| `LuaPlugin.PrependStep` | src/main.rs:104-117 | one loop step moves a converting pair's record from the remaining result to the collected records |
| `LuaPlugin.LuaToNushell` | src/main.rs:90-132 | the loop-and-recursion implementation returns exactly `LuaToNu(v)` |
| `DeriveFromValues.SyntaxShapeOf` | nu_plugin_helpers_derive/src/lib.rs:85 | a `&Lua` field declares shape Any and a `&str` field declares String |
| `DeriveFromValues.FromValue` | nu_plugin_helpers_derive/src/lib.rs:62 | whatever a field type accepts, the shape that type declares admits, and the bound value has that type's kind |
| `DeriveFromValues.MissingMessage` | nu_plugin_helpers_derive/src/lib.rs:53-58 | the message starts "missing positional arg " and ends with ")" |
| `DeriveFromValues.MissingMessageInjective` | nu_plugin_helpers_derive/src/lib.rs:53-58 | two missing-argument messages are equal only for the same index and field name, so the message identifies the slot |
| `DeriveFromValues.Slot` | nu_plugin_helpers_derive/src/lib.rs:49-63 | an absent slot fails with the missing-argument message for its index and field; a present slot succeeds only with a value its type's shape admits |
| `DeriveFromValues.BindFrom` | nu_plugin_helpers_derive/src/lib.rs:44-65 | a success from field `i` holds one value per remaining field, each the success of that field's own slot |
| `DeriveFromValues.FromValues` | nu_plugin_helpers_derive/src/lib.rs:112-116 | a success holds one value per field, needs at least as many positional values as fields, and value `j` is what field `j`'s type extracted from slot `j` |
| `DeriveFromValues.BindFromSucceeds` | nu_plugin_helpers_derive/src/lib.rs:44-65 | binding from field `i` succeeds exactly when every slot from `i` on succeeds, and then entry `j-i` is field `j`'s extracted slot value |
| `DeriveFromValues.FromValuesSucceeds` | nu_plugin_helpers_derive/src/lib.rs:112-116 | binding succeeds exactly when every slot succeeds, and then yields one value per field, in order, each the extraction of `positional[j]`; success implies there are at least as many values as fields |
| `DeriveFromValues.BindFromFailsAtFirst` | nu_plugin_helpers_derive/src/lib.rs:50-62 | the first failing slot's error is returned unchanged, from any earlier starting field |
| `DeriveFromValues.FromValuesFailsAtFirst` | nu_plugin_helpers_derive/src/lib.rs:62 | if field `k` is the first to fail, binding fails with exactly its error |
| `DeriveFromValues.FromValuesReportsFirstMissing` | nu_plugin_helpers_derive/src/lib.rs:50-60 | with fewer values than fields and all present slots extracting, the error is "missing positional arg i (name)" for the first absent slot |
| `DeriveFromValues.FromValuesIgnoresExtra` | nu_plugin_helpers_derive/src/lib.rs:44-65 | appending values beyond the field count does not change the result |
| `DeriveFromValues.FromValuesStopsAtFirstFailure` | nu_plugin_helpers_derive/src/lib.rs:62 | two inputs that agree up to the first failing slot give the same result, so no later slot is examined |
| `DeriveFromValues.FirstBadSlot` | nu_plugin_helpers_derive/src/lib.rs:44-65 | when binding does not succeed there is a first failing slot, with every earlier slot succeeding |
| `DeriveFromValues.FieldSignatures` | nu_plugin_helpers_derive/src/lib.rs:67-88 | one signature per field, in field order; entry `i` has field `i`'s name, the description of its doc lines and its type's shape |
| `DeriveFromValues.SignatureMatchesBinding` | nu_plugin_helpers_derive/src/lib.rs:67-88 | after a successful binding, signature `i` is named by field `i` and its shape admits the value bound in slot `i`; signature order is extraction order |
| `DeriveFromValues.SignatureEntryAdmits` | nu_plugin_helpers_derive/src/lib.rs:81-86 | one signature entry is named by its field and admits the value extracted from its slot |
| `DeriveFromValues.DocDescription` | nu_plugin_helpers_derive/src/lib.rs:70-79 | no doc lines give the empty description; one doc line gives that line trimmed |
| `DeriveFromValues.DocAppend` | nu_plugin_helpers_derive/src/lib.rs:70-79 | each further doc line adds one space and that line trimmed; with `DocDescription` this fixes the description of any number of lines |
| `DeriveFromValues.TrimAll` | nu_plugin_helpers_derive/src/lib.rs:73-78 | one trimmed line per doc line, in order |
| `Text.Trim` | nu_plugin_helpers_derive/src/lib.rs:77 | the trimmed text is no longer than the input and neither starts nor ends with whitespace |
| `Text.TrimPads` | nu_plugin_helpers_derive/src/lib.rs:77 | the input is the trimmed text with whitespace only on either side |
| `Text.TrimStartDropsWhitespace` | nu_plugin_helpers_derive/src/lib.rs:77 | trimming the start keeps a suffix and drops only whitespace |
| `Text.TrimEndDropsWhitespace` | nu_plugin_helpers_derive/src/lib.rs:77 | trimming the end keeps a prefix and drops only whitespace |
| `Text.TrimKeepsUnpadded` | nu_plugin_helpers_derive/src/lib.rs:77 | a text that neither starts nor ends with whitespace is its own trim |
| `Text.Join` | nu_plugin_helpers_derive/src/lib.rs:79 | joining no parts gives the empty string, one part gives that part, and a join starts with its first part |
| `Text.JoinAppend` | nu_plugin_helpers_derive/src/lib.rs:79 | joining one more part appends the separator and that part |
| `Text.NatToString` | nu_plugin_helpers_derive/src/lib.rs:54-58 | the decimal rendering of the slot index is nonempty digits with no leading zero |
| `Text.NatToStringRoundTrip` | nu_plugin_helpers_derive/src/lib.rs:54-58 | reading the decimal rendering back gives the index |
| `Text.NatToStringInjective` | nu_plugin_helpers_derive/src/lib.rs:54-58 | distinct indices render as distinct digit strings |
| `Text.NatToHex` | src/main.rs:122-123 | the hexadecimal rendering of an address is nonempty lower-case hex digits with no leading zero |
| `Text.NatToHexRoundTrip` | src/main.rs:122-123 | reading the hexadecimal rendering back gives the address |
| `Utf8.Encode` | src/main.rs:99-100 | the encoding takes one to four bytes per character |
| `Utf8.Decode` | src/main.rs:99-101 | a successful decode has no more characters than there were bytes |
| `NuValues.AsStr` | src/command.rs:77-78 | `Value::as_str`: succeeds exactly on strings, with their contents; anything else fails with the string conversion error at the value's span |
| `NuValues.AsCustomValue` | src/command.rs:68-70 | `Value::as_custom_value`: succeeds exactly on custom values, with the custom value; anything else fails with the custom-value conversion error at the value's span |
| `Utf8.DecodeEncode` | src/main.rs:99-100 | decoding the UTF-8 encoding of any string gives the string back |
| `Utf8.EncodeDecode` | src/main.rs:99-100 | when bytes decode, encoding the decoded string gives the bytes back |
| `Utf8.DecodeSucceedsIffEncoded` | src/main.rs:99-101 | bytes decode exactly when some string encodes to them |
| `Utf8.DecodeFirstOfEncodeChar` | src/main.rs:99-100 | decoding the start of a character's encoding, whatever bytes follow, gives that character and its encoded length |
| `Utf8.EncodeCharOfDecodeFirst` | src/main.rs:99-100 | re-encoding a decoded first character gives exactly the bytes it was decoded from |
| `Commands.ArgsFromValues` | nu_plugin_helpers/src/from_values.rs:10-15 | the unit arguments bind to nothing, successfully, on any input |
| `Commands.ArgsSignatures` | nu_plugin_helpers/src/from_values.rs:17-19 | the unit arguments declare no signatures; a derived struct declares one per field |
| `Commands.New` | nu_plugin_helpers/src/command.rs:23-43 | the command keeps the name, description and argument type, and stores the signatures `Args::arg_signatures()` computes at construction |
| `Commands.SignatureOf` | nu_plugin_helpers/src/command.rs:73-81 | the signature has the command's name and the help flag, and required parameter `i` is stored argument signature `i`, same count and order (the copy at src/utils.rs:74-82 folds the same way) |
| `Commands.Run` | nu_plugin_helpers/src/command.rs:37-40 | a binding error is returned unchanged; otherwise the result is the handler's on the bound arguments (the copy at src/utils.rs:48-51 is the same closure) |
| `Commands.RunFailsWithoutHandler` | nu_plugin_helpers/src/command.rs:83-93 | when binding fails, any two handlers and any two inputs give the same binding error |
| `Commands.RunReportsFirstMissing` | src/utils.rs:84-94 | a derived command called with too few (all valid) values fails naming the first missing argument |
| `HelperFromValues.NewArgSignature` | nu_plugin_helpers/src/from_values.rs:29-35 | stores exactly the given name, description and shape |
| `HelperFromValues.UnitFromValues` | nu_plugin_helpers/src/from_values.rs:13-15 | the unit impl succeeds on every positional list |
| `HelperFromValues.UnitArgSignatures` | nu_plugin_helpers/src/from_values.rs:17-19 | the unit impl declares no signatures, as many as the slots it reads |
| `HelperFromValue.StrFromValue` | nu_plugin_helpers/src/from_value.rs:13-15 | succeeds exactly on string values, returning their contents; anything else is the conversion error at the value's span |
| `HelperFromValue.StrSyntaxShape` | nu_plugin_helpers/src/from_value.rs:17-19 | the declared shape admits exactly the values the extraction accepts |
| `Utils.TypeError` | src/utils.rs:7-14 | a type mismatch at exactly the given span whose message is "expected " followed by the type name |
| `Utils.TypeErrorInjective` | src/utils.rs:7-14 | distinct type names or spans give distinct errors |
| `Utils.SimpleError` | src/utils.rs:16-18 | a labelled error carrying the message unchanged |
| `Extensions.OkOrTypeError` | src/extensions.rs:33-35 | `Some(x)` gives `x`; `None` gives the type error for the name and span |
| `Extensions.OkOrElseBug` | src/extensions.rs:37-46 | `Some(x)` gives `x`; `None` gives a labelled error "BUG: " followed by the message |
| `Extensions.DowncastPluginValue` | src/extensions.rs:15-17 | the downcast finds a plugin value exactly when the custom value is one |
| `Extensions.AsSpecificPluginValue` | src/extensions.rs:11-19 | a non-custom value fails as the host's conversion; a custom value that is not a plugin value fails with "expected t" at the value's span; a plugin value is returned |
| `Extensions.AsPluginValue` | src/extensions.rs:21-23 | a plugin value is returned; a non-custom value fails as the host's conversion; another custom value fails with "expected lua plugin value" at its span |
| `Extensions.AsLua` | src/extensions.rs:25-28 | a plugin value gives its inner `Lua`; any other custom value fails with "expected lua instance" |
| `Extensions.Arg` | src/extensions.rs:58-64 | an index past the end fails with "BUG: expected arg i"; otherwise the result is `from_arg` of that slot |
| `Extensions.StrFromArg` | src/extensions.rs:77-79 | succeeds exactly on strings, returning their contents |
| `Extensions.StrArgShape` | src/extensions.rs:81-83 | the declared shape admits exactly what `StrFromArg` accepts |
| `LuaCommands.LuaNewSignature` | src/command.rs:16-18 | the name "lua new", the help flag, no parameters |
| `LuaCommands.LuaNewRun` | src/command.rs:24-38 | if disabling collection fails, that error and an unchanged registry; otherwise exactly one binding `key := engine` added and a custom value holding the handle for `key` |
| `LuaCommands.LuaNewThenDrop` | src/command.rs:34-35 | dropping the value `lua new` returned restores a registry that did not hold the key |
| `LuaCommands.LuaEvalSignature` | src/command.rs:50-55 | exactly two required parameters: "lua" of shape Any, then "code" of shape String |
| `LuaCommands.LuaStateArg` | src/command.rs:69-76 | succeeds exactly on a custom `LuaHandle`; a non-custom value fails as the host's conversion; another custom value fails with "expected lua state" at its span |
| `LuaCommands.LuaEvalRun` | src/command.rs:61-83 | no arguments panic with "BUG: arg 0 missing"; a non-custom first argument fails with the custom-value conversion error; a valid handle alone panics with "BUG: arg 1 missing"; a valid handle and a non-string fails with the string conversion error at the second value's span |
| `LuaCommands.LuaEvalTarget` | src/command.rs:68-78 | names a session and code exactly when the first argument is a handle and the second a string, and then names those |
| `LuaCommands.LuaEval` | src/command.rs:61-83 | the result is `LuaEvalRun` of the registry as it was; the named session evaluates the code when both arguments are well-formed, and otherwise nothing changes |
| `LuaCommands.LuaEvalChecksHandleFirst` | src/command.rs:68-76 | a custom first argument that is not a handle fails with "expected lua state" at its span, whatever follows |
| `LuaCommands.LuaEvalDelegates` | src/command.rs:77-82 | a handle and a string give exactly `eval_lua` of them |
| `LuaCommands.LuaEvalAfterDrop` | src/command.rs:80 | a handle whose session was dropped evaluates to "lua handle is invalid" |
| `LuaCommands.LuaEvalUsesTwoArgs` | src/command.rs:61-83 | calls that agree on the first two values give the same result, whatever the input or further values |
| `NewCommand.GenerationsAgree` | src/command.rs:12-22 | the helper-based `new` and `eval` carry the names and descriptions that `LuaNew` and `LuaEval` give (src/command.rs:46-59) |
| `NewCommand.NewDef` | src/command/new.rs:8-14 | name "lua new", description "create a new lua instance", no fields and no signatures |
| `NewCommand.NewBindsNothing` | src/command/new.rs:8-9 | binding the field-less struct succeeds on any values, binding nothing |
| `NewCommand.NewValue` | src/command/new.rs:19-23 | a custom plugin value carrying the key, at the unknown span |
| `NewCommand.Run` | src/command/new.rs:16-23 | if disabling collection fails, that error and an unchanged registry; otherwise `key := engine` added and the plugin value for `key` returned |
| `NewCommand.NewValueFeedsEval` | src/command/new.rs:19-23 | the returned value, passed to `eval` with code, runs that code in the new session |
| `NewCommand.NewValueDropped` | src/command/new.rs:19-23 | dropping the returned value leaves its session registered as written; as intended it restores a registry that did not hold the key |
| `EvalCommand.Eval` | src/command/eval.rs:17-23 | name "lua eval", its description, the derived two-field arguments and two signatures |
| `EvalCommand.Target` | src/command/eval.rs:20 | bound values name a session and code exactly when they are a `Lua` then a string, and then name that `Lua`'s key and that string |
| `EvalCommand.Handler` | src/command/eval.rs:20 | for `Args { lua, code }` the result is `eval_lua`'s for that session and code |
| `EvalCommand.EvalRun` | src/command/eval.rs:17-23 | a binding failure is returned unchanged; a success needs a plugin value then a string in the first two slots |
| `EvalCommand.EvalCall` | src/command/eval.rs:17-23 | the result is `EvalRun` of the registry as it was; when binding succeeds the named session evaluates the code, otherwise nothing changes |
| `EvalCommand.BindingShape` | src/command/eval.rs:7-14 | successful binding yields exactly a `Lua` then a string |
| `EvalCommand.EvalSignatures` | src/command/eval.rs:9-13 | the signatures are "lua" ("lua instance test D:", Any) then "code" ("lua code to evaluate", String) |
| `EvalCommand.LuaDescription` | src/command/eval.rs:9-10 | the two doc lines of `lua` trim and join to "lua instance test D:" |
| `EvalCommand.CodeDescription` | src/command/eval.rs:12 | the doc line of `code` trims to "lua code to evaluate" |
| `EvalCommand.SignaturesAgreeOnShapes` | src/command/eval.rs:7-14 | the derived and hand-written `lua eval` declare the same name, count, parameter names and shapes, but different descriptions |
| `EvalCommand.EvalMissingFirst` | src/command/eval.rs:8-10 | no values fail with "missing positional arg 0 (lua)" |
| `EvalCommand.EvalMissingSecond` | src/command/eval.rs:11-13 | a single valid `Lua` value fails with "missing positional arg 1 (code)" |
| `EvalCommand.EvalDelegates` | src/command/eval.rs:20 | a `Lua` and a string give exactly `eval_lua` on that session and code |
| `EvalCommand.EvalRefusesHandle` | src/command/eval.rs:10 | a `LuaHandle` from the hand-written `lua new` fails with "expected lua instance" at its span |
| `EvalCommand.EvalRejectsNonString` | src/command/eval.rs:12-13 | a `Lua` followed by a non-string fails with the host's string conversion error at that value's span |
| `LuaHandles.New` | src/lua_handle.rs:9-11 | the handle carries the given key |
| `LuaHandles.Key` | src/lua_handle.rs:13-15 | re-wrapping the key gives the handle back |
| `LuaHandles.NewKeyRoundTrip` | src/lua_handle.rs:9-15 | `new` and `uuid` are inverse |
| `LuaHandles.TypeName` | src/lua_handle.rs:24-26 | always "LuaHandle" |
| `LuaHandles.ToBaseValue` | src/lua_handle.rs:28-30 | always the string "<LuaState>" at the given span, whatever the key |
| `LuaHandles.CloneValue` | src/lua_handle.rs:20-22 | a custom value at the given span holding the same handle |
| `LuaHandles.NotifyPluginOnDrop` | src/lua_handle.rs:40-42 | always true |
| `CustomLua.New` | src/custom/lua.rs:15-17 | the instance reference carries the given key |
| `CustomLua.Key` | src/custom/lua.rs:19-21 | re-wrapping the key gives the reference back |
| `CustomLua.NewKeyRoundTrip` | src/custom/lua.rs:15-21 | `new` and `uuid` are inverse |
| `CustomLua.ToBaseValue` | src/custom/lua.rs:23-25 | always the string "<Lua>" at the given span |
| `CustomLuaFromValue.FromValue` | src/custom/lua.rs:31-33 | succeeds exactly on a custom plugin value, returning its `Lua`; other custom values fail with "expected lua instance", non-custom values as the host's conversion |
| `CustomLuaFromValue.SyntaxShape` | src/custom/lua.rs:35-37 | the declared shape admits every value |
| `PluginValues.AsLua` | src/custom/plugin_value.rs:15-21 | always succeeds with the inner `Lua` |
| `PluginValues.TypeName` | src/custom/plugin_value.rs:30-35 | "Lua" for the `Lua` variant |
| `PluginValues.ToBaseValue` | src/custom/plugin_value.rs:37-41 | the inner `Lua`'s base value, the string "<Lua>" |
| `PluginValues.CloneValue` | src/custom/plugin_value.rs:26-28 | a custom value at the given span holding the same plugin value |
| `PluginValues.NotifyPluginOnDrop` | src/custom/plugin_value.rs:51-53 | always true |

## Left out

- Plugin serving, `version` and command registration (src/main.rs:14-16, 78-87) are I/O plumbing.
- The `RwLock` / `Mutex` / `Arc` discipline is not modelled: the registry is a sequential map, and `GetLua` returns the instance itself rather than a shared reference. The instance is updated in the map after an evaluation, where the source mutates it behind the shared reference.
- `LuaPlugin.Plugin.CreateLua`: the random key and `Lua::new()` are parameters. There is no freshness precondition, because `HashMap::insert` overwrites; freshness is a hypothesis of the lemmas that need it.
- Lua parsing and evaluation are the `Evaluator` parameter, a function of the instance and the code; an interpreter error is its rendered message. An instance's state is the sequence of chunks it has evaluated (`Engine.chunks`), so the evaluator can answer from the globals earlier chunks left behind. `EvalLua` records every chunk, whether or not it failed; what a failed chunk leaves behind is for the evaluator to decide.
- `LuaPlugin.LuaToNu`, `LuaPlugin.LuaToNushell`: a `LuaValue` is a finite tree, so a table that contains itself (such as the one `return _G` gives, since `_G._G` is `_G`) cannot be written. On such a table `lua_to_nushell` (src/main.rs:103-109) recurses without end and overflows the stack. `ConvertsIffSupported` and the totality of `LuaToNu` hold only for acyclic values.
- Table iteration order is the order of the given pair sequence; each `LuaPair.PairError` stands for an error the pair iterator yields.
- Lua numbers are an opaque 64-bit payload; no floating-point arithmetic.
- `LuaPlugin.ScalarToNu`: a function's address is a natural number. The rendering is "function: 0x" plus lower-case hex, which assumes `{:p}`'s usual form.
- `todo!()` and `expect` panics are `ShellError.Panicked` results, not aborts.
- Converting errors between `LabeledError` and `ShellError` (`.into()`, `?` in `run`) is left out: both are one `ShellError` type here.
- The host's `as_str` / `as_custom_value` conversion errors carry only the target type and span, not the source type.
- serde / typetag serialization and `as_any` / `as_mut_any` are left out; downcasts are datatype matches.
- The derive macro's parsing and token building (darling, `quote!`, `unwrap`s, lifetime renaming in nu_plugin_helpers_derive/src/lib.rs:90-106) are left out; only the generated code's behaviour is modelled.
- Borrowing and lifetimes of the extracted `&str` / `&Lua` do not arise with values.
- `LuaCommands.LuaNewDescription`, `LuaCommands.LuaEvalDescription`: the two `description()` methods are constants; `NewCommand.GenerationsAgree` states them.
- `EvalCommand.Handler`: its branch for bound arguments other than a `Lua` then a string stands for Rust's static typing of `Args`; `BindingShape` shows binding never reaches it.
- `Commands.Run`: the generic wrapper passes the plugin and engine interface to the handler; in the model the handler closes over the registry and evaluator instead.
- The `EvaluatedCall::arg` forwarder (src/extensions.rs:51-53) is `Extensions.CallArg`, with no contract of its own.
- nu_plugin_helpers/src/lib.rs only re-exports; it is not part of this model.

## Findings

| source | as written | input that shows it | evidently intended | confidence | as-written member | corrected member |
|---|---|---|---|---|---|---|
| src/main.rs:66-76 | only a dropped `LuaHandle` closes its session; the downcast to `LuaHandle` fails for a `PluginValue`, so nothing is removed | drop of the `PluginValue::Lua(Lua(k))` returned by the helper-based `lua new` (src/command/new.rs:19-23), with `k` registered; `PluginValue` asks to be told of drops (src/custom/plugin_value.rs:51-53) | close the session of any plugin value that carries a key; the leak needs the helper-based commands registered, which `commands()` (src/main.rs:82-87) does not do yet, and src/command/new.rs:19 destructures `create_lua()` as a pair, which does not match its signature | medium, not executed | `LuaPlugin.PluginValueDropLeaks` | `LuaPlugin.Plugin.CustomValueDropped` |

/**
 * The generic command wrapper (nu_plugin_helpers/src/command.rs; the
 * plugin's own copy in src/utils.rs behaves the same): it stores a name,
 * a description and the argument signatures computed once from the `Args`
 * type, and runs by binding the positional arguments before it hands them
 * to the handler.
 */
module Commands {
  import opened Wrappers
  import opened NuValues
  import opened HelperFromValues
  import opened DeriveFromValues

  /** The `Args` type given to `Command::new`: the unit impl, or a derived struct. */
  datatype ArgsType = UnitArgs | DerivedArgs(fields: seq<Field>)

  /** `Args::from_values`. */
  function ArgsFromValues(args: ArgsType, positional: seq<Value>): (r: Result<seq<Bound>, ShellError>)
    ensures args.UnitArgs? ==> r == Success([])
  {
    match args
    case UnitArgs =>
      (match UnitFromValues(positional)
       case Success(_) => Success([])
       case Failure(e) => Failure(e))
    case DerivedArgs(fields) => FromValues(fields, positional)
  }

  /** `Args::arg_signatures()`. */
  function ArgsSignatures(args: ArgsType): (sigs: seq<ArgSignature>)
    ensures args.UnitArgs? ==> sigs == []
    ensures args.DerivedArgs? ==> |sigs| == |args.fields|
  {
    match args
    case UnitArgs => UnitArgSignatures()
    case DerivedArgs(fields) => FieldSignatures(fields)
  }

  /** A built command. `args` stands for the `Args` type the run closure binds with. */
  datatype Command = Command(name: string, description: string, args: ArgsType, argSignatures: seq<ArgSignature>)

  /** `Command::new`: the argument signatures are computed here, once. */
  function New(name: string, description: string, args: ArgsType): (c: Command)
    ensures c.name == name && c.description == description && c.args == args
    ensures c.argSignatures == ArgsSignatures(args)
  {
    Command(name, description, args, ArgsSignatures(args))
  }

  /** The required parameter a stored argument signature becomes. */
  function AsPositional(a: ArgSignature): PositionalArg {
    PositionalArg(a.name, a.description, a.shape)
  }

  /**
   * `Command::signature`: the command's name with the help flag, then one
   * required parameter per stored argument signature, in stored order.
   */
  method SignatureOf(c: Command) returns (sig: Signature)
    ensures sig.name == c.name && sig.named == [HelpFlag]
    ensures |sig.required| == |c.argSignatures|
    ensures forall i :: 0 <= i < |c.argSignatures| ==> sig.required[i] == AsPositional(c.argSignatures[i])
  {
    sig := AddHelp(NewSignature(c.name));
    for i := 0 to |c.argSignatures|
      invariant sig.name == c.name && sig.named == [HelpFlag]
      invariant |sig.required| == i
      invariant forall k :: 0 <= k < i ==> sig.required[k] == AsPositional(c.argSignatures[k])
    {
      var arg := c.argSignatures[i];
      sig := Required(sig, arg.name, arg.shape, arg.description);
    }
  }

  /**
   * `Command::run` with the closure built by `Command::new`: bind the
   * call's positional arguments, then call the handler on them. The
   * pipeline input is not used.
   */
  function Run(c: Command, call: EvaluatedCall, input: Value, handler: seq<Bound> -> Result<Value, ShellError>): (r: Result<Value, ShellError>)
    ensures ArgsFromValues(c.args, call.positional).Failure? ==>
      r == Failure(ArgsFromValues(c.args, call.positional).error)
    ensures ArgsFromValues(c.args, call.positional).Success? ==>
      r == handler(ArgsFromValues(c.args, call.positional).value)
  {
    match ArgsFromValues(c.args, call.positional)
    case Failure(e) => Failure(e)
    case Success(args) => handler(args)
  }

  /**
   * When binding fails the handler is never consulted: any two handlers
   * give the same error, and so does any pipeline input.
   */
  lemma RunFailsWithoutHandler(c: Command, call: EvaluatedCall, input: Value, input': Value,
                               h: seq<Bound> -> Result<Value, ShellError>, h': seq<Bound> -> Result<Value, ShellError>)
    requires ArgsFromValues(c.args, call.positional).Failure?
    ensures Run(c, call, input, h) == Run(c, call, input', h') == Failure(ArgsFromValues(c.args, call.positional).error)
  {
  }

  /**
   * A call with fewer positional values than a derived command declares,
   * all of which extract, fails naming the first missing argument.
   */
  lemma RunReportsFirstMissing(c: Command, call: EvaluatedCall, input: Value, handler: seq<Bound> -> Result<Value, ShellError>)
    requires c.args.DerivedArgs? && |call.positional| < |c.args.fields|
    requires SlotsOk(c.args.fields, call.positional, 0, |call.positional|)
    ensures Run(c, call, input, handler) ==
      Failure(Labeled(MissingMessage(|call.positional|, c.args.fields[|call.positional|].ident)))
  {
    FromValuesReportsFirstMissing(c.args.fields, call.positional);
  }
}

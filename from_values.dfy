/**
 * The whole-argument-list binding trait, its unit impl and the argument
 * signature record (nu_plugin_helpers/src/from_values.rs).
 */
module HelperFromValues {
  import opened Wrappers
  import opened NuValues

  /** One declared positional argument: name, description, shape. */
  datatype ArgSignature = ArgSignature(name: string, description: string, shape: SyntaxShape)

  /** `ArgSignature::new`. */
  function NewArgSignature(name: string, description: string, shape: SyntaxShape): (a: ArgSignature)
    ensures a.name == name && a.description == description && a.shape == shape
  {
    ArgSignature(name, description, shape)
  }

  /** `FromValues for ()`: `from_values` binds nothing and never fails. */
  function UnitFromValues(positional: seq<Value>): (r: Result<(), ShellError>)
    ensures r.Success?
  {
    Success(())
  }

  /** `FromValues for ()`: `arg_signatures` declares nothing. */
  function UnitArgSignatures(): (sigs: seq<ArgSignature>)
    ensures |sigs| == 0
  {
    []
  }
}

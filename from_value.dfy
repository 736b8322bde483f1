/** The one-slot extraction trait and its `&str` impl (nu_plugin_helpers/src/from_value.rs). */
module HelperFromValue {
  import opened Wrappers
  import opened NuValues

  /**
   * `FromValue for &str`: `from_value`. It reads only the value it is
   * given: it is a function of that value alone.
   */
  function StrFromValue(v: Value): (r: Result<string, ShellError>)
    ensures r.Success? <==> v.String?
    ensures r.Success? ==> r.value == v.str
    ensures r.Failure? ==> r.error == CantConvert("string", v.span)
  {
    AsStr(v)
  }

  /** `FromValue for &str`: `syntax_shape`; it admits exactly what `StrFromValue` accepts. */
  function StrSyntaxShape(): (shape: SyntaxShape)
    ensures forall v :: ShapeAdmits(shape, v) <==> StrFromValue(v).Success?
  {
    ShapeString
  }
}

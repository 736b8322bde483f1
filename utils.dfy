/** Error constructors shared by the plugin's commands (src/utils.rs). */
module Utils {
  import opened NuValues

  const ExpectedPrefix: string := "expected "

  /** `type_error`: a type mismatch at `span` whose message names the expected type. */
  function TypeError(typeName: string, span: Span): (e: ShellError)
    ensures e.TypeMismatch? && e.span == span
    ensures |e.errMessage| == |ExpectedPrefix| + |typeName|
    ensures e.errMessage[..|ExpectedPrefix|] == ExpectedPrefix
    ensures e.errMessage[|ExpectedPrefix|..] == typeName
  {
    TypeMismatch(ExpectedPrefix + typeName, span)
  }

  /** Different type names, or different spans, give different type errors. */
  lemma TypeErrorInjective(a: string, b: string, s: Span, t: Span)
    requires TypeError(a, s) == TypeError(b, t)
    ensures a == b && s == t
  {
    assert TypeError(a, s).errMessage[|ExpectedPrefix|..] == a;
  }

  /** `simple_error`: a labelled error carrying `msg` unchanged. */
  function SimpleError(msg: string): (e: ShellError)
    ensures e.Labeled? && e.msg == msg
  {
    Labeled(msg)
  }
}

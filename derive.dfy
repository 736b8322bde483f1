/**
 * What `#[derive(FromValues)]` generates for a struct with named fields
 * (nu_plugin_helpers_derive/src/lib.rs): a `from_values` that reads field
 * `i` from positional slot `i`, in declaration order, stopping at the
 * first failure; and an `arg_signatures` listing one signature per field,
 * in the same order, described by the field's doc comment.
 */
module DeriveFromValues {
  import opened Wrappers
  import opened NuValues
  import opened Text
  import opened HelperFromValues
  import HelperFromValue
  import CustomLuaFromValue

  /** The field types with a `FromValue` impl: `&str` and `&Lua`. */
  datatype FieldType = StrRef | LuaRef

  /**
   * A named field of the deriving struct: its identifier, its type, and the
   * values of its `#[doc = "…"]` attributes (one per `///` line).
   */
  datatype Field = Field(ident: string, ty: FieldType, docs: seq<string>)

  /** A field's extracted value. */
  datatype Bound = BoundStr(str: string) | BoundLua(lua: Lua)

  /** `<ty as FromValue>::syntax_shape()`. */
  function SyntaxShapeOf(ty: FieldType): (shape: SyntaxShape)
    ensures ty.LuaRef? ==> shape == ShapeAny
    ensures ty.StrRef? ==> shape == ShapeString
  {
    match ty
    case StrRef => HelperFromValue.StrSyntaxShape()
    case LuaRef => CustomLuaFromValue.SyntaxShape()
  }

  /**
   * `<ty as FromValue>::from_value(value)`. Whatever it accepts, the shape
   * the same type declares admits.
   */
  function FromValue(ty: FieldType, v: Value): (r: Result<Bound, ShellError>)
    ensures r.Success? ==> ShapeAdmits(SyntaxShapeOf(ty), v)
    ensures r.Success? ==> (ty.StrRef? <==> r.value.BoundStr?)
  {
    match ty
    case StrRef =>
      (match HelperFromValue.StrFromValue(v)
       case Success(s) => Success(BoundStr(s))
       case Failure(e) => Failure(e))
    case LuaRef =>
      (match CustomLuaFromValue.FromValue(v)
       case Success(l) => Success(BoundLua(l))
       case Failure(e) => Failure(e))
  }

  const MissingPrefix: string := "missing positional arg "

  /** The text of the error for an absent slot: `missing positional arg {i} ({ident})`. */
  function MissingMessage(i: nat, ident: string): (m: string)
    ensures |MissingPrefix| < |m| && m[..|MissingPrefix|] == MissingPrefix && m[|m| - 1] == ')'
  {
    MissingPrefix + NatToString(i) + " (" + ident + ")"
  }

  /** The message names the slot and the field: different slots or fields give different messages. */
  lemma MissingMessageInjective(i: nat, ident: string, j: nat, ident': string)
    requires MissingMessage(i, ident) == MissingMessage(j, ident')
    ensures i == j && ident == ident'
  {
    var tail, tail' := " (" + ident + ")", " (" + ident' + ")";
    var m, m' := MissingMessage(i, ident), MissingMessage(j, ident');
    assert m == MissingPrefix + (NatToString(i) + tail);
    assert m' == MissingPrefix + (NatToString(j) + tail');
    assert m[|MissingPrefix|..] == NatToString(i) + tail;
    assert m'[|MissingPrefix|..] == NatToString(j) + tail';
    DigitsBeforeSpace(NatToString(i), tail, NatToString(j), tail');
    NatToStringInjective(i, j);
    assert ident == tail[2..|tail| - 1] && ident' == tail'[2..|tail'| - 1];
  }

  /**
   * The generated block for field `f` at index `i`: `positional.get(i)`,
   * then `from_value`. An absent slot is reported by index and name.
   */
  function Slot(f: Field, positional: seq<Value>, i: nat): (r: Result<Bound, ShellError>)
    ensures i >= |positional| ==> r == Failure(Labeled(MissingMessage(i, f.ident)))
    ensures r.Success? ==> i < |positional| && ShapeAdmits(SyntaxShapeOf(f.ty), positional[i])
  {
    if i < |positional| then FromValue(f.ty, positional[i])
    else Failure(Labeled(MissingMessage(i, f.ident)))
  }

  /**
   * The fields from index `i` on, evaluated in order, each short-circuiting
   * with `?`. A success holds one value per field, each extracted from that
   * field's own slot.
   */
  function BindFrom(fields: seq<Field>, positional: seq<Value>, i: nat): (r: Result<seq<Bound>, ShellError>)
    requires i <= |fields|
    ensures r.Success? ==> |r.value| == |fields| - i
    ensures r.Success? ==> forall j :: i <= j < |fields| ==> Slot(fields[j], positional, j) == Success(r.value[j - i])
    decreases |fields| - i
  {
    if i == |fields| then Success([])
    else match Slot(fields[i], positional, i)
      case Failure(e) => Failure(e)
      case Success(b) =>
        match BindFrom(fields, positional, i + 1)
        case Failure(e) => Failure(e)
        case Success(rest) => Success([b] + rest)
  }

  /**
   * The generated `from_values`: a success binds every field, so there were
   * at least as many positional values as fields, and each bound value is
   * what the field's type extracted from its own slot.
   */
  function FromValues(fields: seq<Field>, positional: seq<Value>): (r: Result<seq<Bound>, ShellError>)
    ensures r.Success? ==> |r.value| == |fields| <= |positional|
    ensures r.Success? ==> forall j :: 0 <= j < |fields| ==> FromValue(fields[j].ty, positional[j]) == Success(r.value[j])
  {
    var r := BindFrom(fields, positional, 0);
    assert r.Success? && |fields| > 0 ==> Slot(fields[|fields| - 1], positional, |fields| - 1).Success?;
    r
  }

  /**
   * The generated `arg_signatures`: one per field, in declaration order,
   * named by the field, described by its doc lines and shaped by its type.
   */
  function FieldSignatures(fields: seq<Field>): (sigs: seq<ArgSignature>)
    ensures |sigs| == |fields|
    ensures forall i :: 0 <= i < |fields| ==>
      sigs[i] == ArgSignature(fields[i].ident, DocDescription(fields[i].docs), SyntaxShapeOf(fields[i].ty))
  {
    seq(|fields|, i requires 0 <= i < |fields| =>
      NewArgSignature(fields[i].ident, DocDescription(fields[i].docs), SyntaxShapeOf(fields[i].ty)))
  }

  /** A field's description: its doc lines, each trimmed, joined by single spaces. */
  function DocDescription(docs: seq<string>): (d: string)
    ensures docs == [] ==> d == ""
    ensures |docs| == 1 ==> d == Trim(docs[0])
  {
    Join(TrimAll(docs), " ")
  }

  /**
   * Each further doc line adds one space and that line, trimmed: the
   * description of several lines is their trimmed texts joined by spaces.
   */
  lemma DocAppend(docs: seq<string>, line: string)
    requires docs != []
    ensures DocDescription(docs + [line]) == DocDescription(docs) + " " + Trim(line)
  {
    assert TrimAll(docs + [line]) == TrimAll(docs) + [Trim(line)];
    JoinAppend(TrimAll(docs), " ", Trim(line));
  }

  /** Each doc line trimmed, in order. */
  function TrimAll(docs: seq<string>): (lines: seq<string>)
    ensures |lines| == |docs|
    ensures forall k :: 0 <= k < |docs| ==> lines[k] == Trim(docs[k])
  {
    if docs == [] then [] else [Trim(docs[0])] + TrimAll(docs[1..])
  }

  ghost predicate SlotsOk(fields: seq<Field>, positional: seq<Value>, from: nat, to: nat)
    requires from <= to <= |fields|
  {
    forall j :: from <= j < to ==> Slot(fields[j], positional, j).Success?
  }

  lemma {:induction false} BindFromSucceeds(fields: seq<Field>, positional: seq<Value>, i: nat)
    requires i <= |fields|
    ensures BindFrom(fields, positional, i).Success? <==> SlotsOk(fields, positional, i, |fields|)
    ensures BindFrom(fields, positional, i).Success? ==>
      var r := BindFrom(fields, positional, i).value;
      |r| == |fields| - i &&
      forall j :: i <= j < |fields| ==> r[j - i] == Slot(fields[j], positional, j).value
    decreases |fields| - i
  {
    if i < |fields| {
      BindFromSucceeds(fields, positional, i + 1);
    }
  }

  /**
   * Binding succeeds exactly when every field's slot is present and
   * extracts; the result then holds, for each field, the value extracted
   * from that field's own slot.
   */
  lemma FromValuesSucceeds(fields: seq<Field>, positional: seq<Value>)
    ensures FromValues(fields, positional).Success? <==> SlotsOk(fields, positional, 0, |fields|)
    ensures FromValues(fields, positional).Success? ==>
      var r := FromValues(fields, positional).value;
      && |r| == |fields| <= |positional|
      && forall j :: 0 <= j < |fields| ==> r[j] == FromValue(fields[j].ty, positional[j]).value
  {
    BindFromSucceeds(fields, positional, 0);
    if FromValues(fields, positional).Success? && |fields| > 0 {
      assert Slot(fields[|fields| - 1], positional, |fields| - 1).Success?;
    }
  }

  lemma {:induction false} BindFromFailsAtFirst(fields: seq<Field>, positional: seq<Value>, i: nat, k: nat)
    requires i <= k < |fields|
    requires SlotsOk(fields, positional, i, k)
    requires Slot(fields[k], positional, k).Failure?
    ensures BindFrom(fields, positional, i) == Failure(Slot(fields[k], positional, k).error)
    decreases k - i
  {
    if i < k {
      BindFromFailsAtFirst(fields, positional, i + 1, k);
    }
  }

  /**
   * Fail-fast, left to right: when slot `k` is the first that fails, binding
   * fails with exactly that slot's error.
   */
  lemma FromValuesFailsAtFirst(fields: seq<Field>, positional: seq<Value>, k: nat)
    requires k < |fields|
    requires SlotsOk(fields, positional, 0, k)
    requires Slot(fields[k], positional, k).Failure?
    ensures FromValues(fields, positional) == Failure(Slot(fields[k], positional, k).error)
  {
    BindFromFailsAtFirst(fields, positional, 0, k);
  }

  /**
   * Too few positional values, all of which extract: the error names the
   * first missing index and that field, never a later one.
   */
  lemma FromValuesReportsFirstMissing(fields: seq<Field>, positional: seq<Value>)
    requires |positional| < |fields|
    requires SlotsOk(fields, positional, 0, |positional|)
    ensures FromValues(fields, positional) ==
      Failure(Labeled(MissingMessage(|positional|, fields[|positional|].ident)))
  {
    FromValuesFailsAtFirst(fields, positional, |positional|);
  }

  /** Positional values beyond the field count are never read. */
  lemma FromValuesIgnoresExtra(fields: seq<Field>, positional: seq<Value>, extra: seq<Value>)
    requires |fields| <= |positional|
    ensures FromValues(fields, positional + extra) == FromValues(fields, positional)
  {
    var p := positional + extra;
    forall j | 0 <= j < |fields|
      ensures Slot(fields[j], p, j) == Slot(fields[j], positional, j)
    {
      assert p[j] == positional[j];
    }
    FromValuesSucceeds(fields, p);
    FromValuesSucceeds(fields, positional);
    if SlotsOk(fields, positional, 0, |fields|) {
      assert SlotsOk(fields, p, 0, |fields|);
      var r, r' := FromValues(fields, p).value, FromValues(fields, positional).value;
      assert forall j :: 0 <= j < |fields| ==> r[j] == r'[j];
      assert r == r';
    } else {
      var k := FirstBadSlot(fields, positional);
      FromValuesFailsAtFirst(fields, p, k);
      FromValuesFailsAtFirst(fields, positional, k);
    }
  }

  /**
   * Nothing after the first failing slot is examined: when slot `k` is
   * present but does not extract, any positional list that agrees with `p`
   * on slots `0..k` gives the same error, whatever follows.
   */
  lemma FromValuesStopsAtFirstFailure(fields: seq<Field>, p: seq<Value>, q: seq<Value>, k: nat)
    requires k < |fields| && k < |p| && k < |q|
    requires SlotsOk(fields, p, 0, k)
    requires Slot(fields[k], p, k).Failure?
    requires q[..k + 1] == p[..k + 1]
    ensures FromValues(fields, q) == FromValues(fields, p)
  {
    forall j | 0 <= j <= k
      ensures Slot(fields[j], q, j) == Slot(fields[j], p, j)
    {
      assert q[j] == q[..k + 1][j];
    }
    FromValuesFailsAtFirst(fields, p, k);
    FromValuesFailsAtFirst(fields, q, k);
  }

  /** The first slot that fails, when there is one. */
  lemma FirstBadSlot(fields: seq<Field>, positional: seq<Value>) returns (k: nat)
    requires !SlotsOk(fields, positional, 0, |fields|)
    ensures k < |fields| && SlotsOk(fields, positional, 0, k) && Slot(fields[k], positional, k).Failure?
  {
    k := 0;
    while Slot(fields[k], positional, k).Success?
      invariant k < |fields| && SlotsOk(fields, positional, 0, k)
      decreases |fields| - k
    {
      k := k + 1;
    }
  }

  /**
   * The signature lists the fields in the order binding reads them: entry
   * `i` is named after field `i`, and its shape admits every value that
   * binding accepted in slot `i`.
   */
  lemma SignatureMatchesBinding(fields: seq<Field>, positional: seq<Value>)
    requires FromValues(fields, positional).Success?
    ensures |FieldSignatures(fields)| == |fields| <= |positional|
    ensures forall i :: 0 <= i < |fields| ==>
      && FieldSignatures(fields)[i].name == fields[i].ident
      && ShapeAdmits(FieldSignatures(fields)[i].shape, positional[i])
  {
    BindFromSucceeds(fields, positional, 0);
    if |fields| > 0 {
      SignatureEntryAdmits(fields, positional, |fields| - 1);
    }
    forall i | 0 <= i < |fields|
      ensures FieldSignatures(fields)[i].name == fields[i].ident
      ensures ShapeAdmits(FieldSignatures(fields)[i].shape, positional[i])
    {
      SignatureEntryAdmits(fields, positional, i);
    }
  }

  lemma SignatureEntryAdmits(fields: seq<Field>, positional: seq<Value>, i: nat)
    requires i < |fields| && SlotsOk(fields, positional, 0, |fields|)
    ensures i < |positional|
    ensures FieldSignatures(fields)[i].name == fields[i].ident
    ensures ShapeAdmits(FieldSignatures(fields)[i].shape, positional[i])
  {
    assert Slot(fields[i], positional, i).Success?;
    assert FromValue(fields[i].ty, positional[i]).Success?;
  }
}

/** The Go and cgo type and value tables (src/go/lang.ts), and the meaning of
    the boolean conversions they emit. */
module GoLang {
  import opened Diagnostics
  import opened Text
  import opened Lang

  function GoPrim(p: Prim): string {
    match p
    case Boolean => "bool"
    case Number => "float64"
    case BigInt => "int64"
    case Str => "string"
    case Bytes => "[]byte"
    case Void => ""
  }

  /** Go types: an array is a slice of its element; custom names pass through. */
  const GoTypes: TypeTable := TypeTable(GoPrim, t => "[]" + t, t => t)

  /** go.type: a type of the API as spelled in the Go interface file. */
  function GoType(t: string): (r: Result<string>)
    ensures r.Failure? <==> ParseType(t).Failure?
  {
    TypeToLang(t, GoTypes)
  }

  /** Go expressions reading a value of each primitive C type. */
  function GoValuePrim(p: Prim): string -> string {
    match p
    case Boolean => v => "bool(" + v + " == 1)"
    case Number => v => "float64(" + v + ")"
    case BigInt => v => "int64(" + v + ")"
    case Str => v => "C.GoString(" + v + ")"
    case Bytes => v => "C.GoBytes(unsafe.Pointer(" + v + "), C.int(C.strlen(" + v + ")))"
    case Void => v => v
  }

  const GoValues: ValueTable := ValueTable(
    GoValuePrim,
    (t, v) => "GoMapSlice(" + v + ", int(" + v + "_length), Go" + t + ")",
    (t, v) => "Go" + t + "(&" + v + ")")

  function CgoPrim(p: Prim): string {
    match p
    case Boolean => "C.short"
    case Number => "C.double"
    case BigInt => "C.longlong"
    case Str => "*C.char"
    case Bytes => "*C.char"
    case Void => ""
  }

  /** cgo types: an array is a pointer to its element; custom names live in
      the C namespace. */
  const CgoTypeTable: TypeTable := TypeTable(CgoPrim, t => "*" + t, t => "C." + t)

  /** Go expressions producing a C value of each primitive type. */
  function CgoValuePrim(p: Prim): string -> string {
    match p
    case Boolean => v => "CBool(" + v + ")"
    case Number => v => "C.double(" + v + ")"
    case BigInt => v => "C.longlong(" + v + ")"
    case Str => v => "C.CString(" + v + ")"
    case Bytes => v => "(*C.char)(C.CBytes(" + v + "))"
    case Void => v => v
  }

  const CgoValues: ValueTable := ValueTable(
    CgoValuePrim,
    (t, v) => "CMapSlice(" + v + ", C" + t + ")",
    (t, v) => "C" + t + "(" + v + ")")

  /** The emitted CBool: true is the C short 1, false is 0. */
  function CBool(flag: bool): (r: int)
    ensures r == 0 || r == 1
    ensures r == 1 <==> flag
  {
    if flag then 1 else 0
  }

  /** What the emitted "bool(v == 1)" computes from a C short. */
  function GoBool(v: int): (b: bool)
    ensures b <==> v == 1
  {
    v == 1
  }

  /** Writing a bool to C and reading it back gives the original; the texts
      emitted for the two directions are exactly these conversions. */
  lemma BoolRoundTrip(flag: bool, v: string)
    ensures GoBool(CBool(flag)) == flag
    ensures ValueToLang("boolean", v, "", CgoValues) == Success("CBool(" + v + ")")
    ensures ValueToLang("boolean", v, "", GoValues) == Success("bool(" + v + " == 1)")
  {
    ParseNames("boolean");
    assert "boolean" != "void";
    assert CgoValues.prim(Boolean)(v) == "CBool(" + v + ")";
    assert GoValues.prim(Boolean)(v) == "bool(" + v + " == 1)";
    assert forall x: string :: "" + x == x;
  }

  /** The type tables on primitives, custom names and arrays. */
  lemma TypeTableShapes(t: string)
    ensures LookupPrim(t).Some? ==>
      && TypeToLang(t, GoTypes) == Success(GoPrim(LookupPrim(t).value))
      && TypeToLang(t + "[]", GoTypes) == Success("[]" + GoPrim(LookupPrim(t).value))
      && TypeToLang(t, CgoTypeTable) == Success(CgoPrim(LookupPrim(t).value))
      && TypeToLang(t + "[]", CgoTypeTable) == Success("*" + CgoPrim(LookupPrim(t).value))
    ensures CustomName(t) && !EndsWith(t, "[]") ==>
      && TypeToLang(t, GoTypes) == Success(t)
      && TypeToLang(t + "[]", GoTypes) == Success("[]" + t)
      && TypeToLang(t, CgoTypeTable) == Success("C." + t)
      && TypeToLang(t + "[]", CgoTypeTable) == Success("*C." + t)
  {
    TypeToLangCases(t, GoTypes);
    TypeToLangCases(t, CgoTypeTable);
    assert "*" + ("C." + t) == "*C." + t;
  }

  lemma StringArrays()
    ensures TypeToLang("string[]", CgoTypeTable) == Success("**C.char")
    ensures TypeToLang("string[]", GoTypes) == Success("[]string")
  {
    StringArray(CgoTypeTable);
    StringArray(GoTypes);
    assert CgoTypeTable.toArray(CgoTypeTable.prim(Str)) == "*" + "*C.char" == "**C.char";
    assert GoTypes.toArray(GoTypes.prim(Str)) == "[]" + "string" == "[]string";
  }

  /** A string array maps through the table's array hook on its string type. */
  lemma StringArray(table: TypeTable)
    ensures TypeToLang("string[]", table) == Success(table.toArray(table.prim(Str)))
  {
    PrimRoundTrip(Str);
    TypeToLangCases("string", table);
    assert "string" + "[]" == "string[]";
  }

  /** Both value tables give a void value back untouched. */
  lemma VoidValuesUntouched(v: string, prefix: string)
    ensures ValueToLang("void", v, prefix, GoValues) == Success(v)
    ensures ValueToLang("void", v, prefix, CgoValues) == Success(v)
  {
    ParseNames("void");
  }

  /** Custom values are read with Go<T>(&v) and written with C<T>(v). */
  lemma CustomValues(t: string, v: string, prefix: string)
    requires CustomName(t) && !EndsWith(t, "[]")
    ensures ValueToLang(t, v, prefix, GoValues) == Success(prefix + "Go" + t + "(&" + v + ")")
    ensures ValueToLang(t, v, prefix, CgoValues) == Success(prefix + "C" + t + "(" + v + ")")
  {
    CustomValue(t, v, prefix, GoValues);
    CustomValue(t, v, prefix, CgoValues);
    assert prefix + GoValues.toCustom(t, v) == prefix + "Go" + t + "(&" + v + ")";
    assert prefix + CgoValues.toCustom(t, v) == prefix + "C" + t + "(" + v + ")";
  }

  /** A custom value converts through the table's custom hook, after the
      prefix. */
  lemma CustomValue(t: string, v: string, prefix: string, table: ValueTable)
    requires CustomName(t) && !EndsWith(t, "[]")
    ensures ValueToLang(t, v, prefix, table) == Success(prefix + table.toCustom(t, v))
  {
    ParseNames(t);
    assert t != "void";
  }
}

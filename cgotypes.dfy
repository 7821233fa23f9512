/** The hand-written type and value converters of the cgo wrapper generator
    (src/go/cgo.ts:400-576), and how each relates to the table-driven mappers
    of src/common/lang.ts over the Go, cgo and C tables. */
module CgoTypes {
  import opened Diagnostics
  import opened Text
  import opened Lang
  import opened GoLang
  import CTable

  /** The checks every converter runs on a type it has no case for: a tuple is
      reported first, then a first character that lower-casing leaves alone;
      an empty text has no first character and fails as a TypeError. */
  function RejectNonCustom(t: string): (e: Option<GenError>)
    ensures e.None? <==> |t| > 0 && t[0] != Lower(t[0])
    ensures e == Some(TuplesNotSupported(t)) <==> StartsWith(t, "[")
    ensures e == Some(UnknownType(t)) <==> !StartsWith(t, "[") && |t| > 0 && t[0] == Lower(t[0])
  {
    if StartsWith(t, "[") then Some(TuplesNotSupported(t))
    else if |t| == 0 then Some(TypeError("type[0] is undefined"))
    else if t[0] == Lower(t[0]) then Some(UnknownType(t))
    else None
  }

  /** The element of an array type text. */
  function Elem(t: string): string
    requires EndsWith(t, "[]")
  {
    t[..|t| - 2]
  }

  /** paramToGo: a Go expression reading the C value `name` of type `t`. */
  function ParamToGo(t: string, name: string): (r: Result<string>)
    ensures r.Success? <==>
      t in ["boolean", "number", "bigint", "string", "string[]", "Uint8Array"] || (|t| > 0 && t[0] != Lower(t[0]))
    ensures r.Failure? ==> RejectNonCustom(t) == Some(r.error)
    ensures t == "void" ==> r == Failure(UnknownType("void"))
  {
    if t == "boolean" then Success("bool(" + name + " == 1)")
    else if t == "number" then Success("float64(" + name + ")")
    else if t == "bigint" then Success("int64(" + name + ")")
    else if t == "string" then Success("C.GoString(" + name + ")")
    else if t == "string[]" then Success("GoStringSlice(" + name + ", int(" + name + "_length))")
    else if t == "Uint8Array" then Success("C.GoBytes(unsafe.Pointer(" + name + "), C.int(C.strlen(" + name + ")))")
    else
      match RejectNonCustom(t)
      case Some(e) => Failure(e)
      case None =>
        if EndsWith(t, "[]") then Success("GoMapSlice(" + name + ", int(" + name + "_length), Go" + Elem(t) + ")")
        else Success("Go" + t + "(&" + name + ")")
  }

  /** paramToC: a Go expression producing a C value from the Go value `value`;
      `pointer` asks for the address of a converted custom value. */
  function ParamToC(t: string, value: string, pointer: bool): (r: Result<string>)
    ensures r.Success? <==>
      t in ["boolean", "number", "bigint", "string", "string[]", "Uint8Array", "void"] || (|t| > 0 && t[0] != Lower(t[0]))
    ensures r.Failure? ==> RejectNonCustom(t) == Some(r.error)
    ensures t == "void" ==> r == Success(value)
  {
    if t == "boolean" then Success("CBool(" + value + ")")
    else if t == "number" then Success("C.double(" + value + ")")
    else if t == "bigint" then Success("C.longlong(" + value + ")")
    else if t == "string" then Success("C.CString(" + value + ")")
    else if t == "string[]" then Success("CStringSlice(" + value + ")")
    else if t == "Uint8Array" then Success("(*C.char)(C.CBytes(" + value + "))")
    else if t == "void" then Success(value)
    else
      match RejectNonCustom(t)
      case Some(e) => Failure(e)
      case None =>
        if EndsWith(t, "[]") then Success("CMapSlice(" + value + ", C" + Elem(t) + ")")
        else Success((if pointer then "&" else "") + "C" + t + "(" + value + ")")
  }

  /** returnToC: the statement returning the Go value `value` to C. A string
      array has no conversion yet and yields the placeholder "TODO". */
  function ReturnToC(t: string, value: string): (r: Result<string>)
    ensures t == "string[]" ==> r == Success("TODO")
  {
    if t == "boolean" then Success("return CBool(" + value + ")")
    else if t == "number" then Success("return C.double(" + value + ")")
    else if t == "bigint" then Success("return C.longlong(" + value + ")")
    else if t == "string" then Success("return C.CString(" + value + ")")
    else if t == "string[]" then Success("TODO")
    else if t == "Uint8Array" then Success("return (*C.char)(C.CBytes(" + value + "))")
    else if t == "void" then Success(value)
    else
      match RejectNonCustom(t)
      case Some(e) => Failure(e)
      case None => Success("return C" + t + "(" + value + ")")
  }

  /** typeToCgo: the cgo spelling of a type. */
  function TypeToCgo(t: string): (r: Result<string>)
    ensures t == "string[]" ==> r == Success("**C.char")
  {
    if t == "boolean" then Success("C.short")
    else if t == "number" then Success("C.double")
    else if t == "bigint" then Success("C.longlong")
    else if t == "string" then Success("*C.char")
    else if t == "string[]" then Success("**C.char")
    else if t == "Uint8Array" then Success("*C.char")
    else if t == "void" then Success("")
    else
      match RejectNonCustom(t)
      case Some(e) => Failure(e)
      case None => Success("C." + t)
  }

  /** typeToC: the C spelling of a type in the emitted declarations. */
  function TypeToC(t: string): (r: Result<string>)
    ensures t == "string[]" ==> r == Success("char**")
  {
    if t == "boolean" then Success("short")
    else if t == "number" then Success("double")
    else if t == "bigint" then Success("longlong")
    else if t == "string" then Success("char*")
    else if t == "string[]" then Success("char**")
    else if t == "Uint8Array" then Success("char*")
    else if t == "void" then Success("")
    else
      match RejectNonCustom(t)
      case Some(e) => Failure(e)
      case None =>
        if EndsWith(t, "[]") then Success(Elem(t) + "*")
        else Success(t)
  }

  // ---------------------------------------------------------------------------
  // Agreement with the tables

  /** For a text that is not an array and not a primitive, the table-driven
      classifier and the converters' checks agree. */
  lemma CustomCheckAgrees(t: string)
    requires !EndsWith(t, "[]") && LookupPrim(t).None?
    ensures RejectNonCustom(t).Some? ==> ParseType(t) == Failure(RejectNonCustom(t).value)
    ensures RejectNonCustom(t).None? ==> ParseType(t) == Success(TypeRef(Named(t), false))
  {
    assert BaseOf(t) == t;
    ParseTypeErrors(t);
    if RejectNonCustom(t).None? {
      ParseNames(t);
    }
  }

  /** A text that is neither a primitive nor an array misses every literal
      case of the converters. */
  lemma NoLiteralCase(t: string)
    requires !EndsWith(t, "[]") && LookupPrim(t).None?
    ensures t != "boolean" && t != "number" && t != "bigint" && t != "string"
    ensures t != "string[]" && t != "Uint8Array" && t != "void"
  {
    assert PrimName(Boolean) != t && PrimName(Number) != t && PrimName(BigInt) != t;
    assert PrimName(Str) != t && PrimName(Bytes) != t && PrimName(Void) != t;
    assert EndsWith("string[]", "[]");
  }

  /** paramToGo agrees with the Go value table on every type that is neither
      an array nor void. */
  lemma ParamToGoAgrees(t: string, name: string)
    requires !EndsWith(t, "[]") && t != "void"
    ensures ParamToGo(t, name) == ValueToLang(t, name, "", GoValues)
  {
    match LookupPrim(t)
    case Some(p) =>
      PrimitiveValue(p, name, "", GoValues);
      assert "" + GoValuePrim(p)(name) == GoValuePrim(p)(name);
      ParamToGoOfPrimitive(p, name);
    case None =>
      ParamToGoAgreesOnNames(t, name);
  }

  lemma ParamToGoAgreesOnNames(t: string, name: string)
    requires !EndsWith(t, "[]") && LookupPrim(t).None?
    ensures ParamToGo(t, name) == ValueToLang(t, name, "", GoValues)
  {
    NoLiteralCase(t);
    CustomCheckAgrees(t);
    if CustomName(t) {
      CustomValues(t, name, "");
      assert "" + "Go" + t + "(&" + name + ")" == "Go" + t + "(&" + name + ")";
    }
  }

  /** paramToGo on each primitive but void is the Go value table's entry. */
  lemma ParamToGoOfPrimitive(p: Prim, name: string)
    requires p != Void
    ensures ParamToGo(PrimName(p), name) == Success(GoValuePrim(p)(name))
  {
  }

  /** paramToC without the pointer flag agrees with the cgo value table on
      every type that is not an array. */
  lemma ParamToCAgrees(t: string, value: string)
    requires !EndsWith(t, "[]")
    ensures ParamToC(t, value, false) == ValueToLang(t, value, "", CgoValues)
  {
    match LookupPrim(t)
    case Some(p) =>
      if p == Void {
        VoidValuesUntouched(value, "");
      } else {
        PrimitiveValue(p, value, "", CgoValues);
        assert "" + CgoValuePrim(p)(value) == CgoValuePrim(p)(value);
        ParamToCOfPrimitive(p, value);
      }
    case None =>
      ParamToCAgreesOnNames(t, value);
  }

  lemma ParamToCAgreesOnNames(t: string, value: string)
    requires !EndsWith(t, "[]") && LookupPrim(t).None?
    ensures ParamToC(t, value, false) == ValueToLang(t, value, "", CgoValues)
  {
    NoLiteralCase(t);
    CustomCheckAgrees(t);
    if CustomName(t) {
      CustomValues(t, value, "");
      assert "" + "C" + t + "(" + value + ")" == "C" + t + "(" + value + ")";
    }
  }

  /** paramToC on each primitive but void is the cgo value table's entry. */
  lemma ParamToCOfPrimitive(p: Prim, value: string)
    requires p != Void
    ensures ParamToC(PrimName(p), value, false) == Success(CgoValuePrim(p)(value))
  {
  }

  /** The pointer flag only prefixes a converted custom value with '&'. */
  lemma PointerFlag(t: string, value: string)
    ensures CustomName(t) && !EndsWith(t, "[]") ==> ParamToC(t, value, false) == Success("C" + t + "(" + value + ")")
    ensures ParamToC(t, value, true) ==
      (if CustomName(t) && !EndsWith(t, "[]") then Success("&" + ParamToC(t, value, false).value)
       else ParamToC(t, value, false))
  {
    if CustomName(t) && !EndsWith(t, "[]") {
      assert t[0] != Lower(t[0]);
      assert RejectNonCustom(t).None?;
      assert ParamToC(t, value, false).value == "C" + t + "(" + value + ")";
      assert "&" + "C" + t + "(" + value + ")" == "&" + ("C" + t + "(" + value + ")");
    }
  }

  /** The return statement of each primitive but void is its cgo value
      conversion after "return ". */
  lemma ReturnOfPrimitive(p: Prim, value: string)
    requires p != Void
    ensures ReturnToC(PrimName(p), value) == Success("return " + CgoValuePrim(p)(value))
  {
    ReturnLiterals();
    match p
    case Boolean =>
      ReturnOfConversion("CBool(", value, ")");
    case Number =>
      ReturnOfConversion("C.double(", value, ")");
    case BigInt =>
      ReturnOfConversion("C.longlong(", value, ")");
    case Str =>
      ReturnOfConversion("C.CString(", value, ")");
    case Bytes =>
      ReturnOfConversion("(*C.char)(C.CBytes(", value, "))");
  }

  /** "return " before a conversion written as opening text, value and
      closing text regroups as one return statement. */
  lemma ReturnOfConversion(open: string, value: string, close: string)
    ensures "return " + (open + value + close) == ("return " + open) + value + close
  {
    ConcatAssoc(open, value, close);
    ConcatAssoc("return ", open + value, close);
    ConcatAssoc("return ", open, value);
  }

  lemma ReturnLiterals()
    ensures "return " + "CBool(" == "return CBool("
    ensures "return " + "C.double(" == "return C.double("
    ensures "return " + "C.longlong(" == "return C.longlong("
    ensures "return " + "C.CString(" == "return C.CString("
    ensures "return " + "(*C.char)(C.CBytes(" == "return (*C.char)(C.CBytes("
  {
  }

  /** returnToC is the cgo value table with the prefix "return " on every type
      that is not an array: void values are left bare. */
  lemma ReturnToCAgrees(t: string, value: string)
    requires !EndsWith(t, "[]")
    ensures ReturnToC(t, value) == ValueToLang(t, value, "return ", CgoValues)
  {
    match LookupPrim(t)
    case Some(p) =>
      if p == Void {
        VoidValuesUntouched(value, "return ");
      } else {
        PrimitiveValue(p, value, "return ", CgoValues);
        ReturnOfPrimitive(p, value);
      }
    case None =>
      ReturnToCAgreesOnNames(t, value);
  }

  lemma ReturnToCAgreesOnNames(t: string, value: string)
    requires !EndsWith(t, "[]") && LookupPrim(t).None?
    ensures ReturnToC(t, value) == ValueToLang(t, value, "return ", CgoValues)
  {
    NoLiteralCase(t);
    CustomCheckAgrees(t);
    if CustomName(t) {
      CustomValues(t, value, "return ");
      assert "return " + "C" + t + "(" + value + ")" == "return C" + t + "(" + value + ")";
    }
  }

  /** typeToCgo agrees with the cgo type table on every type that is not an
      array, and on string arrays. */
  lemma TypeToCgoAgrees(t: string)
    requires !EndsWith(t, "[]")
    ensures TypeToCgo(t) == TypeToLang(t, CgoTypeTable)
  {
    match LookupPrim(t)
    case Some(p) =>
      TypeToCgoOfPrimitive(p);
      PrimRoundTrip(p);
      TypeToLangCases(t, CgoTypeTable);
    case None =>
      TypeToCgoAgreesOnNames(t);
  }

  lemma TypeToCgoOfPrimitive(p: Prim)
    ensures TypeToCgo(PrimName(p)) == Success(CgoPrim(p))
  {
  }

  lemma TypeToCgoAgreesOnNames(t: string)
    requires !EndsWith(t, "[]") && LookupPrim(t).None?
    ensures TypeToCgo(t) == TypeToLang(t, CgoTypeTable)
  {
    NoLiteralCase(t);
    CustomCheckAgrees(t);
    if CustomName(t) {
      TypeToLangCases(t, CgoTypeTable);
    }
  }

  /** typeToC agrees with the C table of src/common/c.ts on every type that is
      not an array. */
  lemma TypeToCAgrees(t: string)
    requires !EndsWith(t, "[]")
    ensures TypeToC(t) == CTable.TypeToC(t)
  {
    match LookupPrim(t)
    case Some(p) =>
      TypeToCOfPrimitive(p);
      CTable.TypeToCPrimitive(p);
    case None =>
      TypeToCAgreesOnNames(t);
  }

  lemma TypeToCOfPrimitive(p: Prim)
    ensures TypeToC(PrimName(p)) == Success(CTable.CPrim(p))
  {
  }

  lemma TypeToCAgreesOnNames(t: string)
    requires !EndsWith(t, "[]") && LookupPrim(t).None?
    ensures TypeToC(t) == CTable.TypeToC(t)
  {
    NoLiteralCase(t);
    CustomCheckAgrees(t);
    if CustomName(t) {
      CTable.TypeToCShapes(t);
    }
  }

  /** ... and on arrays of custom names, which both spell as pointers. */
  lemma TypeToCAgreesOnCustomArrays(n: string)
    requires CustomName(n) && !EndsWith(n, "[]")
    ensures TypeToC(n + "[]") == CTable.TypeToC(n + "[]") == Success(n + "*")
  {
    var t := n + "[]";
    CTable.TypeToCShapes(n);
    assert EndsWith(t, "[]") && Elem(t) == n;
    assert t[0] == n[0];
    assert LookupPrim(t).None? by {
      assert t[|t| - 1] == ']';
    }
    assert RejectNonCustom(t).None?;
  }

  /** No literal case of the converters but string[] is an array text. */
  lemma ArrayIsNoLiteral(t: string)
    requires EndsWith(t, "[]") && t != "string[]"
    ensures t != "boolean" && t != "number" && t != "bigint" && t != "string"
    ensures t != "Uint8Array" && t != "void"
  {
    assert t[|t| - 1] == ']';
  }

  /** The array cases of returnToC, typeToCgo and typeToC other than
      string[]: none of them has an array branch of its own, so an array
      with an upper-case first letter takes the custom branch on the whole
      text (returnToC calls "C" + t, typeToCgo spells "C." + t, typeToC
      alone strips the brackets), and any other array fails with the
      rejection checks' error. */
  lemma ConvertersOnArrays(t: string, value: string)
    requires EndsWith(t, "[]") && t != "string[]"
    ensures RejectNonCustom(t).None? ==>
      && ReturnToC(t, value) == Success("return C" + t + "(" + value + ")")
      && TypeToCgo(t) == Success("C." + t)
      && TypeToC(t) == Success(Elem(t) + "*")
    ensures RejectNonCustom(t).Some? ==>
      && ReturnToC(t, value) == Failure(RejectNonCustom(t).value)
      && TypeToCgo(t) == Failure(RejectNonCustom(t).value)
      && TypeToC(t) == Failure(RejectNonCustom(t).value)
  {
    ArrayIsNoLiteral(t);
  }

  /** Where the hand-written converters and the tables part ways, for
      example: arrays of primitives other than string are rejected by typeToC
      and typeToCgo, which the tables spell; Uint8Array[] is spelled as a
      custom array by typeToC where the C table gives char**; a custom array
      becomes "C.X[]" in cgo where the table gives "*C.X", and is returned
      through a constructor named "CX[]" where the value table uses "CX";
      and paramToGo has no case for void. */
  lemma ConvertersDivergeOnArrays()
    ensures TypeToC("number[]") == Failure(UnknownType("number[]"))
    ensures CTable.TypeToC("number[]") == Success("double*")
    ensures TypeToC("Uint8Array[]") == Success("Uint8Array*")
    ensures CTable.TypeToC("Uint8Array[]") == Success("char**")
    ensures TypeToCgo("X[]") == Success("C.X[]")
    ensures TypeToLang("X[]", CgoTypeTable) == Success("*C.X")
    ensures ReturnToC("X[]", "v") == Success("return CX[](v)")
    ensures ValueToLang("X[]", "v", "return ", CgoValues) == Success("return CX(v)")
    ensures ParamToGo("void", "v") == Failure(UnknownType("void"))
  {
    NumberArrayDiverges();
    BytesArrayDiverges();
    CustomArrayDiverges();
    CustomArrayReturnDiverges();
  }

  lemma BytesArrayDiverges()
    ensures TypeToC("Uint8Array[]") == Success("Uint8Array*")
    ensures CTable.TypeToC("Uint8Array[]") == Success("char**")
  {
    var t := "Uint8Array[]";
    assert EndsWith(t, "[]") && t != "string[]" && t[0] == 'U';
    assert !StartsWith(t, "[") by {
      assert t[..1] == "U";
    }
    ConvertersOnArrays(t, "");
    assert Elem(t) == "Uint8Array";
    assert "Uint8Array" + "*" == "Uint8Array*";
    CTable.TypeToCPrimitiveArray(Bytes);
    assert "Uint8Array" + "[]" == t;
    assert "char*" + "*" == "char**";
  }

  lemma CustomArrayReturnDiverges()
    ensures ReturnToC("X[]", "v") == Success("return CX[](v)")
    ensures ValueToLang("X[]", "v", "return ", CgoValues) == Success("return CX(v)")
  {
    var t := "X[]";
    assert EndsWith(t, "[]") && t != "string[]" && t[0] == 'X';
    assert !StartsWith(t, "[") by {
      assert t[..1] == "X";
    }
    ConvertersOnArrays(t, "v");
    assert "return C" + t + "(" + "v" + ")" == "return CX[](v)";
    CustomArrayValue();
  }

  lemma CustomArrayValue()
    ensures ValueToLang("X[]", "v", "return ", CgoValues) == Success("return CX(v)")
  {
    var r := TypeRef(Named("X"), true);
    assert RefText(r) == "X[]";
    assert RefText(r.(isArray := false)) == "X";
    ValueOfArrayIsElementValue(r, "v", "return ", CgoValues);
    assert !EndsWith("X", "[]");
    CustomValues("X", "v", "return ");
    assert "return " + "C" + "X" + "(" + "v" + ")" == "return CX(v)";
  }

  lemma NumberArrayDiverges()
    ensures TypeToC("number[]") == Failure(UnknownType("number[]"))
    ensures CTable.TypeToC("number[]") == Success("double*")
  {
    assert TypeToC("number[]") == Failure(UnknownType("number[]")) by {
      assert !StartsWith("number[]", "[") by {
        assert "number[]"[..1] == "n";
      }
      assert "number[]"[0] == 'n';
    }
    CTable.TypeToCPrimitiveArray(Number);
    assert "number" + "[]" == "number[]";
    assert "double" + "*" == "double*";
  }

  lemma CustomArrayDiverges()
    ensures TypeToCgo("X[]") == Success("C.X[]")
    ensures TypeToLang("X[]", CgoTypeTable) == Success("*C.X")
  {
    assert TypeToLang("X[]", CgoTypeTable) == Success("*C.X") by {
      assert !EndsWith("X", "[]");
      TypeTableShapes("X");
      assert "X" + "[]" == "X[]";
      assert "*C." + "X" == "*C.X";
    }
    assert !StartsWith("X[]", "[") by {
      assert "X[]"[..1] == "X";
    }
    assert "X[]"[0] == 'X';
    assert RejectNonCustom("X[]").None?;
    assert "C." + "X[]" == "C.X[]";
  }

  /** The array cases of paramToGo and paramToC are the array hooks of the
      Go and cgo value tables, applied to the element. */
  lemma ArrayConvertersUseTableHooks(t: string, name: string)
    requires EndsWith(t, "[]") && CustomName(t)
    ensures ParamToGo(t, name) == Success(GoValues.toArray(Elem(t), name))
    ensures ParamToC(t, name, false) == Success(CgoValues.toArray(Elem(t), name))
  {
    assert t != "string[]" by {
      assert t[0] != Lower(t[0]);
    }
  }
}

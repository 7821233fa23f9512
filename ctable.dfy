/** The C type table and the C type mapper built on it (src/common/c.ts). */
module CTable {
  import opened Diagnostics
  import opened Text
  import opened Lang

  function CPrim(p: Prim): string {
    match p
    case Boolean => "short"
    case Number => "double"
    case BigInt => "longlong"
    case Str => "char*"
    case Bytes => "char*"
    case Void => ""
  }

  /** An array is a pointer to its element; the table has no custom hook, so
      custom names pass through. */
  const Types: TypeTable := TypeTable(CPrim, t => t + "*", t => t)

  /** typeToC of src/common/c.ts. */
  function TypeToC(t: string): (r: Result<string>)
    ensures r.Failure? <==> ParseType(t).Failure?
  {
    TypeToLang(t, Types)
  }

  /** Primitives map to their C spellings, custom names pass through, and one
      trailing "[]" adds one '*' to the element's spelling. */
  lemma TypeToCShapes(t: string)
    ensures LookupPrim(t).Some? ==>
      TypeToC(t) == Success(CPrim(LookupPrim(t).value)) && TypeToC(t + "[]") == Success(CPrim(LookupPrim(t).value) + "*")
    ensures CustomName(t) && !EndsWith(t, "[]") ==>
      TypeToC(t) == Success(t) && TypeToC(t + "[]") == Success(t + "*")
  {
    TypeToLangCases(t, Types);
  }

  /** Every primitive and its array, spelled from the table. */
  lemma TypeToCPrimitive(p: Prim)
    ensures TypeToC(PrimName(p)) == Success(CPrim(p))
  {
    PrimRoundTrip(p);
    TypeToLangCases(PrimName(p), Types);
  }

  lemma TypeToCPrimitiveArray(p: Prim)
    ensures TypeToC(PrimName(p) + "[]") == Success(CPrim(p) + "*")
  {
    PrimRoundTrip(p);
    TypeToLangCases(PrimName(p), Types);
  }

  /** Pairs the generator's C tests pin down. */
  lemma BooleanNumberExamples()
    ensures TypeToC("boolean") == Success("short")
    ensures TypeToC("number") == Success("double")
  {
    assert TypeToC("boolean") == Success("short") by { TypeToCPrimitive(Boolean); }
    assert TypeToC("number") == Success("double") by { TypeToCPrimitive(Number); }
  }

  lemma BigintExample()
    ensures TypeToC("bigint") == Success("longlong")
  {
    TypeToCPrimitive(BigInt);
  }

  lemma VoidExample()
    ensures TypeToC("void") == Success("")
  {
    TypeToCPrimitive(Void);
  }

  lemma StringExamples()
    ensures TypeToC("string") == Success("char*")
    ensures TypeToC("string[]") == Success("char**")
  {
    TypeToCPrimitive(Str);
    TypeToCPrimitiveArray(Str);
    assert "string" + "[]" == "string[]";
    assert "char*" + "*" == "char**";
  }

  lemma BytesExample()
    ensures TypeToC("Uint8Array") == Success("char*")
  {
    TypeToCPrimitive(Bytes);
  }

  /** A custom struct and its array, as the C tests pin them down. */
  lemma CustomExamples()
    ensures TypeToC("MyStruct") == Success("MyStruct")
    ensures TypeToC("MyStruct[]") == Success("MyStruct*")
  {
    assert !EndsWith("MyStruct", "[]") by {
      assert "MyStruct"[|"MyStruct"| - 1] == 't';
    }
    TypeToCShapes("MyStruct");
    assert "MyStruct" + "[]" == "MyStruct[]";
    assert "MyStruct" + "*" == "MyStruct*";
  }

  /** The tuple diagnostic the C tests pin down. */
  lemma TupleExample()
    ensures TypeToC("[number,string]") == Failure(TuplesNotSupported("[number,string]"))
  {
    ParseTypeErrors("[number,string]");
    assert StartsWith("[number,string]", "[") by {
      assert "[number,string]"[..1] == "[";
    }
  }

  /** The unknown-type diagnostic the C tests pin down. */
  lemma UnknownExample()
    ensures TypeToC("myunknown") == Failure(UnknownType("myunknown"))
  {
    var u := "myunknown";
    ParseTypeErrors(u);
    assert !StartsWith(u, "[") by {
      assert u[..1] == "m";
    }
    assert !EndsWith(u, "[]") by {
      assert u[|u| - 1] == 'n';
    }
  }
}

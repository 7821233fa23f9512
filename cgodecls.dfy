/** The small emitters of the cgo wrapper generator (src/go/cgo.ts:179-294):
    the package variables and init code of singleton and handle interfaces,
    the Go/C converters of enums and structs, and the C declarations. */
module CgoDecls {
  import opened Diagnostics
  import opened Text
  import opened Api
  import opened CgoTypes
  import opened Lang

  // ---------------------------------------------------------------------------
  // Interface variables

  /** The package variable holding a singleton interface. */
  function VarName(i: InterfaceType): (n: string)
    ensures |n| == |i.name|
  {
    FirstLetterToLowerCase(i.name)
  }

  /** intfaceToVar: declares the variable of a singleton. */
  function IntfaceToVar(i: InterfaceType): (r: string)
    ensures StartsWith(r, "var " + VarName(i) + " ")
    ensures EndsWith(r, "api." + i.name)
  {
    var r := "var " + VarName(i) + " api." + i.name;
    assert r == ("var " + VarName(i) + " ") + ("api." + i.name);
    r
  }

  /** intfaceToGetter: the method of the init object that returns the
      singleton, named after the interface with an upper-case first letter. */
  function IntfaceToGetter(i: InterfaceType): (r: string)
    ensures StartsWith(r, FirstLetterUpperCase(i.name) + "()")
  {
    var g := FirstLetterUpperCase(i.name);
    var r := g + "() api." + g;
    assert r == (g + "()") + (" api." + g);
    r
  }

  /** intfaceToInit: assigns the singleton's variable from its getter. */
  function IntfaceToInit(i: InterfaceType): (r: string)
    ensures StartsWith(r, VarName(i) + " = init.")
  {
    var r := VarName(i) + " = init." + FirstLetterUpperCase(i.name) + "()";
    assert r == (VarName(i) + " = init.") + (FirstLetterUpperCase(i.name) + "()");
    r
  }

  /** The package slice holding the live objects of a handle interface. */
  function HandlesName(typeName: string): string {
    FirstLetterToLowerCase(typeName) + "_handles"
  }

  /** intfaceToHandles: declares the handle slice of a handle interface. */
  function IntfaceToHandles(i: InterfaceType): (r: string)
    ensures StartsWith(r, "var " + HandlesName(i.name) + " ")
  {
    var head := "var " + HandlesName(i.name) + " ";
    var r := head + ("[]api." + i.name);
    assert r[..|head|] == head;
    r
  }

  /** The init code of a singleton is consistent: the variable it assigns is
      the one declared, and the getter it calls is the one the init interface
      lists. */
  lemma SingletonWiring(i: InterfaceType)
    ensures IntfaceToInit(i) == VarName(i) + " = init." + IntfaceToGetter(i)[..|i.name| + 2]
  {
    var g := FirstLetterUpperCase(i.name);
    assert IntfaceToGetter(i)[..|i.name| + 2] == g + "()";
  }

  /** The two spellings of the name TestInterface. */
  lemma TestInterfaceNames(i: InterfaceType)
    requires i.name == "TestInterface"
    ensures VarName(i) == "testInterface"
    ensures FirstLetterUpperCase(i.name) == "TestInterface"
  {
    assert i.name[0] == 'T';
    assert Lower('T') == 't';
    assert Upper('T') == 'T';
    assert i.name[1..] == "estInterface";
    assert ['t'] + "estInterface" == "testInterface";
    assert ['T'] + "estInterface" == "TestInterface";
  }

  /** The singleton variable the generator's tests pin down for TestInterface. */
  lemma InterfaceVarExample(i: InterfaceType)
    requires i.name == "TestInterface"
    ensures IntfaceToVar(i) == "var testInterface api.TestInterface"
  {
    TestInterfaceNames(i);
    VarExampleText();
  }

  lemma VarExampleText()
    ensures "var " + "testInterface" + " api." + "TestInterface" == "var testInterface api.TestInterface"
  {
    assert "var " + "testInterface" == "var testInterface";
    assert "var testInterface" + " api." == "var testInterface api.";
  }

  /** The handle slice the generator's tests pin down for TestInterface. */
  lemma InterfaceHandlesExample(i: InterfaceType)
    requires i.name == "TestInterface"
    ensures IntfaceToHandles(i) == "var testInterface_handles []api.TestInterface"
  {
    TestInterfaceNames(i);
    assert HandlesName(i.name) == "testInterface_handles" by {
      assert "testInterface" + "_handles" == "testInterface_handles";
    }
    HandlesExampleText();
  }

  lemma HandlesExampleText()
    ensures "var " + "testInterface_handles" + " " + ("[]api." + "TestInterface")
         == "var testInterface_handles []api.TestInterface"
  {
    HandlesVarHead();
    ApiTypeText();
  }

  lemma HandlesVarHead()
    ensures "var " + "testInterface_handles" + " " == "var testInterface_handles "
  {
    assert "var " + "testInterface_handles" == "var testInterface_handles";
  }

  lemma ApiTypeText()
    ensures "[]api." + "TestInterface" == "[]api.TestInterface"
  {
  }

  /** The getter the generator's tests pin down for TestInterface. */
  lemma InterfaceGetterExample(i: InterfaceType)
    requires i.name == "TestInterface"
    ensures IntfaceToGetter(i) == "TestInterface() api.TestInterface"
  {
    TestInterfaceNames(i);
    GetterText();
  }

  lemma GetterText()
    ensures "TestInterface" + "() api." + "TestInterface" == "TestInterface() api.TestInterface"
  {
    assert "TestInterface" + "() api." == "TestInterface() api.";
  }

  /** The init line the generator's tests pin down for TestInterface. */
  lemma InterfaceInitExample(i: InterfaceType)
    requires i.name == "TestInterface"
    ensures IntfaceToInit(i) == "testInterface = init.TestInterface()"
  {
    TestInterfaceNames(i);
    InitHead();
    assert "testInterface = init.TestInterface" + "()" == "testInterface = init.TestInterface()";
  }

  lemma InitHead()
    ensures "testInterface" + " = init." + "TestInterface" == "testInterface = init.TestInterface"
  {
    assert "testInterface" + " = init." == "testInterface = init.";
  }

  // ---------------------------------------------------------------------------
  // Enum converters

  /** One test of an emitted if-chain: when the subject equals `key`, return
      `result`. */
  datatype Branch<K, V> = Branch(key: K, result: V)

  /** The position of the first test whose key is x, or |bs| when none is. */
  function FirstHit<K(==), V>(bs: seq<Branch<K, V>>, x: K): (k: nat)
    ensures k <= |bs|
    ensures forall j :: 0 <= j < k ==> bs[j].key != x
    ensures k < |bs| ==> bs[k].key == x
  {
    if |bs| == 0 then 0
    else if bs[0].key == x then 0
    else 1 + FirstHit(bs[1..], x)
  }

  /** What an emitted if-chain computes: the result of the first test that
      holds, or None where the code falls through to its panic. */
  function RunChain<K(==), V>(bs: seq<Branch<K, V>>, x: K): Option<V> {
    var k := FirstHit(bs, x);
    if k < |bs| then Some(bs[k].result) else None
  }

  /** The chain of GoX: ordinal k reads as the name of member k. */
  function OrdinalBranches(s: StructType): (bs: seq<Branch<int, string>>)
    ensures |bs| == |s.properties|
    ensures forall k :: 0 <= k < |bs| ==> bs[k] == Branch(k, s.properties[k].name)
  {
    seq(|s.properties|, k requires 0 <= k < |s.properties| => Branch(k, s.properties[k].name))
  }

  /** The chain of CX: the name of member k writes as ordinal k. */
  function NameBranches(s: StructType): (bs: seq<Branch<string, int>>)
    ensures |bs| == |s.properties|
    ensures forall k :: 0 <= k < |bs| ==> bs[k] == Branch(s.properties[k].name, k)
  {
    seq(|s.properties|, k requires 0 <= k < |s.properties| => Branch(s.properties[k].name, k))
  }

  function OrdinalLine(b: Branch<int, string>): string
    requires b.key >= 0
  {
    "if *fromC == " + NatToString(b.key) + " { return \"" + b.result + "\" }"
  }

  function NameLine(b: Branch<string, int>): string
    requires b.result >= 0
  {
    "if fromGo == \"" + b.key + "\" { return " + NatToString(b.result) + " }"
  }

  /** enumMapper: the pair of Go functions converting an enum between its C
      ordinal and its Go value. */
  function EnumMapper(s: StructType): (r: string)
    ensures StartsWith(r, "\nfunc Go" + s.name + "(fromC *C." + s.name + ") api." + s.name + " {\n  ")
  {
    var ob := OrdinalBranches(s);
    var nb := NameBranches(s);
    var propsGo := Join(seq(|ob|, k requires 0 <= k < |ob| => OrdinalLine(ob[k])), "\n  ");
    var propsC := Join(seq(|nb|, k requires 0 <= k < |nb| => NameLine(nb[k])), "\n  ");
    var head := "\nfunc Go" + s.name + "(fromC *C." + s.name + ") api." + s.name + " {\n  ";
    var rest := propsGo
      + "\n\n  panic(fmt.Sprintf(\"Unknown ordinal for " + s.name + ": %d\", *fromC))\n}\n\nfunc C"
      + s.name + "(fromGo api." + s.name + ") C." + s.name + " {\n  " + propsC
      + "\n\n  panic(fmt.Sprintf(\"Unknown value for " + s.name + ": %s\", fromGo))\n}\n\t";
    assert (head + rest)[..|head|] == head;
    head + rest
  }

  /** Reading from C: each member's position reads as that member, whatever
      its literal type; any other ordinal panics. */
  lemma OrdinalToMember(s: StructType, ord: int)
    ensures 0 <= ord < |s.properties| ==> RunChain(OrdinalBranches(s), ord) == Some(s.properties[ord].name)
    ensures !(0 <= ord < |s.properties|) ==> RunChain(OrdinalBranches(s), ord).None?
  {
    var bs := OrdinalBranches(s);
    var k := FirstHit(bs, ord);
    if 0 <= ord < |s.properties| {
      assert bs[ord].key == ord;
      assert k == ord;
    }
  }

  /** Writing to C: a member's name writes as the position of the first member
      of that name; any other value panics. */
  lemma MemberToOrdinal(s: StructType, v: string)
    ensures RunChain(NameBranches(s), v).Some? <==> exists k :: 0 <= k < |s.properties| && s.properties[k].name == v
    ensures RunChain(NameBranches(s), v).Some? ==>
      var k := RunChain(NameBranches(s), v).value;
      0 <= k < |s.properties| && s.properties[k].name == v
      && forall j :: 0 <= j < k ==> s.properties[j].name != v
  {
    var bs := NameBranches(s);
    var k := FirstHit(bs, v);
    if exists j :: 0 <= j < |s.properties| && s.properties[j].name == v {
      var j :| 0 <= j < |s.properties| && s.properties[j].name == v;
      assert bs[j].key == v;
    }
  }

  predicate DistinctNames(props: seq<VarType>) {
    forall j, k :: 0 <= j < k < |props| ==> props[j].name != props[k].name
  }

  /** With distinct member names the two converters are inverse: a member
      read from its ordinal writes back to the same ordinal, and a member name
      written to C reads back as itself. */
  lemma EnumRoundTrip(s: StructType, ord: int, v: string)
    requires DistinctNames(s.properties)
    ensures 0 <= ord < |s.properties| ==>
      RunChain(OrdinalBranches(s), ord).Some?
      && RunChain(NameBranches(s), RunChain(OrdinalBranches(s), ord).value) == Some(ord)
    ensures RunChain(NameBranches(s), v).Some? ==>
      RunChain(OrdinalBranches(s), RunChain(NameBranches(s), v).value) == Some(v)
  {
    if 0 <= ord < |s.properties| {
      OrdinalToMember(s, ord);
      var name := s.properties[ord].name;
      MemberToOrdinal(s, name);
      var k := RunChain(NameBranches(s), name).value;
      assert s.properties[k].name == s.properties[ord].name;
      assert k == ord;
    }
    if RunChain(NameBranches(s), v).Some? {
      MemberToOrdinal(s, v);
      OrdinalToMember(s, RunChain(NameBranches(s), v).value);
    }
  }

  // ---------------------------------------------------------------------------
  // Struct converters

  /** propFromC: a field of the Go struct, read from the C struct. */
  function PropFromC(v: VarType): (r: Result<string>)
    ensures r.Success? <==> ParamToGo(v.typ, "fromC." + v.name).Success?
    ensures r.Success? ==> StartsWith(r.value, FirstLetterUpperCase(v.name) + ": ")
  {
    var conv :- ParamToGo(v.typ, "fromC." + v.name);
    var r := FirstLetterUpperCase(v.name) + ": " + conv;
    assert r[..|FirstLetterUpperCase(v.name) + ": "|] == FirstLetterUpperCase(v.name) + ": ";
    Success(r)
  }

  /** propFromGo: a field of the C struct, converted by value. */
  function PropFromGo(v: VarType): (r: Result<string>)
    ensures r.Success? <==> ParamToC(v.typ, "fromGo." + FirstLetterUpperCase(v.name), false).Success?
  {
    var conv :- ParamToC(v.typ, "fromGo." + FirstLetterUpperCase(v.name), false);
    Success(v.name + ": " + conv)
  }

  /** propFromGoPointer: a field of the C struct, converted with the address
      of a converted custom value. */
  function PropFromGoPointer(v: VarType): (r: Result<string>)
    ensures r.Success? <==> ParamToC(v.typ, "fromGo." + FirstLetterUpperCase(v.name), true).Success?
  {
    var conv :- ParamToC(v.typ, "fromGo." + FirstLetterUpperCase(v.name), true);
    Success(v.name + ": " + conv)
  }

  /** How a property is written to C: enum properties by value, all others
      through the pointer form. */
  function PropToCField(v: VarType): Result<string> {
    if v.isEnum then PropFromGo(v) else PropFromGoPointer(v)
  }

  /** The converted fields of both directions, one per property. */
  datatype StructFields = StructFields(goFields: seq<string>, cFields: seq<string>)

  function StructMapperFields(s: StructType): (r: Result<StructFields>)
    ensures r.Success? <==>
      forall k :: 0 <= k < |s.properties| ==>
        PropFromC(s.properties[k]).Success? && PropToCField(s.properties[k]).Success?
    ensures r.Success? ==>
      && |r.value.goFields| == |s.properties| == |r.value.cFields|
      && forall k :: 0 <= k < |s.properties| ==>
           && r.value.goFields[k] == PropFromC(s.properties[k]).value
           && r.value.cFields[k] == PropToCField(s.properties[k]).value
  {
    var goFields :- MapAll(s.properties, PropFromC);
    var cFields :- MapAll(s.properties, PropToCField);
    Success(StructFields(goFields, cFields))
  }

  /** structMapper: the pair of Go functions converting a struct between its C
      and Go forms. */
  function StructMapper(s: StructType): (r: Result<string>)
    ensures r.Success? <==> StructMapperFields(s).Success?
  {
    var f :- StructMapperFields(s);
    Success("\nfunc Go" + s.name + "(fromC *C." + s.name + ") api." + s.name + " {\n\treturn api." + s.name
      + "{\n\t\t" + Join(f.goFields, ",\n  ") + ",\n\t}\n}\n\nfunc C" + s.name + "(fromGo api." + s.name
      + ") C." + s.name + " {\n\treturn C." + s.name + "{\n\t\t" + Join(f.cFields, ",\n  ") + ",\n\t}\n}\n\t")
  }

  /** An enum-typed property is written by value and any other custom-typed
      property through its address. */
  lemma StructFieldAddressing(v: VarType)
    requires CustomName(v.typ) && !EndsWith(v.typ, "[]")
    ensures var g := "fromGo." + FirstLetterUpperCase(v.name);
      PropToCField(v) == Success(v.name + ": " + (if v.isEnum then "" else "&") + "C" + v.typ + "(" + g + ")")
  {
    var g := "fromGo." + FirstLetterUpperCase(v.name);
    PointerFlag(v.typ, g);
    var c := "C" + v.typ + "(" + g + ")";
    if v.isEnum {
      assert v.name + ": " + "" + "C" + v.typ + "(" + g + ")" == v.name + ": " + c;
    } else {
      assert v.name + ": " + "&" + "C" + v.typ + "(" + g + ")" == v.name + ": " + ("&" + c);
    }
    assert "&" + ("C" + v.typ + "(" + g + ")") == "&" + "C" + v.typ + "(" + g + ")";
    assert "" + "C" + v.typ + "(" + g + ")" == "C" + v.typ + "(" + g + ")";
  }

  // ---------------------------------------------------------------------------
  // C declarations

  /** The companion field that carries the length of an array property. */
  function LengthField(v: VarType): string {
    if EndsWith(v.typ, "[]") then "; size_t " + v.name + "_length" else ""
  }

  /** propToC: the C field of a property, followed by a length field exactly
      for array properties. */
  function PropToC(v: VarType): (r: Result<string>)
    ensures r.Success? <==> TypeToC(v.typ).Success?
    ensures r.Success? ==> StartsWith(r.value, TypeToC(v.typ).value + " " + v.name)
    ensures r.Success? ==> |r.value| == |TypeToC(v.typ).value| + 1 + |v.name| + |LengthField(v)|
    ensures r.Success? ==> (EndsWith(v.typ, "[]") <==> |r.value| > |TypeToC(v.typ).value| + 1 + |v.name|)
    ensures r.Success? ==> EndsWith(r.value, LengthField(v))
  {
    var ct :- TypeToC(v.typ);
    var decl := ct + " " + v.name;
    var r := decl + LengthField(v);
    assert r[..|decl|] == decl;
    assert r[|r| - |LengthField(v)|..] == LengthField(v);
    Success(r)
  }

  /** A custom array property is a pointer field plus its length field; the
      test's string property is a plain char pointer. */
  lemma PropToCExamples(n: string, elem: string)
    requires CustomName(elem) && !EndsWith(elem, "[]")
    ensures PropToC(VarType(n, elem + "[]", false)) == Success(elem + "* " + n + "; size_t " + n + "_length")
    ensures PropToC(VarType("prop1", "string", false)) == Success("char* prop1")
  {
    ArrayPropExample(n, elem);
    StringPropExample();
  }

  lemma ArrayPropExample(n: string, elem: string)
    requires CustomName(elem) && !EndsWith(elem, "[]")
    ensures PropToC(VarType(n, elem + "[]", false)) == Success(elem + "* " + n + "; size_t " + n + "_length")
  {
    var v := VarType(n, elem + "[]", false);
    assert TypeToC(v.typ) == Success(elem + "*") by {
      TypeToCAgreesOnCustomArrays(elem);
    }
    assert LengthField(v) == "; size_t " + n + "_length" by {
      assert EndsWith(elem + "[]", "[]");
    }
    assert PropToC(v) == Success(elem + "*" + " " + n + ("; size_t " + n + "_length"));
    ArrayFieldText(elem, n);
  }

  lemma ArrayFieldText(elem: string, n: string)
    ensures elem + "*" + " " + n + ("; size_t " + n + "_length") == elem + "* " + n + "; size_t " + n + "_length"
  {
    ConcatAssoc(elem, "*", " ");
    assert "*" + " " == "* ";
    var a := elem + "* " + n;
    assert a + ("; size_t " + n + "_length") == a + "; size_t " + n + "_length";
  }

  /** A string array property is a char** field plus its length field. */
  lemma StringArrayPropExample(n: string)
    ensures PropToC(VarType(n, "string[]", false)) == Success("char** " + n + "; size_t " + n + "_length")
  {
    var v := VarType(n, "string[]", false);
    assert LengthField(v) == "; size_t " + n + "_length" by {
      assert "string[]"[6..] == "[]";
    }
    var tail := "; size_t " + n + "_length";
    assert PropToC(v) == Success("char**" + " " + n + tail);
    assert "char**" + " " == "char** ";
    assert "char** " + n + tail == "char** " + n + "; size_t " + n + "_length";
  }

  lemma StringPropExample()
    ensures PropToC(VarType("prop1", "string", false)) == Success("char* prop1")
  {
    assert !EndsWith("string", "[]") by {
      assert "string"[|"string"| - 1] == 'g';
    }
    assert LengthField(VarType("prop1", "string", false)) == "";
    assert TypeToC("string") == Success("char*");
    assert "char*" + " " + "prop1" + "" == "char* prop1";
  }

  /** structToC: a typedef of the struct with its fields in declared order. */
  function StructToC(s: StructType): (r: Result<string>)
    ensures r.Success? <==> forall k :: 0 <= k < |s.properties| ==> TypeToC(s.properties[k].typ).Success?
  {
    var props :- MapAll(s.properties, PropToC);
    Success("\ntypedef struct " + s.name + " {\n  " + Join(props, ";\n  ") + ";\n} " + s.name + ";\n\t")
  }

  /** enumToC: a typedef of the enum listing its members' names in declared
      order; the C compiler numbers them from 0, matching the converters. */
  function EnumToC(s: StructType): (r: string)
    ensures StartsWith(r, "\t  \ntypedef enum " + s.name + " {\n  ")
    ensures EndsWith(r, "\n} " + s.name + ";\n\t\t  ")
  {
    "\t  \ntypedef enum " + s.name + " {\n  " + Join(MemberNames(s.properties), ",\n  ") + "\n} " + s.name + ";\n\t\t  "
  }

  function MemberNames(props: seq<VarType>): (r: seq<string>)
    ensures |r| == |props| && forall k :: 0 <= k < |props| ==> r[k] == props[k].name
  {
    seq(|props|, k requires 0 <= k < |props| => props[k].name)
  }

  /** The C enum and the Go converters number the members alike: the member
      listed at position k of the typedef is the one ordinal k reads as. */
  lemma EnumNumberingAgrees(s: StructType, k: int)
    requires 0 <= k < |s.properties|
    ensures RunChain(OrdinalBranches(s), k) == Some(MemberNames(s.properties)[k])
  {
    OrdinalToMember(s, k);
  }
}

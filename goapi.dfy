/** The Go interface file (src/go/api.ts): the API's enums, structs and
    interfaces spelled as Go declarations, every type through the Go table. */
module GoApi {
  import opened Diagnostics
  import opened Text
  import opened Api
  import opened Lang
  import opened GoLang
  import opened Shared

  // ---------------------------------------------------------------------------
  // Methods

  /** A method parameter: its name and its Go type. */
  function GoParam(p: VarType): (r: Result<string>)
    ensures r.Success? <==> GoType(p.typ).Success?
  {
    var t :- GoType(p.typ);
    Success(p.name + " " + t)
  }

  /** The results that do not depend on the return type: bool when optional,
      then error when throwing. */
  function FlagItems(f: FunctionType): seq<string> {
    (if f.returnOptional then ["bool"] else []) + (if f.throws then ["error"] else [])
  }

  /** The Go results of a method, or the error of its return type. */
  function ReturnItems(f: FunctionType): Result<seq<string>> {
    if f.returnType != "void" then
      var t :- GoType(f.returnType);
      Success([t] + FlagItems(f))
    else Success(FlagItems(f))
  }

  /** The result list as written after the parameters. */
  function ReturnText(items: seq<string>): string {
    if |items| > 1 then "(" + Join(items, ", ") + ")" else if |items| == 1 then items[0] else ""
  }

  /** The method a function becomes, or the first type error: parameters
      first, then the return type. */
  function Signature(f: FunctionType): Result<string> {
    var params :- MapAll(f.params, GoParam);
    var items :- ReturnItems(f);
    Success(FirstLetterUpperCase(f.name) + "(" + Join(params, ", ") + ") " + ReturnText(items))
  }

  /** funcToGo: collects the results with successive pushes. */
  method FuncToGo(f: FunctionType) returns (r: Result<string>)
    ensures r == Signature(f)
  {
    var params :- MapAll(f.params, GoParam);
    var ret: seq<string> := [];
    if f.returnType != "void" {
      var t :- GoType(f.returnType);
      ret := ret + [t];
    }
    ghost var typed := ret;
    assert typed == if f.returnType != "void" then [GoType(f.returnType).value] else [];
    if f.returnOptional {
      ret := ret + ["bool"];
    }
    if f.throws {
      ret := ret + ["error"];
    }
    assert ret == typed + FlagItems(f);
    if f.returnType != "void" {
      assert ReturnItems(f) == Success([GoType(f.returnType).value] + FlagItems(f));
    } else {
      assert typed + FlagItems(f) == FlagItems(f);
    }
    var ret2 := if |ret| > 1 then "(" + Join(ret, ", ") + ")" else if |ret| == 1 then ret[0] else "";
    r := Success(FirstLetterUpperCase(f.name) + "(" + Join(params, ", ") + ") " + ret2);
  }

  /** A Go type other than that of void is never empty, never starts with '('
      and is never the word error. */
  lemma GoTypeShape(t: string)
    requires t != "void" && GoType(t).Success?
    ensures var g := GoType(t).value; |g| > 0 && g[0] != '(' && g != "error"
  {
    var ref := ParseType(t).value;
    assert RefText(ref) == t;
    match ref.base
    case Primitive(p) =>
      if !ref.isArray {
        assert p != Void;
      }
    case Named(n) =>
      assert WellFormedRef(ref);
      if !ref.isArray {
        assert MapType(ref, GoTypes) == n;
        assert n[0] != Lower(n[0]);
        assert "error"[0] == Lower("error"[0]);
      }
  }

  /** The results come in the order: the return type unless void, bool when
      optional, error when throwing; and only the return type can fail. */
  lemma ReturnItemsOrder(f: FunctionType)
    ensures ReturnItems(f).Success? <==> f.returnType == "void" || GoType(f.returnType).Success?
    ensures ReturnItems(f).Success? ==>
      var items := ReturnItems(f).value;
      var first := if f.returnType != "void" then 1 else 0;
      && |items| == first + (if f.returnOptional then 1 else 0) + (if f.throws then 1 else 0)
      && (f.returnType != "void" ==> items[0] == GoType(f.returnType).value)
      && (f.returnOptional ==> items[first] == "bool")
      && (f.throws ==> items[|items| - 1] == "error")
  {
  }

  /** A method throws exactly when its last result is error. */
  lemma ThrowsIsLast(f: FunctionType)
    requires ReturnItems(f).Success?
    ensures var items := ReturnItems(f).value;
      f.throws <==> |items| > 0 && items[|items| - 1] == "error"
  {
    ReturnItemsOrder(f);
    if !f.throws && !f.returnOptional && f.returnType != "void" {
      GoTypeShape(f.returnType);
    }
  }

  /** The result list is parenthesised exactly when there are two or more
      results, bare when there is one and absent when there is none. */
  lemma ReturnTextShape(f: FunctionType)
    requires ReturnItems(f).Success?
    ensures var items := ReturnItems(f).value; var t := ReturnText(items);
      && (|t| > 0 && t[0] == '(' <==> |items| >= 2)
      && (|items| == 0 <==> t == "")
      && (|items| == 1 ==> t == items[0])
  {
    ReturnItemsOrder(f);
    var items := ReturnItems(f).value;
    if f.returnType != "void" {
      GoTypeShape(f.returnType);
    }
    if |items| == 1 {
      assert items[0] == "bool" || items[0] == "error" || items[0] == GoType(f.returnType).value;
    }
  }

  /** A method is named after the function with its first letter upper-cased
      and lists its parameters, each "name type", in declared order. */
  lemma SignatureParams(f: FunctionType)
    requires Signature(f).Success?
    ensures var params := MapAll(f.params, GoParam).value;
      && |params| == |f.params|
      && (forall k :: 0 <= k < |params| ==> params[k] == f.params[k].name + " " + GoType(f.params[k].typ).value)
      && StartsWith(Signature(f).value, FirstLetterUpperCase(f.name) + "(" + Join(params, ", ") + ") ")
  {
    var params := MapAll(f.params, GoParam).value;
    forall k | 0 <= k < |params|
      ensures params[k] == f.params[k].name + " " + GoType(f.params[k].typ).value
    {
      assert GoParam(f.params[k]).Success?;
    }
    var head := FirstLetterUpperCase(f.name) + "(" + Join(params, ", ") + ") ";
    assert Signature(f).value == head + ReturnText(ReturnItems(f).value);
    assert Signature(f).value[..|head|] == head;
  }

  /** A function fails to translate exactly when one of its parameter types or
      its return type has no Go spelling; a bad parameter is reported first. */
  lemma SignatureErrors(f: FunctionType)
    ensures Signature(f).Success? <==>
      (forall k :: 0 <= k < |f.params| ==> GoType(f.params[k].typ).Success?)
      && (f.returnType == "void" || GoType(f.returnType).Success?)
    ensures MapAll(f.params, GoParam).Failure? ==> Signature(f) == Failure(MapAll(f.params, GoParam).error)
  {
    ReturnItemsOrder(f);
    if (forall k :: 0 <= k < |f.params| ==> GoType(f.params[k].typ).Success?) {
      assert forall k :: 0 <= k < |f.params| ==> GoParam(f.params[k]).Success?;
    }
  }

  // ---------------------------------------------------------------------------
  // Declarations

  /** An interface: one method line per function, in declared order. */
  function IntfaceToGo(i: InterfaceType): (r: Result<string>)
    ensures r.Success? <==> forall k :: 0 <= k < |i.functions| ==> Signature(i.functions[k]).Success?
    ensures r.Failure? ==> exists k :: 0 <= k < |i.functions| && Signature(i.functions[k]) == Failure(r.error)
                                     && forall j :: 0 <= j < k ==> Signature(i.functions[j]).Success?
    ensures r.Success? ==> StartsWith(r.value, "\ntype " + i.name + " interface {\n  ") && EndsWith(r.value, "\n}\n")
  {
    var funcs :- MapAll(i.functions, Signature);
    Success("\ntype " + i.name + " interface {\n  " + Join(funcs, "\n  ") + "\n}\n")
  }

  /** A struct field: the property's name with its first letter upper-cased,
      then its Go type. */
  function PropToGo(v: VarType): (r: Result<string>)
    ensures r.Success? <==> GoType(v.typ).Success?
  {
    var t :- GoType(v.typ);
    Success(FirstLetterUpperCase(v.name) + " " + t)
  }

  /** A struct: one field per property, in declared order. */
  function StructToGo(s: StructType): (r: Result<string>)
    ensures r.Success? <==> forall k :: 0 <= k < |s.properties| ==> GoType(s.properties[k].typ).Success?
    ensures r.Success? ==> StartsWith(r.value, "\ntype " + s.name + " struct {\n  ")
  {
    var props :- MapAll(s.properties, PropToGo);
    Success("\ntype " + s.name + " struct {\n  " + Join(props, "\n  ") + "\n}\n  ")
  }

  /** Each property becomes one exported field, in declared order; a struct
      fails exactly when one of its property types does. */
  lemma StructFields(s: StructType)
    ensures MapAll(s.properties, PropToGo).Success? <==>
      forall k :: 0 <= k < |s.properties| ==> GoType(s.properties[k].typ).Success?
    ensures StructToGo(s).Success? <==> MapAll(s.properties, PropToGo).Success?
    ensures MapAll(s.properties, PropToGo).Success? ==>
      var props := MapAll(s.properties, PropToGo).value;
      && |props| == |s.properties|
      && forall k :: 0 <= k < |props| ==>
           var name := s.properties[k].name;
           && props[k] == FirstLetterUpperCase(name) + " " + GoType(s.properties[k].typ).value
           && (|name| > 0 ==> props[k][0] == Upper(name[0]))
  {
    if MapAll(s.properties, PropToGo).Success? {
      var props := MapAll(s.properties, PropToGo).value;
      forall k | 0 <= k < |props|
        ensures props[k] == FirstLetterUpperCase(s.properties[k].name) + " " + GoType(s.properties[k].typ).value
      {
        assert PropToGo(s.properties[k]).Success?;
      }
    }
  }

  /** The value a constant of an enum takes: a string member its own name in
      quotes, any other member its position. */
  function EnumValue(p: VarType, k: nat): string {
    if p.typ == "string" then "\"" + p.name + "\"" else NatToString(k)
  }

  function EnumConst(s: StructType, k: nat): string
    requires k < |s.properties|
  {
    s.name + s.properties[k].name + " " + s.name + " = " + EnumValue(s.properties[k], k)
  }

  /** The constants of an enum, one per member, in declared order. */
  function EnumConsts(s: StructType): (r: seq<string>)
    ensures |r| == |s.properties|
    ensures forall k :: 0 <= k < |r| ==> r[k] == EnumConst(s, k)
  {
    seq(|s.properties|, k requires 0 <= k < |s.properties| => EnumConst(s, k))
  }

  function EnumToGo(s: StructType): (r: string)
    ensures StartsWith(r, "\ntype " + s.name + " string\n\t\nconst (\n\t")
  {
    "\ntype " + s.name + " string\n\t\nconst (\n\t" + Join(EnumConsts(s), "\n  ") + "\n)\n\t\t"
  }

  /** A string member's value is its name in quotes; any other member's value
      reads back as its 0-based position, so two such members never share a
      value. */
  lemma EnumValues(s: StructType, j: nat, k: nat)
    requires j < |s.properties| && k < |s.properties|
    ensures s.properties[k].typ == "string" ==>
      var v := EnumValue(s.properties[k], k);
      |v| == |s.properties[k].name| + 2 && v[0] == '"' && v[|v| - 1] == '"' && v[1..|v| - 1] == s.properties[k].name
    ensures s.properties[k].typ != "string" ==> DecimalValue(EnumValue(s.properties[k], k)) == k
    ensures s.properties[j].typ != "string" && s.properties[k].typ != "string" && j != k ==>
      EnumValue(s.properties[j], j) != EnumValue(s.properties[k], k)
  {
    if s.properties[k].typ != "string" {
      NatToStringRoundTrip(k);
      if s.properties[j].typ != "string" && j != k {
        NatToStringInjective(j, k);
      }
    } else {
      var v := EnumValue(s.properties[k], k);
      assert v[1..|v| - 1] == s.properties[k].name;
    }
  }

  // ---------------------------------------------------------------------------
  // The file

  /** The package clause that opens the file. */
  function PackageClause(pkg: string): string {
    "package " + pkg + "  \n\n"
  }

  /** The declarations: enums, then structs, then interfaces. */
  function Declarations(enums: seq<string>, structs: seq<string>, ifaces: seq<string>): string {
    Join(enums, "\n") + "\n\n" + Join(structs, "\n") + "\n\n" + Join(ifaces, "\n") + "\n      "
  }

  /** The Go API file of package `pkg`. Enums cannot fail; a struct's error is
      met before an interface's. */
  function GenerateApi(api: ApiType, pkg: string): (r: Result<string>)
    ensures r.Success? ==> StartsWith(r.value, PackageClause(pkg))
  {
    var enums := seq(|api.enums|, k requires 0 <= k < |api.enums| => EnumToGo(api.enums[k]));
    var structs :- MapAll(api.structs, StructToGo);
    var ifaces :- MapAll(api.interfaces, IntfaceToGo);
    Success(PackageClause(pkg) + Declarations(enums, structs, ifaces))
  }

  /** The file fails exactly when a struct or an interface does, with the
      first struct's error if any struct fails; otherwise it opens with the
      package clause. */
  lemma GenerateApiErrors(api: ApiType, pkg: string)
    ensures GenerateApi(api, pkg).Success? <==>
      (forall k :: 0 <= k < |api.structs| ==> StructToGo(api.structs[k]).Success?)
      && (forall k :: 0 <= k < |api.interfaces| ==> IntfaceToGo(api.interfaces[k]).Success?)
    ensures MapAll(api.structs, StructToGo).Failure? ==>
      GenerateApi(api, pkg) == Failure(MapAll(api.structs, StructToGo).error)
    ensures GenerateApi(api, pkg).Success? ==> StartsWith(GenerateApi(api, pkg).value, PackageClause(pkg))
  {
    if GenerateApi(api, pkg).Success? {
      var head := PackageClause(pkg);
      var r := GenerateApi(api, pkg).value;
      assert r[..|head|] == head;
    }
  }

  /** generateGoApi: a single file, gen.go, in the package's directory; the
      name has no namespace, so no prefix applies. */
  function GenerateGoApi(name: string, api: ApiType, pkg: string, prefixes: map<string, string>): (r: Result<Output>)
    ensures r.Success? ==> r.value.name == name && |r.value.files| == 1
  {
    var file :- GenerateFile("gen", "", pkg, prefixes, (n: string, p: string) => GenerateApi(api, p));
    Success(Output(name, [file]))
  }

  /** The Go API is written to <package directory>/gen.go whatever the
      prefixes, and holds the API file of the package's last element. */
  lemma GoApiFile(name: string, api: ApiType, pkg: string, prefixes: map<string, string>)
    ensures GenerateGoApi(name, api, pkg, prefixes).Success? <==> GenerateApi(api, LastElem(pkg)).Success?
    ensures GenerateGoApi(name, api, pkg, prefixes).Success? ==>
      var out := GenerateGoApi(name, api, pkg, prefixes).value;
      && out.name == name && |out.files| == 1
      && out.files[0].path == ReplaceAll(pkg, '.', '/') + "/gen.go"
      && out.files[0].content == GenerateApi(api, LastElem(pkg)).value
  {
    assert !HasPrefix("", prefixes);
    assert GetName("gen", "", prefixes) == "gen";
    assert ReplaceAll(pkg, '.', '/') + "/" + "gen" + ".go" == ReplaceAll(pkg, '.', '/') + "/gen.go";
  }
}

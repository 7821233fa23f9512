/** The language-independent half of the bridge generator (src/common/lang.ts):
    classifying a type text, mapping types and values through a language's
    tables, and compiling one interface function into an exported wrapper
    through a table of language-specific pieces (a bridge mapping). */
module Lang {
  import opened Diagnostics
  import opened Text
  import opened Api

  // ---------------------------------------------------------------------------
  // Type texts

  /** The six primitive types every mapping table lists. */
  datatype Prim = Boolean | Number | BigInt | Str | Bytes | Void

  function PrimName(p: Prim): string {
    match p
    case Boolean => "boolean"
    case Number => "number"
    case BigInt => "bigint"
    case Str => "string"
    case Bytes => "Uint8Array"
    case Void => "void"
  }

  /** Looking a base type up in the primitive part of a table. */
  function LookupPrim(t: string): (r: Option<Prim>)
    ensures r.Some? ==> PrimName(r.value) == t
    ensures r.None? ==> forall p: Prim :: PrimName(p) != t
  {
    if t == "boolean" then Some(Boolean)
    else if t == "number" then Some(Number)
    else if t == "bigint" then Some(BigInt)
    else if t == "string" then Some(Str)
    else if t == "Uint8Array" then Some(Bytes)
    else if t == "void" then Some(Void)
    else None
  }

  lemma PrimRoundTrip(p: Prim)
    ensures LookupPrim(PrimName(p)) == Some(p)
  {
  }

  /** A classified type: a primitive or a custom (struct, enum or interface)
      name, possibly as the element of an array. */
  datatype Base = Primitive(prim: Prim) | Named(name: string)
  datatype TypeRef = TypeRef(base: Base, isArray: bool)

  function BaseText(b: Base): string {
    match b
    case Primitive(p) => PrimName(p)
    case Named(n) => n
  }

  function RefText(r: TypeRef): string {
    BaseText(r.base) + (if r.isArray then "[]" else "")
  }

  /** A custom name the mappers accept: lower-casing changes its first
      character, and it is not the name of a primitive. */
  predicate CustomName(n: string) {
    |n| > 0 && n[0] != Lower(n[0]) && LookupPrim(n).None?
  }

  /** The classified types the printer and the classifier agree on. A custom
      name of a non-array type cannot itself end in "[]", since its text
      would read as an array. */
  predicate WellFormedRef(r: TypeRef) {
    match r.base
    case Primitive(_) => true
    case Named(n) => CustomName(n) && (!r.isArray ==> !EndsWith(n, "[]"))
  }

  /** The base type the tables are searched with: the text without one
      trailing "[]". */
  function BaseOf(t: string): (b: string)
    ensures EndsWith(t, "[]") ==> b + "[]" == t
    ensures !EndsWith(t, "[]") ==> b == t
  {
    if EndsWith(t, "[]") then t[..|t| - 2] else t
  }

  /** The classification shared by typeToLang and valueToLang: a primitive
      base is found in the table; otherwise a text starting with '[' is a
      tuple, a text whose first character lower-casing leaves unchanged is
      unknown, an empty text dereferences an undefined first character, and
      everything else is a custom name. */
  function ParseType(t: string): (r: Result<TypeRef>)
    ensures r.Success? ==> WellFormedRef(r.value) && RefText(r.value) == t
    ensures r.Failure? ==> LookupPrim(BaseOf(t)).None?
  {
    var isArray := EndsWith(t, "[]");
    var base := BaseOf(t);
    match LookupPrim(base)
    case Some(p) => Success(TypeRef(Primitive(p), isArray))
    case None =>
      if StartsWith(t, "[") then Failure(TuplesNotSupported(t))
      else if |t| == 0 then Failure(TypeError("type[0] is undefined"))
      else if t[0] == Lower(t[0]) then Failure(UnknownType(t))
      else
        assert base[0] == t[0];
        Success(TypeRef(Named(base), isArray))
  }

  /** No primitive name starts with '['. */
  lemma BracketIsNoPrimitive(t: string)
    requires StartsWith(t, "[")
    ensures LookupPrim(BaseOf(t)).None?
  {
    var b := BaseOf(t);
    if |b| > 0 {
      assert b[0] == '[' by {
        assert t[0] == '[';
        if EndsWith(t, "[]") {
          assert b == t[..|t| - 2];
        }
      }
    }
  }

  /** The three errors and their order: a tuple is reported before the
      first-character test, and only texts no primitive base explains fail. */
  lemma ParseTypeErrors(t: string)
    ensures ParseType(t) == Failure(TuplesNotSupported(t)) <==> StartsWith(t, "[")
    ensures ParseType(t) == Failure(UnknownType(t)) <==>
              !StartsWith(t, "[") && |t| > 0 && t[0] == Lower(t[0]) && LookupPrim(BaseOf(t)).None?
    ensures ParseType(t).Failure? && ParseType(t).error.TypeError? <==> t == ""
  {
    if StartsWith(t, "[") {
      BracketIsNoPrimitive(t);
    }
    if t == "" {
      assert BaseOf(t) == "";
    }
  }

  /** Printing a well-formed classified type and classifying the text gives it
      back; with the ensures of ParseType, the two are inverse. */
  lemma ParseRefText(r: TypeRef)
    requires WellFormedRef(r)
    ensures ParseType(RefText(r)) == Success(r)
  {
    var t := RefText(r);
    var b := BaseText(r.base);
    if r.isArray {
      assert EndsWith(t, "[]") && t[..|t| - 2] == b;
    } else {
      assert t == b;
      if r.base.Primitive? {
        assert !EndsWith(t, "[]") by {
          assert t[|t| - 2..] != "[]" by {
            assert t[|t| - 1] != ']';
          }
        }
      }
    }
    assert BaseOf(t) == b;
    match r.base
    case Primitive(p) =>
      PrimRoundTrip(p);
    case Named(n) =>
      assert t[0] == n[0];
      assert !StartsWith(t, "[") by {
        assert t[0] != '[';
      }
  }

  /** The classification of a primitive name, a custom name, and their arrays. */
  lemma ParseNames(t: string)
    ensures LookupPrim(t).Some? ==>
      && ParseType(t) == Success(TypeRef(Primitive(LookupPrim(t).value), false))
      && ParseType(t + "[]") == Success(TypeRef(Primitive(LookupPrim(t).value), true))
    ensures CustomName(t) && !EndsWith(t, "[]") ==> ParseType(t) == Success(TypeRef(Named(t), false))
    ensures CustomName(t) ==> ParseType(t + "[]") == Success(TypeRef(Named(t), true))
  {
    if LookupPrim(t).Some? {
      var p := LookupPrim(t).value;
      ParseRefText(TypeRef(Primitive(p), false));
      ParseRefText(TypeRef(Primitive(p), true));
      assert RefText(TypeRef(Primitive(p), false)) == t;
      assert RefText(TypeRef(Primitive(p), true)) == t + "[]";
    }
    if CustomName(t) {
      if !EndsWith(t, "[]") {
        ParseRefText(TypeRef(Named(t), false));
        assert RefText(TypeRef(Named(t), false)) == t;
      }
      ParseRefText(TypeRef(Named(t), true));
      assert RefText(TypeRef(Named(t), true)) == t + "[]";
    }
  }

  // ---------------------------------------------------------------------------
  // Type tables

  /** A type mapping table: the spelling of each primitive, the hook that turns
      an element type into an array type, and the hook for custom names (the
      identity in tables that do not define one). */
  datatype TypeTable = TypeTable(
    prim: Prim -> string,
    toArray: string -> string,
    toCustom: string -> string)

  function MapType(r: TypeRef, table: TypeTable): string {
    var m := match r.base
      case Primitive(p) => table.prim(p)
      case Named(n) => table.toCustom(n);
    if r.isArray then table.toArray(m) else m
  }

  /** typeToLang. */
  function TypeToLang(t: string, table: TypeTable): (r: Result<string>)
    ensures r.Failure? <==> ParseType(t).Failure?
    ensures r.Failure? ==> r.error == ParseType(t).error
  {
    var ref :- ParseType(t);
    Success(MapType(ref, table))
  }

  /** A primitive maps to its table entry and a custom name through the custom
      hook; a trailing "[]" applies the array hook to the mapped element. */
  lemma TypeToLangCases(t: string, table: TypeTable)
    ensures LookupPrim(t).Some? ==>
      && TypeToLang(t, table) == Success(table.prim(LookupPrim(t).value))
      && TypeToLang(t + "[]", table) == Success(table.toArray(table.prim(LookupPrim(t).value)))
    ensures CustomName(t) && !EndsWith(t, "[]") ==>
      TypeToLang(t, table) == Success(table.toCustom(t))
    ensures CustomName(t) ==>
      TypeToLang(t + "[]", table) == Success(table.toArray(table.toCustom(t)))
  {
    ParseNames(t);
  }

  /** Every text the mapper accepts is the printed form of a well-formed type,
      and maps as that type does. */
  lemma TypeToLangComplete(t: string, table: TypeTable)
    requires TypeToLang(t, table).Success?
    ensures var r := ParseType(t).value;
      WellFormedRef(r) && RefText(r) == t && TypeToLang(t, table).value == MapType(r, table)
  {
  }

  // ---------------------------------------------------------------------------
  // Value tables

  /** A value mapping table: a conversion expression for a value of each
      primitive type, plus hooks for arrays and custom names. */
  datatype ValueTable = ValueTable(
    prim: Prim -> string -> string,
    toArray: (string, string) -> string,
    toCustom: (string, string) -> string)

  /** valueToLang: the converted value of the base type, prefixed for every type
      but "void". The array hook sits behind a test of the text against
      "void", which no array text passes, so it never runs. */
  function ValueToLang(t: string, value: string, prefix: string, table: ValueTable): (r: Result<string>)
    ensures r.Failure? <==> ParseType(t).Failure?
    ensures r.Failure? ==> r.error == ParseType(t).error
    ensures r.Success? && t == "void" ==> r.value == table.prim(Void)(value)
    ensures r.Success? && t != "void" ==>
      var b := ParseType(t).value.base;
      r.value == prefix + (if b.Primitive? then table.prim(b.prim)(value) else table.toCustom(b.name, value))
  {
    var ref :- ParseType(t);
    var mapped := match ref.base
      case Primitive(p) => table.prim(p)(value)
      case Named(n) => table.toCustom(n, value);
    if t != "void" then Success(prefix + mapped)
    else if ref.isArray then Success(table.toArray(mapped, value))
    else Success(mapped)
  }

  /** A primitive other than void converts through the table's entry for it,
      after the prefix. */
  lemma PrimitiveValue(p: Prim, value: string, prefix: string, table: ValueTable)
    requires p != Void
    ensures ValueToLang(PrimName(p), value, prefix, table) == Success(prefix + table.prim(p)(value))
  {
    PrimRoundTrip(p);
    ParseNames(PrimName(p));
  }

  /** An array value converts exactly as one element would: no array wrapping
      takes place. */
  lemma ValueOfArrayIsElementValue(r: TypeRef, value: string, prefix: string, table: ValueTable)
    requires r.isArray && r.base != Primitive(Void)
    requires WellFormedRef(r.(isArray := false))
    ensures ValueToLang(RefText(r), value, prefix, table)
         == ValueToLang(RefText(r.(isArray := false)), value, prefix, table)
  {
    var e := r.(isArray := false);
    ParseRefText(r);
    ParseRefText(e);
    assert RefText(r) != "void" by {
      assert RefText(r)[|RefText(r)| - 1] == ']';
    }
    assert RefText(e) != "void" by {
      if e.base.Primitive? {
        assert e.base.prim != Void;
      }
    }
  }

  // ---------------------------------------------------------------------------
  // The source's table lookup with Object.hasOwn.

  /** What a table yields for a key: a spelling, or one of the table's hook
      functions. */
  datatype TableEntry = Spelling(text: string) | HookFunction(key: string)

  /** Object.hasOwn(table, key) on a table object that holds, besides the six
      primitive spellings, the hooks named in `hooks` ("toArray", and
      "toCustom" in tables that define it). */
  predicate HasOwnKey(hooks: set<string>, key: string) {
    LookupPrim(key).Some? || key in hooks
  }

  /** The classification of typeToLang as the source writes it, up to the
      looked-up entry: hook names count as table keys. */
  function LookupAsWritten(t: string, table: TypeTable, hooks: set<string>): (r: Result<TableEntry>)
    ensures LookupPrim(BaseOf(t)).Some? ==> r == Success(Spelling(table.prim(LookupPrim(BaseOf(t)).value)))
    ensures !HasOwnKey(hooks, BaseOf(t)) ==>
      (r.Failure? <==> ParseType(t).Failure?)
  {
    var base := BaseOf(t);
    if HasOwnKey(hooks, base) then
      match LookupPrim(base)
      case Some(p) => Success(Spelling(table.prim(p)))
      case None => Success(HookFunction(base))
    else if StartsWith(t, "[") then Failure(TuplesNotSupported(t))
    else if |t| == 0 then Failure(TypeError("type[0] is undefined"))
    else if t[0] == Lower(t[0]) then Failure(UnknownType(t))
    else Success(Spelling(table.toCustom(base)))
  }

  /** As written, a type named after a hook is neither rejected nor mapped to a
      spelling: the hook function itself comes back as the "type". The
      corrected classifier rejects it as an unknown type. */
  lemma HookKeyLeaks(table: TypeTable)
    ensures LookupAsWritten("toArray", table, {"toArray"}) == Success(HookFunction("toArray"))
    ensures LookupAsWritten("toCustom", table, {"toArray", "toCustom"}) == Success(HookFunction("toCustom"))
    ensures TypeToLang("toArray", table) == Failure(UnknownType("toArray"))
    ensures TypeToLang("toCustom", table) == Failure(UnknownType("toCustom"))
  {
    assert !EndsWith("toArray", "[]") by {
      assert "toArray"[|"toArray"| - 2..] != "[]" by {
        assert "toArray"[|"toArray"| - 1] == 'y';
      }
    }
    assert !EndsWith("toCustom", "[]") by {
      assert "toCustom"[|"toCustom"| - 2..] != "[]" by {
        assert "toCustom"[|"toCustom"| - 1] == 'm';
      }
    }
    assert !StartsWith("toArray", "[") by {
      assert "toArray"[..1] == "t";
    }
    assert !StartsWith("toCustom", "[") by {
      assert "toCustom"[..1] == "t";
    }
  }

  /** The corrected lookup: only the six primitive names are table keys, so
      every accepted text is a printed well-formed type. */
  lemma LookupOnlyPrimitives(t: string, table: TypeTable)
    requires TypeToLang(t, table).Success?
    ensures ParseType(t).value.base.Named? ==> CustomName(BaseOf(t))
    ensures ParseType(t).value.base.Primitive? ==> LookupPrim(BaseOf(t)).Some?
  {
    var r := ParseType(t).value;
    if r.isArray {
      assert BaseOf(t) == BaseText(r.base) by {
        assert EndsWith(t, "[]");
        assert t == BaseText(r.base) + "[]";
      }
    } else {
      assert BaseOf(t) == t;
    }
  }

  // ---------------------------------------------------------------------------
  // The shared registry of handle and fold interfaces.

  /** What a fold-returning function leaves for the functions of the folded
      interface: the parameters gathered so far and the expression that
      rebuilds the folded receiver. */
  datatype FoldEntry = FoldEntry(params: seq<string>, returnType: string)

  /** The registry every generated function reads: names of handle and fold
      interfaces, and the fold entries written so far. */
  class Special {
    const handle: seq<string>
    const fold: seq<string>
    var folded: map<string, FoldEntry>

    constructor (handle: seq<string>, fold: seq<string>)
      ensures this.handle == handle && this.fold == fold && folded == map[]
    {
      this.handle := handle;
      this.fold := fold;
      folded := map[];
    }
  }

  /** The names of the handle interfaces, in declared order. */
  function HandleNames(ifaces: seq<InterfaceType>): (r: seq<string>)
    ensures forall x :: x in r <==> exists k :: 0 <= k < |ifaces| && ifaces[k].handle && ifaces[k].name == x
  {
    if |ifaces| == 0 then []
    else (if ifaces[0].handle then [ifaces[0].name] else []) + HandleNames(ifaces[1..])
  }

  /** The names of the fold interfaces, in declared order. */
  function FoldNames(ifaces: seq<InterfaceType>): (r: seq<string>)
    ensures forall x :: x in r <==> exists k :: 0 <= k < |ifaces| && ifaces[k].fold && ifaces[k].name == x
  {
    if |ifaces| == 0 then []
    else (if ifaces[0].fold then [ifaces[0].name] else []) + FoldNames(ifaces[1..])
  }

  /** The registry the generator starts from: handle and fold names from the
      API, no fold entries yet. */
  method NewSpecial(api: ApiType) returns (s: Special)
    ensures fresh(s)
    ensures s.handle == HandleNames(api.interfaces) && s.fold == FoldNames(api.interfaces)
    ensures s.folded == map[]
  {
    s := new Special(HandleNames(api.interfaces), FoldNames(api.interfaces));
  }

  // ---------------------------------------------------------------------------
  // funcToLang

  /** The language-specific pieces of a bridge. */
  datatype BridgeMapping = BridgeMapping(
    handle: string,
    closer: string,
    paramIn: VarType -> string,
    paramOut: VarType -> string,
    handles: string -> string,
    handleValue: string -> string,
    typeToName: string -> string,
    cleanup: string -> string,
    folded: string -> string,
    obj: (string, bool, bool) -> string,
    wrapper: (string, string) -> string,
    wrapped: (string, string) -> string,
    call: (string, string, seq<string>) -> string,
    body1: (string, string, string, seq<string>) -> seq<string>,
    body2: (FunctionType, string, string, seq<string>) -> seq<string>,
    body3: (string, string, string, seq<string>) -> seq<string>,
    paramRet: FunctionType -> seq<string>,
    returnOf: (string, bool, bool) -> string,
    funcDef: (string, string, string, string) -> string)

  /** A closer takes exactly one parameter, of a handle interface type, and
      returns the bridge's closer type. */
  predicate IsCloser(f: FunctionType, handle: seq<string>, closerType: string) {
    |f.params| == 1 && f.params[0].typ in handle && f.returnType == closerType
  }

  function CloserHandle(f: FunctionType, handle: seq<string>, b: BridgeMapping): string {
    if IsCloser(f, handle, b.closer) then b.handleValue(b.typeToName(f.params[0].typ)) else ""
  }

  function MapParams(ps: seq<VarType>, g: VarType -> string): (r: seq<string>)
    ensures |r| == |ps| && forall k :: 0 <= k < |ps| ==> r[k] == g(ps[k])
  {
    seq(|ps|, k requires 0 <= k < |ps| => g(ps[k]))
  }

  /** The wrapper's own parameters: the handle for a closer, the mapped
      parameters otherwise. */
  function LangParamsIn(f: FunctionType, handle: seq<string>, b: BridgeMapping): seq<string> {
    if IsCloser(f, handle, b.closer) then [b.handle] else MapParams(f.params, b.paramIn)
  }

  /** The call arguments: the looked-up handle for a closer, the mapped
      parameters otherwise. */
  function LangParamsOut(f: FunctionType, handle: seq<string>, b: BridgeMapping): seq<string> {
    if IsCloser(f, handle, b.closer) then [CloserHandle(f, handle, b)] else MapParams(f.params, b.paramOut)
  }

  /** The three body builders, of which exactly one is used. */
  datatype BodyKind = HandleBody | OptionalBody | DirectBody

  function LangBodyKind(f: FunctionType, handle: seq<string>): BodyKind {
    if f.returnType in handle then HandleBody
    else if f.returnOptional || f.throws then OptionalBody
    else DirectBody
  }

  function LangBody(kind: BodyKind, f: FunctionType, obj: string, func: string, out: seq<string>,
                    b: BridgeMapping): seq<string> {
    match kind
    case HandleBody => b.body1(f.returnType, obj, func, out)
    case OptionalBody => b.body2(f, obj, func, out)
    case DirectBody => b.body3(f.returnType, obj, func, out)
  }

  /** The entry a fold-returning function leaves: the previous entry of its own
      interface when there is one, else the interface's handle parameter and
      the bridge's fold start, extended with this function's parameters and
      call. */
  function NextFoldEntry(i: InterfaceType, f: FunctionType, handle: seq<string>,
                         folded: map<string, FoldEntry>, b: BridgeMapping): FoldEntry {
    var obj := b.obj(i.name, i.handle, i.fold);
    var paramHandle := if i.handle then [b.handle] else [];
    var params := if i.name in folded then folded[i.name].params else paramHandle;
    var ret := if i.name in folded then folded[i.name].returnType else b.folded(obj);
    FoldEntry(params + LangParamsIn(f, handle, b),
              b.call(ret, b.wrapped(i.name, f.name), LangParamsOut(f, handle, b)))
  }

  /** The parameters of the exported wrapper, in order. */
  function LangAllParams(i: InterfaceType, f: FunctionType, handle: seq<string>,
                         folded: map<string, FoldEntry>, b: BridgeMapping): seq<string> {
    var paramsFolded := if i.fold && i.name in folded then folded[i.name].params else [];
    var paramHandle := if i.handle then [b.handle] else [];
    paramsFolded + paramHandle + LangParamsIn(f, handle, b) + b.paramRet(f)
  }

  datatype LangStepResult = LangStepResult(out: string, folded: map<string, FoldEntry>)

  /** What funcToLang returns and how it leaves the fold entries. */
  function LangStep(i: InterfaceType, f: FunctionType, handle: seq<string>, fold: seq<string>,
                    folded: map<string, FoldEntry>, b: BridgeMapping): LangStepResult {
    if f.returnType in fold then
      LangStepResult("", folded[f.returnType := NextFoldEntry(i, f, handle, folded, b)])
    else
      LangStepResult(
        b.funcDef(b.wrapper(i.name, f.name), Join(LangAllParams(i, f, handle, folded, b), ", "),
                  b.returnOf(f.returnType, f.returnType in handle, f.returnType in fold),
                  WrapperBody(i, f, handle, folded, b)),
        folded)
  }

  /** The body handed to the bridge's function definition: the folded
      object's expression for a folded interface, the lines of the one body
      builder used, then the cleanup of the handle for a closer. */
  function WrapperBody(i: InterfaceType, f: FunctionType, handle: seq<string>,
                       folded: map<string, FoldEntry>, b: BridgeMapping): string {
    var obj := b.obj(i.name, i.handle, i.fold);
    var func := b.wrapped(i.name, f.name);
    var lines := Join(LangBody(LangBodyKind(f, handle), f, obj, func, LangParamsOut(f, handle, b), b), ",");
    var prelude := if i.fold then (if i.name in folded then folded[i.name].returnType else "") + "\n" else "";
    var cleanup := if IsCloser(f, handle, b.closer) then b.cleanup(CloserHandle(f, handle, b)) else "";
    prelude + lines + cleanup
  }

  /** funcToLang: compiles one function, recording a fold entry instead of a
      wrapper when it returns a fold interface. */
  method FuncToLang(i: InterfaceType, f: FunctionType, special: Special, b: BridgeMapping)
    returns (out: string)
    modifies special
    ensures LangStepResult(out, special.folded)
         == LangStep(i, f, special.handle, special.fold, old(special.folded), b)
  {
    var func := b.wrapped(i.name, f.name);
    var cfunc := b.wrapper(i.name, f.name);
    var paramHandle := if i.handle then [b.handle] else [];
    var closer := |f.params| == 1 && f.params[0].typ in special.handle && f.returnType == b.closer;
    var closerHandle := if closer then b.handleValue(b.typeToName(f.params[0].typ)) else "";
    var paramsIn := if closer then [b.handle] else MapParams(f.params, b.paramIn);
    var paramsOut := if closer then [closerHandle] else MapParams(f.params, b.paramOut);
    var obj := b.obj(i.name, i.handle, i.fold);
    var cleanup := if closer then b.cleanup(closerHandle) else "";

    // Each builder returns a list of lines; the one pushed list is printed
    // with Array.prototype.toString, which separates its lines with ','.
    var returnsNew: seq<string> := [];
    if f.returnType in special.handle {
      returnsNew := returnsNew + [Join(b.body1(f.returnType, obj, func, paramsOut), ",")];
    } else if f.returnOptional || f.throws {
      returnsNew := returnsNew + [Join(b.body2(f, obj, func, paramsOut), ",")];
    } else {
      returnsNew := returnsNew + [Join(b.body3(f.returnType, obj, func, paramsOut), ",")];
    }
    var lines := Join(returnsNew, "\n  ");
    assert paramsIn == LangParamsIn(f, special.handle, b) && paramsOut == LangParamsOut(f, special.handle, b);
    assert lines == Join(LangBody(LangBodyKind(f, special.handle), f, obj, func, paramsOut, b), ",");

    var returnType := b.returnOf(f.returnType, f.returnType in special.handle, f.returnType in special.fold);
    var paramsFolded := if i.fold && i.name in special.folded then special.folded[i.name].params else [];
    var folded := if i.fold then (if i.name in special.folded then special.folded[i.name].returnType else "") + "\n" else "";
    var newParams := b.paramRet(f);

    if f.returnType in special.fold {
      var multi := i.name in special.folded;
      var params := if multi then special.folded[i.name].params else paramHandle;
      var ret := if multi then special.folded[i.name].returnType else b.folded(obj);
      special.folded := special.folded[f.returnType := FoldEntry(params + paramsIn, b.call(ret, func, paramsOut))];
      return "";
    }

    var allParams := paramsFolded + paramHandle + paramsIn + newParams;
    assert allParams == LangAllParams(i, f, special.handle, special.folded, b);
    assert folded + lines + cleanup == WrapperBody(i, f, special.handle, special.folded, b);
    out := b.funcDef(cfunc, Join(allParams, ", "), returnType, folded + lines + cleanup);
  }

  // ---------------------------------------------------------------------------
  // Properties of funcToLang

  /** A fold-returning function emits nothing and changes exactly one entry: the
      one under its return type. Every other function leaves the entries as
      they are. */
  lemma LangFoldTouchesOneEntry(i: InterfaceType, f: FunctionType, handle: seq<string>, fold: seq<string>,
                                folded: map<string, FoldEntry>, b: BridgeMapping)
    ensures var s := LangStep(i, f, handle, fold, folded, b);
      && (f.returnType in fold ==>
            && s.out == "" && f.returnType in s.folded
            && s.folded.Keys == folded.Keys + {f.returnType}
            && forall k :: k in folded && k != f.returnType ==> s.folded[k] == folded[k])
      && (f.returnType !in fold ==> s.folded == folded)
  {
  }

  /** A fold chain only grows: the entry a function of a folded interface
      writes starts with the parameters of the entry it was folded from, and
      ends with its own. */
  lemma LangFoldAccumulates(i: InterfaceType, f: FunctionType, handle: seq<string>, fold: seq<string>,
                            folded: map<string, FoldEntry>, b: BridgeMapping)
    requires f.returnType in fold && i.name in folded
    ensures var e := LangStep(i, f, handle, fold, folded, b).folded[f.returnType];
      && e.params == folded[i.name].params + LangParamsIn(f, handle, b)
      && e.returnType == b.call(folded[i.name].returnType, b.wrapped(i.name, f.name), LangParamsOut(f, handle, b))
  {
  }

  /** A closer takes only the handle, passes only the looked-up handle and ends
      its body with the cleanup of that handle. */
  lemma LangCloserShape(i: InterfaceType, f: FunctionType, handle: seq<string>,
                        folded: map<string, FoldEntry>, b: BridgeMapping)
    requires IsCloser(f, handle, b.closer)
    ensures LangParamsIn(f, handle, b) == [b.handle]
    ensures LangParamsOut(f, handle, b) == [b.handleValue(b.typeToName(f.params[0].typ))]
    ensures EndsWith(WrapperBody(i, f, handle, folded, b), b.cleanup(b.handleValue(b.typeToName(f.params[0].typ))))
  {
    var body := WrapperBody(i, f, handle, folded, b);
    var cleanup := b.cleanup(CloserHandle(f, handle, b));
    assert body[|body| - |cleanup|..] == cleanup;
  }

  /** Any other function's body ends with the lines of its body builder: no
      cleanup follows. */
  lemma LangNoCleanup(i: InterfaceType, f: FunctionType, handle: seq<string>,
                      folded: map<string, FoldEntry>, b: BridgeMapping)
    requires !IsCloser(f, handle, b.closer)
    ensures EndsWith(WrapperBody(i, f, handle, folded, b),
                     Join(LangBody(LangBodyKind(f, handle), f, b.obj(i.name, i.handle, i.fold),
                                   b.wrapped(i.name, f.name), LangParamsOut(f, handle, b), b), ","))
  {
    var body := WrapperBody(i, f, handle, folded, b);
    var lines := Join(LangBody(LangBodyKind(f, handle), f, b.obj(i.name, i.handle, i.fold),
                               b.wrapped(i.name, f.name), LangParamsOut(f, handle, b), b), ",");
    assert body[|body| - |lines|..] == lines;
  }

  /** Otherwise the wrapper takes and passes one mapped parameter per declared
      parameter, in declared order. */
  lemma LangParamsInOrder(f: FunctionType, handle: seq<string>, b: BridgeMapping)
    requires !IsCloser(f, handle, b.closer)
    ensures |LangParamsIn(f, handle, b)| == |f.params| == |LangParamsOut(f, handle, b)|
    ensures forall k :: 0 <= k < |f.params| ==>
      LangParamsIn(f, handle, b)[k] == b.paramIn(f.params[k]) && LangParamsOut(f, handle, b)[k] == b.paramOut(f.params[k])
  {
  }

  /** Exactly one body builder applies; a handle return type wins over the
      optional and throws flags. */
  lemma LangOneBody(f: FunctionType, handle: seq<string>)
    ensures LangBodyKind(f, handle) == HandleBody <==> f.returnType in handle
    ensures LangBodyKind(f, handle) == OptionalBody <==> f.returnType !in handle && (f.returnOptional || f.throws)
    ensures LangBodyKind(f, handle) == DirectBody <==> f.returnType !in handle && !f.returnOptional && !f.throws
  {
  }

  /** The exported parameters are the folded ones, then the handle, then the
      function's own, then the bridge's extra ones; the folded ones are there
      only for a fold interface that has an entry. */
  lemma LangParamOrder(i: InterfaceType, f: FunctionType, handle: seq<string>,
                       folded: map<string, FoldEntry>, b: BridgeMapping)
    ensures var ps := LangAllParams(i, f, handle, folded, b);
      var pf := if i.fold && i.name in folded then |folded[i.name].params| else 0;
      var ph := if i.handle then 1 else 0;
      var pi := |LangParamsIn(f, handle, b)|;
      && |ps| == pf + ph + pi + |b.paramRet(f)|
      && (i.fold && i.name in folded ==> ps[..pf] == folded[i.name].params)
      && (i.handle ==> ps[pf] == b.handle)
      && ps[pf + ph..pf + ph + pi] == LangParamsIn(f, handle, b)
      && ps[pf + ph + pi..] == b.paramRet(f)
  {
  }
}

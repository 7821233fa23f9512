/** The exported cgo functions (src/go/cgo.ts:167-177, 296-398): each function
    of an interface becomes one exported C entry point, except a function that
    returns a fold interface, which emits nothing and extends the fold chain
    recorded in the shared registry instead. */
module CgoBridge {
  import opened Diagnostics
  import opened Text
  import opened Api
  import opened Lang
  import opened CgoTypes
  import opened CgoDecls

  /** The parameter carrying a handle across the C boundary. */
  const HandleParam := "handle int64"

  /** What the source runs into when a fold interface has no entry yet:
      reading `params` of undefined. */
  const MissingFoldEntry := TypeError("Cannot read properties of undefined (reading 'params')")

  // ---------------------------------------------------------------------------
  // The pieces of one exported function

  /** A closer takes one parameter of a handle interface and returns nothing. */
  predicate IsCgoCloser(f: FunctionType, handle: seq<string>) {
    IsCloser(f, handle, "void")
  }

  /** The handle slot a closer frees: the entry of its parameter's handle slice. */
  function CloserSlot(f: FunctionType): string
    requires |f.params| > 0
  {
    HandlesName(f.params[0].typ) + "[handle]"
  }

  /** One parameter of the exported function: its name and its cgo type. */
  function ParamIn(p: VarType): (r: Result<string>)
    ensures r.Success? <==> TypeToCgo(p.typ).Success?
    ensures r.Success? ==> r.value == p.name + " " + TypeToCgo(p.typ).value
  {
    var t :- TypeToCgo(p.typ);
    Success(p.name + " " + t)
  }

  /** One argument of the call into the Go API: the parameter read from C. */
  function ParamOut(p: VarType): Result<string> {
    ParamToGo(p.typ, p.name)
  }

  function CgoParamsIn(f: FunctionType, handle: seq<string>): Result<seq<string>> {
    if IsCgoCloser(f, handle) then Success([HandleParam]) else MapAll(f.params, ParamIn)
  }

  function CgoParamsOut(f: FunctionType, handle: seq<string>): Result<seq<string>> {
    if IsCgoCloser(f, handle) then Success([CloserSlot(f)]) else MapAll(f.params, ParamOut)
  }

  /** The object the call goes to: the live object behind the handle, the
      folded object, or the singleton variable. */
  function Receiver(i: InterfaceType): string {
    if i.handle then HandlesName(i.name) + "[handle]" else if i.fold then "folded" else VarName(i)
  }

  /** A call in the emitted Go code; the arguments are an array printed by a
      template literal, so they are separated by ',' alone. */
  function CallText(obj: string, func: string, args: seq<string>): string {
    obj + "." + func + "(" + Join(args, ",") + ")"
  }

  /** The names bound to what an optional or throwing call returns. */
  function ResultVars(f: FunctionType): seq<string> {
    (if f.returnType != "void" then ["result"] else [])
    + (if f.returnOptional then ["ok"] else [])
    + (if f.throws then ["err"] else [])
  }

  /** The parameters that carry the optional flag and the error back to C. */
  function ExtraParams(f: FunctionType): seq<string> {
    (if f.returnOptional then ["cok *C.short"] else []) + (if f.throws then ["cerr **C.char"] else [])
  }

  /** The lines of an optional or throwing body before the returned value:
      the binding of the results, then the flag and error writes. */
  function BodyLinesHead(f: FunctionType, call: string): seq<string> {
    [Join(ResultVars(f), ", ") + " := " + call]
    + (if f.returnOptional then ["if ok { *cok = 1 }"] else [])
    + (if f.throws then ["if err != nil { *cerr = C.CString(err.Error()) }"] else [])
  }

  /** The body lines of the exported function around the call `call`. Which of
      the three shapes applies is decided as for every bridge (BodyKind). */
  function BodyLines(f: FunctionType, handle: seq<string>, call: string): Result<seq<string>> {
    match LangBodyKind(f, handle)
    case HandleBody =>
      var h := HandlesName(f.returnType);
      Success([h + " = append(" + h + ", " + call + ")", "return int64(len(" + h + ") - 1)"])
    case OptionalBody =>
      var head := BodyLinesHead(f, call);
      if f.returnType != "void" then
        var ret :- ReturnToC(f.returnType, "result");
        Success(head + [ret])
      else Success(head)
    case DirectBody =>
      var ret :- ReturnToC(f.returnType, call);
      Success([ret])
  }

  /** The cgo return type: a handle travels as its index, a fold interface as
      the Go API type itself, anything else by its cgo spelling. */
  function CgoReturnType(f: FunctionType, handle: seq<string>, fold: seq<string>): Result<string> {
    if f.returnType in handle then Success("int64")
    else if f.returnType in fold then Success("api." + f.returnType)
    else TypeToCgo(f.returnType)
  }

  function ExportName(i: InterfaceType, f: FunctionType): string {
    FirstLetterUpperCase(i.name) + "_" + FirstLetterUpperCase(f.name)
  }

  /** An exported function before printing: its name, its parameters in order,
      its return type and the parts of its body. */
  datatype ExportedFunc = ExportedFunc(
    name: string, params: seq<string>, returnType: string,
    prelude: string, lines: seq<string>, cleanup: string)

  /** The printed export: the cgo export marker, the header, then the body:
      the fold prelude, the body lines and the cleanup. */
  function Render(e: ExportedFunc): string {
    "//export " + e.name + "\nfunc " + e.name + "(" + Join(e.params, ", ") + ") " + e.returnType + " {\n\t"
    + e.prelude + Join(e.lines, "\n  ") + e.cleanup + "\n}"
  }

  /** A function either becomes an export or is absorbed into a fold entry. */
  datatype Emitted = Absorbed | Exported(exported: ExportedFunc)

  function EmittedText(e: Emitted): string {
    match e
    case Absorbed => ""
    case Exported(x) => Render(x)
  }

  /** The entry a fold-returning function records under its return type: the
      entry of its own interface extended when there is one, otherwise a new
      chain starting at the receiver. */
  function NextGoFoldEntry(i: InterfaceType, f: FunctionType, folded: map<string, FoldEntry>,
                           paramsIn: seq<string>, paramsOut: seq<string>): FoldEntry {
    var paramHandle := if i.handle then [HandleParam] else [];
    var params := if i.name in folded then folded[i.name].params else paramHandle;
    var ret := if i.name in folded then folded[i.name].returnType + "." else "folded := " + Receiver(i) + ".";
    FoldEntry(params + paramsIn, ret + FirstLetterUpperCase(f.name) + "(" + Join(paramsOut, ",") + ")")
  }

  /** The exported parameters: those of the fold chain, the handle, the
      function's own, then the optional and error carriers. */
  function GoAllParams(i: InterfaceType, f: FunctionType, folded: map<string, FoldEntry>,
                       paramsIn: seq<string>): seq<string> {
    (if i.fold && i.name in folded then folded[i.name].params else [])
    + (if i.handle then [HandleParam] else []) + paramsIn + ExtraParams(f)
  }

  datatype GoStepResult = GoStepResult(emitted: Emitted, folded: map<string, FoldEntry>)

  /** What funcToGo produces and how it leaves the fold entries, or the error
      it throws first: parameter types, parameter reads, the body's return
      conversion, the return type, then the missing fold entry. */
  function GoStep(i: InterfaceType, f: FunctionType, handle: seq<string>, fold: seq<string>,
                  folded: map<string, FoldEntry>): Result<GoStepResult> {
    var paramsIn :- CgoParamsIn(f, handle);
    var paramsOut :- CgoParamsOut(f, handle);
    var lines :- BodyLines(f, handle, CallText(Receiver(i), FirstLetterUpperCase(f.name), paramsOut));
    var returnType :- CgoReturnType(f, handle, fold);
    if i.fold && i.name !in folded then Failure(MissingFoldEntry)
    else if f.returnType in fold then
      Success(GoStepResult(Absorbed, folded[f.returnType := NextGoFoldEntry(i, f, folded, paramsIn, paramsOut)]))
    else
      var prelude := if i.fold then folded[i.name].returnType + "\n" else "";
      var cleanup := if IsCgoCloser(f, handle) then "\n  " + CloserSlot(f) + " = nil" else "";
      Success(GoStepResult(
        Exported(ExportedFunc(ExportName(i, f), GoAllParams(i, f, folded, paramsIn), returnType, prelude, lines, cleanup)),
        folded))
  }

  // ---------------------------------------------------------------------------
  // funcToGo

  /** The body lines of funcToGo, pushed one by one; the return conversion
      may throw. */
  method Returns(f: FunctionType, handle: seq<string>, call: string) returns (r: Result<seq<string>>)
    ensures r == BodyLines(f, handle, call)
  {
    var returnsNew: seq<string> := [];
    if f.returnType in handle {
      var handles := HandlesName(f.returnType);
      returnsNew := returnsNew + [handles + " = append(" + handles + ", " + call + ")"];
      returnsNew := returnsNew + ["return int64(len(" + handles + ") - 1)"];
      assert returnsNew == [handles + " = append(" + handles + ", " + call + ")", "return int64(len(" + handles + ") - 1)"];
      assert LangBodyKind(f, handle) == HandleBody;
      assert Success(returnsNew) == BodyLines(f, handle, call);
    } else if f.returnOptional || f.throws {
      var vars: seq<string> := [];
      if f.returnType != "void" {
        vars := vars + ["result"];
      }
      if f.returnOptional {
        vars := vars + ["ok"];
      }
      if f.throws {
        vars := vars + ["err"];
      }
      assert vars == ResultVars(f);
      returnsNew := returnsNew + [Join(vars, ", ") + " := " + call];
      if f.returnOptional {
        returnsNew := returnsNew + ["if ok { *cok = 1 }"];
      }
      if f.throws {
        returnsNew := returnsNew + ["if err != nil { *cerr = C.CString(err.Error()) }"];
      }
      assert returnsNew == BodyLinesHead(f, call);
      if f.returnType != "void" {
        var ret := ReturnToC(f.returnType, "result");
        if ret.Failure? {
          return Failure(ret.error);
        }
        returnsNew := returnsNew + [ret.value];
        assert returnsNew == BodyLinesHead(f, call) + [ret.value];
      }
      assert Success(returnsNew) == BodyLines(f, handle, call);
    } else {
      var ret := ReturnToC(f.returnType, call);
      if ret.Failure? {
        return Failure(ret.error);
      }
      returnsNew := returnsNew + [ret.value];
      assert returnsNew == [ret.value];
    }
    r := Success(returnsNew);
  }


  /** funcToGo: compiles one function against the shared registry. A function
      returning a fold interface records its entry and yields ""; an error
      leaves the registry as it was. */
  /** Records the fold entry of a fold-returning function under its return
      type, extending the entry of its own interface when there is one. */
  method Absorb(i: InterfaceType, f: FunctionType, special: Special, paramsIn: seq<string>, paramsOut: seq<string>)
    modifies special
    ensures special.folded == old(special.folded)[f.returnType := NextGoFoldEntry(i, f, old(special.folded), paramsIn, paramsOut)]
  {
    var paramHandle := if i.handle then [HandleParam] else [];
    var multi := i.name in special.folded;
    var params := if multi then special.folded[i.name].params else paramHandle;
    var ret := if multi then special.folded[i.name].returnType + "." else "folded := " + Receiver(i) + ".";
    special.folded := special.folded[f.returnType := FoldEntry(params + paramsIn, ret + FirstLetterUpperCase(f.name) + "(" + Join(paramsOut, ",") + ")")];
  }

  /** GoStep once its four fallible pieces are known to succeed. */
  lemma GoStepOfPieces(i: InterfaceType, f: FunctionType, handle: seq<string>, fold: seq<string>,
                       folded: map<string, FoldEntry>, paramsIn: seq<string>, paramsOut: seq<string>,
                       lines: seq<string>, returnType: string)
    requires CgoParamsIn(f, handle) == Success(paramsIn)
    requires CgoParamsOut(f, handle) == Success(paramsOut)
    requires BodyLines(f, handle, CallText(Receiver(i), FirstLetterUpperCase(f.name), paramsOut)) == Success(lines)
    requires CgoReturnType(f, handle, fold) == Success(returnType)
    ensures i.fold && i.name !in folded ==> GoStep(i, f, handle, fold, folded) == Failure(MissingFoldEntry)
    ensures !(i.fold && i.name !in folded) && f.returnType in fold ==>
      GoStep(i, f, handle, fold, folded)
      == Success(GoStepResult(Absorbed, folded[f.returnType := NextGoFoldEntry(i, f, folded, paramsIn, paramsOut)]))
    ensures !(i.fold && i.name !in folded) && f.returnType !in fold ==>
      GoStep(i, f, handle, fold, folded)
      == Success(GoStepResult(Exported(ExportedFunc(
           ExportName(i, f), GoAllParams(i, f, folded, paramsIn), returnType,
           if i.fold then folded[i.name].returnType + "\n" else "", lines,
           if IsCgoCloser(f, handle) then "\n  " + CloserSlot(f) + " = nil" else "")), folded))
  {
  }

  method FuncToGo(i: InterfaceType, f: FunctionType, special: Special) returns (r: Result<string>)
    modifies special
    ensures var s := GoStep(i, f, special.handle, special.fold, old(special.folded));
      && (s.Success? ==> r == Success(EmittedText(s.value.emitted)) && special.folded == s.value.folded)
      && (s.Failure? ==> r == Failure(s.error) && special.folded == old(special.folded))
  {
    var func := FirstLetterUpperCase(f.name);
    var paramsIn :- CgoParamsIn(f, special.handle);
    var paramsOut :- CgoParamsOut(f, special.handle);
    var obj := Receiver(i);
    var returnsNew :- Returns(f, special.handle, CallText(obj, func, paramsOut));
    var returnType :- CgoReturnType(f, special.handle, special.fold);
    GoStepOfPieces(i, f, special.handle, special.fold, special.folded, paramsIn, paramsOut, returnsNew, returnType);
    r := EmitStep(i, f, special, paramsIn, paramsOut, returnsNew, returnType);
  }

  /** The rest of funcToGo once its fallible pieces are computed: the fold
      entry check, then either the fold entry or the printed export. */
  method EmitStep(i: InterfaceType, f: FunctionType, special: Special, paramsIn: seq<string>,
                  paramsOut: seq<string>, returnsNew: seq<string>, returnType: string) returns (r: Result<string>)
    modifies special
    ensures i.fold && i.name !in old(special.folded) ==>
      r == Failure(MissingFoldEntry) && special.folded == old(special.folded)
    ensures !(i.fold && i.name !in old(special.folded)) && f.returnType in special.fold ==>
      r == Success("")
      && special.folded == old(special.folded)[f.returnType := NextGoFoldEntry(i, f, old(special.folded), paramsIn, paramsOut)]
    ensures !(i.fold && i.name !in old(special.folded)) && f.returnType !in special.fold ==>
      special.folded == old(special.folded)
      && r == Success(Render(ExportedFunc(
           ExportName(i, f), GoAllParams(i, f, special.folded, paramsIn), returnType,
           if i.fold then special.folded[i.name].returnType + "\n" else "", returnsNew,
           if IsCgoCloser(f, special.handle) then "\n  " + CloserSlot(f) + " = nil" else "")))
  {
    if i.fold && i.name !in special.folded {
      return Failure(MissingFoldEntry);
    }
    var closer := IsCgoCloser(f, special.handle);
    var cleanup := if closer then "\n  " + CloserSlot(f) + " = nil" else "";
    var paramsFolded := if i.fold then special.folded[i.name].params else [];
    var folded := if i.fold then special.folded[i.name].returnType + "\n" else "";

    var newParams: seq<string> := [];
    if f.returnOptional {
      newParams := newParams + ["cok *C.short"];
    }
    if f.throws {
      newParams := newParams + ["cerr **C.char"];
    }

    if f.returnType in special.fold {
      Absorb(i, f, special, paramsIn, paramsOut);
      return Success("");
    }

    var paramHandle := if i.handle then [HandleParam] else [];
    var allParams := paramsFolded + paramHandle + paramsIn + newParams;
    assert newParams == ExtraParams(f);
    r := Success(Render(ExportedFunc(ExportName(i, f), allParams, returnType, folded, returnsNew, cleanup)));
  }

  // ---------------------------------------------------------------------------
  // Properties of funcToGo

  /** The printed export opens with the marker and the header and closes with
      the body. */
  lemma RenderParts(e: ExportedFunc)
    ensures StartsWith(Render(e), "//export " + e.name + "\nfunc " + e.name + "(")
    ensures EndsWith(Render(e), e.prelude + Join(e.lines, "\n  ") + e.cleanup + "\n}")
  {
    var head := "//export " + e.name + "\nfunc " + e.name + "(";
    var mid := Join(e.params, ", ") + ") " + e.returnType + " {\n\t";
    var body := e.prelude + Join(e.lines, "\n  ") + e.cleanup + "\n}";
    assert Render(e) == head + (mid + body);
    assert Render(e) == (head + mid) + body;
  }

  /** A successful step had all four fallible pieces succeed and, for a fold
      interface, found its entry. */
  lemma GoStepPieces(i: InterfaceType, f: FunctionType, handle: seq<string>, fold: seq<string>,
                     folded: map<string, FoldEntry>)
    requires GoStep(i, f, handle, fold, folded).Success?
    ensures CgoParamsIn(f, handle).Success? && CgoParamsOut(f, handle).Success?
    ensures BodyLines(f, handle, CallText(Receiver(i), FirstLetterUpperCase(f.name), CgoParamsOut(f, handle).value)).Success?
    ensures CgoReturnType(f, handle, fold).Success?
    ensures !(i.fold && i.name !in folded)
  {
  }

  /** An exported function is named <Iface>_<Func> with both first letters
      upper-cased; its text opens with the cgo export marker of that name
      followed by the function header, and closes with its body: the fold
      prelude, the body lines and the cleanup. */
  lemma ExportNaming(i: InterfaceType, f: FunctionType, handle: seq<string>, fold: seq<string>,
                     folded: map<string, FoldEntry>)
    requires GoStep(i, f, handle, fold, folded).Success?
    requires GoStep(i, f, handle, fold, folded).value.emitted.Exported?
    ensures var e := GoStep(i, f, handle, fold, folded).value.emitted.exported;
      && e.name == FirstLetterUpperCase(i.name) + "_" + FirstLetterUpperCase(f.name)
      && StartsWith(Render(e), "//export " + e.name + "\nfunc " + e.name + "(")
      && EndsWith(Render(e), e.prelude + Join(e.lines, "\n  ") + e.cleanup + "\n}")
  {
    RenderParts(GoStep(i, f, handle, fold, folded).value.emitted.exported);
  }

  /** A closer fails on nothing but a missing fold entry. Its only own
      parameter is the handle, its call passes the slot of the handle slice it
      frees, and its cleanup sets that slot to nil. */
  lemma CloserShape(i: InterfaceType, f: FunctionType, handle: seq<string>, fold: seq<string>,
                    folded: map<string, FoldEntry>)
    requires IsCgoCloser(f, handle)
    ensures GoStep(i, f, handle, fold, folded).Success? <==> !(i.fold && i.name !in folded)
    ensures GoStep(i, f, handle, fold, folded).Success? && "void" !in fold ==>
      && GoStep(i, f, handle, fold, folded).value.emitted.Exported?
      && var e := GoStep(i, f, handle, fold, folded).value.emitted.exported;
      && e.params == (if i.fold && i.name in folded then folded[i.name].params else [])
                     + (if i.handle then [HandleParam] else []) + [HandleParam] + ExtraParams(f)
      && e.cleanup == "\n  " + HandlesName(f.params[0].typ) + "[handle] = nil"
      && ("void" !in handle && !f.returnOptional && !f.throws ==>
            e.lines == [CallText(Receiver(i), FirstLetterUpperCase(f.name), [HandlesName(f.params[0].typ) + "[handle]"])])
  {
    assert CgoParamsIn(f, handle) == Success([HandleParam]);
    assert CgoParamsOut(f, handle) == Success([CloserSlot(f)]);
    var call := CallText(Receiver(i), FirstLetterUpperCase(f.name), [CloserSlot(f)]);
    assert BodyLines(f, handle, call).Success?;
    assert CgoReturnType(f, handle, fold).Success?;
    assert "\n  " + CloserSlot(f) + " = nil" == "\n  " + HandlesName(f.params[0].typ) + "[handle] = nil";
  }

  /** A function returning a handle interface appends the new object to that
      interface's handle slice and returns its index, the old length; it
      travels to C as an int64. */
  lemma HandleReturnShape(i: InterfaceType, f: FunctionType, handle: seq<string>, fold: seq<string>,
                          folded: map<string, FoldEntry>)
    requires f.returnType in handle && f.returnType !in fold
    requires GoStep(i, f, handle, fold, folded).Success?
    ensures GoStep(i, f, handle, fold, folded).value.emitted.Exported?
    ensures var e := GoStep(i, f, handle, fold, folded).value.emitted.exported;
      var h := HandlesName(f.returnType);
      var call := CallText(Receiver(i), FirstLetterUpperCase(f.name), CgoParamsOut(f, handle).value);
      && e.returnType == "int64"
      && e.lines == [h + " = append(" + h + ", " + call + ")", "return int64(len(" + h + ") - 1)"]
  {
  }

  /** The results of an optional or throwing call are bound as result, ok and
      err, each only when present and always in that order. */
  function VarRank(v: string): int {
    if v == "result" then 0 else if v == "ok" then 1 else 2
  }

  lemma ResultVarsOrder(f: FunctionType)
    ensures "result" in ResultVars(f) <==> f.returnType != "void"
    ensures "ok" in ResultVars(f) <==> f.returnOptional
    ensures "err" in ResultVars(f) <==> f.throws
    ensures forall j, k :: 0 <= j < k < |ResultVars(f)| ==> VarRank(ResultVars(f)[j]) < VarRank(ResultVars(f)[k])
  {
  }

  /** The optional flag's carrier comes before the error's, each only when
      the function needs it. */
  lemma ExtraParamsOrder(f: FunctionType)
    ensures "cok *C.short" in ExtraParams(f) <==> f.returnOptional
    ensures "cerr **C.char" in ExtraParams(f) <==> f.throws
    ensures |ExtraParams(f)| == 2 ==> ExtraParams(f) == ["cok *C.short", "cerr **C.char"]
  {
  }

  /** A step that does not return a fold interface exports a function built
      from its pieces. */
  lemma GoStepExported(i: InterfaceType, f: FunctionType, handle: seq<string>, fold: seq<string>,
                       folded: map<string, FoldEntry>)
    requires f.returnType !in fold && GoStep(i, f, handle, fold, folded).Success?
    ensures CgoParamsIn(f, handle).Success? && CgoParamsOut(f, handle).Success?
    ensures BodyLines(f, handle, CallText(Receiver(i), FirstLetterUpperCase(f.name), CgoParamsOut(f, handle).value)).Success?
    ensures i.fold ==> i.name in folded
    ensures GoStep(i, f, handle, fold, folded).value.emitted
         == Exported(ExportedFunc(
              ExportName(i, f), GoAllParams(i, f, folded, CgoParamsIn(f, handle).value),
              CgoReturnType(f, handle, fold).value,
              if i.fold then folded[i.name].returnType + "\n" else "",
              BodyLines(f, handle, CallText(Receiver(i), FirstLetterUpperCase(f.name), CgoParamsOut(f, handle).value)).value,
              if IsCgoCloser(f, handle) then "\n  " + CloserSlot(f) + " = nil" else ""))
  {
    GoStepPieces(i, f, handle, fold, folded);
    var pin := CgoParamsIn(f, handle).value;
    var pout := CgoParamsOut(f, handle).value;
    var lines := BodyLines(f, handle, CallText(Receiver(i), FirstLetterUpperCase(f.name), pout)).value;
    GoStepOfPieces(i, f, handle, fold, folded, pin, pout, lines, CgoReturnType(f, handle, fold).value);
  }

  /** An optional or throwing function binds the call's results, writes the
      flag and the error through their carriers, and returns a value exactly
      when its return type is not void. */
  lemma OptionalShape(i: InterfaceType, f: FunctionType, handle: seq<string>, fold: seq<string>,
                      folded: map<string, FoldEntry>)
    requires f.returnType !in handle && f.returnType !in fold && (f.returnOptional || f.throws)
    requires GoStep(i, f, handle, fold, folded).Success?
    ensures GoStep(i, f, handle, fold, folded).value.emitted.Exported?
    ensures var e := GoStep(i, f, handle, fold, folded).value.emitted.exported;
      var call := CallText(Receiver(i), FirstLetterUpperCase(f.name), CgoParamsOut(f, handle).value);
      && |e.lines| == 1 + (if f.returnOptional then 1 else 0) + (if f.throws then 1 else 0)
                        + (if f.returnType != "void" then 1 else 0)
      && e.lines[0] == Join(ResultVars(f), ", ") + " := " + call
      && (f.returnType != "void" ==> e.lines[|e.lines| - 1] == ReturnToC(f.returnType, "result").value)
      && e.params[|e.params| - |ExtraParams(f)|..] == ExtraParams(f)
  {
    GoStepExported(i, f, handle, fold, folded);
    var call := CallText(Receiver(i), FirstLetterUpperCase(f.name), CgoParamsOut(f, handle).value);
    var pre := GoAllParams(i, f, folded, CgoParamsIn(f, handle).value);
    var x := pre[..|pre| - |ExtraParams(f)|];
    assert pre == x + ExtraParams(f);
    assert LangBodyKind(f, handle) == OptionalBody;
  }

  /** The exported parameters are the fold chain's, then the handle, then one
      per declared parameter in order (name and cgo type), then the carriers. */
  lemma ExportParamOrder(i: InterfaceType, f: FunctionType, handle: seq<string>, fold: seq<string>,
                         folded: map<string, FoldEntry>)
    requires f.returnType !in fold && GoStep(i, f, handle, fold, folded).Success?
    ensures GoStep(i, f, handle, fold, folded).value.emitted.Exported?
    ensures var e := GoStep(i, f, handle, fold, folded).value.emitted.exported;
      var pin := CgoParamsIn(f, handle).value;
      && (i.fold ==> i.name in folded)
      && e.params == (if i.fold && i.name in folded then folded[i.name].params else [])
                     + (if i.handle then [HandleParam] else []) + pin + ExtraParams(f)
      && (!IsCgoCloser(f, handle) ==>
            && |pin| == |f.params|
            && forall k :: 0 <= k < |f.params| ==> pin[k] == f.params[k].name + " " + TypeToCgo(f.params[k].typ).value)
  {
    GoStepExported(i, f, handle, fold, folded);
  }

  /** A function returning a fold interface emits nothing and records, under
      that interface, the parameters and the call chain so far: its own
      interface's entry extended, or a new chain starting at the receiver. */
  lemma FoldCollapse(i: InterfaceType, f: FunctionType, handle: seq<string>, fold: seq<string>,
                     folded: map<string, FoldEntry>)
    requires f.returnType in fold && GoStep(i, f, handle, fold, folded).Success?
    ensures var s := GoStep(i, f, handle, fold, folded).value;
      var pin := CgoParamsIn(f, handle).value;
      var call := FirstLetterUpperCase(f.name) + "(" + Join(CgoParamsOut(f, handle).value, ",") + ")";
      && EmittedText(s.emitted) == ""
      && f.returnType in s.folded
      && (i.name in folded ==>
            && s.folded[f.returnType].params == folded[i.name].params + pin
            && s.folded[f.returnType].returnType == folded[i.name].returnType + "." + call)
      && (i.name !in folded ==>
            && s.folded[f.returnType].params == (if i.handle then [HandleParam] else []) + pin
            && s.folded[f.returnType].returnType == "folded := " + Receiver(i) + "." + call)
  {
    GoStepPieces(i, f, handle, fold, folded);
    var pin := CgoParamsIn(f, handle).value;
    var pout := CgoParamsOut(f, handle).value;
    var e := NextGoFoldEntry(i, f, folded, pin, pout);
    assert GoStep(i, f, handle, fold, folded) == Success(GoStepResult(Absorbed, folded[f.returnType := e])) by {
      var lines := BodyLines(f, handle, CallText(Receiver(i), FirstLetterUpperCase(f.name), pout)).value;
      GoStepOfPieces(i, f, handle, fold, folded, pin, pout, lines, CgoReturnType(f, handle, fold).value);
    }
    NextGoFoldEntryShape(i, f, folded, pin, pout);
  }

  /** The entry a fold-returning function records, case by case. */
  lemma NextGoFoldEntryShape(i: InterfaceType, f: FunctionType, folded: map<string, FoldEntry>,
                             pin: seq<string>, pout: seq<string>)
    ensures var e := NextGoFoldEntry(i, f, folded, pin, pout);
      var call := FirstLetterUpperCase(f.name) + "(" + Join(pout, ",") + ")";
      && (i.name in folded ==>
            && e.params == folded[i.name].params + pin
            && e.returnType == folded[i.name].returnType + "." + call)
      && (i.name !in folded ==>
            && e.params == (if i.handle then [HandleParam] else []) + pin
            && e.returnType == "folded := " + Receiver(i) + "." + call)
  {
    var call := FirstLetterUpperCase(f.name) + "(" + Join(pout, ",") + ")";
    if i.name in folded {
      assert folded[i.name].returnType + "." + FirstLetterUpperCase(f.name) + "(" + Join(pout, ",") + ")"
        == folded[i.name].returnType + "." + call;
    } else {
      assert "folded := " + Receiver(i) + "." + FirstLetterUpperCase(f.name) + "(" + Join(pout, ",") + ")"
        == "folded := " + Receiver(i) + "." + call;
    }
  }

  // ---------------------------------------------------------------------------
  // intfaceToGo and the sequence of interfaces

  /** The texts emitted so far and the fold entries they leave. */
  datatype Run = Run(texts: seq<string>, folded: map<string, FoldEntry>)

  /** Compiling the functions `fs` of interface `i` in order, each against the
      entries the previous ones left; the first error ends the run. */
  function GoRun(i: InterfaceType, fs: seq<FunctionType>, handle: seq<string>, fold: seq<string>,
                 folded: map<string, FoldEntry>): (r: Result<Run>)
    ensures r.Success? ==> |r.value.texts| == |fs|
    decreases |fs|
  {
    if |fs| == 0 then Success(Run([], folded))
    else
      var prev :- GoRun(i, fs[..|fs| - 1], handle, fold, folded);
      var step :- GoStep(i, fs[|fs| - 1], handle, fold, prev.folded);
      Success(Run(prev.texts + [EmittedText(step.emitted)], step.folded))
  }

  /** One more function extends a successful run by its step. */
  lemma GoRunExtend(i: InterfaceType, fs: seq<FunctionType>, k: nat, handle: seq<string>,
                    fold: seq<string>, folded: map<string, FoldEntry>)
    requires k < |fs| && GoRun(i, fs[..k], handle, fold, folded).Success?
    ensures var prev := GoRun(i, fs[..k], handle, fold, folded).value;
      var step := GoStep(i, fs[k], handle, fold, prev.folded);
      && (step.Failure? ==> GoRun(i, fs[..k + 1], handle, fold, folded) == Failure(step.error))
      && (step.Success? ==>
            GoRun(i, fs[..k + 1], handle, fold, folded)
            == Success(Run(prev.texts + [EmittedText(step.value.emitted)], step.value.folded)))
  {
    assert fs[..k + 1][..k] == fs[..k];
  }

  /** Once a prefix of the functions fails, the whole run fails with that error. */
  lemma {:induction false} GoRunFailurePersists(i: InterfaceType, fs: seq<FunctionType>, n: nat, handle: seq<string>,
                                                fold: seq<string>, folded: map<string, FoldEntry>)
    requires n <= |fs| && GoRun(i, fs[..n], handle, fold, folded).Failure?
    ensures GoRun(i, fs, handle, fold, folded) == Failure(GoRun(i, fs[..n], handle, fold, folded).error)
    decreases |fs| - n
  {
    if n < |fs| {
      assert fs[..n + 1][..n] == fs[..n];
      GoRunFailurePersists(i, fs, n + 1, handle, fold, folded);
    } else {
      assert fs[..n] == fs;
    }
  }

  /** A run keeps every entry it starts with and adds entries only under fold
      interface names. */
  lemma {:induction false} GoRunKeys(i: InterfaceType, fs: seq<FunctionType>, handle: seq<string>,
                                     fold: seq<string>, folded: map<string, FoldEntry>)
    requires GoRun(i, fs, handle, fold, folded).Success?
    ensures var after := GoRun(i, fs, handle, fold, folded).value.folded;
      folded.Keys <= after.Keys && forall k :: k in after && k !in folded ==> k in fold
    decreases |fs|
  {
    if |fs| > 0 {
      GoRunKeys(i, fs[..|fs| - 1], handle, fold, folded);
      var prev := GoRun(i, fs[..|fs| - 1], handle, fold, folded).value;
      GoStepFolded(i, fs[|fs| - 1], handle, fold, prev.folded);
    }
  }

  /** One step either leaves the entries as they are or sets exactly the entry
      of its fold return type. */
  lemma GoStepFolded(i: InterfaceType, f: FunctionType, handle: seq<string>, fold: seq<string>,
                     folded: map<string, FoldEntry>)
    requires GoStep(i, f, handle, fold, folded).Success?
    ensures var s := GoStep(i, f, handle, fold, folded).value;
      && (f.returnType in fold ==>
            && s.emitted == Absorbed && s.folded.Keys == folded.Keys + {f.returnType}
            && forall k :: k in folded && k != f.returnType ==> s.folded[k] == folded[k])
      && (f.returnType !in fold ==> s.emitted.Exported? && s.folded == folded)
  {
  }

  /** The code of one interface: a section header and its functions' texts. */
  function IntfaceText(i: InterfaceType, texts: seq<string>): string {
    "\n//=== " + i.name + " ===\n\n" + Join(texts, "\n\n") + "\n"
  }

  /** intfaceToGo: compiles the functions of one interface in order, threading
      the shared registry through them. */
  method IntfaceToGo(i: InterfaceType, special: Special) returns (r: Result<string>)
    modifies special
    ensures var run := GoRun(i, i.functions, special.handle, special.fold, old(special.folded));
      && (run.Success? ==> r == Success(IntfaceText(i, run.value.texts)) && special.folded == run.value.folded)
      && (run.Failure? ==> r == Failure(run.error))
  {
    var texts: seq<string> := [];
    var k := 0;
    while k < |i.functions|
      invariant 0 <= k <= |i.functions|
      invariant GoRun(i, i.functions[..k], special.handle, special.fold, old(special.folded)) == Success(Run(texts, special.folded))
    {
      GoRunExtend(i, i.functions, k, special.handle, special.fold, old(special.folded));
      var t := FuncToGo(i, i.functions[k], special);
      if t.Failure? {
        GoRunFailurePersists(i, i.functions, k + 1, special.handle, special.fold, old(special.folded));
        return Failure(t.error);
      }
      texts := texts + [t.value];
      k := k + 1;
    }
    assert i.functions[..k] == i.functions;
    r := Success(IntfaceText(i, texts));
  }

  /** Compiling the interfaces in order, each starting from the entries the
      previous ones left; a fold chain can therefore span interfaces declared
      one after the other. */
  function ApiRun(ifaces: seq<InterfaceType>, handle: seq<string>, fold: seq<string>,
                  folded: map<string, FoldEntry>): (r: Result<Run>)
    ensures r.Success? ==> |r.value.texts| == |ifaces|
    decreases |ifaces|
  {
    if |ifaces| == 0 then Success(Run([], folded))
    else
      var prev :- ApiRun(ifaces[..|ifaces| - 1], handle, fold, folded);
      var last := ifaces[|ifaces| - 1];
      var run :- GoRun(last, last.functions, handle, fold, prev.folded);
      Success(Run(prev.texts + [IntfaceText(last, run.texts)], run.folded))
  }

  /** One more interface extends a successful run by that interface's run. */
  lemma ApiRunExtend(ifaces: seq<InterfaceType>, k: nat, handle: seq<string>,
                     fold: seq<string>, folded: map<string, FoldEntry>)
    requires k < |ifaces| && ApiRun(ifaces[..k], handle, fold, folded).Success?
    ensures var prev := ApiRun(ifaces[..k], handle, fold, folded).value;
      var run := GoRun(ifaces[k], ifaces[k].functions, handle, fold, prev.folded);
      && (run.Failure? ==> ApiRun(ifaces[..k + 1], handle, fold, folded) == Failure(run.error))
      && (run.Success? ==>
            ApiRun(ifaces[..k + 1], handle, fold, folded)
            == Success(Run(prev.texts + [IntfaceText(ifaces[k], run.value.texts)], run.value.folded)))
  {
    assert ifaces[..k + 1][..k] == ifaces[..k];
  }

  lemma {:induction false} ApiRunFailurePersists(ifaces: seq<InterfaceType>, n: nat, handle: seq<string>,
                                                 fold: seq<string>, folded: map<string, FoldEntry>)
    requires n <= |ifaces| && ApiRun(ifaces[..n], handle, fold, folded).Failure?
    ensures ApiRun(ifaces, handle, fold, folded) == Failure(ApiRun(ifaces[..n], handle, fold, folded).error)
    decreases |ifaces| - n
  {
    if n < |ifaces| {
      assert ifaces[..n + 1][..n] == ifaces[..n];
      ApiRunFailurePersists(ifaces, n + 1, handle, fold, folded);
    } else {
      assert ifaces[..n] == ifaces;
    }
  }

  /** The interface section of the generated file: every interface's code in
      declared order, separated by newlines. */
  method InterfacesToGo(ifaces: seq<InterfaceType>, special: Special) returns (r: Result<string>)
    modifies special
    ensures var run := ApiRun(ifaces, special.handle, special.fold, old(special.folded));
      && (run.Success? ==> r == Success(Join(run.value.texts, "\n")) && special.folded == run.value.folded)
      && (run.Failure? ==> r == Failure(run.error))
  {
    var texts: seq<string> := [];
    var k := 0;
    while k < |ifaces|
      invariant 0 <= k <= |ifaces|
      invariant ApiRun(ifaces[..k], special.handle, special.fold, old(special.folded)) == Success(Run(texts, special.folded))
    {
      ApiRunExtend(ifaces, k, special.handle, special.fold, old(special.folded));
      var t := IntfaceToGo(ifaces[k], special);
      if t.Failure? {
        ApiRunFailurePersists(ifaces, k + 1, special.handle, special.fold, old(special.folded));
        return Failure(t.error);
      }
      texts := texts + [t.value];
      k := k + 1;
    }
    assert ifaces[..k] == ifaces;
    r := Success(Join(texts, "\n"));
  }
}

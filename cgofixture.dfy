/** The store API of the generator's fixtures (src/__tests__/fixtures.ts) run
    through funcToGo: a handle interface Store opens the fold interface
    BlobReader, which opens the fold interface ReadOnlyBlob, whose size is
    exported as a single C function taking every parameter of the chain. */
module CgoFixture {
  import opened Diagnostics
  import opened Text
  import opened Api
  import opened Lang
  import opened CgoTypes
  import opened CgoDecls
  import opened CgoBridge

  const StoreIface := InterfaceType("Store", false, true, false, [])
  const BlobReaderIface := InterfaceType("BlobReader", false, false, true, [])
  const ReadOnlyBlobIface := InterfaceType("ReadOnlyBlob", false, false, true, [])
  const StoresIface := InterfaceType("Stores", true, false, false, [])
  const TestIface := InterfaceType("TestInterface", false, false, false, [])

  const GetBlobReader := FunctionType("blobReader", [VarType("basePath", "string", false)], "BlobReader", false, false)
  const GetReadOnlyBlob := FunctionType("readOnlyBlob", [VarType("path", "string", false)], "ReadOnlyBlob", false, false)
  const Size := FunctionType("size", [], "bigint", true, false)
  const Close := FunctionType("close", [VarType("store", "Store", false)], "void", false, false)
  const TestFunction := FunctionType("TestFunction", [VarType("param1", "string", false)], "void", false, false)

  /** The handle and fold interfaces of the store API. */
  predicate StoreRegistry(handle: seq<string>, fold: seq<string>) {
    && "Store" in handle && "BlobReader" in fold && "ReadOnlyBlob" in fold
    && "BlobReader" !in handle && "ReadOnlyBlob" !in handle && "bigint" !in handle && "void" !in handle
    && "string" !in handle && "bigint" !in fold && "void" !in fold
  }

  /** A function whose one parameter is a string reads it with C.GoString and
      declares it as a C string. */
  lemma StringParam(f: FunctionType, n: string, handle: seq<string>)
    requires f.params == [VarType(n, "string", false)] && "string" !in handle
    ensures CgoParamsIn(f, handle) == Success([n + " *C.char"])
    ensures CgoParamsOut(f, handle) == Success(["C.GoString(" + n + ")"])
  {
    var p := VarType(n, "string", false);
    assert !IsCgoCloser(f, handle);
    assert TypeToCgo("string") == Success("*C.char");
    assert ParamIn(p) == Success(n + " *C.char") by {
      assert n + " " + "*C.char" == n + " *C.char";
    }
    assert ParamOut(p) == Success("C.GoString(" + n + ")");
    var pin := MapAll(f.params, ParamIn);
    assert pin.Success? && |pin.value| == 1 && pin.value[0] == n + " *C.char";
    assert pin.value == [n + " *C.char"];
    var pout := MapAll(f.params, ParamOut);
    assert pout.Success? && |pout.value| == 1 && pout.value[0] == "C.GoString(" + n + ")";
    assert pout.value == ["C.GoString(" + n + ")"];
  }

  /** A custom return type converts through its C constructor, whatever the
      call. */
  lemma CustomBody(f: FunctionType, handle: seq<string>, call: string)
    requires f.returnType == "BlobReader" || f.returnType == "ReadOnlyBlob"
    requires f.returnType !in handle && !f.returnOptional && !f.throws
    ensures BodyLines(f, handle, call).Success?
  {
    assert f.returnType[0] == 'B' || f.returnType[0] == 'R';
    assert LangBodyKind(f, handle) == DirectBody;
  }

  lemma StoreNames()
    ensures Receiver(StoreIface) == "store_handles[handle]"
    ensures HandlesName("Store") == "store_handles"
    ensures FirstLetterUpperCase("blobReader") == "BlobReader"
  {
    assert "Store"[1..] == "tore";
    assert ['s'] + "tore" == "store";
    assert "store" + "_handles" == "store_handles";
    assert "store_handles" + "[handle]" == "store_handles[handle]";
    assert "blobReader"[1..] == "lobReader";
    assert ['B'] + "lobReader" == "BlobReader";
  }

  lemma StoreEntryHead()
    ensures "folded := " + "store_handles[handle]" + "." + "BlobReader" == "folded := store_handles[handle].BlobReader"
  {
    assert "folded := " + "store_handles[handle]" == "folded := store_handles[handle]";
    assert "folded := store_handles[handle]" + "." == "folded := store_handles[handle].";
  }

  lemma StoreEntryText()
    ensures "folded := " + "store_handles[handle]" + "." + "BlobReader" + "(" + "C.GoString(basePath)" + ")" == "folded := store_handles[handle].BlobReader(C.GoString(basePath))"
  {
    StoreEntryHead();
    assert "folded := store_handles[handle].BlobReader" + "(" == "folded := store_handles[handle].BlobReader(";
    assert "folded := store_handles[handle].BlobReader(" + "C.GoString(basePath)" == "folded := store_handles[handle].BlobReader(C.GoString(basePath)";
    assert "folded := store_handles[handle].BlobReader(C.GoString(basePath)" + ")" == "folded := store_handles[handle].BlobReader(C.GoString(basePath))";
  }

  /** The entry Store.blobReader records: a new chain starting at the live
      Store behind the handle. */
  lemma StoreEntry(folded: map<string, FoldEntry>)
    requires "Store" !in folded
    ensures NextGoFoldEntry(StoreIface, GetBlobReader, folded, ["basePath *C.char"], ["C.GoString(basePath)"])
         == FoldEntry(["handle int64", "basePath *C.char"], "folded := store_handles[handle].BlobReader(C.GoString(basePath))")
  {
    StoreNames();
    assert Join(["C.GoString(basePath)"], ",") == "C.GoString(basePath)";
    StoreEntryText();
    assert ["handle int64"] + ["basePath *C.char"] == ["handle int64", "basePath *C.char"];
  }

  lemma BlobReaderPieces()
    ensures "basePath" + " *C.char" == "basePath *C.char"
    ensures "C.GoString(" + "basePath" + ")" == "C.GoString(basePath)"
    ensures "api." + "BlobReader" == "api.BlobReader"
  {
    assert "C.GoString(" + "basePath" == "C.GoString(basePath";
  }

  lemma ReadOnlyBlobPieces()
    ensures "path" + " *C.char" == "path *C.char"
    ensures "C.GoString(" + "path" + ")" == "C.GoString(path)"
    ensures "api." + "ReadOnlyBlob" == "api.ReadOnlyBlob"
  {
    assert "C.GoString(" + "path" == "C.GoString(path";
  }

  /** Store.blobReader emits nothing and records the start of the chain under
      BlobReader. */
  lemma StoreOpensBlobReader(handle: seq<string>, fold: seq<string>, folded: map<string, FoldEntry>)
    requires StoreRegistry(handle, fold) && "Store" !in folded
    ensures GoStep(StoreIface, GetBlobReader, handle, fold, folded)
         == Success(GoStepResult(Absorbed, folded["BlobReader" := FoldEntry(
              ["handle int64", "basePath *C.char"],
              "folded := store_handles[handle].BlobReader(C.GoString(basePath))")]))
  {
    var pin := ["basePath *C.char"];
    var pout := ["C.GoString(basePath)"];
    assert CgoParamsIn(GetBlobReader, handle) == Success(pin) && CgoParamsOut(GetBlobReader, handle) == Success(pout) by {
      StringParam(GetBlobReader, "basePath", handle);
      BlobReaderPieces();
    }
    var call := CallText(Receiver(StoreIface), FirstLetterUpperCase(GetBlobReader.name), pout);
    CustomBody(GetBlobReader, handle, call);
    assert CgoReturnType(GetBlobReader, handle, fold) == Success("api.BlobReader") by {
      BlobReaderPieces();
    }
    GoStepOfPieces(StoreIface, GetBlobReader, handle, fold, folded, pin, pout,
                   BodyLines(GetBlobReader, handle, call).value, "api.BlobReader");
    StoreEntry(folded);
  }

  lemma ReadOnlyBlobName()
    ensures FirstLetterUpperCase("readOnlyBlob") == "ReadOnlyBlob"
  {
    assert "readOnlyBlob"[1..] == "eadOnlyBlob";
    assert ['R'] + "eadOnlyBlob" == "ReadOnlyBlob";
  }

  lemma BlobReaderCallText()
    ensures FirstLetterUpperCase("readOnlyBlob") + "(" + Join(["C.GoString(path)"], ",") + ")" == "ReadOnlyBlob(C.GoString(path))"
  {
    ReadOnlyBlobName();
    assert Join(["C.GoString(path)"], ",") == "C.GoString(path)";
    assert "ReadOnlyBlob" + "(" == "ReadOnlyBlob(";
    assert "ReadOnlyBlob(" + "C.GoString(path)" == "ReadOnlyBlob(C.GoString(path)";
    assert "ReadOnlyBlob(C.GoString(path)" + ")" == "ReadOnlyBlob(C.GoString(path))";
  }

  lemma BlobReaderEntryText()
    ensures "." + "ReadOnlyBlob(C.GoString(path))" == ".ReadOnlyBlob(C.GoString(path))"
  {
  }

  /** The entry BlobReader.readOnlyBlob records: the BlobReader entry extended
      by the call and its parameter. */
  lemma BlobReaderEntry(folded: map<string, FoldEntry>)
    requires "BlobReader" in folded
    ensures NextGoFoldEntry(BlobReaderIface, GetReadOnlyBlob, folded, ["path *C.char"], ["C.GoString(path)"])
         == FoldEntry(folded["BlobReader"].params + ["path *C.char"],
                      folded["BlobReader"].returnType + ".ReadOnlyBlob(C.GoString(path))")
  {
    var prev := folded["BlobReader"].returnType;
    NextGoFoldEntryShape(BlobReaderIface, GetReadOnlyBlob, folded, ["path *C.char"], ["C.GoString(path)"]);
    BlobReaderCallText();
    ConcatAssoc(prev, ".", "ReadOnlyBlob(C.GoString(path))");
    BlobReaderEntryText();
  }

  /** BlobReader.readOnlyBlob emits nothing and extends the BlobReader entry
      under ReadOnlyBlob. */
  lemma BlobReaderOpensReadOnlyBlob(handle: seq<string>, fold: seq<string>, folded: map<string, FoldEntry>)
    requires StoreRegistry(handle, fold) && "BlobReader" in folded
    ensures GoStep(BlobReaderIface, GetReadOnlyBlob, handle, fold, folded)
         == Success(GoStepResult(Absorbed, folded["ReadOnlyBlob" := FoldEntry(
              folded["BlobReader"].params + ["path *C.char"],
              folded["BlobReader"].returnType + ".ReadOnlyBlob(C.GoString(path))")]))
  {
    var pin := ["path *C.char"];
    var pout := ["C.GoString(path)"];
    assert CgoParamsIn(GetReadOnlyBlob, handle) == Success(pin) && CgoParamsOut(GetReadOnlyBlob, handle) == Success(pout) by {
      StringParam(GetReadOnlyBlob, "path", handle);
      ReadOnlyBlobPieces();
    }
    var call := CallText(Receiver(BlobReaderIface), FirstLetterUpperCase(GetReadOnlyBlob.name), pout);
    CustomBody(GetReadOnlyBlob, handle, call);
    assert CgoReturnType(GetReadOnlyBlob, handle, fold) == Success("api.ReadOnlyBlob") by {
      ReadOnlyBlobPieces();
    }
    GoStepOfPieces(BlobReaderIface, GetReadOnlyBlob, handle, fold, folded, pin, pout,
                   BodyLines(GetReadOnlyBlob, handle, call).value, "api.ReadOnlyBlob");
    BlobReaderEntry(folded);
  }

  lemma SizeLinesText()
    ensures Join(["result", "ok"], ", ") + " := " + "folded.Size()" == "result, ok := folded.Size()"
    ensures "return C.longlong(" + "result" + ")" == "return C.longlong(result)"
  {
    assert Join(["result", "ok"], ", ") == "result, ok" by {
      JoinCons("result", ["ok"], ", ");
      assert Join(["ok"], ", ") == "ok";
      assert "result" + ", " == "result, ";
      assert "result, " + "ok" == "result, ok";
    }
    assert "result, ok" + " := " == "result, ok := ";
    assert "result, ok := " + "folded.Size()" == "result, ok := folded.Size()";
    assert "return C.longlong(" + "result" == "return C.longlong(result";
    assert "return C.longlong(result" + ")" == "return C.longlong(result)";
  }

  /** The body of ReadOnlyBlob.size: bind the value and the flag, set the flag,
      return the value as a C long long. */
  lemma SizeLines(handle: seq<string>)
    requires "bigint" !in handle
    ensures BodyLines(Size, handle, "folded.Size()")
         == Success(["result, ok := folded.Size()", "if ok { *cok = 1 }", "return C.longlong(result)"])
  {
    assert LangBodyKind(Size, handle) == OptionalBody;
    assert ResultVars(Size) == ["result", "ok"];
    SizeLinesText();
    assert BodyLinesHead(Size, "folded.Size()") == ["result, ok := folded.Size()", "if ok { *cok = 1 }"];
    assert ReturnToC("bigint", "result") == Success("return C.longlong(result)");
    assert BodyLinesHead(Size, "folded.Size()") + ["return C.longlong(result)"]
        == ["result, ok := folded.Size()", "if ok { *cok = 1 }", "return C.longlong(result)"];
  }

  lemma SizeNames()
    ensures FirstLetterUpperCase("size") == "Size"
    ensures ExportName(ReadOnlyBlobIface, Size) == "ReadOnlyBlob_Size"
    ensures CallText(Receiver(ReadOnlyBlobIface), "Size", []) == "folded.Size()"
  {
    assert "size"[1..] == "ize";
    assert ['S'] + "ize" == "Size";
    assert FirstLetterUpperCase("ReadOnlyBlob") == "ReadOnlyBlob" by {
      assert ['R'] + "ReadOnlyBlob"[1..] == "ReadOnlyBlob";
    }
    assert "ReadOnlyBlob" + "_" == "ReadOnlyBlob_";
    assert "ReadOnlyBlob_" + "Size" == "ReadOnlyBlob_Size";
    assert Join([], ",") == "";
    assert "folded" + "." == "folded.";
    assert "folded." + "Size" == "folded.Size";
    assert "folded.Size" + "(" == "folded.Size(";
    assert "folded.Size(" + "" == "folded.Size(";
    assert "folded.Size(" + ")" == "folded.Size()";
  }

  /** ReadOnlyBlob.size is exported with the chain's parameters and the
      optional flag's carrier; its prelude is the chain's call expression. */
  lemma ReadOnlyBlobSize(handle: seq<string>, fold: seq<string>, folded: map<string, FoldEntry>)
    requires StoreRegistry(handle, fold) && "ReadOnlyBlob" in folded
    ensures GoStep(ReadOnlyBlobIface, Size, handle, fold, folded)
         == Success(GoStepResult(Exported(ExportedFunc(
              "ReadOnlyBlob_Size", folded["ReadOnlyBlob"].params + ["cok *C.short"], "C.longlong",
              folded["ReadOnlyBlob"].returnType + "\n",
              ["result, ok := folded.Size()", "if ok { *cok = 1 }", "return C.longlong(result)"], "")), folded))
  {
    assert CgoParamsIn(Size, handle) == Success([]);
    assert CgoParamsOut(Size, handle) == Success([]);
    SizeNames();
    SizeLines(handle);
    assert CgoReturnType(Size, handle, fold) == Success("C.longlong");
    GoStepOfPieces(ReadOnlyBlobIface, Size, handle, fold, folded, [], [],
                   ["result, ok := folded.Size()", "if ok { *cok = 1 }", "return C.longlong(result)"], "C.longlong");
    assert GoAllParams(ReadOnlyBlobIface, Size, folded, []) == folded["ReadOnlyBlob"].params + ["cok *C.short"];
  }

  /** The three steps together: of the chain, only ReadOnlyBlob_Size is
      exported, taking the store handle, the base path, the path and the
      optional flag's carrier, in that order, and opening the chain from the
      live Store through both fold calls. */
  lemma BlobChain(handle: seq<string>, fold: seq<string>, folded: map<string, FoldEntry>)
    requires StoreRegistry(handle, fold) && "Store" !in folded
    ensures && GoStep(StoreIface, GetBlobReader, handle, fold, folded).Success?
            && var a := GoStep(StoreIface, GetBlobReader, handle, fold, folded).value;
            && a.emitted == Absorbed
            && GoStep(BlobReaderIface, GetReadOnlyBlob, handle, fold, a.folded).Success?
            && var b := GoStep(BlobReaderIface, GetReadOnlyBlob, handle, fold, a.folded).value;
            && b.emitted == Absorbed
            && GoStep(ReadOnlyBlobIface, Size, handle, fold, b.folded).Success?
            && var c := GoStep(ReadOnlyBlobIface, Size, handle, fold, b.folded).value;
            && c.emitted.Exported?
            && c.emitted.exported.name == "ReadOnlyBlob_Size"
            && c.emitted.exported.params == ["handle int64", "basePath *C.char", "path *C.char", "cok *C.short"]
            && c.emitted.exported.returnType == "C.longlong"
            && c.emitted.exported.prelude
               == "folded := store_handles[handle].BlobReader(C.GoString(basePath))" + ".ReadOnlyBlob(C.GoString(path))" + "\n"
  {
    StoreOpensBlobReader(handle, fold, folded);
    var a := GoStep(StoreIface, GetBlobReader, handle, fold, folded).value;
    BlobReaderOpensReadOnlyBlob(handle, fold, a.folded);
    var b := GoStep(BlobReaderIface, GetReadOnlyBlob, handle, fold, a.folded).value;
    ReadOnlyBlobSize(handle, fold, b.folded);
    ChainParams();
  }

  lemma ChainParams()
    ensures ["handle int64", "basePath *C.char"] + ["path *C.char"] + ["cok *C.short"]
         == ["handle int64", "basePath *C.char", "path *C.char", "cok *C.short"]
  {
  }

  lemma CloseNames()
    ensures FirstLetterUpperCase("close") == "Close"
    ensures Receiver(StoresIface) == "stores"
  {
    assert "close"[1..] == "lose";
    assert ['C'] + "lose" == "Close";
    assert "Stores"[1..] == "tores";
    assert ['s'] + "tores" == "stores";
  }

  lemma CloseText()
    ensures CallText("stores", "Close", ["store_handles[handle]"]) == "stores.Close(store_handles[handle])"
  {
    assert Join(["store_handles[handle]"], ",") == "store_handles[handle]";
    CloseCallHead();
    assert "stores.Close(" + "store_handles[handle]" == "stores.Close(store_handles[handle]";
    assert "stores.Close(store_handles[handle]" + ")" == "stores.Close(store_handles[handle])";
  }

  lemma CloseCallHead()
    ensures "stores" + "." + "Close" + "(" == "stores.Close("
  {
    assert "stores" + "." == "stores.";
    assert "stores." + "Close" == "stores.Close";
  }

  lemma CleanupText()
    ensures "\n  " + "store_handles" + "[handle] = nil" == "\n  store_handles[handle] = nil"
  {
    assert "\n  " + "store_handles" == "\n  store_handles";
  }

  /** Stores.close is a closer: it takes only the handle, passes the Store slot
      and clears it afterwards. */
  lemma StoresClose(handle: seq<string>, fold: seq<string>, folded: map<string, FoldEntry>)
    requires StoreRegistry(handle, fold)
    ensures GoStep(StoresIface, Close, handle, fold, folded).Success?
    ensures var e := GoStep(StoresIface, Close, handle, fold, folded).value.emitted;
      && e.Exported?
      && e.exported.params == ["handle int64"]
      && e.exported.lines == ["stores.Close(store_handles[handle])"]
      && e.exported.cleanup == "\n  store_handles[handle] = nil"
  {
    CloserShape(StoresIface, Close, handle, fold, folded);
    StoreNames();
    CloseNames();
    CloseText();
    CleanupText();
  }

  lemma TestFunctionNames()
    ensures ExportName(TestIface, TestFunction) == "TestInterface_TestFunction"
  {
    TestCapitals();
    assert "TestInterface" + "_" == "TestInterface_";
    assert "TestInterface_" + "TestFunction" == "TestInterface_TestFunction";
  }

  lemma TestCapitals()
    ensures FirstLetterUpperCase("TestInterface") == "TestInterface"
    ensures FirstLetterUpperCase("TestFunction") == "TestFunction"
  {
    assert ['T'] + "TestInterface"[1..] == "TestInterface";
    assert ['T'] + "TestFunction"[1..] == "TestFunction";
  }

  /** The generator's own test: a void function of a plain interface with one
      string parameter is exported as TestInterface_TestFunction, taking the
      parameter as a C string and returning nothing. */
  lemma TestFunctionExport()
    ensures var s := GoStep(TestIface, TestFunction, [], [], map[]);
      && s.Success? && s.value.emitted.Exported?
      && s.value.emitted.exported.name == "TestInterface_TestFunction"
      && s.value.emitted.exported.params == ["param1 *C.char"]
      && s.value.emitted.exported.returnType == ""
  {
    StringParam(TestFunction, "param1", []);
    assert "param1" + " *C.char" == "param1 *C.char";
    var pin := ["param1 *C.char"];
    var pout := ["C.GoString(param1)"];
    assert "C.GoString(" + "param1" + ")" == pout[0];
    TestFunctionNames();
    var call := CallText(Receiver(TestIface), FirstLetterUpperCase(TestFunction.name), pout);
    assert BodyLines(TestFunction, [], call) == Success([call]);
    assert CgoReturnType(TestFunction, [], []) == Success("");
    GoStepOfPieces(TestIface, TestFunction, [], [], map[], pin, pout, [call], "");
  }
}

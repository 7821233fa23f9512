# genffi code generator core, in Dafny

genffi reads a TypeScript API declaration and generates foreign-function
bindings for it. The API is made of interfaces (singleton, handle or fold),
structs and enums. This project models the part of genffi that turns the parsed
API into text:

- the shared type and value mapping tables and the generic function bridge of
  `src/common/lang.ts`;
- the C type table of `src/common/c.ts`;
- the signature parsing and C/Java type translation of `src/common/api.ts`;
- the Go and cgo tables of `src/go/lang.ts`;
- the Go API file of `src/go/api.ts`;
- the file naming of `src/go/shared.ts`;
- the cgo wrapper generator of `src/go/cgo.ts`.

The cgo wrapper generator is the bulk of the model. Its parts are:

- the type and value converters;
- the struct and enum mappers;
- the singleton and handle declarations;
- funcToGo, which compiles one API function into an exported C function;
- the shared registry (`special`) of handle interfaces, fold interfaces and fold
  entries, which funcToGo threads through an interface's functions.

Generated text is modelled as `string`. A JavaScript exception thrown while
generating (an unknown type, a tuple type, a `TypeError` on an undefined value)
is modelled as a `Failure` of `Diagnostics.Result` carrying the matching
`GenError`.

Modules:

- `Diagnostics`: the errors and the result type. `MapAll` models the
  throw-at-first-failure behaviour of `Array.map`.
- `Text`: the JavaScript string operations the source relies on. These are
  `split`, `join`, `trim`, `replaceAll`, ASCII case changes and number
  printing.
- `Api`: the data model of an API, `toC`, `toCType`, `toJavaType` and
  `parseFunction`.
- `Lang`: the classification of type texts, and `typeToLang` and `valueToLang`
  over a table. It also holds the `Special` registry class and `funcToLang` as a
  method that updates the registry.
- `CTable`, `GoLang`: the concrete tables.
- `CgoTypes`, `CgoDecls`, `CgoBridge`: `src/go/cgo.ts`. `CgoBridge` holds
  funcToGo as a method on the registry and `intfaceToGo` as a loop over the
  functions of an interface.
- `CgoFixture`: the store API of the test fixtures, compiled through funcToGo.
- `Handles`: the meaning of the handle slices that the emitted cgo code keeps.
- `GoApi`: `src/go/api.ts`.
- `Shared`: `src/go/shared.ts`.

## Model

| member | source | states |
|---|---|---|
| Diagnostics.MapAll | src/common/api.ts:202-216 | the mapped sequence exists exactly when every element maps, holds each element's value in order, and otherwise carries the error of an element that failed (a map whose callback throws) |
| Diagnostics.Message | src/common/lang.ts:78-85 | the message of an unknown type is "Unknown type: " followed by the type, and that of a tuple is "Tuples not supported: " followed by the type |
| Text.FirstLetterUpperCase | src/go/cgo.ts:302-305 | only the first character changes, to its upper-case form, and the length is kept |
| Text.FirstLetterToLowerCase | src/go/cgo.ts:301 | only the first character changes, to its lower-case form, and the length is kept |
| Text.ToLowerCase | src/go/shared.ts:9-11 | every character is lower-cased in place |
| Text.ReplaceAll | src/go/shared.ts:21 | every occurrence of the character is replaced, and nothing else changes |
| Text.Split | src/common/api.ts:202 | the pieces hold no separator, there is at least one, and the text is its own only piece exactly when it has no separator |
| Text.JoinSplit | src/common/api.ts:202 | joining the pieces of a split with the separator gives back the text |
| Text.SplitJoin | src/common/api.ts:202 | splitting a join of separator-free pieces gives back the pieces |
| Text.SplitLast | src/go/shared.ts:28-31 | the last piece of a split is the text after the last separator |
| Text.Trim | src/common/api.ts:204-206 | the result is empty or neither starts nor ends with white space |
| Text.TrimBounds | src/common/api.ts:204-206 | only white space is cut off on either side, and the kept text starts and ends with a non-space character |
| Text.TrimPadded | src/common/api.ts:204-206 | leading white space does not change the trimmed text |
| Text.NatToStringRoundTrip | src/go/api.ts:69-72 | reading the printed decimal of an enum ordinal gives back the ordinal |
| Text.NatToStringInjective | src/go/api.ts:69-72 | distinct ordinals print differently |
| Api.ToCType | src/common/api.ts:158-172 | succeeds exactly on boolean, string, bigint and Uint8Array, maps string and Uint8Array to char*, and fails with an unknown-type error on anything else |
| Api.ToJavaType | src/common/api.ts:174-188 | succeeds exactly on the same four types, and fails with an unknown-type error otherwise |
| Api.CAndJavaAgreeOnDomain | src/common/api.ts:158-188 | the C and Java translations accept the same types and fail with the same error; number is rejected by both |
| Api.ToC | src/common/api.ts:150-156 | a C prototype exists exactly when every parameter type and the return type translate; it starts with the return type and the name; when a parameter type fails, the error is the unknown-type error of a failing parameter |
| Api.CloseParen | src/common/api.ts:196 | the signature pattern's `[^)]*` run stops at the first ')' |
| Api.RunEnd | src/common/api.ts:196 | the signature pattern's `\S+` run stops at the first white space |
| Api.MatchAtSound | src/common/api.ts:196 | what the scans compute at a position is a match of the signature pattern: '(', a run without ')', ')', spaces, '=>', spaces, and a non-empty run without white space ending at white space or the end |
| Api.MatchAtComplete | src/common/api.ts:196 | every way the signature pattern can match at a position is the match computed there |
| Api.FindSignature | src/common/api.ts:196-197 | a found match starts at the first position where the pattern matches; none is found only when no position matches |
| Api.SignatureIsLeftmostMatch | src/common/api.ts:196-197 | the match used is the leftmost, as a JavaScript regular expression search returns |
| Api.ParseParam | src/common/api.ts:202-211 | a parameter is an enum exactly when its name is the name of a known enum; a piece without ':' gives its trimmed text as name and no type |
| Api.ParseParams | src/common/api.ts:202-211 | one parameter per comma-separated piece, in order |
| Api.ParseFunction | src/common/api.ts:190-222 | a function is parsed exactly when its text holds the pattern; its parameters are the split and parsed match, and its return type and flags come from the match and the doc tags |
| Api.ParamListRoundTrip | src/common/api.ts:202-211 | parsing the printed parameter list of well-formed parameters gives the parameters back |
| Api.SignatureRoundTrip | src/common/api.ts:190-222 | parsing the printed signature of a function gives back its name, parameters and return type, with the flags from the doc tags |
| Lang.LookupPrim | src/common/lang.ts:3-9 | a base type is found exactly when it is the name of one of the six primitive types |
| Lang.PrimRoundTrip | src/common/lang.ts:3-9 | each primitive name looks up to that primitive |
| Lang.BaseOf | src/common/lang.ts:75-76 | the base type is the text without one trailing "[]" |
| Lang.ParseType | src/common/lang.ts:69-92 | a classified type prints back to the text it came from; a type is rejected only when its base is no primitive |
| Lang.ParseTypeErrors | src/common/lang.ts:75-85 | a tuple is rejected exactly when the text starts with '[', an unknown type exactly when the base is no primitive and does not start with an upper-case letter, and the empty text gives a TypeError |
| Lang.ParseRefText | src/common/lang.ts:69-92 | classifying a printed well-formed type gives it back |
| Lang.ParseNames | src/common/lang.ts:69-92 | primitive names, custom names and their arrays classify as such |
| Lang.TypeToLang | src/common/lang.ts:69-92 | the mapped type fails exactly when classification fails, with the same error |
| Lang.TypeToLangCases | src/common/lang.ts:69-92 | a primitive maps to its table entry, an array to the table's array hook applied to the element's spelling, and a custom name through the custom hook |
| Lang.TypeToLangComplete | src/common/lang.ts:69-92 | every accepted text is the printed form of a well-formed type, and its spelling is what the table gives that type |
| Lang.ValueToLang | src/common/lang.ts:94-123 | fails exactly as classification does; void converts with no prefix; every other type is the prefix followed by the base type's conversion |
| Lang.ValueOfArrayIsElementValue | src/common/lang.ts:117-122 | an array value converts exactly as a value of its element type |
| Lang.LookupAsWritten | src/common/lang.ts:75-89 | the classification as written: primitives map to their spelling, and any own key of the table object is taken as a type |
| Lang.HookKeyLeaks | src/common/lang.ts:87 | as written, the type text "toArray" looks up the table's array hook instead of being rejected |
| Lang.LookupOnlyPrimitives | src/common/lang.ts:87 | in the corrected lookup, an accepted base is a primitive or a custom name, never a hook key |
| Lang.HandleNames | src/go/cgo.ts:38-42 | the names of exactly the handle interfaces |
| Lang.FoldNames | src/go/cgo.ts:38-42 | the names of exactly the fold interfaces |
| Lang.NewSpecial | src/go/cgo.ts:38-42 | a fresh registry of the handle and fold names with no fold entries |
| Lang.FuncToLang | src/common/lang.ts:125-192 | returns the wrapper text of the step specification and leaves the registry's fold entries as that specification says |
| Lang.LangFoldTouchesOneEntry | src/common/lang.ts:167-177 | a fold-returning function emits nothing and adds or replaces only the entry of its return type; any other function changes no entry |
| Lang.LangFoldAccumulates | src/common/lang.ts:167-177 | a fold entry extends the entry of the folded interface by the function's parameters and call |
| Lang.LangCloserShape | src/common/lang.ts:134-190 | a closer takes only the handle, passes only the looked-up handle, and its body ends with the cleanup of that handle |
| Lang.LangNoCleanup | src/common/lang.ts:145-190 | any other function's body ends with the lines of its one body builder, with no cleanup after them |
| Lang.LangParamsInOrder | src/common/lang.ts:144-145 | any other function takes and passes one mapped parameter per declared parameter, in order |
| Lang.LangOneBody | src/common/lang.ts:148-154 | exactly one body builder applies; a handle return type wins over optional or throwing |
| Lang.LangParamOrder | src/common/lang.ts:179-184 | the wrapper's parameters are the folded ones, the handle, the function's own, then the bridge's extras |
| CTable.TypeToC | src/common/c.ts:3-14 | fails exactly when classification fails |
| CTable.TypeToCShapes | src/common/c.ts:3-14 | primitives map to their C names and custom names to themselves |
| CTable.TypeToCPrimitive | src/common/c.ts:3-14 | a primitive maps to its C name |
| CTable.TypeToCPrimitiveArray | src/common/c.ts:3-14 | an array of a primitive maps to a pointer to its C name |
| CTable.BooleanNumberExamples | src/common/__tests__/c.test.ts:5-34 | boolean is short and number is double |
| CTable.BigintExample | src/common/__tests__/c.test.ts:5-34 | bigint is longlong |
| CTable.VoidExample | src/common/__tests__/c.test.ts:5-34 | void is empty |
| CTable.StringExamples | src/common/__tests__/c.test.ts:5-34 | string is char* and string[] is char** |
| CTable.BytesExample | src/common/__tests__/c.test.ts:5-34 | Uint8Array is char* |
| CTable.CustomExamples | src/common/__tests__/c.test.ts:5-34 | a struct name maps to itself and its array to a pointer |
| CTable.TupleExample | src/common/__tests__/c.test.ts:5-34 | a tuple is rejected with the tuple error |
| CTable.UnknownExample | src/common/__tests__/c.test.ts:5-34 | a lower-case unknown name is rejected with the unknown-type error |
| GoLang.GoType | src/go/lang.ts:3-11 | fails exactly when classification fails |
| GoLang.CBool | src/go/cgo.ts:140-145 | the C short is 1 exactly when the flag is set, else 0 |
| GoLang.GoBool | src/go/lang.ts:14 | a C short reads as true exactly when it is 1 |
| GoLang.BoolRoundTrip | src/go/lang.ts:14 | reading back a written flag gives the flag; the two boolean value conversions are the CBool call and the comparison with 1 |
| GoLang.TypeTableShapes | src/go/lang.ts:3-49 | both tables map primitives to their entries; the Go table maps a custom name to itself and the cgo table to C.<name>, and arrays of either through the array hook |
| GoLang.StringArrays | src/go/lang.ts:3-49 | string[] is **C.char in cgo and []string in Go |
| GoLang.VoidValuesUntouched | src/go/lang.ts:13-49 | a void value passes through both value tables unchanged |
| GoLang.CustomValues | src/go/lang.ts:13-49 | a custom value converts through GoX(&v) or CX(v), after the prefix |
| CgoTypes.RejectNonCustom | src/go/cgo.ts:426-436 | a type is left to the custom case exactly when it starts with an upper-case letter; '[' gives the tuple error and anything else the unknown-type error |
| CgoTypes.ParamToGo | src/go/cgo.ts:400-436 | reading a C value succeeds exactly on boolean, number, bigint, string, string[], Uint8Array and names with an upper-case first letter; any other type fails with the error of the shared rejection checks, so void is an unknown type |
| CgoTypes.ParamToGoAgrees | src/go/cgo.ts:400-436 | paramToGo agrees with the Go value table on every non-array type but void |
| CgoTypes.ParamToCAgrees | src/go/cgo.ts:438-473 | paramToC without the pointer flag agrees with the cgo value table on every non-array type |
| CgoTypes.ParamToC | src/go/cgo.ts:438-473 | producing a C value succeeds exactly on the six primitive types, string[], void and names with an upper-case first letter; void passes the value through; any other type fails with the error of the shared rejection checks |
| CgoTypes.PointerFlag | src/go/cgo.ts:462-464 | the pointer flag only puts '&' before a converted custom value |
| CgoTypes.ReturnToC | src/go/cgo.ts:475-506 | string[] returns the placeholder TODO |
| CgoTypes.ReturnOfPrimitive | src/go/cgo.ts:475-506 | each primitive but void returns its cgo value conversion |
| CgoTypes.ReturnToCAgrees | src/go/cgo.ts:475-506 | returnToC is the cgo value table with the prefix "return " on every non-array type |
| CgoTypes.TypeToCgo | src/go/cgo.ts:508-539 | string[] is **C.char |
| CgoTypes.TypeToCgoAgrees | src/go/cgo.ts:508-539 | typeToCgo agrees with the cgo type table on every non-array type |
| CgoTypes.TypeToC | src/go/cgo.ts:541-576 | string[] is char** |
| CgoTypes.TypeToCAgrees | src/go/cgo.ts:541-576 | typeToC agrees with the C table of c.ts on every non-array type |
| CgoTypes.TypeToCAgreesOnCustomArrays | src/go/cgo.ts:541-576 | both spell an array of a custom name as a pointer |
| CgoTypes.CustomCheckAgrees | src/go/cgo.ts:426-436 | the hand-written check agrees with the shared classification on non-array, non-primitive texts |
| CgoTypes.ConvertersOnArrays | src/go/cgo.ts:475-576 | on an array other than string[], returnToC, typeToCgo and typeToC take the custom branch when the first letter is upper-case ("return C" + t + "(v)", "C." + t, and the element followed by '*'), and otherwise fail with the rejection checks' error |
| CgoTypes.ConvertersDivergeOnArrays | src/go/cgo.ts:475-576 | examples of where the hand-written converters and the tables differ: number[] rejected where the C table gives double*, Uint8Array[] spelled Uint8Array* where the C table gives char**, a custom array spelled C.X[] and returned through CX[] where the tables give *C.X and CX, and void rejected by paramToGo |
| CgoTypes.ArrayConvertersUseTableHooks | src/go/cgo.ts:400-473 | array parameters convert through the array hooks of the value tables |
| CgoDecls.VarName | src/go/cgo.ts:179-181 | the variable of a singleton has the interface's name with its first letter lower-cased |
| CgoDecls.IntfaceToVar | src/go/cgo.ts:179-181 | declares that variable with the API interface's type |
| CgoDecls.IntfaceToGetter | src/go/cgo.ts:183-187 | the getter is named after the interface with its first letter upper-cased |
| CgoDecls.IntfaceToInit | src/go/cgo.ts:189-193 | assigns the singleton variable from init |
| CgoDecls.IntfaceToHandles | src/go/cgo.ts:195-197 | declares the handle slice of the interface |
| CgoDecls.SingletonWiring | src/go/cgo.ts:183-193 | the init line assigns the declared variable by calling the declared getter |
| CgoDecls.TestInterfaceNames | src/go/__tests__/cgo.test.ts:70-124 | the two spellings of TestInterface |
| CgoDecls.InterfaceVarExample | src/go/__tests__/cgo.test.ts:70-82 | the declared variable of TestInterface |
| CgoDecls.InterfaceHandlesExample | src/go/__tests__/cgo.test.ts:112-124 | the handle slice of TestInterface |
| CgoDecls.InterfaceGetterExample | src/go/__tests__/cgo.test.ts:84-96 | the getter of TestInterface |
| CgoDecls.InterfaceInitExample | src/go/__tests__/cgo.test.ts:98-110 | the init line of TestInterface |
| CgoDecls.FirstHit | src/go/cgo.ts:220-242 | the first test of an if-chain whose key matches |
| CgoDecls.OrdinalBranches | src/go/cgo.ts:224-230 | the ordinal chain tests position k for member k |
| CgoDecls.NameBranches | src/go/cgo.ts:232-238 | the name chain tests member k's name for position k |
| CgoDecls.OrdinalToMember | src/go/cgo.ts:220-242 | reading from C gives the member at an in-range ordinal and falls through otherwise |
| CgoDecls.EnumMapper | src/go/cgo.ts:220-242 | the mapper text opens with the Go-side converter, from the C enum to the API enum |
| CgoDecls.MemberToOrdinal | src/go/cgo.ts:220-242 | writing to C matches exactly the members' names and gives the position of the first member with that name |
| CgoDecls.EnumRoundTrip | src/go/cgo.ts:220-242 | with distinct names, the two converters are inverse |
| CgoDecls.PropFromC | src/go/cgo.ts:244-250 | a Go field exists exactly when paramToGo converts the C field, named with its first letter upper-cased |
| CgoDecls.PropFromGo | src/go/cgo.ts:251-257 | a C field exists exactly when paramToC converts the Go field by value |
| CgoDecls.PropFromGoPointer | src/go/cgo.ts:258-264 | a C field exists exactly when paramToC converts the Go field by address |
| CgoDecls.StructMapperFields | src/go/cgo.ts:199-218 | the mapper's fields exist exactly when every property converts both ways, one per property in order |
| CgoDecls.StructMapper | src/go/cgo.ts:199-218 | the struct mapper exists exactly when its fields do |
| CgoDecls.StructFieldAddressing | src/go/cgo.ts:211-213 | enum properties are written by value and other custom properties by address |
| CgoDecls.PropToC | src/go/cgo.ts:286-294 | a C field exists exactly when typeToC converts; it starts with the C type and the name and ends with "; size_t <name>_length" exactly for an array property, with nothing else after the name |
| CgoDecls.PropToCExamples | src/go/__tests__/cgo.test.ts:220-226 | an array field has a pointer and its size_t length; a string field is char* |
| CgoDecls.StringArrayPropExample | src/go/cgo.ts:286-294 | a string[] property is a char** field followed by its size_t length field |
| CgoDecls.StructToC | src/go/cgo.ts:266-274 | the C struct exists exactly when every property's type converts |
| CgoDecls.MemberNames | src/go/cgo.ts:276-284 | the enum's members' names, in order |
| CgoDecls.EnumToC | src/go/cgo.ts:276-284 | the C enum is a typedef named after the enum, opening with its name and closing with it |
| CgoDecls.EnumNumberingAgrees | src/go/cgo.ts:220-284 | the C enum and the Go converters give the same member to each position |
| CgoBridge.ParamIn | src/go/cgo.ts:313-315 | an exported parameter exists exactly when its cgo type does, and is the name and that type |
| CgoBridge.Returns | src/go/cgo.ts:322-355 | the body lines pushed one by one are the body-lines specification |
| CgoBridge.Absorb | src/go/cgo.ts:373-384 | sets exactly the fold entry of the return type, to the extended chain |
| CgoBridge.FuncToGo | src/go/cgo.ts:296-398 | returns the step specification's text or error, and leaves the registry's fold entries as that specification says |
| CgoBridge.GoStepOfPieces | src/go/cgo.ts:357-397 | once the pieces succeed: a missing entry of a fold interface fails with TypeError; a fold return absorbs; anything else exports |
| CgoBridge.GoStepPieces | src/go/cgo.ts:313-363 | a successful step had every piece succeed and, for a fold interface, found its entry |
| CgoBridge.RenderParts | src/go/cgo.ts:394-397 | the export opens with the cgo export marker and the header, and ends with the folded prelude, the body lines and the cleanup |
| CgoBridge.ExportNaming | src/go/cgo.ts:303-305 | an exported function is named interface_function with both first letters upper-cased, and its text ends with its body |
| CgoBridge.CloserShape | src/go/cgo.ts:308-320 | a closer fails only on a missing fold entry; of its own parameters it takes only the handle; it calls with the handle slot and clears that slot afterwards |
| CgoBridge.HandleReturnShape | src/go/cgo.ts:324-328 | a handle-returning function appends the new object to that interface's slice, returns its index and is typed int64 |
| CgoBridge.ResultVarsOrder | src/go/cgo.ts:330-341 | result, ok and err are bound exactly when there is a return value, an optional flag and an error, in that order |
| CgoBridge.ExtraParamsOrder | src/go/cgo.ts:365-371 | the optional flag's carrier comes before the error's, each only when needed |
| CgoBridge.OptionalShape | src/go/cgo.ts:329-351 | an optional or throwing function binds the results, writes the flags, then returns the converted result |
| CgoBridge.ExportParamOrder | src/go/cgo.ts:387-392 | the exported parameters are the fold chain's, the handle, the function's own, then the carriers |
| CgoBridge.FoldCollapse | src/go/cgo.ts:373-385 | a fold-returning function emits nothing and records the chain's parameters and the call under its return type |
| CgoBridge.GoRun | src/go/cgo.ts:167-177 | a successful run yields one text per function |
| CgoBridge.GoRunExtend | src/go/cgo.ts:167-177 | one more function extends a run by its step |
| CgoBridge.GoRunFailurePersists | src/go/cgo.ts:167-177 | a failing prefix makes the whole interface fail with its error |
| CgoBridge.GoRunKeys | src/go/cgo.ts:167-177 | a run keeps every entry and adds entries only under fold interface names |
| CgoBridge.GoStepFolded | src/go/cgo.ts:373-385 | one step either keeps the entries or sets exactly the entry of its return type |
| CgoBridge.IntfaceToGo | src/go/cgo.ts:167-177 | the loop's text is the section header and each function's text in order, or the first error |
| CgoBridge.ApiRun | src/go/cgo.ts:111 | a successful run yields one text per interface |
| CgoBridge.ApiRunFailurePersists | src/go/cgo.ts:111 | a failing interface makes the whole section fail with its error |
| CgoBridge.InterfacesToGo | src/go/cgo.ts:111 | the interface section is every interface's code in order, each starting from the entries the ones before left |
| CgoFixture.StringParam | src/go/cgo.ts:313-318 | a string parameter is declared *C.char and read with C.GoString |
| CgoFixture.CustomBody | src/go/cgo.ts:352-353 | a custom return type converts through its C constructor |
| CgoFixture.StoreOpensBlobReader | src/__tests__/fixtures.ts:110-123 | Store.blobReader emits nothing and starts the BlobReader chain from the Store handle |
| CgoFixture.BlobReaderOpensReadOnlyBlob | src/__tests__/fixtures.ts:134-155 | BlobReader.readOnlyBlob extends that chain into ReadOnlyBlob |
| CgoFixture.ReadOnlyBlobSize | src/__tests__/fixtures.ts:174-187 | ReadOnlyBlob.size exports ReadOnlyBlob_Size with the chain's parameters and a longlong result |
| CgoFixture.BlobChain | src/__tests__/fixtures.ts:110-188 | compiling the chain in order exports only ReadOnlyBlob_Size, with the handle, both paths and the optional carrier as its parameters and the chained call as its prelude |
| CgoFixture.StoresClose | src/__tests__/fixtures.ts:70-83 | Stores.close takes the handle, closes the store behind it and clears its slot |
| CgoFixture.TestFunctionExport | src/go/__tests__/cgo.test.ts:228-250 | the test function exports TestInterface_TestFunction with one C string parameter |
| Handles.HandleTable.Create | src/go/cgo.ts:324-328 | appends the object and hands out its index |
| Handles.HandleTable.Close | src/go/cgo.ts:320 | clears only the closed slot |
| Handles.HandleTable.Get | src/go/cgo.ts:319 | the object behind a handle is the one in that handle's slot, so after Create it is the object created, until that slot is closed (RunKeepsOpen) |
| Handles.RunHandles | src/go/cgo.ts:324-328 | the slice grows by one per creation; the handles handed out are fresh, increasing and valid |
| Handles.RunKeepsOpen | src/go/cgo.ts:320 | a slot keeps its object until that very slot is closed |
| GoApi.GoParam | src/go/api.ts:88-90 | a parameter translates exactly when its Go type does |
| GoApi.FuncToGo | src/go/api.ts:88-107 | the pushed results give the method specification |
| GoApi.GoTypeShape | src/go/lang.ts:3-11 | a Go type other than void's is non-empty, does not start with '(' and is not error |
| GoApi.ReturnItemsOrder | src/go/api.ts:91-101 | the results are the return type unless void, bool when optional, then error when throwing |
| GoApi.ThrowsIsLast | src/go/api.ts:97-101 | a method throws exactly when its last result is error |
| GoApi.ReturnTextShape | src/go/api.ts:103-104 | the result list is parenthesised exactly when there are two or more results, and empty when there are none |
| GoApi.SignatureParams | src/go/api.ts:88-107 | the method is named with the first letter upper-cased and has one typed parameter per declared one, in order |
| GoApi.SignatureErrors | src/go/api.ts:88-107 | a method translates exactly when all its parameter and return types do; a parameter error wins |
| GoApi.IntfaceToGo | src/go/api.ts:45-53 | the Go interface exists exactly when every method translates, fails with the error of the first method that does not, and is an interface type named after the API interface |
| GoApi.PropToGo | src/go/api.ts:84-86 | a field exists exactly when its Go type does |
| GoApi.StructFields | src/go/api.ts:55-63 | one exported field per property in order; the struct fails exactly when a field does |
| GoApi.StructToGo | src/go/api.ts:55-63 | the Go struct exists exactly when every property's Go type does, and is a struct type named after the API struct |
| GoApi.EnumConsts | src/go/api.ts:65-82 | one constant per member, in order |
| GoApi.EnumValues | src/go/api.ts:65-82 | a string member's value is its quoted name; any other member's value is its decimal position, distinct for distinct members |
| GoApi.EnumToGo | src/go/api.ts:65-82 | an enum becomes a string type of its own name followed by a const block |
| GoApi.GenerateApiErrors | src/go/api.ts:30-43 | the file fails exactly when a struct or an interface does, a struct's error first, and otherwise opens with the package clause |
| GoApi.GenerateApi | src/go/api.ts:30-43 | a generated file opens with the package clause |
| GoApi.GoApiFile | src/go/api.ts:14-28 | the Go API is the single file gen.go in the package's directory, holding the file for the package's last element |
| GoApi.GenerateGoApi | src/go/api.ts:14-28 | the result carries the generator's name and exactly one file |
| Shared.GetNameShape | src/go/shared.ts:4-12 | a name ends in the lower-cased name and is longer exactly when a prefix is added, which it then starts with |
| Shared.GetName | src/go/shared.ts:4-12 | the name is as long as the given name plus the prefix when one applies, and the part after the prefix holds no upper-case letter |
| Shared.LastElemShape | src/go/shared.ts:28-31 | the last element holds no '/', ends the path, follows its last '/', and is the whole path when there is none |
| Shared.LastElem | src/go/shared.ts:28-31 | the last element holds no '/' and is no longer than the path |
| Shared.GenerateFileShape | src/go/shared.ts:14-26 | the path is the package with dots turned into '/', then '/', the file name and ".go"; the content is what the generator makes of the lower-cased name and the last package element |
| Shared.GenerateFile | src/go/shared.ts:14-26 | the file exists exactly when the generator succeeds on the lower-cased name and the last package element, carries its error otherwise, and its path ends in ".go" |

## Left out

- Reading and writing files, and the command line in `src/index.ts`: this is I/O.
- Extracting the API from TypeScript (`generateApi` and `analyze` in `src/common/api.ts:33-148`): this uses the TypeScript compiler, which is not part of this model. The model starts from the parsed `ApiType`.
- `src/go/stubs.ts` is not part of this model.
- The fixed text of the C library file (`generateClib`, `src/go/cgo.ts:57-165`) and `generateCgoWrapper` around it: the model covers the pieces that this text splices in.
- CgoTypes.ReturnToC, CgoTypes.TypeToCgo, CgoTypes.TypeToC: their own ensures state only the string[] case. Their non-array cases are stated by the agreement lemmas, and their other array cases by CgoTypes.ConvertersOnArrays.
- CgoTypes.ParamToGo: agrees with the Go value table (CgoTypes.ParamToGoAgrees) on non-array types only. On arrays the two differ: paramToGo rejects "number[]" as an unknown type, while the table reads it as a number (CgoTypes.ConvertersDivergeOnArrays).
- Api.ParseParam: a parameter piece without ':' has an undefined type in JavaScript; the model gives it the empty type "". So `name:` and `name` parse alike, and an error about that type shows "" where JavaScript shows "undefined" (for example "Unknown type: " from Api.ToCType instead of "Unknown type: undefined").
- Diagnostics.Message: a TypeError (reading a property of an undefined value) carries a short description of what was undefined, not JavaScript's own message text. The missing fold entry of CgoBridge is the exception: its text is the one JavaScript gives.
- Lang.FuncToLang: the BridgeMapping callbacks are modelled as total functions that cannot throw.
- Lang.TypeToLang: the table takes its array hook in the table itself, as `src/common/c.ts` and the tests use it. `typeToLang` in `src/common/lang.ts:69-74` takes it as a separate argument.
- GoApi.GenerateGoApi: the `dataNs` parameter of `generateGoApi` is never read by the source, so it is left out.
- Shared.GetName: a prefix is looked up in a map. A key that JavaScript would find on `Object.prototype` is not modelled.
- Where emitted Go code panics (a handle out of range, an enum value matching no member), the model gives `None` or a precondition. It does not model the panic.
- Handles: models the handle slices of the emitted Go program, not the generator. Concurrent use of the slices is not modelled.
- Case changes act on ASCII letters only; JavaScript's full Unicode case mapping is not modelled.
- `langMapper`, `bridgeToLang`, `TypeMapper` and `ValueMapper` are used by `src/go/lang.ts`, `src/common/c.ts` and the tests, but `src/common/lang.ts` does not define them. The model uses the table shape they imply: a table holds its own array and custom hooks. The parts of the tests that rely on `bridgeToLang` are not modelled.

## Findings

| source | as written | input that shows it | evidently intended | confidence | as-written member | corrected member |
|---|---|---|---|---|---|---|
| src/common/lang.ts:87 | a type is looked up with `Object.hasOwn(table, type)`, and the table object also holds the hook functions `toArray` and `toCustom` | the type text "toArray" is found in the table and yields the array hook function instead of an unknown-type error | only the six primitive type names are table keys; any other lower-case name is an unknown type | not executed | Lang.HookKeyLeaks | Lang.LookupOnlyPrimitives |

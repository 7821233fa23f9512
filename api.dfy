/** The intermediate representation of an API (interfaces, functions, structs,
    enums), the parser of one function signature, and the two small type
    translators of src/common/api.ts. */
module Api {
  import opened Diagnostics
  import opened Text

  /** A parameter, struct property or enum member. `typ` is the type text; a
      parameter written without a type (JavaScript `undefined`) has typ "". */
  datatype VarType = VarType(name: string, typ: string, isEnum: bool)

  datatype FunctionType = FunctionType(
    name: string,
    params: seq<VarType>,
    returnType: string,
    returnOptional: bool,
    throws: bool)

  datatype InterfaceType = InterfaceType(
    name: string,
    singleton: bool,
    handle: bool,
    fold: bool,
    functions: seq<FunctionType>)

  datatype StructType = StructType(name: string, properties: seq<VarType>)

  datatype ApiType = ApiType(
    interfaces: seq<InterfaceType>,
    structs: seq<StructType>,
    enums: seq<StructType>)

  // ---------------------------------------------------------------------------
  // toCType / toJavaType / toC

  /** The C spelling of the four types the header generator knows. */
  function ToCType(t: string): (r: Result<string>)
    ensures r.Success? <==> t in {"boolean", "string", "bigint", "Uint8Array"}
    ensures r.Failure? ==> r.error == UnknownType(t)
    ensures t == "string" || t == "Uint8Array" ==> r == Success("char*")
  {
    if t == "boolean" then Success("bool")
    else if t == "string" then Success("char*")
    else if t == "bigint" then Success("long long int")
    else if t == "Uint8Array" then Success("char*")
    else Failure(UnknownType(t))
  }

  /** The Java spelling of the same four types. */
  function ToJavaType(t: string): (r: Result<string>)
    ensures r.Success? <==> t in {"boolean", "string", "bigint", "Uint8Array"}
    ensures r.Failure? ==> r.error == UnknownType(t)
  {
    if t == "boolean" then Success("boolean")
    else if t == "string" then Success("String")
    else if t == "bigint" then Success("long")
    else if t == "Uint8Array" then Success("byte[]")
    else Failure(UnknownType(t))
  }

  /** Both translators accept exactly the same types and reject the others,
      `number` included, with the same diagnostic. */
  lemma CAndJavaAgreeOnDomain(t: string)
    ensures ToCType(t).Success? <==> ToJavaType(t).Success?
    ensures ToCType(t).Failure? ==> ToCType(t) == ToJavaType(t) == Failure(UnknownType(t))
    ensures ToCType("number") == Failure(UnknownType("number"))
  {
  }

  function CParam(p: VarType): Result<string> {
    var ct :- ToCType(p.typ);
    Success("const " + ct + " " + p.name)
  }

  /** A C prototype for a function: the parameters are translated first, so a
      bad parameter type is reported before a bad return type. */
  function ToC(f: FunctionType): (r: Result<string>)
    ensures r.Success? <==> (forall k :: 0 <= k < |f.params| ==> ToCType(f.params[k].typ).Success?)
                            && ToCType(f.returnType).Success?
    ensures (exists k :: 0 <= k < |f.params| && ToCType(f.params[k].typ).Failure?) ==>
              exists k :: 0 <= k < |f.params| && r == Failure(UnknownType(f.params[k].typ))
    ensures r.Success? ==> StartsWith(r.value, ToCType(f.returnType).value + " " + f.name + "(")
  {
    var params :- MapAll(f.params, CParam);
    var ret :- ToCType(f.returnType);
    assert forall k :: 0 <= k < |f.params| ==> CParam(f.params[k]).Success?;
    var r := ret + " " + f.name + "(" + Join(params, ", ") + ");";
    assert r[..|ret + " " + f.name + "("|] == ret + " " + f.name + "(";
    Success(r)
  }

  // ---------------------------------------------------------------------------
  // parseFunction: the pattern  \(([^)]*)\)\s*=>\s*([^\s]+)

  /** The first index at or after i holding ')', or |s|. */
  function CloseParen(s: string, i: nat): (k: nat)
    requires i <= |s|
    ensures i <= k <= |s|
    ensures ')' !in s[i..k]
    ensures k < |s| ==> s[k] == ')'
    decreases |s| - i
  {
    if i == |s| || s[i] == ')' then i
    else
      var k := CloseParen(s, i + 1);
      assert s[i..k] == [s[i]] + s[i + 1..k];
      k
  }

  /** The first index at or after i holding a space character, or |s|. */
  function RunEnd(s: string, i: nat): (k: nat)
    requires i <= |s|
    ensures i <= k <= |s|
    ensures NoSpace(s[i..k])
    ensures k < |s| ==> IsSpace(s[k])
    decreases |s| - i
  {
    if i == |s| || IsSpace(s[i]) then i else RunEnd(s, i + 1)
  }

  /** Where a match of the pattern lies: it starts at `start` with '(',
      the parameter text follows, the arrow "=>" sits at `arrow`, and the
      return type (group 2) starts at `retStart`. */
  datatype Signature = Signature(
    start: nat,
    paramText: string,
    arrow: nat,
    retStart: nat,
    returnType: string)

  /** The pattern matches at i with group 1 = p and group 2 = ret, the arrow
      at a and the return type at b (the regular expression's greedy reading). */
  ghost predicate IsMatchAt(s: string, i: nat, p: string, a: nat, b: nat, ret: string) {
    var c := i + 1 + |p|;
    && c < |s| && s[i] == '(' && s[i + 1..c] == p && ')' !in p && s[c] == ')'
    && c + 1 <= a && a + 2 <= b && b + |ret| <= |s|
    && AllSpace(s[c + 1..a]) && s[a] == '=' && s[a + 1] == '>'
    && AllSpace(s[a + 2..b])
    && |ret| > 0 && s[b..b + |ret|] == ret && NoSpace(ret)
    && (b + |ret| == |s| || IsSpace(s[b + |ret|]))
  }

  /** The pattern tried at one position, scanning as the regular expression does. */
  function MatchAt(s: string, i: nat): (m: Option<Signature>)
    requires i <= |s|
    ensures m.Some? ==> m.value.start == i
  {
    if i < |s| && s[i] == '(' then
      var c := CloseParen(s, i + 1);
      if c < |s| then
        var a := LeadingSpaces(s, c + 1);
        if a + 2 <= |s| && s[a] == '=' && s[a + 1] == '>' then
          var b := LeadingSpaces(s, a + 2);
          if b < |s| then
            var e := RunEnd(s, b);
            Some(Signature(i, s[i + 1..c], a, b, s[b..e]))
          else None
        else None
      else None
    else None
  }

  /** A match MatchAt finds is a match of the pattern. */
  lemma MatchAtSound(s: string, i: nat)
    requires i <= |s| && MatchAt(s, i).Some?
    ensures var m := MatchAt(s, i).value;
            IsMatchAt(s, i, m.paramText, m.arrow, m.retStart, m.returnType)
  {
    assert i < |s| && s[i] == '(';
    var c := CloseParen(s, i + 1);
    assert c < |s|;
    var a := LeadingSpaces(s, c + 1);
    assert a + 2 <= |s| && s[a] == '=' && s[a + 1] == '>';
    var b := LeadingSpaces(s, a + 2);
    assert b < |s|;
    var e := RunEnd(s, b);
    assert MatchAt(s, i).value == Signature(i, s[i + 1..c], a, b, s[b..e]);
    ScansMatch(s, i, c, a, b, e);
  }

  /** Scans that stop where CloseParen, LeadingSpaces and RunEnd stop make
      a match of the pattern. */
  lemma ScansMatch(s: string, i: nat, c: nat, a: nat, b: nat, e: nat)
    requires i < |s| && s[i] == '(' && i + 1 <= c < |s| && ')' !in s[i + 1..c] && s[c] == ')'
    requires c + 1 <= a && a + 2 <= |s| && AllSpace(s[c + 1..a]) && s[a] == '=' && s[a + 1] == '>'
    requires a + 2 <= b < |s| && AllSpace(s[a + 2..b]) && !IsSpace(s[b])
    requires b <= e <= |s| && NoSpace(s[b..e]) && (e < |s| ==> IsSpace(s[e]))
    ensures IsMatchAt(s, i, s[i + 1..c], a, b, s[b..e])
  {
    assert b < e;
    assert |s[i + 1..c]| == c - (i + 1);
  }

  lemma {:induction false} CloseParenAt(s: string, i: nat, k: nat)
    requires i <= k < |s| && ')' !in s[i..k] && s[k] == ')'
    ensures CloseParen(s, i) == k
    decreases k - i
  {
    if i < k {
      assert s[i] == s[i..k][0];
      assert s[i + 1..k] == s[i..k][1..];
      CloseParenAt(s, i + 1, k);
    }
  }

  lemma {:induction false} RunEndAt(s: string, i: nat, k: nat)
    requires i <= k <= |s| && NoSpace(s[i..k]) && (k < |s| ==> IsSpace(s[k]))
    ensures RunEnd(s, i) == k
    decreases k - i
  {
    if i < k {
      assert !IsSpace(s[i..k][0]);
      assert s[i + 1..k] == s[i..k][1..];
      RunEndAt(s, i + 1, k);
    }
  }

  /** Any match at i is the one MatchAt finds: the match is unique. */
  lemma MatchAtComplete(s: string, i: nat, p: string, a: nat, b: nat, ret: string)
    requires IsMatchAt(s, i, p, a, b, ret)
    ensures MatchAt(s, i) == Some(Signature(i, p, a, b, ret))
  {
    ParamScans(s, i, p, a, b, ret);
    ReturnScans(s, i, p, a, b, ret);
    MatchAtSteps(s, i, i + 1 + |p|, a, b, b + |ret|);
  }

  /** The scans up to the arrow stop where a match puts the closing
      parenthesis and the arrow. */
  lemma ParamScans(s: string, i: nat, p: string, a: nat, b: nat, ret: string)
    requires IsMatchAt(s, i, p, a, b, ret)
    ensures CloseParen(s, i + 1) == i + 1 + |p|
    ensures LeadingSpaces(s, i + 2 + |p|) == a
  {
    CloseParenAt(s, i + 1, i + 1 + |p|);
    LeadingSpacesAt(s, i + 2 + |p|, a);
  }

  /** The scans after the arrow stop where a match puts the return type and
      its end. */
  lemma ReturnScans(s: string, i: nat, p: string, a: nat, b: nat, ret: string)
    requires IsMatchAt(s, i, p, a, b, ret)
    ensures LeadingSpaces(s, a + 2) == b
    ensures RunEnd(s, b) == b + |ret|
  {
    assert s[b] == ret[0];
    LeadingSpacesAt(s, a + 2, b);
    RunEndAt(s, b, b + |ret|);
  }

  /** MatchAt once each of its scans is known. */
  lemma MatchAtSteps(s: string, i: nat, c: nat, a: nat, b: nat, e: nat)
    requires i < |s| && s[i] == '(' && i + 1 <= c < |s| && CloseParen(s, i + 1) == c
    requires c + 1 <= a && a + 2 <= |s| && LeadingSpaces(s, c + 1) == a && s[a] == '=' && s[a + 1] == '>'
    requires a + 2 <= b < |s| && LeadingSpaces(s, a + 2) == b
    requires b <= e <= |s| && RunEnd(s, b) == e
    ensures MatchAt(s, i) == Some(Signature(i, s[i + 1..c], a, b, s[b..e]))
  {
    assert c < |s|;
    assert a + 2 <= |s| && s[a] == '=' && s[a + 1] == '>';
    assert b < |s|;
  }

  /** String.prototype.match: the leftmost position at or after `from` where
      the pattern matches. */
  function FindSignature(s: string, from: nat): (m: Option<Signature>)
    requires from <= |s|
    ensures m.Some? ==> from <= m.value.start <= |s| && MatchAt(s, m.value.start) == m
    ensures m.Some? ==> forall j :: from <= j < m.value.start ==> MatchAt(s, j).None?
    ensures m.None? ==> forall j :: from <= j <= |s| ==> MatchAt(s, j).None?
    decreases |s| - from
  {
    var here := MatchAt(s, from);
    if here.Some? then here
    else if from == |s| then None
    else FindSignature(s, from + 1)
  }

  /** The match the parser uses is a match of the pattern, and no match of
      the pattern starts further left. */
  lemma {:induction false} SignatureIsLeftmostMatch(s: string)
    ensures FindSignature(s, 0).Some? ==>
      var m := FindSignature(s, 0).value;
      IsMatchAt(s, m.start, m.paramText, m.arrow, m.retStart, m.returnType)
    ensures forall j: nat, p, a, b, ret | IsMatchAt(s, j, p, a, b, ret) ::
      FindSignature(s, 0).Some? && FindSignature(s, 0).value.start <= j
  {
    if FindSignature(s, 0).Some? {
      MatchAtSound(s, FindSignature(s, 0).value.start);
    }
    forall j: nat, p, a, b, ret | IsMatchAt(s, j, p, a, b, ret)
      ensures FindSignature(s, 0).Some? && FindSignature(s, 0).value.start <= j
    {
      MatchAtComplete(s, j, p, a, b, ret);
    }
  }

  predicate IsEnumName(enums: seq<StructType>, name: string) {
    exists e :: e in enums && e.name == name
  }

  /** One parameter "name: type": trimmed, split on ':', each side trimmed.
      The enum flag looks up the parameter's NAME among the known enums. */
  function ParseParam(text: string, enums: seq<StructType>): (v: VarType)
    ensures v.isEnum <==> IsEnumName(enums, v.name)
    ensures ':' !in Trim(text) ==> v.name == Trim(text) && v.typ == ""
  {
    var parts := Split(Trim(text), ':');
    var name := Trim(parts[0]);
    var typ := if |parts| >= 2 then Trim(parts[1]) else "";
    VarType(name, typ, IsEnumName(enums, name))
  }

  function ParseParams(pieces: seq<string>, enums: seq<StructType>): (vs: seq<VarType>)
    ensures |vs| == |pieces|
    ensures forall k :: 0 <= k < |pieces| ==> vs[k] == ParseParam(pieces[k], enums)
  {
    seq(|pieces|, k requires 0 <= k < |pieces| => ParseParam(pieces[k], enums))
  }

  /** parseFunction: null when the text holds no "(...) => ret"; otherwise the
      parameters of the leftmost match in declared order, the first non-space
      run after the arrow as return type, and the two flags from the doc tags. */
  function ParseFunction(name: string, body: string, docTags: seq<string>, enums: seq<StructType>)
    : (r: Option<FunctionType>)
    ensures r.None? <==> FindSignature(body, 0).None?
    ensures r.Some? ==>
      var m := FindSignature(body, 0).value;
      && r.value.name == name
      && r.value.returnType == m.returnType
      && (r.value.throws <==> "throws" in docTags)
      && (r.value.returnOptional <==> "optional" in docTags)
      && (m.paramText == "" ==> r.value.params == [])
      && (m.paramText != "" ==> r.value.params == ParseParams(Split(m.paramText, ','), enums))
  {
    match FindSignature(body, 0)
    case None => None
    case Some(m) =>
      var params := if |m.paramText| == 0 then [] else ParseParams(Split(m.paramText, ','), enums);
      Some(FunctionType(name, params, m.returnType, "optional" in docTags, "throws" in docTags))
  }

  // ---------------------------------------------------------------------------
  // Round trip: a signature printed the way the type checker prints it parses back.

  /** A name or type the printer can emit unambiguously. */
  predicate IsToken(s: string) {
    |s| > 0 && NoSpace(s) && ',' !in s && ':' !in s && ')' !in s
  }

  function ParamText(v: VarType): string {
    v.name + ": " + v.typ
  }

  function ParamTexts(params: seq<VarType>): (ts: seq<string>)
    ensures |ts| == |params|
    ensures forall k :: 0 <= k < |params| ==> ts[k] == ParamText(params[k])
  {
    seq(|params|, k requires 0 <= k < |params| => ParamText(params[k]))
  }

  /** "(a: string, b: Foo) => Bar". */
  function SignatureText(params: seq<VarType>, ret: string): string {
    "(" + Join(ParamTexts(params), ", ") + ") => " + ret
  }

  /** The pieces a split on ',' yields from a ", "-joined list. */
  function CommaPieces(ts: seq<string>): (ps: seq<string>)
    ensures |ps| == |ts|
    ensures |ts| > 0 ==> ps[0] == ts[0]
    ensures forall k :: 1 <= k < |ts| ==> ps[k] == " " + ts[k]
  {
    seq(|ts|, k requires 0 <= k < |ts| => if k == 0 then ts[0] else " " + ts[k])
  }

  lemma {:induction false} JoinCommaSpace(ts: seq<string>)
    requires |ts| > 0
    ensures Join(ts, ", ") == Join(CommaPieces(ts), ",")
    decreases |ts|
  {
    if |ts| > 1 {
      var rest := ts[1..];
      JoinCommaSpace(rest);
      var ps := CommaPieces(ts);
      var prs := CommaPieces(rest);
      assert ps[1..] == [" " + rest[0]] + prs[1..];
      if |rest| == 1 {
        assert ps == [ts[0]] + [" " + rest[0]];
        JoinCons(ts[0], [" " + rest[0]], ",");
      } else {
        assert prs == [rest[0]] + prs[1..];
        JoinCons(rest[0], prs[1..], ",");
        JoinCons(" " + rest[0], prs[1..], ",");
        assert ps == [ts[0]] + ps[1..];
        JoinCons(ts[0], ps[1..], ",");
      }
    }
  }

  lemma {:induction false} CharNotInJoin(parts: seq<string>, sep: string, c: char)
    requires c !in sep
    requires forall k :: 0 <= k < |parts| ==> c !in parts[k]
    ensures c !in Join(parts, sep)
  {
    if |parts| > 1 {
      CharNotInJoin(parts[1..], sep, c);
    }
  }

  lemma {:induction false} TrimPad(pad: string, x: string)
    requires pad == "" || pad == " "
    requires |x| > 0 && !IsSpace(x[0]) && !IsSpace(x[|x| - 1])
    ensures Trim(pad + x) == x
  {
    if pad == " " {
      assert (pad + x)[1..] == x;
      TrimPadded(pad + x);
    } else {
      assert pad + x == x;
    }
    TrimOfClean(x);
  }

  lemma {:induction false} SplitNameType(n: string, ty: string)
    requires ':' !in n && ':' !in ty
    ensures Split(n + ": " + ty, ':') == [n, " " + ty]
  {
    assert n + ": " + ty == n + [':'] + (" " + ty);
    SplitPrefix(n, " " + ty, ':');
  }

  /** One piece " name: type" (or "name: type") parses back to its parameter. */
  lemma {:induction false} ParseParamText(v: VarType, pad: string, enums: seq<StructType>)
    requires IsToken(v.name) && IsToken(v.typ)
    requires pad == "" || pad == " "
    requires v.isEnum == IsEnumName(enums, v.name)
    ensures ParseParam(pad + ParamText(v), enums) == v
  {
    var t := ParamText(v);
    assert Trim(pad + t) == t by {
      assert t[0] == v.name[0] && t[|t| - 1] == v.typ[|v.typ| - 1];
      TrimPad(pad, t);
    }
    assert Split(t, ':') == [v.name, " " + v.typ] by {
      SplitNameType(v.name, v.typ);
    }
    assert Trim(v.name) == v.name by {
      TrimPad("", v.name);
      assert "" + v.name == v.name;
    }
    assert Trim(" " + v.typ) == v.typ by {
      TrimPad(" ", v.typ);
    }
  }

  /** Where the pattern matches in a printed signature. */
  lemma {:induction false} SignatureTextMatch(j: string, ret: string)
    requires ')' !in j && |ret| > 0 && NoSpace(ret)
    ensures FindSignature("(" + j + ") => " + ret, 0)
         == Some(Signature(0, j, |j| + 3, |j| + 6, ret))
  {
    var s := "(" + j + ") => " + ret;
    var c := 1 + |j|;
    assert s[1..c] == j && s[c] == ')';
    assert s[c + 1..c + 2] == " " && s[c + 2] == '=' && s[c + 3] == '>';
    assert s[c + 4..c + 5] == " ";
    assert s[c + 5..c + 5 + |ret|] == ret && c + 5 + |ret| == |s|;
    MatchAtComplete(s, 0, j, c + 2, c + 5, ret);
  }

  /** The pieces of a printed parameter list hold no comma. */
  lemma CommaPiecesClean(params: seq<VarType>)
    requires forall k :: 0 <= k < |params| ==> IsToken(params[k].name) && IsToken(params[k].typ)
    ensures forall k :: 0 <= k < |params| ==> ',' !in CommaPieces(ParamTexts(params))[k]
  {
    var ps := CommaPieces(ParamTexts(params));
    forall k | 0 <= k < |ps| ensures ',' !in ps[k] {
      assert ps[k] == (if k == 0 then "" else " ") + params[k].name + ": " + params[k].typ;
    }
  }

  /** Each piece of a printed parameter list parses back to its parameter. */
  lemma ParsePieces(params: seq<VarType>, enums: seq<StructType>)
    requires forall k :: 0 <= k < |params| ==> IsToken(params[k].name) && IsToken(params[k].typ)
    requires forall k :: 0 <= k < |params| ==> params[k].isEnum == IsEnumName(enums, params[k].name)
    ensures ParseParams(CommaPieces(ParamTexts(params)), enums) == params
  {
    var ps := CommaPieces(ParamTexts(params));
    var parsed := ParseParams(ps, enums);
    forall k | 0 <= k < |params| ensures parsed[k] == params[k] {
      var pad := if k == 0 then "" else " ";
      assert ps[k] == pad + ParamText(params[k]);
      ParseParamText(params[k], pad, enums);
    }
  }

  /** The printed parameter list splits and parses back to the parameters. */
  lemma ParamListRoundTrip(params: seq<VarType>, enums: seq<StructType>)
    requires |params| > 0
    requires forall k :: 0 <= k < |params| ==> IsToken(params[k].name) && IsToken(params[k].typ)
    requires forall k :: 0 <= k < |params| ==> params[k].isEnum == IsEnumName(enums, params[k].name)
    ensures Join(ParamTexts(params), ", ") != ""
    ensures ParseParams(Split(Join(ParamTexts(params), ", "), ','), enums) == params
  {
    var ts := ParamTexts(params);
    var ps := CommaPieces(ts);
    assert Split(Join(ts, ", "), ',') == ps by {
      JoinCommaSpace(ts);
      CommaPiecesClean(params);
      SplitJoin(ps, ',');
    }
    assert |Join(ts, ", ")| > 0 by { JoinFirst(ts, ", "); }
    ParsePieces(params, enums);
  }

  /** Printing a signature and parsing it gives back the same function. */
  lemma {:induction false} SignatureRoundTrip(name: string, params: seq<VarType>, ret: string,
                                              docTags: seq<string>, enums: seq<StructType>)
    requires forall k :: 0 <= k < |params| ==> IsToken(params[k].name) && IsToken(params[k].typ)
    requires forall k :: 0 <= k < |params| ==> params[k].isEnum == IsEnumName(enums, params[k].name)
    requires |ret| > 0 && NoSpace(ret)
    ensures ParseFunction(name, SignatureText(params, ret), docTags, enums)
         == Some(FunctionType(name, params, ret, "optional" in docTags, "throws" in docTags))
  {
    var ts := ParamTexts(params);
    var j := Join(ts, ", ");
    assert ')' !in j by {
      forall k | 0 <= k < |ts| ensures ')' !in ts[k] {
        assert ts[k] == params[k].name + ": " + params[k].typ;
      }
      CharNotInJoin(ts, ", ", ')');
    }
    SignatureTextMatch(j, ret);
    if |params| > 0 {
      ParamListRoundTrip(params, enums);
    }
  }

  lemma {:induction false} JoinFirst(parts: seq<string>, sep: string)
    requires |parts| > 0
    ensures |Join(parts, sep)| >= |parts[0]|
  {
  }
}

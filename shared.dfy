/** Naming of the generated Go files (src/go/shared.ts): the file name with
    its optional namespace prefix, the directory from the package path, and
    the package name handed to the generator. */
module Shared {
  import opened Diagnostics
  import opened Text

  /** A generated file: where it goes and what it holds. */
  datatype GoFile = GoFile(path: string, content: string)

  /** What a generator returns: its name and its files. */
  datatype Output = Output(name: string, files: seq<GoFile>)

  /** The generator of a file's content, given the file name and the package
      name; it may fail. */
  type Generator = (string, string) -> Result<string>

  /** Whether a file of namespace `ns` gets a prefix: `ns` and its prefix are
      both present and non-empty ("" stands for an absent namespace). */
  predicate HasPrefix(ns: string, prefixes: map<string, string>) {
    ns != "" && ns in prefixes && prefixes[ns] != ""
  }

  /** getName: the lower-cased name, after the namespace's prefix if it has one.
      The part after the prefix holds no upper-case letter. */
  function GetName(name: string, ns: string, prefixes: map<string, string>): (r: string)
    ensures |r| == |name| + (if HasPrefix(ns, prefixes) then |prefixes[ns]| else 0)
    ensures forall k :: |r| - |name| <= k < |r| ==> !('A' <= r[k] <= 'Z')
  {
    if HasPrefix(ns, prefixes) then prefixes[ns] + ToLowerCase(name) else ToLowerCase(name)
  }

  /** A name always ends in the lower-cased name, and is longer than it
      exactly when a prefix was added. */
  lemma GetNameShape(name: string, ns: string, prefixes: map<string, string>)
    ensures EndsWith(GetName(name, ns, prefixes), ToLowerCase(name))
    ensures |GetName(name, ns, prefixes)| > |name| <==> HasPrefix(ns, prefixes)
    ensures HasPrefix(ns, prefixes) ==> StartsWith(GetName(name, ns, prefixes), prefixes[ns])
  {
    var r := GetName(name, ns, prefixes);
    var low := ToLowerCase(name);
    if HasPrefix(ns, prefixes) {
      var p := prefixes[ns];
      assert r == p + low;
      assert r[|r| - |low|..] == low;
      assert r[..|p|] == p;
    } else {
      assert r[|r| - |low|..] == low;
    }
  }

  /** lastElem: the text after the last '/'. */
  function LastElem(path: string): (r: string)
    ensures '/' !in r && |r| <= |path|
  {
    var parts := Split(path, '/');
    SplitLast(path, '/');
    parts[|parts| - 1]
  }

  /** The last element holds no '/', ends the path and follows a '/' unless
      it is the whole path; a path without '/' is its own last element. */
  lemma LastElemShape(path: string)
    ensures '/' !in LastElem(path)
    ensures EndsWith(path, LastElem(path))
    ensures |LastElem(path)| < |path| ==> path[|path| - |LastElem(path)| - 1] == '/'
    ensures '/' !in path ==> LastElem(path) == path
  {
    SplitLast(path, '/');
  }

  /** generateFile: the directory is the package with every '.' turned into
      '/'; the file name is prefixed by namespace; the generator sees the
      unprefixed name and the package's last element. */
  function GenerateFile(name: string, ns: string, pkg: string, prefixes: map<string, string>,
                        generate: Generator): (r: Result<GoFile>)
    ensures r.Success? <==> generate(ToLowerCase(name), LastElem(pkg)).Success?
    ensures r.Failure? ==> r.error == generate(ToLowerCase(name), LastElem(pkg)).error
    ensures r.Success? ==> EndsWith(r.value.path, ".go")
  {
    var dir := ReplaceAll(pkg, '.', '/');
    var file := GetName(name, ns, prefixes);
    var code :- generate(GetName(name, "", map[]), LastElem(pkg));
    Success(GoFile(dir + "/" + file + ".go", code))
  }

  /** The path keeps every character of the package except the dots, which
      become '/', then adds the file and ".go"; the content is what the
      generator makes of the lower-cased name and the last package element. */
  lemma GenerateFileShape(name: string, ns: string, pkg: string, prefixes: map<string, string>,
                          generate: Generator)
    ensures GenerateFile(name, ns, pkg, prefixes, generate).Success?
        <==> generate(ToLowerCase(name), LastElem(pkg)).Success?
    ensures GenerateFile(name, ns, pkg, prefixes, generate).Success? ==>
      var f := GenerateFile(name, ns, pkg, prefixes, generate).value;
      && f.content == generate(ToLowerCase(name), LastElem(pkg)).value
      && |f.path| == |pkg| + |GetName(name, ns, prefixes)| + 4
      && (forall k :: 0 <= k < |pkg| ==> f.path[k] == if pkg[k] == '.' then '/' else pkg[k])
      && '.' !in f.path[..|pkg|]
      && f.path[|pkg|] == '/'
      && f.path[|pkg| + 1..] == GetName(name, ns, prefixes) + ".go"
  {
    assert GetName(name, "", map[]) == ToLowerCase(name);
    if GenerateFile(name, ns, pkg, prefixes, generate).Success? {
      var f := GenerateFile(name, ns, pkg, prefixes, generate).value;
      PathParts(ReplaceAll(pkg, '.', '/'), GetName(name, ns, prefixes));
    }
  }

  /** A directory, '/', a file name and ".go", read back piece by piece. */
  lemma PathParts(dir: string, file: string)
    ensures var p := dir + "/" + file + ".go";
      && |p| == |dir| + |file| + 4
      && p[..|dir|] == dir && p[|dir|] == '/' && p[|dir| + 1..] == file + ".go"
  {
    var p := dir + "/" + file + ".go";
    assert p == dir + ("/" + file + ".go");
    assert p[|dir| + 1..] == file + ".go";
  }
}

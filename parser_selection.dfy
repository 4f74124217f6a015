/** Choosing a parser: recognising a missing native binding of oxc-parser by walking an
    error's cause chain, and the TypeScript script kind picked from a file name. */
module ParserSelection {
  import opened Wrappers
  import opened JsText

  /** A caught value as `isNativeBindingError` sees it. `Falsy` is `null`, `undefined` or
      another falsy value, which ends the walk. `ErrorLike` is any truthy value: its
      `message` when that is a string (`None` when absent or nullish) and its `cause`. */
  datatype Caught = Falsy | ErrorLike(message: Option<string>, cause: Caught)

  /** The values the walk visits: the error, its cause, the cause's cause, ... up to the
      first falsy one. */
  function CauseChain(e: Caught): (chain: seq<Caught>)
    ensures forall k :: 0 <= k < |chain| ==> chain[k].ErrorLike?
  {
    match e
    case Falsy => []
    case ErrorLike(_, cause) => [e] + CauseChain(cause)
  }

  /** `String(entry?.message ?? "")`, with the two substrings looked for. */
  predicate MentionsMissingBinding(entry: Caught) {
    var message := if entry.ErrorLike? then entry.message.GetOr("") else "";
    Includes(message, "Cannot find native binding") || Includes(message, "MODULE_NOT_FOUND")
  }

  /** Some entry of `chain` mentions a missing binding. */
  predicate ChainMentions(chain: seq<Caught>) {
    exists k :: 0 <= k < |chain| && MentionsMissingBinding(chain[k])
  }

  /** `isNativeBindingError`: pushes the chain onto `stack`, then asks whether some entry
      of it mentions a missing binding. */
  method IsNativeBindingError(error: Caught) returns (r: bool)
    ensures r <==> ChainMentions(CauseChain(error))
  {
    var stack: seq<Caught> := [];
    var current := error;
    while current.ErrorLike?
      invariant stack + CauseChain(current) == CauseChain(error)
      decreases current
    {
      stack := stack + [current];
      current := current.cause;
    }
    assert stack == CauseChain(error);
    r := ChainMentions(stack);
  }

  /** Wrapping keeps the answer: an error is a native-binding error exactly when its own
      message mentions a missing binding or its cause is one. */
  lemma WrappedBindingError(message: Option<string>, cause: Caught)
    ensures ChainMentions(CauseChain(ErrorLike(message, cause)))
            <==> MentionsMissingBinding(ErrorLike(message, cause)) || ChainMentions(CauseChain(cause))
  {
    var e := ErrorLike(message, cause);
    var c := CauseChain(cause);
    var chain := CauseChain(e);
    assert chain == [e] + c;
    if MentionsMissingBinding(e) {
      assert chain[0] == e;
    }
    if ChainMentions(c) {
      var k :| 0 <= k < |c| && MentionsMissingBinding(c[k]);
      assert chain[k + 1] == c[k];
    }
    if ChainMentions(chain) {
      var k :| 0 <= k < |chain| && MentionsMissingBinding(chain[k]);
      if k > 0 {
        assert c[k - 1] == chain[k];
      } else {
        assert chain[0] == e;
      }
    }
  }

  /** The final component of a path with trailing `/` removed. */
  function Basename(path: string): (b: string)
    ensures '/' !in b
  {
    LastComponent(StripTrailingSlashes(path))
  }

  /** `path` without its trailing `/` characters. */
  function StripTrailingSlashes(path: string): (r: string)
    ensures |r| <= |path| && r == path[..|r|]
    ensures r != [] ==> r[|r| - 1] != '/'
  {
    if path != [] && path[|path| - 1] == '/' then StripTrailingSlashes(path[..|path| - 1]) else path
  }

  /** The characters after the last `/` of `path`. */
  function LastComponent(path: string): (c: string)
    ensures '/' !in c && |c| <= |path| && c == path[|path| - |c|..]
  {
    if path == [] || path[|path| - 1] == '/' then []
    else
      var c := LastComponent(path[..|path| - 1]);
      assert path[..|path| - 1][|path| - 1 - |c|..] == path[|path| - 1 - |c|..|path| - 1];
      c + [path[|path| - 1]]
  }

  /** The index of the last `.` of `s`, if any. */
  function LastDot(s: string): (i: Option<nat>)
    ensures i.Some? ==> i.value < |s| && s[i.value] == '.' && '.' !in s[i.value + 1..]
    ensures i.None? ==> '.' !in s
  {
    if s == [] then None
    else if s[|s| - 1] == '.' then Some(|s| - 1)
    else
      var j := LastDot(s[..|s| - 1]);
      assert j.Some? ==> s[j.value + 1..] == s[..|s| - 1][j.value + 1..] + [s[|s| - 1]];
      j
  }

  /** `path.extname` of Node's POSIX path module: from the last `.` of the final component
      to its end; empty when that component has no `.`, starts with its only-leading `.`,
      or is `..`. */
  function Extname(path: string): (ext: string)
    ensures ext == [] || (ext[0] == '.' && '.' !in ext[1..] && '/' !in ext)
  {
    var base := Basename(path);
    match LastDot(base)
    case None => []
    case Some(i) =>
      if i == 0 || base == ".." then []
      else
        assert base[i..][1..] == base[i + 1..];
        base[i..]
  }

  /** The extension of a file in a directory is that of the file. */
  lemma {:induction false} ExtnameInDirectory(dir: string, name: string)
    requires name != [] && '/' !in name
    ensures Extname(dir + "/" + name) == Extname(name)
  {
    var path := dir + "/" + name;
    assert path[|path| - 1] == name[|name| - 1];
    ComponentAfterSlash(dir, name);
    assert name[|name| - 1] != '/';
    assert Basename(path) == LastComponent(path);
    assert Basename(name) == LastComponent(name);
    ComponentAfterSlash([], name);
    assert [] + "/" + name == "/" + name;
  }

  /** The final component of `dir + "/" + name`, with `name` free of `/`, is `name`. */
  lemma {:induction false} ComponentAfterSlash(dir: string, name: string)
    requires '/' !in name
    ensures LastComponent(dir + "/" + name) == name
    ensures LastComponent(name) == name
    decreases |name|
  {
    if name != [] {
      var init := name[..|name| - 1];
      assert '/' !in init;
      ComponentAfterSlash(dir, init);
      assert (dir + "/" + name)[..|dir + "/" + name| - 1] == dir + "/" + init;
    } else {
      assert (dir + "/")[|dir + "/"| - 1] == '/';
    }
  }

  function ToLowerAsciiChar(c: char): char {
    if 'A' <= c <= 'Z' then (c as int + 32) as char else c
  }

  /** `toLowerCase` on the letters `A`-`Z`. */
  function ToLowerAscii(s: string): (r: string)
    ensures |r| == |s| && forall i :: 0 <= i < |s| ==> r[i] == ToLowerAsciiChar(s[i])
  {
    seq(|s|, i requires 0 <= i < |s| => ToLowerAsciiChar(s[i]))
  }

  /** `ts.ScriptKind` values the script chooses between. */
  datatype ScriptKind = JS | JSX | TS | TSX

  /** `getScriptKindFromFilename`: by lower-cased extension, TypeScript by default. */
  function ScriptKindOf(filename: string): ScriptKind {
    KindOfExtension(ToLowerAscii(Extname(filename)))
  }

  /** The kind for a lower-cased extension. */
  function KindOfExtension(ext: string): ScriptKind {
    if ext == ".tsx" then TSX
    else if ext == ".jsx" then JSX
    else if ext == ".js" || ext == ".mjs" || ext == ".cjs" then JS
    else TS
  }

  /** A `.` with no `.` after it is the last one. */
  lemma {:induction false} LastDotAt(s: string, i: nat)
    requires i < |s| && s[i] == '.' && '.' !in s[i + 1..]
    ensures LastDot(s) == Some(i)
  {
    if i < |s| - 1 {
      assert s[|s| - 1] in s[i + 1..];
      assert s[..|s| - 1][i + 1..] == s[i + 1..|s| - 1];
      LastDotAt(s[..|s| - 1], i);
    }
  }

  /** A name without `/` is its own final component. */
  lemma BasenameOfName(name: string)
    requires name != [] && '/' !in name
    ensures Basename(name) == name
  {
    assert name[|name| - 1] != '/';
    assert StripTrailingSlashes(name) == name;
    ComponentAfterSlash([], name);
  }

  /** A file name `stem` + `ext`, where `ext` is a `.` and then no `.`, has the extension
      `ext`, unless the name is `..`. */
  lemma ExtnameOfStemAndExt(stem: string, ext: string)
    requires stem != [] && '/' !in stem
    requires ext != [] && ext[0] == '.' && '.' !in ext[1..] && '/' !in ext
    requires !(stem == "." && ext == ".")
    ensures Extname(stem + ext) == ext
  {
    var name := stem + ext;
    assert '/' !in name;
    BasenameOfName(name);
    assert name[|stem|..] == ext;
    assert name[|stem| + 1..] == ext[1..];
    LastDotAt(name, |stem|);
  }

  /** The kind of `stem` + `ext` is the kind of the lower-cased `ext`. */
  lemma ScriptKindOfStemAndExt(stem: string, ext: string)
    requires stem != [] && '/' !in stem
    requires ext != [] && ext[0] == '.' && '.' !in ext[1..] && '/' !in ext
    requires !(stem == "." && ext == ".")
    ensures ScriptKindOf(stem + ext) == KindOfExtension(ToLowerAscii(ext))
  {
    ExtnameOfStemAndExt(stem, ext);
  }

  /** `".TSX".toLowerCase()`. */
  lemma LowerOfUpperTsx()
    ensures ToLowerAscii(".TSX") == ".tsx"
  {
    var r := ToLowerAscii(".TSX");
    assert r[1] == ToLowerAsciiChar('T') == 't';
    assert r[2] == ToLowerAsciiChar('S') == 's';
    assert r[3] == ToLowerAsciiChar('X') == 'x';
  }

  /** The extensions the script names, and TypeScript for exactly the others. */
  lemma KindOfExtensionCases()
    ensures KindOfExtension(".tsx") == TSX && KindOfExtension(".jsx") == JSX
    ensures KindOfExtension(".js") == JS && KindOfExtension(".mjs") == JS && KindOfExtension(".cjs") == JS
    ensures forall ext :: KindOfExtension(ext) == TS <==> ext !in {".tsx", ".jsx", ".js", ".mjs", ".cjs"}
    ensures KindOfExtension(".ts") == TS && KindOfExtension(".json") == TS && KindOfExtension("") == TS
  {
    assert ".mjs"[1] == 'm' && ".cjs"[1] == 'c' && ".json"[1] == 'j' && ".json"[2] == 's';
  }

  /** An upper-case `.TSX` is TSX too. */
  lemma UpperTsxKind(stem: string)
    requires stem != [] && '/' !in stem
    ensures ScriptKindOf(stem + ".TSX") == TSX
  {
    ScriptKindOfStemAndExt(stem, ".TSX");
    LowerOfUpperTsx();
  }

  /** A dot file such as `.tsx` has no extension, so it is TypeScript. */
  lemma DotFileKind()
    ensures ScriptKindOf(".tsx") == TS
  {
    BasenameOfName(".tsx");
    LastDotAt(".tsx", 0);
  }
}

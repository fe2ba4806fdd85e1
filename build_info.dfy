/**
 * build-info.py: turns the build metadata files that the ModusToolbox SDK leaves in its build
 * directory (.cflags, .cxxflags, .ldflags, .ldlibs, the .ninja build file, the .elf.rsp linker
 * response file) into the flag lists the MicroPython build reads (.mpy_cflags, .mpy_ldflags, ...).
 *
 * Every handler takes the text of its input file and yields the one file it writes, whose content
 * is its tokens joined by single spaces and ended by a newline.
 */
module BuildInfo {
  import opened Wrappers
  import opened PyStr

  const DefaultMtbLibDir := "../../lib/mtb-psoc-edge-libs"
  const MtbPrjRelativeRootPath := ".."
  const DefaultMpyFlagsBuildDir := "../../lib/mtb-psoc-edge-libs/proj_cm33_ns/build/APP_KIT_PSE84_AI/Debug"
  const DefaultMtbLibPrjDir := "../../lib/mtb-psoc-edge-libs/proj_cm33_ns"

  /** The Python exceptions the handlers let escape. */
  datatype Error =
    | ValueError(missing: string)     // `list.index` did not find the element
    | IndexError                      // a list index past the end
    | UnboundLocalError(name: string) // a local read before any assignment
    | KeyError(key: string)           // a name missing from the dispatch table
    | Unmodelled(handler: string)     // a handler this model does not cover

  /** One file written: where, and its whole content. */
  datatype Output = Output(path: string, text: string)

  /** The content every handler writes: `" ".join(tokens) + "\n"`. */
  function Serialise(tokens: seq<string>): string {
    Join(tokens, " ") + "\n"
  }

  /** `os.path.join(DEFAULT_MPY_FLAGS_BUILD_DIR, name)` with `" ".join(tokens) + "\n"` as content. */
  function WriteFlags(name: string, tokens: seq<string>): Output {
    Output(PathJoin(DefaultMpyFlagsBuildDir, name), Serialise(tokens))
  }

  /** Every output name is a dot-file, so the build directory and the name are joined with one "/". */
  lemma WriteFlagsPath(name: string, tokens: seq<string>)
    requires StartsWith(name, ".")
    ensures WriteFlags(name, tokens).path == DefaultMpyFlagsBuildDir + "/" + name
  {
    assert !StartsWith(name, "/") by { assert name[..1] == "."; }
    var d := DefaultMpyFlagsBuildDir;
    assert !EndsWith(d, "/") by { assert d[|d| - 1..] == "g"; }
  }

  // ---------------------------------------------------------------------------------------------
  // get_c_cxx_flags

  /** Python's `xs[i:j]` for `0 <= i, j <= |xs|`: empty when `j <= i`. */
  function Slice(xs: seq<string>, i: nat, j: nat): seq<string>
    requires i <= |xs| && j <= |xs|
  {
    if i <= j then xs[i..j] else []
  }

  /** The compiler flags: what lies after the first "-c" and before the first "-MMD". */
  function CCxxFlags(tokens: seq<string>): Result<seq<string>, Error> {
    match IndexOf(tokens, "-c")
    case None => Failure(ValueError("-c"))
    case Some(c) =>
      match IndexOf(tokens, "-MMD")
      case None => Failure(ValueError("-MMD"))
      case Some(e) => Success(Slice(tokens, c + 1, e))
  }

  /** The output name chosen from the input's suffix; no branch assigns it for other names. */
  function CCxxOutName(file: string): Result<string, Error> {
    if EndsWith(file, ".cflags") then Success(".mpy_cflags")
    else if EndsWith(file, ".cxxflags") then Success(".mpy_cxxflags")
    else Failure(UnboundLocalError("out_file"))
  }

  /** get_c_cxx_flags(file) on the file's text `content`. */
  function GetCCxxFlags(file: string, content: string): Result<Output, Error> {
    var flags :- CCxxFlags(Split(content));
    var name :- CCxxOutName(file);
    Success(WriteFlags(name, flags))
  }

  /** With `c` and `e` the first positions of "-c" and "-MMD", the flags are `tokens[c+1:e]`. */
  lemma CCxxFlagsBetween(tokens: seq<string>, c: nat, e: nat)
    requires c < |tokens| && tokens[c] == "-c" && "-c" !in tokens[..c]
    requires e < |tokens| && tokens[e] == "-MMD" && "-MMD" !in tokens[..e]
    ensures CCxxFlags(tokens) == Success(if c < e then tokens[c + 1..e] else [])
    ensures "-MMD" !in CCxxFlags(tokens).value
    ensures e <= c ==> CCxxFlags(tokens).value == []
  {
    if c < e {
      assert forall k :: c + 1 <= k < e ==> tokens[c + 1..e][k - c - 1] == tokens[..e][k];
    }
  }

  /** The handler fails exactly when a sentinel is missing or the file has neither suffix. */
  lemma GetCCxxFlagsOutcome(file: string, content: string)
    ensures GetCCxxFlags(file, content).Success? <==>
      "-c" in Split(content) && "-MMD" in Split(content) && (EndsWith(file, ".cflags") || EndsWith(file, ".cxxflags"))
    ensures "-c" !in Split(content) ==> GetCCxxFlags(file, content) == Failure(ValueError("-c"))
    ensures "-c" in Split(content) && "-MMD" !in Split(content) ==>
      GetCCxxFlags(file, content) == Failure(ValueError("-MMD"))
    ensures "-c" in Split(content) && "-MMD" in Split(content) && !EndsWith(file, ".cflags") && !EndsWith(file, ".cxxflags") ==>
      GetCCxxFlags(file, content) == Failure(UnboundLocalError("out_file"))
  {
  }

  /** The file written by get_c_cxx_flags: its name follows the suffix, and its text splits back into the flags. */
  lemma GetCCxxFlagsWrites(file: string, content: string)
    requires GetCCxxFlags(file, content).Success?
    ensures GetCCxxFlags(file, content).value.path ==
      DefaultMpyFlagsBuildDir + "/" + (if EndsWith(file, ".cflags") then ".mpy_cflags" else ".mpy_cxxflags")
    ensures Split(GetCCxxFlags(file, content).value.text) == CCxxFlags(Split(content)).value
  {
    var tokens := Split(content);
    var flags := CCxxFlags(tokens).value;
    var name := CCxxOutName(file).value;
    assert GetCCxxFlags(file, content).value == WriteFlags(name, flags);
    WriteFlagsPath(name, flags);
    CCxxFlagsTokens(tokens);
    SplitJoinLine(flags);
  }

  /** The flags picked from split tokens are tokens themselves. */
  lemma CCxxFlagsTokens(tokens: seq<string>)
    requires AllTokens(tokens) && CCxxFlags(tokens).Success?
    ensures AllTokens(CCxxFlags(tokens).value)
  {
    var c := IndexOf(tokens, "-c").value;
    var e := IndexOf(tokens, "-MMD").value;
    var flags := CCxxFlags(tokens).value;
    if c + 1 <= e {
      assert forall k :: 0 <= k < |flags| ==> flags[k] == tokens[c + 1 + k];
    }
  }

  /** A compiler invocation, already split into tokens: the flags between "-c" and "-MMD". */
  lemma CCxxFlagsExample()
    ensures CCxxFlags(["armclang", "-c", "-mcpu=cortex", "foo.c", "-o", "foo.o", "-MMD", "-MF", "foo.d"])
         == Success(["-mcpu=cortex", "foo.c", "-o", "foo.o"])
  {
    var tokens := ["armclang", "-c", "-mcpu=cortex", "foo.c", "-o", "foo.o", "-MMD", "-MF", "foo.d"];
    assert "-c" !in tokens[..1] by { assert tokens[..1] == ["armclang"]; }
    assert "-MMD" !in tokens[..6] by { assert tokens[..6] == ["armclang", "-c", "-mcpu=cortex", "foo.c", "-o", "foo.o"]; }
    CCxxFlagsBetween(tokens, 1, 6);
    assert tokens[2..6] == ["-mcpu=cortex", "foo.c", "-o", "foo.o"];
  }

  // ---------------------------------------------------------------------------------------------
  // get_ldflags

  /** `[item for item in xs if item.startswith(p)]` */
  function FilterStartsWith(xs: seq<string>, p: string): (r: seq<string>)
    ensures |r| <= |xs|
    ensures forall k :: 0 <= k < |r| ==> r[k] in xs && StartsWith(r[k], p)
  {
    if xs == [] then []
    else (if StartsWith(xs[0], p) then [xs[0]] else []) + FilterStartsWith(xs[1..], p)
  }

  /** The position of the first element of `xs` that starts with `p`, if any. */
  function FirstStartingWith(xs: seq<string>, p: string): (r: Option<nat>)
    ensures r.Some? ==> r.value < |xs| && StartsWith(xs[r.value], p)
    ensures r.Some? ==> forall k :: 0 <= k < r.value ==> !StartsWith(xs[k], p)
    ensures r.None? ==> forall k :: 0 <= k < |xs| ==> !StartsWith(xs[k], p)
  {
    if xs == [] then None
    else if StartsWith(xs[0], p) then Some(0)
    else
      match FirstStartingWith(xs[1..], p)
      case None => None
      case Some(i) => Some(i + 1)
  }

  /** find_flags_end of get_ldflags: one past the position of the linker script (`-T...`) token. */
  function LinkScriptEnd(tokens: seq<string>): (r: Result<nat, Error>)
    ensures r.Success? ==> 0 < r.value <= |tokens|
  {
    var params := FilterStartsWith(tokens, "-T");
    if params == [] then Failure(IndexError)
    else Success(IndexOf(tokens, params[0]).value + 1)
  }

  /** The filtered list starts with the first element that starts with `p`, and is empty without one. */
  lemma {:induction false} FilterStartsWithFirst(xs: seq<string>, p: string)
    ensures FilterStartsWith(xs, p) == [] <==> FirstStartingWith(xs, p).None?
    ensures FirstStartingWith(xs, p).Some? ==> FilterStartsWith(xs, p)[0] == xs[FirstStartingWith(xs, p).value]
  {
    if xs != [] {
      FilterStartsWithFirst(xs[1..], p);
    }
  }

  /** The cut lies just after the first `-T...` token; there is none exactly when the cut fails. */
  lemma LinkScriptEndFirst(tokens: seq<string>)
    ensures LinkScriptEnd(tokens) ==
      match FirstStartingWith(tokens, "-T")
      case None => Failure(IndexError)
      case Some(k) => Success(k + 1)
  {
    FilterStartsWithFirst(tokens, "-T");
    match FirstStartingWith(tokens, "-T")
    case None =>
    case Some(k) =>
      var i := IndexOf(tokens, tokens[k]).value;
  }

  /**
   * replace_lib_search_path from position `i` on, over the list as it stands: a token equal to
   * "-L" at `i` (as earlier steps left it) has its successor rewritten when that starts with `prj`;
   * a final "-L" has no successor, which raises.
   */
  function LibSearchFrom(s: seq<string>, i: nat, lib: string, prj: string): (r: Result<seq<string>, Error>)
    requires i <= |s|
    ensures r.Success? ==> |r.value| == |s|
    ensures r.Failure? ==> r.error == IndexError
    decreases |s| - i
  {
    if i == |s| then Success(s)
    else if s[i] == "-L" then
      if i + 1 >= |s| then Failure(IndexError)
      else if StartsWith(s[i + 1], prj) then LibSearchFrom(s[i + 1 := Replace(s[i + 1], prj, lib)], i + 1, lib, prj)
      else LibSearchFrom(s, i + 1, lib, prj)
    else LibSearchFrom(s, i + 1, lib, prj)
  }

  function LibSearchPass(s: seq<string>, lib: string, prj: string): Result<seq<string>, Error> {
    LibSearchFrom(s, 0, lib, prj)
  }

  /** replace_lib_search_path: rewrites, in place, the path after each "-L". */
  method ReplaceLibSearchPath(a: array<string>, lib: string, prj: string) returns (r: Result<(), Error>)
    modifies a
    ensures r.Success? == LibSearchPass(old(a[..]), lib, prj).Success?
    ensures r.Success? ==> a[..] == LibSearchPass(old(a[..]), lib, prj).value
    ensures r.Failure? ==> r.error == IndexError
  {
    var i := 0;
    while i < a.Length
      invariant 0 <= i <= a.Length
      invariant LibSearchFrom(a[..], i, lib, prj) == LibSearchPass(old(a[..]), lib, prj)
    {
      if a[i] == "-L" {
        if i + 1 >= a.Length {
          return Failure(IndexError);
        }
        var path := a[i + 1];
        if StartsWith(path, prj) {
          a[i + 1] := Replace(path, prj, lib);
        }
      }
      i := i + 1;
    }
    return Success(());
  }

  /** `lib` and `prj` can neither turn a token into "-L" nor rewrite one that is "-L". */
  predicate KeepsFlags(lib: string, prj: string) {
    prj != "" && !StartsWith("-L", prj) && !StartsWith("-L", lib)
  }

  /** Token `k` after the "-L" pass, as the pairing `-L <path>` describes it. */
  function PairRewrite(s: seq<string>, k: nat, lib: string, prj: string): string
    requires k < |s|
  {
    if k > 0 && s[k - 1] == "-L" && StartsWith(s[k], prj) then Replace(s[k], prj, lib) else s[k]
  }

  function Paired(s: seq<string>, lib: string, prj: string): (r: seq<string>)
    ensures |r| == |s|
  {
    seq(|s|, k requires 0 <= k < |s| => PairRewrite(s, k, lib, prj))
  }

  lemma PairRewriteFlag(s: seq<string>, k: nat, lib: string, prj: string)
    requires KeepsFlags(lib, prj) && k < |s|
    ensures PairRewrite(s, k, lib, prj) == "-L" <==> s[k] == "-L"
  {
    if k > 0 && s[k - 1] == "-L" && StartsWith(s[k], prj) {
      ReplaceAtStart(s[k], prj, lib);
      assert s[k] != "-L";
    }
  }

  /** `t` is `s` with the pairing rewrite applied up to position `i` and nowhere after it. */
  predicate PairedUpTo(s: seq<string>, t: seq<string>, i: nat, lib: string, prj: string) {
    && |t| == |s| && i <= |s|
    && (forall k :: 0 <= k < |s| && k <= i ==> t[k] == PairRewrite(s, k, lib, prj))
    && (forall k :: i < k < |s| ==> t[k] == s[k])
  }

  lemma PairedUpToEnd(s: seq<string>, t: seq<string>, lib: string, prj: string)
    requires PairedUpTo(s, t, |s|, lib, prj)
    ensures t == Paired(s, lib, prj)
  {
  }

  /** One step of the pass at `i` extends the pairing rewrite to `i + 1`. */
  lemma PairedUpToNext(s: seq<string>, t: seq<string>, i: nat, lib: string, prj: string)
    requires KeepsFlags(lib, prj) && PairedUpTo(s, t, i, lib, prj) && i + 1 < |s|
    ensures t[i] == "-L" <==> s[i] == "-L"
    ensures t[i] == "-L" && StartsWith(t[i + 1], prj) ==>
      PairedUpTo(s, t[i + 1 := Replace(t[i + 1], prj, lib)], i + 1, lib, prj)
    ensures !(t[i] == "-L" && StartsWith(t[i + 1], prj)) ==> PairedUpTo(s, t, i + 1, lib, prj)
  {
    PairRewriteFlag(s, i, lib, prj);
    assert t[i + 1] == s[i + 1];
  }

  lemma {:induction false} LibSearchFromPaired(s: seq<string>, t: seq<string>, i: nat, lib: string, prj: string)
    requires KeepsFlags(lib, prj) && PairedUpTo(s, t, i, lib, prj)
    ensures LibSearchFrom(t, i, lib, prj) ==
      if i < |s| && s[|s| - 1] == "-L" then Failure(IndexError) else Success(Paired(s, lib, prj))
    decreases |s| - i
  {
    if i == |s| {
      PairedUpToEnd(s, t, lib, prj);
    } else if i + 1 == |s| {
      PairRewriteFlag(s, i, lib, prj);
      if t[i] != "-L" {
        assert PairedUpTo(s, t, |s|, lib, prj);
        PairedUpToEnd(s, t, lib, prj);
      }
    } else {
      PairedUpToNext(s, t, i, lib, prj);
      if t[i] == "-L" && StartsWith(t[i + 1], prj) {
        LibSearchFromPaired(s, t[i + 1 := Replace(t[i + 1], prj, lib)], i + 1, lib, prj);
      } else {
        LibSearchFromPaired(s, t, i + 1, lib, prj);
      }
    }
  }

  /**
   * When the paths keep flags intact, the "-L" pass rewrites exactly the token after each "-L"
   * that starts with `prj`, keeps the length, and fails exactly on a final "-L".
   */
  lemma LibSearchPairs(s: seq<string>, lib: string, prj: string)
    requires KeepsFlags(lib, prj)
    ensures LibSearchPass(s, lib, prj).Failure? <==> |s| > 0 && s[|s| - 1] == "-L"
    ensures LibSearchPass(s, lib, prj).Success? ==> LibSearchPass(s, lib, prj).value == Paired(s, lib, prj)
  {
    if s != [] {
      assert PairRewrite(s, 0, lib, prj) == s[0];
    }
    LibSearchFromPaired(s, s, 0, lib, prj);
  }

  /** The element-wise rewrite applied by the `-T`, link-library and `-I` loops. */
  function RewriteOne(x: string, p: string, pat: string, rep: string): string {
    if StartsWith(x, p) then Replace(x, pat, rep) else x
  }

  /**
   * The loops at lines 102-105, 129-132 and 177-180: each element that starts with `p` has every
   * occurrence of `pat` replaced by `rep`; the others stay as they are.
   */
  function RewriteTokens(xs: seq<string>, p: string, pat: string, rep: string): (r: seq<string>)
    ensures |r| == |xs|
  {
    if xs == [] then [] else [RewriteOne(xs[0], p, pat, rep)] + RewriteTokens(xs[1..], p, pat, rep)
  }

  /** `RewriteTokens` touches each position on its own: same length, element `k` from element `k`. */
  lemma {:induction false} RewriteTokensAt(xs: seq<string>, p: string, pat: string, rep: string)
    ensures |RewriteTokens(xs, p, pat, rep)| == |xs|
    ensures forall k :: 0 <= k < |xs| ==> RewriteTokens(xs, p, pat, rep)[k] == RewriteOne(xs[k], p, pat, rep)
  {
    if xs != [] {
      RewriteTokensAt(xs[1..], p, pat, rep);
      assert forall k :: 1 <= k < |xs| ==> RewriteTokens(xs, p, pat, rep)[k] == RewriteTokens(xs[1..], p, pat, rep)[k - 1];
    }
  }

  /** replace_linker_script_path: rewrites, in place, every `-T...` token. */
  method ReplaceLinkerScriptPath(a: array<string>, lib: string, prj: string)
    modifies a
    ensures a[..] == RewriteTokens(old(a[..]), "-T", prj, lib)
  {
    for i := 0 to a.Length
      invariant forall k :: 0 <= k < i ==> a[k] == RewriteOne(old(a[k]), "-T", prj, lib)
      invariant forall k :: i <= k < a.Length ==> a[k] == old(a[k])
    {
      if StartsWith(a[i], "-T") {
        a[i] := Replace(a[i], prj, lib);
      }
    }
    RewriteTokensAt(old(a[..]), "-T", prj, lib);
  }

  /** The linker flags: both rewrites over the whole list, then the cut after the `-T...` token. */
  function LdFlags(tokens: seq<string>, lib: string, prj: string): Result<seq<string>, Error> {
    var end :- LinkScriptEnd(tokens);
    var searched :- LibSearchPass(tokens, lib, prj);
    var scripted := RewriteTokens(searched, "-T", prj, lib);
    Success(scripted[..end])
  }

  function LdFlagsOutput(content: string, lib: string, prj: string): Result<Output, Error> {
    var flags :- LdFlags(Split(content), lib, prj);
    Success(WriteFlags(".mpy_ldflags", flags))
  }

  /** get_ldflags(file, mtb_lib_path, mtb_prj_path) on the file's text `content`. */
  method GetLdFlags(content: string, lib: string, prj: string) returns (r: Result<Output, Error>)
    ensures r == LdFlagsOutput(content, lib, prj)
  {
    var tokens := Split(content);
    var end :- LinkScriptEnd(tokens);
    var a := new string[|tokens|](k requires 0 <= k < |tokens| => tokens[k]);
    assert a[..] == tokens;
    var searched := ReplaceLibSearchPath(a, lib, prj);
    if searched.Failure? {
      return Failure(searched.error);
    }
    ReplaceLinkerScriptPath(a, lib, prj);
    r := Success(WriteFlags(".mpy_ldflags", a[..end]));
  }

  /**
   * The linker flags keep exactly the tokens up to and including the first `-T...` token, after
   * both rewrites; without such a token, or with a final "-L", the handler raises IndexError.
   */
  lemma LdFlagsCut(tokens: seq<string>, lib: string, prj: string)
    ensures LdFlags(tokens, lib, prj).Success? <==>
      FirstStartingWith(tokens, "-T").Some? && LibSearchPass(tokens, lib, prj).Success?
    ensures LdFlags(tokens, lib, prj).Failure? ==> LdFlags(tokens, lib, prj).error == IndexError
    ensures LdFlags(tokens, lib, prj).Success? ==>
      var k := FirstStartingWith(tokens, "-T").value;
      && |LdFlags(tokens, lib, prj).value| == k + 1
      && LdFlags(tokens, lib, prj).value
         == RewriteTokens(LibSearchPass(tokens, lib, prj).value, "-T", prj, lib)[..k + 1]
  {
    LinkScriptEndFirst(tokens);
  }

  /**
   * With paths that keep flags intact (the defaults do), token `j` of the linker flags is token
   * `j` of the input with the `-L <path>` rewrite and then the `-T` rewrite applied.
   */
  lemma LdFlagsPointwise(tokens: seq<string>, lib: string, prj: string)
    requires KeepsFlags(lib, prj)
    ensures LdFlags(tokens, lib, prj).Success? <==>
      FirstStartingWith(tokens, "-T").Some? && tokens[|tokens| - 1] != "-L"
    ensures LdFlags(tokens, lib, prj).Success? ==>
      var k := FirstStartingWith(tokens, "-T").value;
      var r := LdFlags(tokens, lib, prj).value;
      && |r| == k + 1
      && forall j :: 0 <= j <= k ==> r[j] == RewriteOne(PairRewrite(tokens, j, lib, prj), "-T", prj, lib)
  {
    LdFlagsCut(tokens, lib, prj);
    LibSearchPairs(tokens, lib, prj);
    if LdFlags(tokens, lib, prj).Success? {
      RewriteTokensAt(Paired(tokens, lib, prj), "-T", prj, lib);
    }
  }

  lemma DefaultsKeepFlags()
    ensures KeepsFlags(DefaultMtbLibDir, MtbPrjRelativeRootPath)
  {
    assert !StartsWith("-L", MtbPrjRelativeRootPath) by { assert "-L"[..2][0] == '-'; }
    assert !StartsWith("-L", DefaultMtbLibDir);
  }

  /**
   * The documented `-L` rewrite: a search path rooted at the project directory, with no further
   * occurrence of it, is re-rooted at the library directory (as `-L ../bsps/...` becomes
   * `-L ../../lib/mtb-psoc-edge-libs/bsps/...` with the default paths).
   */
  lemma LibSearchRootedPath(lib: string, prj: string, rest: string)
    requires KeepsFlags(lib, prj) && !Contains(rest, prj)
    ensures LibSearchPass(["-L", prj + rest], lib, prj) == Success(["-L", lib + rest])
  {
    ReplaceRooted(prj, rest, lib);
    StartsWithAppend(prj, rest);
    StartsWithAppend(lib, rest);
    var s := ["-L", prj + rest];
    var t := s[1 := lib + rest];
    assert t == ["-L", lib + rest];
    assert t[1] != "-L";
    assert LibSearchFrom(t, 2, lib, prj) == Success(t);
    assert LibSearchFrom(s, 0, lib, prj) == LibSearchFrom(t, 1, lib, prj);
  }

  /**
   * The documented `-T` rewrite: a linker script path rooted at the project directory is
   * re-rooted at the library directory, the `-T` prefix kept.
   */
  lemma LinkerScriptRootedPath(lib: string, prj: string, rest: string)
    requires prj != [] && prj[0] !in "-T" && !Contains(rest, prj)
    ensures RewriteTokens(["-T" + prj + rest], "-T", prj, lib) == ["-T" + lib + rest]
  {
    ReplaceRooted(prj, rest, lib);
    ReplaceSkipPrefix("-T", prj + rest, prj, lib);
    AppendAssoc("-T", prj, rest);
    AppendAssoc("-T", lib, rest);
    StartsWithAppend("-T", prj + rest);
    RewriteTokensAt(["-T" + prj + rest], "-T", prj, lib);
  }

  /** The board support path of the documented examples, below the project directory. */
  const DocBspDir := "/bsps/TARGET_APP_KIT_PSE84_AI/"

  /**
   * The documented `-L` example, with the default paths: `-L ../bsps/TARGET_APP_KIT_PSE84_AI/`
   * becomes `-L ../../lib/mtb-psoc-edge-libs/bsps/TARGET_APP_KIT_PSE84_AI/`.
   */
  lemma LibSearchDocExample()
    ensures LibSearchPass(["-L", MtbPrjRelativeRootPath + DocBspDir], DefaultMtbLibDir, MtbPrjRelativeRootPath)
         == Success(["-L", DefaultMtbLibDir + DocBspDir])
  {
    NotContainsAfter(DocBspDir, "", MtbPrjRelativeRootPath);
    EmptyAppendRight(DocBspDir);
    DefaultsKeepFlags();
    LibSearchRootedPath(DefaultMtbLibDir, MtbPrjRelativeRootPath, DocBspDir);
  }

  /** The linker script of the documented `-T` example. */
  const DocLinkerScript := "linker_script.ld"

  /** The script name holds no "..", so only the leading project directory is replaced. */
  lemma DocLinkerScriptPlain(script: string)
    requires script == DocLinkerScript
    ensures !Contains(script, MtbPrjRelativeRootPath)
  {
    var name := script[..13];
    var ext := script[13..];
    assert !Contains(ext, MtbPrjRelativeRootPath) by {
      assert ext[..2] == ".l";
      NotContainsAfter(ext[1..], "", MtbPrjRelativeRootPath);
      EmptyAppendRight(ext[1..]);
    }
    NotContainsAfter(name, ext, MtbPrjRelativeRootPath);
    assert name + ext == script;
  }

  /** The board support directory holds no '.', so no ".." starts inside it. */
  lemma DocBspDirPlain()
    ensures MtbPrjRelativeRootPath[0] !in DocBspDir
  {
  }

  lemma DocRestPlain(dir: string, script: string)
    requires dir == DocBspDir && script == DocLinkerScript
    ensures !Contains(dir + script, MtbPrjRelativeRootPath)
  {
    DocLinkerScriptPlain(script);
    DocBspDirPlain();
    NotContainsAfter(dir, script, MtbPrjRelativeRootPath);
  }

  /**
   * The documented `-T` example, with the default paths: `-T../bsps/TARGET_APP_KIT_PSE84_AI/linker_script.ld`
   * becomes `-T../../lib/mtb-psoc-edge-libs/bsps/TARGET_APP_KIT_PSE84_AI/linker_script.ld`.
   */
  lemma LinkerScriptDocExample(dir: string, script: string)
    requires dir == DocBspDir && script == DocLinkerScript
    ensures RewriteTokens(["-T" + MtbPrjRelativeRootPath + dir + script], "-T", MtbPrjRelativeRootPath, DefaultMtbLibDir)
         == ["-T" + DefaultMtbLibDir + dir + script]
  {
    DocRestPlain(dir, script);
    LinkerScriptRootedPath(DefaultMtbLibDir, MtbPrjRelativeRootPath, dir + script);
    AppendAssoc("-T" + MtbPrjRelativeRootPath, dir, script);
    AppendAssoc("-T" + DefaultMtbLibDir, dir, script);
  }

  // ---------------------------------------------------------------------------------------------
  // get_ldlibs

  function LdLibsOutput(content: string, lib: string, prj: string): Output {
    WriteFlags(".mpy_ldlibs", RewriteTokens(Split(content), prj, prj, lib))
  }

  /** get_ldlibs(file, mtb_lib_path, mtb_prj_path) on the file's text `content`. */
  method GetLdLibs(content: string, lib: string, prj: string) returns (out: Output)
    ensures out == LdLibsOutput(content, lib, prj)
  {
    var libs := Split(content);
    libs := RewriteEach(libs, prj, prj, lib);
    out := WriteFlags(".mpy_ldlibs", libs);
  }

  /** Rewriting tokens element-wise with a replacement that is itself a token yields tokens. */
  lemma RewriteTokensKeepTokens(xs: seq<string>, p: string, pat: string, rep: string)
    requires AllTokens(xs) && IsToken(rep)
    ensures AllTokens(RewriteTokens(xs, p, pat, rep))
  {
    RewriteTokensAt(xs, p, pat, rep);
    forall k | 0 <= k < |xs|
      ensures IsToken(RewriteTokens(xs, p, pat, rep)[k])
    {
      ReplaceNoSpace(xs[k], pat, rep);
    }
  }

  /**
   * The file written by get_ldlibs splits back into the input's tokens, in order and as many:
   * those starting with `prj` have every occurrence of it replaced by `lib`, the others are kept.
   */
  lemma LdLibsWrites(content: string, lib: string, prj: string)
    requires IsToken(lib)
    ensures LdLibsOutput(content, lib, prj).path == DefaultMpyFlagsBuildDir + "/.mpy_ldlibs"
    ensures
      var ts := Split(content);
      var r := Split(LdLibsOutput(content, lib, prj).text);
      && |r| == |ts|
      && forall k :: 0 <= k < |ts| ==> r[k] == (if StartsWith(ts[k], prj) then Replace(ts[k], prj, lib) else ts[k])
  {
    var ts := Split(content);
    var libs := RewriteTokens(ts, prj, prj, lib);
    assert LdLibsOutput(content, lib, prj) == WriteFlags(".mpy_ldlibs", libs);
    RewriteTokensKeepTokens(ts, prj, prj, lib);
    WriteFlagsPath(".mpy_ldlibs", libs);
    SplitJoinLine(libs);
    RewriteTokensAt(ts, prj, prj, lib);
  }

  // ---------------------------------------------------------------------------------------------
  // get_inclist

  const IncStart := "incflags = $"
  const IncLine := "$ -I"
  const IncPrefix := "-I" + DefaultMtbLibPrjDir + "/"

  /** A stripped line that closes the block: empty, or a definition that is no `$ -I` line. */
  predicate EndsBlock(line: string) {
    line == "" || (line != "" && !StartsWith(line, IncLine) && Contains(line, "="))
  }

  /** `line[4:].rstrip('$').strip()` */
  function IncludePath(line: string): string
    requires |line| >= 4
  {
    Strip(RStripChar(line[4..], '$'))
  }

  /** The entry a stripped `$ -I` line contributes, if its path is not empty. */
  function Entry(line: string): seq<string>
    requires StartsWith(line, IncLine)
  {
    var p := IncludePath(line);
    if p != "" then ["-I" + p] else []
  }

  /** The loop of lines 150-168 over the remaining `lines`, `inSection` being its flag. */
  function IncScan(lines: seq<string>, inSection: bool): (r: seq<string>)
    decreases |lines|
  {
    if lines == [] then []
    else
      var line := Strip(lines[0]);
      if StartsWith(line, IncStart) then IncScan(lines[1..], true)
      else if inSection && EndsBlock(line) then []
      else if inSection && StartsWith(line, IncLine) then Entry(line) + IncScan(lines[1..], inSection)
      else IncScan(lines[1..], inSection)
  }

  /** Reference reading of a block's body: the entries of its `$ -I` lines, in order. */
  function Entries(lines: seq<string>): seq<string> {
    if lines == [] then []
    else
      var line := Strip(lines[0]);
      (if StartsWith(line, IncLine) then Entry(line) else []) + Entries(lines[1..])
  }

  function IncListTokens(content: string): seq<string> {
    RewriteTokens(IncScan(ReadLines(content), false), "-I", "-I", IncPrefix)
  }

  function IncListOutput(content: string): Output {
    WriteFlags(".mpy_inclist", IncListTokens(content))
  }

  /** One step of the scan, at line `i`. */
  lemma IncScanAt(lines: seq<string>, i: nat, inSection: bool)
    requires i < |lines|
    ensures IncScan(lines[i..], inSection) ==
      var line := Strip(lines[i]);
      if StartsWith(line, IncStart) then IncScan(lines[i + 1..], true)
      else if inSection && EndsBlock(line) then []
      else if inSection && StartsWith(line, IncLine) then Entry(line) + IncScan(lines[i + 1..], inSection)
      else IncScan(lines[i + 1..], inSection)
  {
    assert lines[i..][1..] == lines[i + 1..];
  }

  /** The loop of lines 150-168: the entries collected from the file's lines. */
  method CollectIncFlags(lines: seq<string>) returns (incList: seq<string>)
    ensures incList == IncScan(lines, false)
  {
    incList := [];
    var inSection := false;
    var i := 0;
    assert lines[i..] == lines;
    while i < |lines|
      invariant 0 <= i <= |lines|
      invariant incList + IncScan(lines[i..], inSection) == IncScan(lines, false)
    {
      var line := Strip(lines[i]);
      IncScanAt(lines, i, inSection);
      i := i + 1;
      if StartsWith(line, IncStart) {
        inSection := true;
        continue;
      }
      if inSection && (line == "" || (line != "" && !StartsWith(line, IncLine) && Contains(line, "="))) {
        assert incList == IncScan(lines, false);
        break;
      }
      if inSection && StartsWith(line, IncLine) {
        var includePath := IncludePath(line);
        if includePath != "" {
          AppendAssoc(incList, ["-I" + includePath], IncScan(lines[i..], inSection));
          incList := incList + ["-I" + includePath];
        } else {
          assert Entry(line) + IncScan(lines[i..], inSection) == IncScan(lines[i..], inSection);
        }
      }
    }
  }

  /** The loops at lines 129-132 and 177-180 over a list: the element-wise rewrite, in place. */
  method RewriteEach(xs: seq<string>, p: string, pat: string, rep: string) returns (ys: seq<string>)
    ensures ys == RewriteTokens(xs, p, pat, rep)
  {
    ys := xs;
    for i := 0 to |ys|
      invariant |ys| == |xs|
      invariant forall k :: 0 <= k < i ==> ys[k] == RewriteOne(xs[k], p, pat, rep)
      invariant forall k :: i <= k < |ys| ==> ys[k] == xs[k]
    {
      if StartsWith(ys[i], p) {
        ys := ys[i := Replace(ys[i], pat, rep)];
      }
    }
    RewriteTokensAt(xs, p, pat, rep);
    assert ys == RewriteTokens(xs, p, pat, rep);
  }

  /** get_inclist(file) on the file's text `content`. */
  method GetIncList(content: string) returns (out: Output)
    ensures out == IncListOutput(content)
  {
    var lines := ReadLines(content);
    var incList := CollectIncFlags(lines);
    incList := RewriteEach(incList, "-I", "-I", IncPrefix);
    out := WriteFlags(".mpy_inclist", incList);
  }

  /** Before a line opening the block nothing is collected: the scan restarts after that line. */
  lemma {:induction false} IncScanSkipsToStart(lines: seq<string>, k: nat)
    requires k < |lines| && StartsWith(Strip(lines[k]), IncStart)
    requires forall j :: 0 <= j < k ==> !StartsWith(Strip(lines[j]), IncStart)
    ensures IncScan(lines, false) == IncScan(lines[k + 1..], true)
  {
    var rest := lines[1..];
    assert rest[k..] == lines[k + 1..];
    if k > 0 {
      assert !StartsWith(Strip(lines[0]), IncStart);
      assert IncScan(lines, false) == IncScan(rest, false);
      forall j | 0 <= j < k - 1
        ensures !StartsWith(Strip(rest[j]), IncStart)
      {
        assert rest[j] == lines[j + 1];
      }
      assert rest[k - 1] == lines[k];
      IncScanSkipsToStart(rest, k - 1);
    }
  }

  /** Without a line opening the block the list is empty. */
  lemma {:induction false} IncScanNoBlock(lines: seq<string>)
    requires forall j :: 0 <= j < |lines| ==> !StartsWith(Strip(lines[j]), IncStart)
    ensures IncScan(lines, false) == []
  {
    if lines != [] {
      IncScanNoBlock(lines[1..]);
    }
  }

  /** Inside the block, collection runs up to the first closing line (or the end). */
  lemma {:induction false} IncScanInBlock(lines: seq<string>, m: nat)
    requires m <= |lines|
    requires forall j :: 0 <= j < m ==> StartsWith(Strip(lines[j]), IncStart) || !EndsBlock(Strip(lines[j]))
    requires m < |lines| ==> !StartsWith(Strip(lines[m]), IncStart) && EndsBlock(Strip(lines[m]))
    ensures IncScan(lines, true) == Entries(lines[..m])
  {
    if lines != [] && m > 0 {
      var rest := lines[1..];
      forall j | 0 <= j < m - 1
        ensures StartsWith(Strip(rest[j]), IncStart) || !EndsBlock(Strip(rest[j]))
      {
        assert rest[j] == lines[j + 1];
      }
      if m < |lines| {
        assert rest[m - 1] == lines[m];
      }
      IncScanInBlock(rest, m - 1);
      var body := lines[..m];
      TakeTail(lines, m);
      var line := Strip(lines[0]);
      var tail := Entries(body[1..]);
      IncScanAt(lines, 0, true);
      assert lines[0..] == lines;
      if StartsWith(line, IncStart) {
        OpeningIsNoInclude(line);
        EmptyAppend([], tail);
      } else if StartsWith(line, IncLine) {
        assert Entries(body) == Entry(line) + tail;
      } else {
        EmptyAppend([], tail);
      }
    }
  }

  /** The line opening the block is no `$ -I` line. */
  lemma OpeningIsNoInclude(line: string)
    requires StartsWith(line, IncStart)
    ensures !StartsWith(line, IncLine)
  {
    assert line[0] == line[..|IncStart|][0] == 'i';
    assert line[..|IncLine|][0] == 'i';
  }

  /**
   * Nothing before the first line opening the block counts; the entries are those of the `$ -I`
   * lines after it, up to the first closing line that follows it (or the end of the file).
   */
  lemma {:induction false} IncScanBlock(lines: seq<string>, k: nat, m: nat)
    requires k < m <= |lines|
    requires StartsWith(Strip(lines[k]), IncStart)
    requires forall j :: 0 <= j < k ==> !StartsWith(Strip(lines[j]), IncStart)
    requires forall j :: k < j < m ==> StartsWith(Strip(lines[j]), IncStart) || !EndsBlock(Strip(lines[j]))
    requires m < |lines| ==> !StartsWith(Strip(lines[m]), IncStart) && EndsBlock(Strip(lines[m]))
    ensures IncScan(lines, false) == Entries(lines[k + 1..m])
  {
    var rest := lines[k + 1..];
    var n := m - k - 1;
    assert rest[..n] == lines[k + 1..m];
    IncScanSkipsToStart(lines, k);
    if n < |rest| {
      assert rest[n] == lines[m];
    }
    forall j | 0 <= j < n
      ensures StartsWith(Strip(rest[j]), IncStart) || !EndsBlock(Strip(rest[j]))
    {
      assert rest[j] == lines[k + 1 + j];
    }
    IncScanInBlock(rest, n);
  }

  /** Every element is "-I" followed by a non-empty path. */
  predicate IncludeFlags(xs: seq<string>) {
    forall k :: 0 <= k < |xs| ==> StartsWith(xs[k], "-I") && |xs[k]| > 2
  }

  lemma IncludeFlagsAppend(xs: seq<string>, ys: seq<string>)
    requires IncludeFlags(xs) && IncludeFlags(ys)
    ensures IncludeFlags(xs + ys)
  {
    forall k | 0 <= k < |xs + ys|
      ensures StartsWith((xs + ys)[k], "-I") && |(xs + ys)[k]| > 2
    {
      if k >= |xs| {
        assert (xs + ys)[k] == ys[k - |xs|];
      }
    }
  }

  /** Every collected entry is "-I" followed by a non-empty path. */
  lemma {:induction false} IncScanEntries(lines: seq<string>, inSection: bool)
    ensures IncludeFlags(IncScan(lines, inSection))
    decreases |lines|
  {
    if lines != [] {
      var line := Strip(lines[0]);
      var rest := lines[1..];
      if StartsWith(line, IncStart) {
        IncScanEntries(rest, true);
      } else if inSection && EndsBlock(line) {
      } else if inSection && StartsWith(line, IncLine) {
        IncScanEntries(rest, inSection);
        var e := Entry(line);
        assert IncludeFlags(e) by {
          if e != [] {
            assert e[0][..2] == "-I";
          }
        }
        IncludeFlagsAppend(e, IncScan(rest, inSection));
      } else {
        IncScanEntries(rest, inSection);
      }
    }
  }

  /** After the rewrite every entry starts with "-I" and the library project directory. */
  lemma IncListPrefixed(content: string)
    ensures |IncListTokens(content)| == |IncScan(ReadLines(content), false)|
    ensures forall k :: 0 <= k < |IncListTokens(content)| ==> StartsWith(IncListTokens(content)[k], IncPrefix)
  {
    var collected := IncScan(ReadLines(content), false);
    IncScanEntries(ReadLines(content), false);
    RewriteTokensAt(collected, "-I", "-I", IncPrefix);
    forall k | 0 <= k < |collected|
      ensures StartsWith(IncListTokens(content)[k], IncPrefix)
    {
      ReplaceAtStart(collected[k], "-I", IncPrefix);
    }
  }

  // ---------------------------------------------------------------------------------------------
  // get_objlist

  const LibMarker := "/lib/mtb-psoc-edge-libs/"
  const LibRelPrefix := "../../lib/mtb-psoc-edge-libs/"

  predicate IsMainObject(t: string) {
    EndsWith(t, "/main.o") || t == "main.o"
  }

  /** The path rewrite of lines 212-227 for one object file. */
  function ObjRewrite(t: string): string {
    if StartsWith(t, "/") then
      if Contains(t, LibMarker) then
        var parts := SplitOn(t, LibMarker);
        if |parts| > 1 then LibRelPrefix + parts[1] else t
      else t
    else if StartsWith(t, "../") then LibRelPrefix + t[3..]
    else t
  }

  /** What one stripped token `t` adds to the list: nothing when empty or a main object. */
  function ObjKept(t: string): seq<string> {
    if t == "" || IsMainObject(t) then []
    else if ObjRewrite(t) != "" then [ObjRewrite(t)]
    else []
  }

  /** The loop of lines 202-231 over the remaining `tokens`. */
  function ObjList(tokens: seq<string>): (r: seq<string>)
    ensures |r| <= |tokens|
  {
    if tokens == [] then [] else ObjKept(Strip(tokens[0])) + ObjList(tokens[1..])
  }

  function ObjListOutput(content: string): Output {
    WriteFlags(".mpy_objlist", ObjList(Split(Strip(content))))
  }

  /** One step of the loop, at token `i`. */
  lemma ObjListAt(tokens: seq<string>, i: nat)
    requires i < |tokens|
    ensures ObjList(tokens[i..]) == ObjKept(Strip(tokens[i])) + ObjList(tokens[i + 1..])
  {
    assert tokens[i..][1..] == tokens[i + 1..];
  }

  /** get_objlist(file) on the file's text `content`. */
  method GetObjList(content: string) returns (out: Output)
    ensures out == ObjListOutput(content)
  {
    var objFiles := Split(Strip(content));
    var objList: seq<string> := [];
    assert objFiles[0..] == objFiles;
    for i := 0 to |objFiles|
      invariant objList + ObjList(objFiles[i..]) == ObjList(objFiles)
    {
      ObjListAt(objFiles, i);
      var objFile := Strip(objFiles[i]);
      ghost var t := objFile;
      ghost var tail := ObjList(objFiles[i + 1..]);
      if objFile == "" {
        assert ObjKept(t) + tail == tail;
        continue;
      }
      if IsMainObject(objFile) {
        assert ObjKept(t) + tail == tail;
        continue;
      }
      objFile := ObjRewrite(objFile);
      if objFile != "" {
        AppendAssoc(objList, [objFile], tail);
        objList := objList + [objFile];
      } else {
        assert ObjKept(t) + tail == tail;
      }
    }
    assert objFiles[|objFiles|..] == [];
    assert objList == ObjList(objFiles);
    out := WriteFlags(".mpy_objlist", objList);
  }

  /** `[t for t in tokens if not main.o]`, the reference filter. */
  function DropMain(tokens: seq<string>): (r: seq<string>)
    ensures |r| <= |tokens|
    ensures forall k :: 0 <= k < |r| ==> r[k] in tokens && !IsMainObject(r[k])
  {
    if tokens == [] then []
    else (if IsMainObject(tokens[0]) then [] else [tokens[0]]) + DropMain(tokens[1..])
  }

  function MapRewrite(tokens: seq<string>): (r: seq<string>)
    ensures |r| == |tokens|
  {
    seq(|tokens|, k requires 0 <= k < |tokens| => ObjRewrite(tokens[k]))
  }

  /** A non-empty path stays non-empty under the rewrite, so the check at line 230 keeps it. */
  lemma ObjRewriteNonEmpty(t: string)
    requires t != ""
    ensures ObjRewrite(t) != ""
  {
    assert |LibRelPrefix| > 0;
  }

  /** Filtering and then rewriting adds to the front what the loop keeps for the first token. */
  lemma {:induction false} MapRewriteDropCons(tokens: seq<string>)
    requires tokens != [] && tokens[0] != ""
    ensures MapRewrite(DropMain(tokens)) == ObjKept(tokens[0]) + MapRewrite(DropMain(tokens[1..]))
  {
    var t := tokens[0];
    var d := DropMain(tokens[1..]);
    if IsMainObject(t) {
      assert DropMain(tokens) == [] + d;
      EmptyAppend(ObjKept(t), MapRewrite(d));
    } else {
      ObjRewriteNonEmpty(t);
      assert ObjKept(t) == [ObjRewrite(t)];
      assert DropMain(tokens) == [t] + d;
      MapRewriteCons(t, d);
    }
  }

  lemma MapRewriteCons(t: string, d: seq<string>)
    ensures MapRewrite([t] + d) == [ObjRewrite(t)] + MapRewrite(d)
  {
  }

  /** Tokens that `strip()` leaves alone and that are not empty, as `str.split()` yields them. */
  predicate Stripped(tokens: seq<string>) {
    forall k :: 0 <= k < |tokens| ==> tokens[k] != "" && Strip(tokens[k]) == tokens[k]
  }

  lemma SplitStripped(s: string)
    ensures Stripped(Split(s))
  {
    var ts := Split(s);
    forall k | 0 <= k < |ts|
      ensures ts[k] != "" && Strip(ts[k]) == ts[k]
    {
      StripNoSpace(ts[k]);
    }
  }

  /** On such tokens the object list is: drop the main objects, then rewrite each path, in order. */
  lemma {:induction false} ObjListFilterMap(tokens: seq<string>)
    requires Stripped(tokens)
    ensures ObjList(tokens) == MapRewrite(DropMain(tokens))
  {
    if tokens != [] {
      var t := tokens[0];
      var rest := tokens[1..];
      assert Stripped(rest) by {
        forall k | 0 <= k < |rest|
          ensures rest[k] != "" && Strip(rest[k]) == rest[k]
        {
          assert rest[k] == tokens[k + 1];
        }
      }
      ObjListFilterMap(rest);
      assert ObjList(tokens) == ObjKept(t) + ObjList(rest);
      MapRewriteDropCons(tokens);
    }
  }

  /**
   * An absolute path holding the marker once, as `a + marker + b`, becomes the library-relative
   * prefix followed by `b`, the part after the marker.
   */
  lemma ObjRewriteAbsolute(a: string, b: string)
    requires StartsWith(a + LibMarker + b, "/")
    requires forall i :: 0 <= i < |a| ==> !StartsWith((a + LibMarker + b)[i..], LibMarker)
    requires !Contains(b, LibMarker)
    ensures ObjRewrite(a + LibMarker + b) == LibRelPrefix + b
  {
    var t := a + LibMarker + b;
    assert t == a + (LibMarker + b);
    SplitOnSkip(a, LibMarker + b, LibMarker);
    assert StartsWith(LibMarker + b, LibMarker);
    assert (LibMarker + b)[|LibMarker|..] == b;
    SplitOnAbsent(b, LibMarker);
    var m := SplitOn(LibMarker + b, LibMarker);
    assert m == [""] + SplitOn(b, LibMarker) == ["", b];
    assert a + m[0] == a;
    assert SplitOn(t, LibMarker) == [a, b];
    SplitOnHasSecond(t, LibMarker);
  }

  /** A relative `../` path is re-rooted under the library directory. */
  lemma ObjRewriteRelative(t: string)
    requires StartsWith(t, "../")
    ensures ObjRewrite(t) == LibRelPrefix + t[3..]
  {
    assert !StartsWith(t, "/") by { assert t[0] == '.'; }
  }

  // ---------------------------------------------------------------------------------------------
  // flags_func and build_info

  /** The handlers of the dispatch table; "cflags" and "cxxflags" share one. */
  datatype Handler = CCxxFlagsHandler | LdFlagsHandler | LdLibsHandler | IncListHandler | ObjListHandler | AllFlagsHandler

  /** `flags_func[name]`: `None` where the lookup raises KeyError. */
  function FlagsFunc(name: string): (h: Option<Handler>)
    ensures h.Some? <==> name in ["cflags", "cxxflags", "ldflags", "ldlibs", "inclist", "objlist", "all"]
    ensures h == Some(CCxxFlagsHandler) <==> name == "cflags" || name == "cxxflags"
  {
    if name == "cflags" || name == "cxxflags" then Some(CCxxFlagsHandler)
    else if name == "ldflags" then Some(LdFlagsHandler)
    else if name == "ldlibs" then Some(LdLibsHandler)
    else if name == "inclist" then Some(IncListHandler)
    else if name == "objlist" then Some(ObjListHandler)
    else if name == "all" then Some(AllFlagsHandler)
    else None
  }

  /** build_info(type, file): runs the handler the table names on `file`, whose text is `content`. */
  method BuildInfo(name: string, file: string, content: string) returns (r: Result<Output, Error>)
    ensures FlagsFunc(name).None? ==> r == Failure(KeyError(name))
    ensures name == "cflags" || name == "cxxflags" ==> r == GetCCxxFlags(file, content)
    ensures name == "ldflags" ==> r == LdFlagsOutput(content, DefaultMtbLibDir, MtbPrjRelativeRootPath)
    ensures name == "ldlibs" ==> r == Success(LdLibsOutput(content, DefaultMtbLibDir, MtbPrjRelativeRootPath))
    ensures name == "inclist" ==> r == Success(IncListOutput(content))
    ensures name == "objlist" ==> r == Success(ObjListOutput(content))
    ensures name == "all" ==> r == Failure(Unmodelled("get_all_flags"))
  {
    match FlagsFunc(name)
    case None =>
      r := Failure(KeyError(name));
    case Some(CCxxFlagsHandler) =>
      r := GetCCxxFlags(file, content);
    case Some(LdFlagsHandler) =>
      r := GetLdFlags(content, DefaultMtbLibDir, MtbPrjRelativeRootPath);
    case Some(LdLibsHandler) =>
      var out := GetLdLibs(content, DefaultMtbLibDir, MtbPrjRelativeRootPath);
      r := Success(out);
    case Some(IncListHandler) =>
      var out := GetIncList(content);
      r := Success(out);
    case Some(ObjListHandler) =>
      var out := GetObjList(content);
      r := Success(out);
    case Some(AllFlagsHandler) =>
      r := Failure(Unmodelled("get_all_flags"));
  }
}

# build-info.py in Dafny

`build-info.py` is the build script of the MicroPython port for Infineon PSoC Edge. It reads the
metadata files that a ModusToolbox build leaves in its build directory and writes the flag
lists that the MicroPython build consumes:

- `.cflags` and `.cxxflags` become `.mpy_cflags` and `.mpy_cxxflags`;
- `.ldflags` becomes `.mpy_ldflags`;
- `.ldlibs` becomes `.mpy_ldlibs`;
- the `incflags` block of the `.ninja` file becomes `.mpy_inclist`;
- the `.elf.rsp` response file becomes `.mpy_objlist`.

Every handler writes `" ".join(tokens) + "\n"`. A dispatch table, `flags_func`, selects the
handler by name.

The model takes the text of a handler's input file as a parameter. It returns the file the
handler writes as an `Output(path, text)` value, or the Python exception the handler raises as
an `Error`.

The project has three files:

- `wrappers.dfy` (module `Wrappers`): `Option` and `Result`.
- `pystr.dfy` (module `PyStr`): the Python built-ins the script relies on, over `seq<char>`:
  - `str.split()`, `strip()` and `rstrip('$')`;
  - `startswith`, `endswith` and `in`;
  - `str.replace` (all occurrences) and `str.split(sep)`;
  - `" ".join`, `list.index` and `readlines()`;
  - POSIX `os.path.join`.

  `str.split()` and `strip()` use Python's full set of whitespace characters.
- `build_info.dfy` (module `BuildInfo`): the six handlers and the dispatch.

The model follows the shape of the code:

- The index lookups, the slice and the list comprehension are functions.
- The in-place `enumerate` loops of `replace_lib_search_path` and `replace_linker_script_path`
  are methods over an `array<string>`.
- The loops of `get_ldlibs`, `get_inclist` and `get_objlist` are methods with loop invariants.
  Each is proved equal to a specification function. Lemmas then state the properties of those
  functions.

Where the script's own comments describe it differently, the model follows the code:

- Project paths are rewritten with `str.replace`, which replaces every occurrence rather than
  only a leading one. This holds for the `-L` and `-T` rewrites, the link libraries and the
  `-I` entries.
- Object paths are rewritten by splitting on the marker `/lib/mtb-psoc-edge-libs/`, not
  computed relative to a directory.
- The `-L` rewrite runs over the whole linker command before the cut after the `-T` token. A
  trailing `-L` therefore raises `IndexError` even when it lies after the cut.
- In `replace_lib_search_path` the enumeration sees the list as earlier steps left it.
  `LibSearchFrom` reads each token from the current list, in the same way.
- For a file with neither suffix, `get_c_cxx_flags` raises `UnboundLocalError` at line 38. By
  then the index lookups have already succeeded.

## Model

| member | source | states |
|---|---|---|
| PyStr.Split | build-info.py:26 | `str.split()` yields non-empty pieces free of whitespace |
| PyStr.Join | build-info.py:39 | `sep.join(parts)`; `SplitJoinLine`, `JoinSplitOn` and `ReplaceIsJoinSplit` state its meaning |
| PyStr.StartsWith | build-info.py:56 | `s.startswith(p)`: `p` is a prefix of `s` |
| PyStr.EndsWith | build-info.py:33-35 | `s.endswith(p)`: `p` is a suffix of `s` |
| PyStr.Contains | build-info.py:214 | `p in s`: `p` starts at some position of `s`; `SplitOnHasSecond` ties it to `split(sep)` |
| PyStr.NotContainsAfter | build-info.py:82 | a pattern cannot start inside a prefix that lacks its first character |
| PyStr.LStrip | build-info.py:152 | `lstrip()` keeps a suffix that does not start with whitespace; `LStripRemoves` says only whitespace goes |
| PyStr.RStrip | build-info.py:152 | `rstrip()` keeps a prefix that does not end with whitespace; `RStripRemoves` says only whitespace goes |
| PyStr.Strip | build-info.py:203 | `strip()` as `rstrip()` after `lstrip()`; `StripNoSpace` gives its effect on tokens |
| PyStr.SplitJoinLine | build-info.py:39 | splitting `" ".join(ts) + "\n"` gives back `ts` when `ts` are whitespace-free tokens |
| PyStr.LStripRemoves | build-info.py:152 | `lstrip()` keeps a suffix and removes only whitespace |
| PyStr.RStripRemoves | build-info.py:152 | `rstrip()` keeps a prefix and removes only whitespace |
| PyStr.RStripChar | build-info.py:166 | `rstrip('$')` keeps a prefix that does not end in `$` |
| PyStr.RStripCharRemoves | build-info.py:166 | what `rstrip('$')` removes is a run of `$` only |
| PyStr.StripNoSpace | build-info.py:203 | `strip()` leaves a token from `split()` unchanged |
| PyStr.Replace | build-info.py:82 | `str.replace`: every non-overlapping occurrence, left to right; `ReplaceIsJoinSplit` ties it to `rep.join(s.split(pat))` |
| PyStr.ReplaceIsJoinSplit | build-info.py:104 | `s.replace(pat, rep) == rep.join(s.split(pat))` for every string and non-empty pattern |
| PyStr.ReplaceAbsent | build-info.py:82 | `replace` of a non-empty pattern absent from the string changes nothing |
| PyStr.ReplaceRooted | build-info.py:82 | a string made of the pattern and a rest free of it becomes the replacement followed by that rest |
| PyStr.ReplaceSkipPrefix | build-info.py:104 | a prefix holding no first character of the pattern passes through `replace` unchanged |
| PyStr.ReplaceAtStart | build-info.py:179 | a string starting with the pattern starts, once replaced, with the replacement |
| PyStr.ReplaceNoSpace | build-info.py:131 | `replace` with a whitespace-free replacement keeps a token a token |
| PyStr.SplitOn | build-info.py:216 | `s.split(sep)` for a non-empty separator: at least one piece; `JoinSplitOn` says the pieces join back to `s` |
| PyStr.JoinSplitOn | build-info.py:216 | `sep.join(s.split(sep)) == s` |
| PyStr.SplitOnHasSecond | build-info.py:214-217 | `s.split(sep)` has a second piece exactly when `sep in s` |
| PyStr.SplitOnSkip | build-info.py:216 | a prefix in which no separator starts becomes part of the first piece |
| PyStr.SplitOnAbsent | build-info.py:216 | without the separator, `split(sep)` yields the string itself |
| PyStr.IndexOf | build-info.py:21-24 | `list.index`: the first position of the element, and `None` exactly when it is absent |
| PyStr.ReadLines | build-info.py:147 | `readlines()`: the lines concatenate back to the text |
| PyStr.ReadLinesShape | build-info.py:147 | every line is non-empty and holds `\n` only as its last character; every line but the last ends in `\n` |
| PyStr.PathJoin | build-info.py:38 | `os.path.join(a, b)` ends with `b` |
| BuildInfo.Serialise | build-info.py:39 | the content written, `" ".join(tokens) + "\n"`; `SplitJoinLine` says it splits back into the tokens |
| BuildInfo.WriteFlags | build-info.py:38-39 | the output file: its path and content; `WriteFlagsPath` gives the path |
| BuildInfo.WriteFlagsPath | build-info.py:38-39 | each output file lies in `DEFAULT_MPY_FLAGS_BUILD_DIR`, joined with one `/` |
| BuildInfo.Slice | build-info.py:30 | Python's `xs[i:j]`, empty when `j <= i` |
| BuildInfo.CCxxFlags | build-info.py:20-30 | the two index lookups and the slice; `CCxxFlagsBetween` and `GetCCxxFlagsOutcome` state its result and errors |
| BuildInfo.CCxxOutName | build-info.py:32-36 | the output name from the suffix, UnboundLocalError when no branch assigns it; `GetCCxxFlagsOutcome` and `GetCCxxFlagsWrites` state it |
| BuildInfo.GetCCxxFlags | build-info.py:14-39 | the handler; `GetCCxxFlagsOutcome` and `GetCCxxFlagsWrites` state its outcome and the file it writes |
| BuildInfo.CCxxFlagsBetween | build-info.py:20-30 | the flags are `tokens[c+1:e]` for the first `-c` and first `-MMD`; they hold no `-MMD` and are empty when `-MMD` comes at or before `-c` |
| BuildInfo.GetCCxxFlagsOutcome | build-info.py:20-38 | the handler succeeds exactly when both sentinels are present and the name ends in `.cflags` or `.cxxflags`; a missing `-c`, then a missing `-MMD`, raises ValueError; with both present and neither suffix it raises UnboundLocalError for `out_file` |
| BuildInfo.GetCCxxFlagsWrites | build-info.py:32-39 | the output is `.mpy_cflags` or `.mpy_cxxflags` following the suffix, and its text splits back into exactly the flags |
| BuildInfo.CCxxFlagsTokens | build-info.py:26-30 | the flags cut from split tokens are tokens |
| BuildInfo.CCxxFlagsExample | build-info.py:14-30 | a compiler command yields the flags between `-c` and `-MMD` |
| BuildInfo.FilterStartsWith | build-info.py:56 | the comprehension keeps only elements of the list that start with the prefix, and is no longer than the list |
| BuildInfo.FirstStartingWith | build-info.py:56-57 | the first position of an element starting with the prefix; no earlier element starts with it; `None` when no element does |
| BuildInfo.LinkScriptEnd | build-info.py:48-57 | the cut lies within the list, after at least one token |
| BuildInfo.FilterStartsWithFirst | build-info.py:56-57 | the comprehension is empty exactly when no element starts with `-T`, and its head is the first element that does |
| BuildInfo.LinkScriptEndFirst | build-info.py:48-57 | the cut is one past the first `-T...` token, and IndexError when there is none |
| BuildInfo.LibSearchPass | build-info.py:77-83 | the `-L` pass from the first token; `LibSearchPairs` states its meaning |
| BuildInfo.LibSearchFrom | build-info.py:77-83 | the pass keeps the length, and its only error is IndexError |
| BuildInfo.ReplaceLibSearchPath | build-info.py:59-83 | the in-place loop leaves the array as the pass over the live list does, or fails with IndexError exactly when the pass does |
| BuildInfo.KeepsFlags | build-info.py:79-83 | the paths neither create nor rewrite a `-L` token: the condition under which the pass is a pairwise rewrite |
| BuildInfo.PairRewrite | build-info.py:79-83 | reference definition: token `k` rewritten exactly when token `k - 1` is `-L` and token `k` starts with the project path |
| BuildInfo.Paired | build-info.py:77-83 | reference definition: `PairRewrite` at every position, same length |
| BuildInfo.PairRewriteFlag | build-info.py:79-83 | under `KeepsFlags`, the rewrite neither creates nor removes a `-L` token |
| BuildInfo.PairedUpToNext | build-info.py:77-83 | one step of the pass extends the pairwise rewrite by one position |
| BuildInfo.LibSearchFromPaired | build-info.py:77-83 | from any partly rewritten list, the rest of the pass gives the pairwise rewrite, or IndexError when the last token is `-L` |
| BuildInfo.LibSearchPairs | build-info.py:77-83 | the `-L` pass rewrites exactly each token after a `-L` that starts with the project path, keeps all others and the length, and fails exactly on a trailing `-L` |
| BuildInfo.DefaultsKeepFlags | build-info.py:3-4 | the default library and project paths satisfy `KeepsFlags` |
| BuildInfo.LibSearchRootedPath | build-info.py:64-72 | `-L <prj><rest>` becomes `-L <lib><rest>` |
| BuildInfo.RewriteOne | build-info.py:103-105 | one element of the rewrite: replaced when it starts with the prefix, kept otherwise |
| BuildInfo.RewriteTokens | build-info.py:102-105 | the element-wise rewrite keeps the length |
| BuildInfo.RewriteTokensAt | build-info.py:102-105 | element `k` of the rewrite is element `k` rewritten when it starts with the prefix, and is unchanged otherwise |
| BuildInfo.ReplaceLinkerScriptPath | build-info.py:86-105 | the in-place loop replaces the project path in every `-T...` token and leaves every other element as it was |
| BuildInfo.LinkerScriptRootedPath | build-info.py:92-100 | `-T<prj><rest>` becomes `-T<lib><rest>` |
| BuildInfo.LibSearchDocExample | build-info.py:64-72 | with the default paths, `-L ../bsps/TARGET_APP_KIT_PSE84_AI/` becomes `-L ../../lib/mtb-psoc-edge-libs/bsps/TARGET_APP_KIT_PSE84_AI/` |
| BuildInfo.LinkerScriptDocExample | build-info.py:92-100 | with the default paths, `-T../bsps/TARGET_APP_KIT_PSE84_AI/linker_script.ld` becomes `-T../../lib/mtb-psoc-edge-libs/bsps/TARGET_APP_KIT_PSE84_AI/linker_script.ld` |
| BuildInfo.LdFlags | build-info.py:108-114 | the cut, both rewrites and the slice; `LdFlagsCut` and `LdFlagsPointwise` state its result |
| BuildInfo.LdFlagsOutput | build-info.py:108-118 | the file get_ldflags writes |
| BuildInfo.GetLdFlags | build-info.py:108-118 | the handler runs the cut, the `-L` pass and the `-T` pass in the code's order and writes `.mpy_ldflags` |
| BuildInfo.LdFlagsCut | build-info.py:108-114 | the output keeps exactly the first `k + 1` rewritten tokens, `k` being the first `-T...` token; with no such token, or a trailing `-L`, it raises IndexError |
| BuildInfo.LdFlagsPointwise | build-info.py:108-114 | under `KeepsFlags`, the handler succeeds exactly when a `-T...` token exists and the last token is not `-L`; then token `j <= k` is input token `j` with the `-L` pairing rewrite and then the `-T` rewrite applied |
| BuildInfo.LdLibsOutput | build-info.py:127-136 | the file get_ldlibs writes; `LdLibsWrites` states its content |
| BuildInfo.GetLdLibs | build-info.py:127-136 | the handler's loop computes the element-wise rewrite of the split tokens and writes `.mpy_ldlibs` |
| BuildInfo.RewriteTokensKeepTokens | build-info.py:129-132 | rewriting tokens with a token as replacement yields tokens |
| BuildInfo.LdLibsWrites | build-info.py:127-136 | the `.mpy_ldlibs` text splits back into as many tokens as the input, in order; each is its input token with the project path replaced when it starts with it, and unchanged otherwise |
| BuildInfo.EndsBlock | build-info.py:160 | the closing test: an empty line, or a line with `=` that does not start with `$ -I` |
| BuildInfo.IncludePath | build-info.py:166 | `line[4:].rstrip('$').strip()` |
| BuildInfo.Entry | build-info.py:164-168 | `-I` plus the path when the path is non-empty, nothing otherwise; `IncScanEntries` states its shape |
| BuildInfo.IncScan | build-info.py:150-168 | the scan with its section flag; `IncScanBlock`, `IncScanNoBlock` and `IncScanEntries` state its meaning |
| BuildInfo.Entries | build-info.py:164-168 | reference definition: the entries of all `$ -I` lines, in order |
| BuildInfo.IncListTokens | build-info.py:150-180 | the scan and then the `-I` rewrite; `IncListPrefixed` states its shape |
| BuildInfo.IncListOutput | build-info.py:177-184 | the file get_inclist writes |
| BuildInfo.IncScanAt | build-info.py:151-168 | one step of the line scan at line `i` |
| BuildInfo.CollectIncFlags | build-info.py:150-168 | the loop with its `in_incflags_section` flag, `continue` and `break` collects what the scan function describes |
| BuildInfo.RewriteEach | build-info.py:177-180 | the in-place loop over a list computes the element-wise rewrite |
| BuildInfo.GetIncList | build-info.py:143-184 | the handler's scan and rewrite loops give the rewritten entries and write `.mpy_inclist` |
| BuildInfo.IncScanSkipsToStart | build-info.py:154-157 | nothing before the first line opening the block is collected |
| BuildInfo.IncScanNoBlock | build-info.py:150-168 | a file without an `incflags = $` line yields an empty list |
| BuildInfo.IncScanInBlock | build-info.py:159-168 | inside the block, collection runs up to the first closing line, or to the end of the file |
| BuildInfo.OpeningIsNoInclude | build-info.py:155-164 | a line opening the block is no `$ -I` line |
| BuildInfo.IncScanBlock | build-info.py:150-168 | the list is the entries of the `$ -I` lines between the first opening line and the first closing line after it |
| BuildInfo.IncScanEntries | build-info.py:164-168 | every collected entry is `-I` followed by a non-empty path |
| BuildInfo.IncListPrefixed | build-info.py:177-180 | the rewrite keeps the number of entries, and each starts with `"-I" + DEFAULT_MTB_LIB_PRJ_DIR + "/"` |
| BuildInfo.IsMainObject | build-info.py:208 | `main.o`, or a path ending in `/main.o` |
| BuildInfo.ObjRewrite | build-info.py:211-227 | the path rewrite; `ObjRewriteAbsolute`, `ObjRewriteRelative` and `ObjRewriteNonEmpty` state its cases |
| BuildInfo.ObjKept | build-info.py:203-231 | what one stripped token adds: nothing when empty or a main object, its rewrite otherwise |
| BuildInfo.ObjListOutput | build-info.py:197-242 | the file get_objlist writes |
| BuildInfo.ObjList | build-info.py:202-231 | the object list is never longer than the token list |
| BuildInfo.ObjListAt | build-info.py:202-231 | one step of the loop at token `i` |
| BuildInfo.GetObjList | build-info.py:193-242 | the handler's loop, with its two `continue`s and the path rewrite, computes the object list and writes `.mpy_objlist` |
| BuildInfo.DropMain | build-info.py:207-209 | the filter keeps only tokens that are not main objects and is no longer than its input |
| BuildInfo.MapRewrite | build-info.py:211-227 | the map keeps the length |
| BuildInfo.ObjRewriteNonEmpty | build-info.py:229-231 | a non-empty path stays non-empty, so the `if obj_file` test keeps it |
| BuildInfo.MapRewriteDropCons | build-info.py:202-231 | filtering then mapping adds at the front what the loop keeps for the first token |
| BuildInfo.SplitStripped | build-info.py:200-203 | `split()` yields non-empty tokens that `strip()` leaves alone |
| BuildInfo.ObjListFilterMap | build-info.py:202-231 | on split tokens, the object list drops the main objects and rewrites each remaining path, in order |
| BuildInfo.ObjRewriteAbsolute | build-info.py:212-220 | an absolute path `a + marker + b` with a single marker becomes `'../../lib/mtb-psoc-edge-libs/' + b` |
| BuildInfo.ObjRewriteRelative | build-info.py:224-227 | a `../` path becomes `'../../lib/mtb-psoc-edge-libs/' + t[3:]` |
| BuildInfo.FlagsFunc | build-info.py:255-263 | the table holds exactly the seven names, and `cflags` and `cxxflags` share one handler |
| BuildInfo.BuildInfo | build-info.py:265-267 | each name runs its handler with the default paths; an unknown name raises KeyError |

## Left out

- File I/O is not modelled. `get_content`, `open`, `read` and `write` become parameters and
  return values: the input file's text comes in, and the `Output` value goes out.
- `os.path.join` is modelled for two parts on POSIX only.
- `readlines()` splits after `\n` only. Universal-newline translation of `\r` and `\r\n` is not
  modelled.
- `get_all_flags` and the `all` entry are not modelled, because they list a directory with
  `os.listdir` and run the other handlers on its files. `BuildInfo` returns
  `Unmodelled("get_all_flags")` for `all`.
- `parser()`, `argparse` and the `print` calls are command-line plumbing and are left out.
  `--build_dir` and `--mtb-lib-dir` are parsed but never used.
- The `file=None` default of `build_info` is not modelled: the model always receives the
  file's text. With `None`, what happens depends on the handler:
  - `get_c_cxx_flags`, `get_ldflags` and `get_ldlibs` raise a TypeError from `open(None)`.
  - In `get_inclist` and `get_objlist`, `open` sits inside `try`, so `except Exception`
    (lines 173-175 and 236-238) catches that TypeError. They print and return `None`.
  - `get_all_flags` never opens `file`.
- The `except` handlers of `get_inclist` and `get_objlist` are left out. They catch what
  `open` and `read` raise: a missing file, or the TypeError from a `None` name. Nothing in
  their parsing loops raises. The handler at line 171 names an undefined variable, so it
  would itself raise `NameError`.
- LibSearchDocExample and LinkerScriptDocExample state the documented `-L` and `-T`
  examples. They write the paths as the default constants joined with `DocBspDir` and
  `DocLinkerScript`, not as single string literals, because the solver cannot compare
  literals that long within its limits. The doc comments spell the strings out.
  `LinkerScriptDocExample` takes the directory and the script name as arguments fixed by its
  `requires`, for the same reason.
- LibSearchPairs: the pairwise description holds only under `KeepsFlags`. That predicate says
  the project path is non-empty and neither path is a prefix of `-L`. `DefaultsKeepFlags`
  shows that the defaults meet it. Without it, `LibSearchFrom` still models the live-list loop
  exactly.
- LdFlagsPointwise: holds under `KeepsFlags`, for the same reason.
- LibSearchRootedPath: stated for a path whose rest does not contain the project path again,
  because `replace` also rewrites later occurrences.
- LinkerScriptRootedPath: stated for a path whose rest does not contain the project path, and
  a project path that does not start with `-` or `T`.
- ObjListFilterMap: stated for tokens as `split()` yields them, which is the only way the
  handler calls the loop.
- ObjRewriteAbsolute: stated for a path with one occurrence of the marker, after a prefix in
  which no marker starts.
- LdLibsWrites: requires the library path to be a whitespace-free token. Otherwise the written
  line would split differently.
- `.mpy_inclist` entries may contain spaces (`strip()` keeps inner whitespace), so no
  split-back property is stated for that file.

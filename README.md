# BitcodeRecompiler in Dafny

BitcodeRecompiler reads a Mach-O object file that carries embedded LLVM bitcode,
extracts the `__LLVM`/`__bundle` section (a xar archive), reads the archive's XML
table of contents, and rebuilds the binary: each bitcode module is compiled with
`clang -cc1` and the objects are linked with `ld` under the options the table of
contents recorded.

This project models the core of that pipeline:

- `common.dfy`: bytes, `Option`, `Result` and the error kinds.
  - `UnexpectedEof`: a cursor read past the end.
  - `MalformedXml`: the XML reader ran out before the document ended.
  - `NoCurrentModule`: a `cmd` entry arrived before any `name` entry.
- `text.dfy`: the string operations the program relies on: `find`, `rfind`, and the cut `split_off` makes after the last `/`.
- `hexformat.dfy`: the text `FileContext::hexdump` writes, described two ways: byte by byte as the loop builds it, and line by line.
- `context.dfy`: `FileContext`, a cursor over the mapped file, and `ReCompilerInfo`, the compile/link plan, both as classes.
  - Each class's methods update its fields in place.
  - `Info` is the plan as a value.
  - `Resolve` holds the decisions of `choose_path_from_platform`.
- `manifest.dfy`: how the XML events of the table of contents fold into the plan (`parse_element`, `parse_xml`), and the finalisation that names the object files.
- `linkplan.dfy`: the argument vector `link_objects` hands to `ld`, including the in-place rewriting of the option after `-executable_path`.
- `process.dfy`: the `MachOProcess` class.
  - The bundle-section lookup, the event reader, compiling, linking and `handle_ofile`.
  - The external tools are a `Tools` value of exit statuses and outputs.

Whether a path exists is the set `existing` of paths that do. The external tools
(`xar`, `clang`, `find`, `ld`) are oracle values. The table-of-contents dump, `clang`
and `ld` are functions from the archive or the argument vector to an exit status, and
the manifest is a function from the archive to the reader events of what `xar` writes.
The extraction status (`xar -xf`) and the output of `find` are constants of one run.

Where the documented design and the code differ, the model follows the code. The design
treats a failed table-of-contents dump as fatal for the file. In the code,
`handle_macho_file` answers false when `xar --dump-toc` exits non-zero
(src/process.rs:256-262), and `handle_ofile` then skips the rest and answers true
(src/process.rs:40, 54), exactly as for a file without a bundle section.

## Model

| member | source | states |
|---|---|---|
| Text.ContainsIff | src/context.rs:98 | `find(pat).is_some()` holds exactly when `pat` occurs at some offset |
| Text.LastIndexOf | src/context.rs:102-109 | `rfind(c)` gives an index holding `c` with no `c` after it, or none when `c` does not occur |
| Text.Leaf | src/context.rs:102-110 | the part `split_off` returns has no `/`; the part left behind plus it is the whole string; the part left behind is empty or ends in `/` |
| Text.LeafUnique | src/context.rs:102-110 | those three facts determine the cut: any split with them is the one `split_off` makes |
| Text.LeafIdempotent | src/context.rs:102-110 | cutting the leaf of a leaf gives the leaf back |
| HexFormat.HexDigits | src/context.rs:35 | a rendering has exactly `width` characters, all lowercase hex digits |
| HexFormat.HexDigitsRoundTrip | src/context.rs:35 | a value that fits in `width` digits reads back unchanged |
| HexFormat.HexRenderingsRoundTrip | src/context.rs:35-38 | `{:02x}` of a byte is two digits reading back as the byte; `{:016x}` of an address is sixteen digits reading back as the address modulo 2^64 |
| HexFormat.CellsAsLines | src/context.rs:29-39 | the byte-by-byte cells, from a line boundary, are the line-by-line text |
| HexFormat.DumpAsLines | src/context.rs:26-44 | the dump of no bytes is a lone newline; otherwise it is lines of at most sixteen bytes, each headed by its address and a tab, separated by newlines, ending in a newline |
| Context.FileContext.constructor | src/context.rs:20-24 | a new cursor is at position 0 over the given bytes |
| Context.FileContext.Seek | src/process.rs:241 | the cursor moves to the given offset, which may lie past the end |
| Context.FileContext.ReadU8 | src/context.rs:57-63 | one byte and the cursor one further, or `UnexpectedEof` with the cursor unmoved |
| Context.FileContext.SectionHex | src/context.rs:46-55 | size 0 gives no bytes; when enough bytes remain, exactly the next `size` bytes and the cursor past them; otherwise `UnexpectedEof` with the cursor at the end of the payload, or where it was if it already lay past the end; the address takes no part |
| Context.FileContext.HexDump | src/context.rs:26-44 | the dump of the next `size` bytes (see `HexFormat.DumpAsLines`) and the cursor past them, or `UnexpectedEof` as for `SectionHex` |
| Context.NormalizeFramework | src/context.rs:96-111 | nothing for a path containing `/usr/lib`; otherwise a name with no `/` that is what follows the path's directory part |
| Context.NormalizeIdempotent | src/context.rs:102-110 | normalising an already recorded name gives the same name |
| Context.NormalizedNotSystem | src/context.rs:98-110 | no recorded name contains `/usr/lib` |
| Context.UnsupportedProbesNothing | src/context.rs:125-136 | a platform other than `MacOSX`/`iPhoneOS` fails whatever exists, and nothing is appended |
| Context.ResolvedIff | src/context.rs:123-193 | resolution succeeds exactly when the platform is supported, the SDK override exists and names the platform (or else the default SDK exists), and the toolchain override (or else the default) exists; it then appends the platform's runtime library and the two checked paths |
| Context.MismatchedSdkRefused | src/context.rs:144-150 | an existing SDK override that does not name the platform is refused after the runtime library was appended, with SDK and toolchain untouched |
| Context.FailureKeepsPaths | src/context.rs:123-193 | on failure the toolchain is never extended; the SDK is extended only when the toolchain check failed; the runtime library is appended exactly when the platform was supported |
| Context.FileCmdTouchesLastOnly | src/context.rs:119-121 | `add_file_cmd` extends the last compile vector by the token and leaves the other vectors and fields as they were |
| Context.OperationsKeepWellFormed | src/context.rs:92-121 | every plan operation keeps each compile vector non-empty |
| Context.ReCompilerInfo.constructor | src/context.rs:78-90 | the new plan is empty |
| Context.ReCompilerInfo.SetPlatform | src/context.rs:92-94 | replaces the platform, nothing else changes |
| Context.ReCompilerInfo.PushFramework | src/context.rs:96-111 | appends the normalised name, or nothing for a `/usr/lib` path; returns what `split_off` leaves in the caller's string |
| Context.ReCompilerInfo.PushOption | src/context.rs:112-114 | appends the option at the end |
| Context.ReCompilerInfo.AddNewFileVec | src/context.rs:115-118 | appends the singleton vector holding the module name |
| Context.ReCompilerInfo.AddFileCmd | src/context.rs:119-121 | with a vector present, appends the token to the last vector |
| Context.ReCompilerInfo.ChoosePathFromPlatform | src/context.rs:123-193 | returns true exactly when `Resolve` succeeds, and the plan is extended by exactly what `Resolve` appended, also on the failing paths |
| Manifest.ElementBody | src/process.rs:75-85 | a finished element resumes after an end element that lies past its start |
| Manifest.FirstEnd | src/process.rs:80-82 | the first end element at or after a position, or none |
| Manifest.ElementByPayloads | src/process.rs:71-150 | an element applies exactly the character payloads before its first end element, in order, and resumes right after that end; with no end element the reader fails unless a payload failed first |
| Manifest.OptionPayloads | src/process.rs:87-101 | `option` payloads are appended to the link options in document order, nothing else changes |
| Manifest.PlatformPayloads | src/process.rs:74-86 | `platform` payloads leave the last one as the platform, nothing else changes |
| Manifest.Frameworks | src/process.rs:102-116 | the recorded names are no more than the payloads, contain no `/` and no `/usr/lib` |
| Manifest.LibPayloads | src/process.rs:102-116 | `lib` payloads extend the frameworks by their normalised names, in order, nothing else changes |
| Manifest.SystemLibsDropped | src/context.rs:98-100 | payloads that all lie under `/usr/lib` add no framework |
| Manifest.NamePayloads | src/process.rs:117-131 | `name` payloads each append a vector starting with that name |
| Manifest.CmdPayloads | src/process.rs:132-146 | `cmd` payloads all go to the last vector in order; earlier vectors and other fields are unchanged; with no vector the first payload fails |
| Manifest.FrameTrans | src/process.rs:159-179 | two steps that keep the frame keep it together |
| Manifest.PayloadFrame | src/process.rs:79-146 | one payload keeps the frame: vectors stay non-empty, runtime library, SDK, toolchain and object files are untouched, options and frameworks only grow, every added framework has no `/` and no `/usr/lib`, and compile vectors are only added or extended at the end |
| Manifest.ElementFrame | src/process.rs:71-150 | one element keeps the same frame |
| Manifest.DocumentFoldFrame | src/process.rs:159-179 | parsing a whole document keeps the same frame, so every earlier compile vector is a prefix of its final form and keeps its module name in front |
| Manifest.DocumentFrameworksClean | src/process.rs:102-116 | parsing from the empty plan records only framework names with no `/` and no `/usr/lib`, and leaves runtime library, SDK, toolchain and object files empty |
| Manifest.FinaliseSpec | src/process.rs:185-191 | finalisation adds one object file per vector, named after the vector's first token plus `.o`, and extends each vector by exactly `-x ir -o <object>`; nothing else changes |
| Manifest.FinaliseParallel | src/process.rs:185-191 | starting without object files, object file `i` belongs to vector `i` and every vector ends in the four tokens producing it |
| Manifest.ParseOutcome | src/process.rs:181-191 | `parse_xml` succeeds exactly when the document folds and the paths resolve; on a resolution failure object files and vectors are those the document produced; options and frameworks are never changed by it |
| LinkPlan.ScanOptions | src/process.rs:279-298 | the loop emits one token per option and keeps one stored option per option |
| LinkPlan.DirNotFlag | src/process.rs:289-295 | what `split_off` leaves of an option is never the flag itself |
| LinkPlan.ScanSpec | src/process.rs:279-298 | a token is rewritten exactly when it follows an unrewritten flag; it is then emitted as `./` plus its leaf and stored as its directory; every other token is emitted and kept verbatim |
| LinkPlan.NoFlagUnchanged | src/process.rs:279-298 | without the flag the link options are emitted and kept as they are |
| LinkPlan.NaiveRuleAgrees | src/process.rs:279-298 | when the flag never appears twice in a row, exactly the tokens right after a flag are rewritten |
| LinkPlan.RewriteExample | src/process.rs:279-298 | `-executable_path /abs/build/out/App -x` links as `-executable_path ./App -x` and is stored as `-executable_path /abs/build/out/ -x` |
| LinkPlan.DoubledFlagExample | src/process.rs:279-298 | in `-executable_path -executable_path /a/b` the second flag is taken for the path and `/a/b` is copied verbatim |
| LinkPlan.FrameworkArgs | src/process.rs:301-304 | two tokens per framework: `-framework` then the name, in order |
| LinkPlan.DropLast | src/process.rs:315 | `pop` removes the last character, and leaves an empty string empty |
| LinkPlan.LinkArgsLayout | src/process.rs:299-330 | the link vector is the rewritten options, `-syslibroot` and the SDK, a `-framework` pair per framework, `-lSystem` and the `find` output without its last character, then every object file in order |
| Process.FirstBundleFrom | src/process.rs:232-270 | the first bundle section from a given command on, in command then section order, or none |
| Process.FirstBundle | src/process.rs:232-271 | the section looked for is the first `__LLVM`/`__bundle` section in command then section order, inside a segment command; none exactly when there is no such section |
| Process.FirstBundleIs | src/process.rs:232-238 | a bundle section with no bundle before it is the one selected |
| Process.EventReader.constructor | src/process.rs:157 | the reader starts at the first event |
| Process.EventReader.Next | src/process.rs:160 | the next event and one step further, or the reader's error when the events have run out |
| Process.WaitLoopAsWritten | src/process.rs:208-218 | as written, the loop succeeds when the extraction status is 0 and fails at the first vector otherwise |
| Process.CompileStatusAsWritten | src/process.rs:198-224 | as written, compiling succeeds exactly when the extraction does, whatever the compiler returns |
| Process.AsWrittenIgnoresCompiler | src/process.rs:198-224 | as written, every run the corrected wait accepts is accepted, and beyond those exactly the runs where some compile vector fails |
| Process.WrongHandleMissesFailure | src/process.rs:212 | one module whose compilation fails is reported as compiled |
| Process.SuccessMeansLinked | src/process.rs:33-55 | a successful run over a dumped bundle parsed the manifest, resolved the platform, compiled every module and linked with the linker's approval (corrected compile wait, see Findings) |
| Process.MachOProcess.constructor | src/process.rs:25-31 | starts with an empty plan |
| Process.MachOProcess.ParseElement | src/process.rs:71-150 | the plan and the reader position become those of `ParseElementSpec` (see `Manifest.ElementByPayloads`), and the answer is always true; reader errors and a `cmd` before any `name` are errors |
| Process.MachOProcess.ParseXml | src/process.rs:152-196 | the answer and the new plan are those of `ParseDocument` (see `Manifest.ParseOutcome`), and the plan stays well formed |
| Process.MachOProcess.Finalize | src/process.rs:185-191 | the plan becomes `Finalise` of the plan (see `Manifest.FinaliseSpec`) |
| Process.MachOProcess.CompilerFiles | src/process.rs:198-224 | succeeds exactly when the archive is extracted and every compile vector compiles (the corrected wait, see Findings) |
| Process.MachOProcess.HandleMachoFile | src/process.rs:226-272 | without a bundle section, false; otherwise the section's bytes, or `UnexpectedEof` when the file is too short, and the `xar` dump's success as the answer |
| Process.MachOProcess.RewriteOptions | src/process.rs:276-298 | emits `ScanOptions(...).out` and leaves the stored options cut down as `ScanOptions(...).stored` (see `LinkPlan.ScanSpec`), nothing else changes |
| Process.MachOProcess.LinkObjects | src/process.rs:274-344 | the vector given to `ld` is `LinkArgs` of the plan (see `LinkPlan.LinkArgsLayout`), or none when `find` failed or printed non-UTF-8 output; the answer is the linker's success |
| Process.MachOProcess.HandleOfile | src/process.rs:33-69 | the outcome is `OfileOutcome`: non-Mach-O files are refused; a Mach-O file without a bundle section, or whose table of contents `xar` fails to dump, is accepted with `Ok(true)` and the plan unchanged; a bundle that cannot be read is an error; otherwise parsing, compiling and linking run and the first of them that fails gives `Ok(false)`; the class invariant holds again after every `Ok` answer (corrected compile wait, see Findings) |

## Left out

- `src/main.rs` is not part of this model. It parses the command line, maps the input file and hands it to the Mach-O parser.
- The Mach-O parser, and the parsing of XML text into events, are not modelled. The model starts from their output: the load commands and the events.
- The external processes (`xar`, `clang`, `find`, `ld`) are given as exit statuses and outputs. Writing `tmp.xar` and `tmp.xml`, and the pipes to the processes, are left out.
- The model does not capture that the compiler processes run alongside the program.
- Diagnostics written to stdout and stderr are left out.
- `OFile` variants other than `MachFile` are only refused, as the program does. Their contents are not modelled.
- Panics (`unwrap`, `expect`) are the errors of `Result`: reader errors become `MalformedXml`, and a `cmd` entry before any `name` entry becomes `NoCurrentModule`. Failures of the processes themselves are not modelled.
- The check that `parse_element` returned false (src/process.rs:170) is left out. `parse_element` never returns false, so that branch cannot run.
- `hexdump` output is a string of ASCII characters rather than a byte vector. The address addition wraps modulo 2^64; a debug build would panic on overflow instead.
- Process.MachOProcess.ParseElement: on an error the plan is left unspecified, because the program panics there.
- Process.MachOProcess.ParseXml: on an error the plan is left unspecified, because the program panics there.
- Process.MachOProcess.HandleMachoFile: does not state where the cursor ends up, which no later step uses.
- Process.OfileOutcome: a failed table-of-contents dump is accepted with `Ok(true)` and the plan unchanged, as the code does; the design's fatal `ExtractionFailed` for this case is not modelled.
- Process.MachOProcess.HandleOfile: uses the corrected compile wait; as written, a failing `clang` goes unnoticed and linking proceeds (`Process.AsWrittenIgnoresCompiler`).
- Process.MachOProcess.HandleOfile: states the final plan only for files it refuses, for Mach-O files without a bundle section and for bundles whose table of contents is not dumped. In the other cases it states only the outcome.

## Findings

| source | as written | input that shows it | evidently intended | confidence | as-written member | corrected member |
|---|---|---|---|---|---|---|
| src/process.rs:212 | after spawning `clang` on a compile vector, the program waits on the `xar -xf` process again. That process has already exited with status 0, so every compilation counts as a success. | one compile vector `["m"]`, extraction status 0, `clang` exiting with 1: reported as compiled | wait on the `clang` process just spawned, and fail when its status is not 0 | not executed | Process.CompileStatusAsWritten, Process.WrongHandleMissesFailure | Process.MachOProcess.CompilerFiles |

/** `src/context.rs`: the cursor over the mapped file (`FileContext`) and the
    compile/link plan that manifest parsing builds up (`ReCompilerInfo`), with the
    platform, SDK and toolchain resolution. Whether a path exists on disk is
    the set `existing` of paths that do. */
module Context {
  import opened Common
  import opened Text
  import opened HexFormat

  const DefaultIphoneSdk: string := "/Applications/Xcode.app/Contents/Developer/Platforms/iPhoneOS.platform/Developer/SDKs/iPhoneOS.sdk"
  const DefaultMacosxSdk: string := "/Applications/Xcode.app/Contents/Developer/Platforms/MacOSX.platform/Developer/SDKs/MacOSX.sdk"
  const DefaultToolchain: string := "/Applications/Xcode.app/Contents/Developer/Toolchains/XcodeDefault.xctoolchain/"
  const LibClangOsx: string := "libclang_rt.osx.a"
  const LibClangIos: string := "libclang_rt.ios.a"

  /** The system library root whose frameworks the linker finds by itself. */
  const SystemLibRoot: string := "/usr/lib"

  function Max(a: nat, b: nat): nat { if a < b then b else a }

  /** A `Cursor` over the bytes of the mapped file. */
  class FileContext {
    const payload: array<byte>
    var pos: nat

    constructor (payload: array<byte>)
      ensures this.payload == payload && pos == 0
    {
      this.payload := payload;
      pos := 0;
    }

    /** `cur.seek(SeekFrom::Start(offset))`: a cursor may be placed past the end. */
    method Seek(offset: nat)
      modifies this
      ensures pos == offset
    {
      pos := offset;
    }

    /** `read_u8`: one byte, or `UnexpectedEof` with the cursor left where it was. */
    method ReadU8() returns (r: Result<byte>)
      modifies this
      ensures old(pos) < payload.Length ==> r == Ok(payload[old(pos)]) && pos == old(pos) + 1
      ensures old(pos) >= payload.Length ==> r == Err(UnexpectedEof) && pos == old(pos)
    {
      if pos < payload.Length {
        r := Ok(payload[pos]);
        pos := pos + 1;
      } else {
        r := Err(UnexpectedEof);
      }
    }

    /** `section_hex`: copies the next `size` bytes and moves past them. The address
        argument takes no part. Bytes read before a failure still move the cursor. */
    method SectionHex(addr: nat, size: nat) returns (r: Result<seq<byte>>)
      modifies this
      ensures size == 0 ==> r == Ok([]) && pos == old(pos)
      ensures size > 0 && old(pos) + size <= payload.Length ==>
        r == Ok(payload[old(pos)..old(pos) + size]) && pos == old(pos) + size
      ensures size > 0 && old(pos) + size > payload.Length ==>
        r == Err(UnexpectedEof) && pos == Max(old(pos), payload.Length)
    {
      var w: seq<byte> := [];
      for off := 0 to size
        invariant pos == old(pos) + off
        invariant off > 0 ==> pos <= payload.Length
        invariant w == if off == 0 then [] else payload[old(pos)..pos]
      {
        var b := ReadU8();
        match b {
          case Err(e) => return Err(e);
          case Ok(v) => w := w + [v];
        }
      }
      return Ok(w);
    }

    /** `hexdump`: the next `size` bytes as text (see `HexFormat.Dump`), moving past them. */
    method HexDump(addr: nat, size: nat) returns (r: Result<string>)
      modifies this
      ensures size == 0 ==> r == Ok("\n") && pos == old(pos)
      ensures size > 0 && old(pos) + size <= payload.Length ==>
        r == Ok(Dump(addr, payload[old(pos)..old(pos) + size])) && pos == old(pos) + size
      ensures size > 0 && old(pos) + size > payload.Length ==>
        r == Err(UnexpectedEof) && pos == Max(old(pos), payload.Length)
    {
      var w: string := "";
      ghost var done: seq<byte> := [];
      for off := 0 to size
        invariant pos == old(pos) + off && |done| == off
        invariant off > 0 ==> pos <= payload.Length && done == payload[old(pos)..pos]
        invariant w == CellsFrom(addr, 0, done)
      {
        var head: string := "";
        if off % 16 == 0 {
          if off > 0 {
            head := "\n";
          }
          head := head + Hex16(addr + off) + "\t";
        }
        var b := ReadU8();
        match b {
          case Err(e) => return Err(e);
          case Ok(v) =>
            CellsSnoc(addr, 0, done, v);
            assert head + Hex2(v) + " " == Cell(addr, off, v);
            w := w + head + Hex2(v) + " ";
            done := done + [v];
        }
      }
      assert size == 0 ==> w + "\n" == "\n";
      return Ok(w + "\n");
    }
  }

  /** The framework name `push_framework` records for a linked library: nothing for a
      path under the system library root, otherwise the text after its last `/`. */
  function NormalizeFramework(path: string): (r: Option<string>)
    ensures r.None? <==> Contains(path, SystemLibRoot)
    ensures r.Some? ==> '/' !in r.value && path == Dir(path) + r.value
  {
    if Contains(path, SystemLibRoot) then None else Some(Leaf(path))
  }

  /** Normalizing a name `push_framework` already recorded gives the same name back. */
  lemma NormalizeIdempotent(path: string)
    requires NormalizeFramework(path).Some?
    ensures NormalizeFramework(NormalizeFramework(path).value) == NormalizeFramework(path)
  {
    var leaf := NormalizeFramework(path).value;
    if Contains(leaf, SystemLibRoot) {
      ContainsCharOf(leaf, SystemLibRoot, '/');
    }
    LeafIdempotent(path);
  }

  /** No recorded framework name contains the system library root. */
  lemma NormalizedNotSystem(path: string)
    requires NormalizeFramework(path).Some?
    ensures !Contains(NormalizeFramework(path).value, SystemLibRoot)
  {
    var leaf := NormalizeFramework(path).value;
    if Contains(leaf, SystemLibRoot) {
      ContainsCharOf(leaf, SystemLibRoot, '/');
    }
  }

  // ---- platform, SDK and toolchain resolution ----

  /** The kinds of outcome of `choose_path_from_platform`. */
  datatype ResolveStatus =
    | Resolved
    | UnsupportedPlatform
    | InvalidSdkPath          // the `--sdk` path does not exist
    | PlatformMismatch        // the `--sdk` path does not name the platform
    | SdkNotFound             // the platform's default SDK does not exist
    | InvalidToolchainPath    // the `--tool` path does not exist
    | ToolchainNotFound       // the default toolchain does not exist

  /** An outcome and the text appended to `lib_clang`, `sdk_path` and `tool_chain`
      before it was reached (empty where nothing was appended). */
  datatype Resolution = Resolution(status: ResolveStatus, lib: string, sdk: string, tool: string)

  /** The runtime library name of a supported platform. */
  function RuntimeLib(platform: string): Option<string> {
    if platform == "MacOSX" then Some(LibClangOsx)
    else if platform == "iPhoneOS" then Some(LibClangIos)
    else None
  }

  function DefaultSdk(platform: string): string {
    if platform == "MacOSX" then DefaultMacosxSdk else DefaultIphoneSdk
  }

  /** The decisions of `choose_path_from_platform`, in its order: platform, then SDK,
      then toolchain, stopping at the first failure. */
  function Resolve(platform: string, sdk: Option<string>, tool: Option<string>, existing: set<string>): Resolution {
    match RuntimeLib(platform)
    case None => Resolution(UnsupportedPlatform, "", "", "")
    case Some(lib) =>
      var sdkCheck :=
        match sdk
        case Some(s) =>
          if s !in existing then Resolution(InvalidSdkPath, lib, "", "")
          else if !Contains(s, platform) then Resolution(PlatformMismatch, lib, "", "")
          else Resolution(Resolved, lib, s, "")
        case None =>
          if DefaultSdk(platform) !in existing then Resolution(SdkNotFound, lib, "", "")
          else Resolution(Resolved, lib, DefaultSdk(platform), "");
      if sdkCheck.status != Resolved then sdkCheck
      else
        match tool
        case Some(t) =>
          if t !in existing then sdkCheck.(status := InvalidToolchainPath)
          else sdkCheck.(tool := t)
        case None =>
          if DefaultToolchain !in existing then sdkCheck.(status := ToolchainNotFound)
          else sdkCheck.(tool := DefaultToolchain)
  }

  /** An unsupported platform fails before any path is looked at: the outcome is the same
      whatever exists, and nothing is appended. */
  lemma UnsupportedProbesNothing(platform: string, sdk: Option<string>, tool: Option<string>, e1: set<string>, e2: set<string>)
    requires platform != "MacOSX" && platform != "iPhoneOS"
    ensures Resolve(platform, sdk, tool, e1) == Resolve(platform, sdk, tool, e2)
    ensures Resolve(platform, sdk, tool, e1) == Resolution(UnsupportedPlatform, "", "", "")
  {
  }

  /** Resolution succeeds exactly when the platform is supported, the SDK override (if
      any) exists and names the platform or else the default SDK exists, and the toolchain
      override (if any) or else the default toolchain exists. What it appends is then
      the runtime library of the platform and the two checked paths. */
  lemma ResolvedIff(platform: string, sdk: Option<string>, tool: Option<string>, existing: set<string>)
    ensures var r := Resolve(platform, sdk, tool, existing);
      r.status == Resolved <==>
        (platform == "MacOSX" || platform == "iPhoneOS")
        && (if sdk.Some? then sdk.value in existing && Contains(sdk.value, platform)
            else DefaultSdk(platform) in existing)
        && (if tool.Some? then tool.value in existing else DefaultToolchain in existing)
    ensures var r := Resolve(platform, sdk, tool, existing);
      r.status == Resolved ==>
        Some(r.lib) == RuntimeLib(platform)
        && r.sdk == (if sdk.Some? then sdk.value else DefaultSdk(platform)) && r.sdk in existing
        && r.tool == (if tool.Some? then tool.value else DefaultToolchain) && r.tool in existing
  {
  }

  /** An SDK override that exists but does not name the platform is refused, and the
      SDK and toolchain are left as they were. */
  lemma MismatchedSdkRefused(platform: string, s: string, tool: Option<string>, existing: set<string>)
    requires platform == "MacOSX" || platform == "iPhoneOS"
    requires s in existing && !Contains(s, platform)
    ensures Resolve(platform, Some(s), tool, existing) == Resolution(PlatformMismatch, RuntimeLib(platform).value, "", "")
  {
  }

  /** On every failure neither the SDK nor the toolchain is extended, and the runtime
      library is appended exactly when the platform was supported. */
  lemma FailureKeepsPaths(platform: string, sdk: Option<string>, tool: Option<string>, existing: set<string>)
    ensures var r := Resolve(platform, sdk, tool, existing);
      r.status != Resolved ==>
        r.tool == "" && (r.status != InvalidToolchainPath && r.status != ToolchainNotFound ==> r.sdk == "")
        && (r.status == UnsupportedPlatform <==> r.lib == "")
  {
  }

  // ---- the plan ----

  /** The value held by a `ReCompilerInfo`. */
  datatype Info = Info(
    platform: string,
    libClang: string,
    toolChain: string,
    sdkPath: string,
    objFile: seq<string>,
    linkFramework: seq<string>,
    linkOptions: seq<string>,
    fileCompile: seq<seq<string>>)
  {
    /** Every compile vector holds at least its module name. */
    predicate WellFormed() {
      forall i :: 0 <= i < |fileCompile| ==> |fileCompile[i]| > 0
    }

    /** `set_platform`. */
    function WithPlatform(data: string): Info {
      this.(platform := data)
    }

    /** `push_option`. */
    function WithOption(option: string): Info {
      this.(linkOptions := linkOptions + [option])
    }

    /** `push_framework`. */
    function WithFramework(framework: string): Info {
      match NormalizeFramework(framework)
      case None => this
      case Some(name) => this.(linkFramework := linkFramework + [name])
    }

    /** `add_new_file_vec`. */
    function WithNewFile(fileName: string): Info {
      this.(fileCompile := fileCompile + [[fileName]])
    }

    /** `add_file_cmd`: the token goes to the most recent compile vector. */
    function WithFileCmd(cmd: string): Info
      requires |fileCompile| > 0
    {
      this.(fileCompile := fileCompile[|fileCompile| - 1 := fileCompile[|fileCompile| - 1] + [cmd]])
    }

    /** The effect of `choose_path_from_platform` with outcome `r`. */
    function WithResolution(r: Resolution): Info {
      this.(libClang := libClang + r.lib, sdkPath := sdkPath + r.sdk, toolChain := toolChain + r.tool)
    }
  }

  const EmptyInfo := Info("", "", "", "", [], [], [], [])

  /** `add_file_cmd` extends the last vector by the token and leaves the number of
      vectors and every earlier vector as they were. */
  lemma FileCmdTouchesLastOnly(info: Info, cmd: string)
    requires |info.fileCompile| > 0
    ensures var r := info.WithFileCmd(cmd);
      |r.fileCompile| == |info.fileCompile|
      && r.fileCompile[..|r.fileCompile| - 1] == info.fileCompile[..|info.fileCompile| - 1]
      && r.fileCompile[|r.fileCompile| - 1] == info.fileCompile[|info.fileCompile| - 1] + [cmd]
      && r.(fileCompile := info.fileCompile) == info
  {
  }

  /** Every operation on the plan keeps each compile vector non-empty. */
  lemma OperationsKeepWellFormed(info: Info, s: string, r: Resolution)
    requires info.WellFormed()
    ensures info.WithPlatform(s).WellFormed() && info.WithOption(s).WellFormed()
    ensures info.WithFramework(s).WellFormed() && info.WithNewFile(s).WellFormed()
    ensures |info.fileCompile| > 0 ==> info.WithFileCmd(s).WellFormed()
    ensures info.WithResolution(r).WellFormed()
  {
  }

  /** The compile/link plan, updated in place while the manifest is read. */
  class ReCompilerInfo {
    var platform: string
    var libClang: string
    var toolChain: string
    var sdkPath: string
    var objFile: seq<string>
    var linkFramework: seq<string>
    var linkOptions: seq<string>
    var fileCompile: seq<seq<string>>

    function Model(): Info
      reads this
    {
      Info(platform, libClang, toolChain, sdkPath, objFile, linkFramework, linkOptions, fileCompile)
    }

    constructor ()
      ensures Model() == EmptyInfo
    {
      platform, libClang, toolChain, sdkPath := "", "", "", "";
      objFile, linkFramework, linkOptions, fileCompile := [], [], [], [];
    }

    method SetPlatform(data: string)
      modifies this
      ensures Model() == old(Model()).WithPlatform(data)
    {
      platform := data;
    }

    /** Also returns what `split_off` leaves in the caller's string. */
    method PushFramework(framework: string) returns (remaining: string)
      modifies this
      ensures Model() == old(Model()).WithFramework(framework)
      ensures remaining == if Contains(framework, SystemLibRoot) then framework else Dir(framework)
    {
      if Contains(framework, SystemLibRoot) {
        return framework;
      }
      var off := match LastIndexOf(framework, '/') case Some(index) => index + 1 case None => 0;
      linkFramework := linkFramework + [framework[off..]];
      remaining := framework[..off];
    }

    method PushOption(option: string)
      modifies this
      ensures Model() == old(Model()).WithOption(option)
    {
      linkOptions := linkOptions + [option];
    }

    method AddNewFileVec(fileName: string)
      modifies this
      ensures Model() == old(Model()).WithNewFile(fileName)
    {
      fileCompile := fileCompile + [[]];
      fileCompile := fileCompile[|fileCompile| - 1 := fileCompile[|fileCompile| - 1] + [fileName]];
      assert fileCompile[|fileCompile| - 1] == [fileName];
    }

    /** The program unwraps `last_mut()`: there must be a vector to extend. */
    method AddFileCmd(cmd: string)
      requires |fileCompile| > 0
      modifies this
      ensures Model() == old(Model()).WithFileCmd(cmd)
    {
      fileCompile := fileCompile[|fileCompile| - 1 := fileCompile[|fileCompile| - 1] + [cmd]];
    }

    method ChoosePathFromPlatform(sdk: Option<string>, tool: Option<string>, existing: set<string>) returns (ok: bool)
      modifies this
      ensures ok <==> Resolve(old(platform), sdk, tool, existing).status == Resolved
      ensures Model() == old(Model()).WithResolution(Resolve(old(platform), sdk, tool, existing))
    {
      var lib := RuntimeLib(platform);
      if lib.None? {
        return false;
      }
      libClang := libClang + lib.value;

      match sdk {
        case Some(s) =>
          if s !in existing {
            return false;
          }
          if !Contains(s, platform) {
            return false;
          }
          sdkPath := sdkPath + s;
        case None =>
          var s := DefaultSdk(platform);
          if s !in existing {
            return false;
          }
          sdkPath := sdkPath + s;
      }

      match tool {
        case Some(t) =>
          if t !in existing {
            return false;
          }
          toolChain := toolChain + t;
        case None =>
          if DefaultToolchain in existing {
            toolChain := toolChain + DefaultToolchain;
          } else {
            return false;
          }
      }
      return true;
    }
  }
}

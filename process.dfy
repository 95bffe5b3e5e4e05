/** `src/process.rs`: `MachOProcess`, which finds the embedded bitcode bundle in a
    Mach-O file, folds the bundle's manifest into the compile/link plan, compiles
    every module and links the objects. The external tools (`xar`, `clang`, `find`,
    `ld`) are the oracle values of `Tools`; the reader of the manifest is an
    `EventReader` over the events it would produce. */
module Process {
  import opened Common
  import opened Text
  import opened Context
  import opened Manifest
  import opened LinkPlan

  const SegmentName: string := "__LLVM"
  const SectionName: string := "__bundle"

  /** A section header of a segment load command. */
  datatype Section = Section(segname: string, sectname: string, addr: nat, offset: nat, size: nat)

  /** The load commands as the lookup sees them: only segments carry sections. */
  datatype LoadCommand =
    | Segment(sections: seq<Section>)
    | Segment64(sections: seq<Section>)
    | OtherCommand

  /** The kinds of object file the Mach-O parser can hand over. */
  datatype OFile =
    | MachFile(commands: seq<LoadCommand>)
    | FatFile
    | ArFile
    | SymDef

  function SectionsOf(c: LoadCommand): seq<Section> {
    if c.OtherCommand? then [] else c.sections
  }

  /** The section holding the bitcode bundle. */
  predicate IsBundle(s: Section) {
    s.segname == SegmentName && s.sectname == SectionName
  }

  /** A section, by the index of its load command and its index within it. */
  datatype Location = Location(command: nat, section: nat)

  predicate BundleAt(commands: seq<LoadCommand>, loc: Location) {
    loc.command < |commands| && loc.section < |SectionsOf(commands[loc.command])|
    && IsBundle(SectionsOf(commands[loc.command])[loc.section])
  }

  /** `a` comes before `b` in command order, then section order. */
  predicate Before(a: Location, b: Location) {
    a.command < b.command || (a.command == b.command && a.section < b.section)
  }

  function SectionAt(commands: seq<LoadCommand>, loc: Location): Section
    requires BundleAt(commands, loc)
  {
    SectionsOf(commands[loc.command])[loc.section]
  }

  /** The first bundle section among `sections[s..]`. */
  function FirstInSections(sections: seq<Section>, s: nat): (r: Option<nat>)
    ensures r.Some? ==>
      s <= r.value < |sections| && IsBundle(sections[r.value])
      && forall k :: s <= k < r.value ==> !IsBundle(sections[k])
    ensures r.None? ==> forall k :: s <= k < |sections| ==> !IsBundle(sections[k])
    decreases |sections| - s
  {
    if s >= |sections| then None
    else if IsBundle(sections[s]) then Some(s)
    else FirstInSections(sections, s + 1)
  }

  /** The first bundle section in the commands from `c` on. */
  function FirstBundleFrom(commands: seq<LoadCommand>, c: nat): (r: Option<Location>)
    ensures r.Some? ==>
      c <= r.value.command && BundleAt(commands, r.value)
      && forall loc :: BundleAt(commands, loc) && c <= loc.command ==> !Before(loc, r.value)
    ensures r.None? ==> forall loc :: BundleAt(commands, loc) ==> loc.command < c
    decreases |commands| - c
  {
    if c >= |commands| then None
    else
      match FirstInSections(SectionsOf(commands[c]), 0)
      case Some(s) => Some(Location(c, s))
      case None => FirstBundleFrom(commands, c + 1)
  }

  /** The section `handle_macho_file` extracts: the first `__LLVM`/`__bundle` section in
      command order, then section order, looking only inside segment commands; none
      when there is no such section. */
  function FirstBundle(commands: seq<LoadCommand>): (r: Option<Location>)
    ensures r.Some? ==>
      BundleAt(commands, r.value) && !commands[r.value.command].OtherCommand?
      && forall loc :: BundleAt(commands, loc) ==> !Before(loc, r.value)
    ensures r.None? <==> forall loc :: !BundleAt(commands, loc)
  {
    FirstBundleFrom(commands, 0)
  }

  /** A bundle section with none before it is the one `FirstBundle` picks. */
  lemma FirstBundleIs(commands: seq<LoadCommand>, loc: Location)
    requires BundleAt(commands, loc)
    requires forall other :: BundleAt(commands, other) ==> !Before(other, loc)
    ensures FirstBundle(commands) == Some(loc)
  {
    var r := FirstBundle(commands);
    assert r.Some?;
    assert !Before(loc, r.value) && !Before(r.value, loc);
  }

  /** What `section_hex` reads for section `s` after seeking to its offset. */
  function SectionBytes(payload: seq<byte>, s: Section): Result<seq<byte>> {
    if s.size == 0 then Ok([])
    else if s.offset + s.size <= |payload| then Ok(payload[s.offset..s.offset + s.size])
    else Err(UnexpectedEof)
  }

  /** The XML reader over the manifest. Reading past the last event is the reader's
      error on a truncated document, which the program unwraps. */
  class EventReader {
    const events: seq<XmlEvent>
    var pos: nat

    constructor (events: seq<XmlEvent>)
      ensures this.events == events && pos == 0
    {
      this.events := events;
      pos := 0;
    }

    method Next() returns (r: Result<XmlEvent>)
      modifies this
      ensures old(pos) < |events| ==> r == Ok(events[old(pos)]) && pos == old(pos) + 1
      ensures old(pos) >= |events| ==> r == Err(MalformedXml) && pos == old(pos)
    {
      if pos < |events| {
        r := Ok(events[pos]);
        pos := pos + 1;
      } else {
        r := Err(MalformedXml);
      }
    }
  }

  /** What `find` reports: whether it succeeded, and its output when that is UTF-8. */
  datatype FindOutput = FindOutput(success: bool, stdout: Option<string>)

  /** The external tools, by their exit statuses and outputs. */
  datatype Tools = Tools(
    dumpExit: seq<byte> -> int,                // `xar --dump-toc` on the extracted archive
    manifest: seq<byte> -> seq<XmlEvent>,      // the table of contents it writes, as reader events
    extractExit: int,                          // `xar -xf` on the archive
    clangExit: seq<string> -> int,             // `clang -cc1` on one compile vector
    find: FindOutput,                          // `find <toolchain> -name <runtime library>`
    ldExit: seq<string> -> int)                // `ld` on the link vector

  // ---- compiling ----

  /** Compiling succeeds when the archive is extracted and every compile vector compiles. */
  predicate CompileOk(fileCompile: seq<seq<string>>, extractExit: int, clangExit: seq<string> -> int) {
    extractExit == 0 && forall k :: 0 <= k < |fileCompile| ==> clangExit(fileCompile[k]) == 0
  }

  /** The loop of `compiler_files` as written: after spawning the compiler on a vector it
      waits on the extraction process again, whose status is `status` every time. */
  function WaitLoopAsWritten(fileCompile: seq<seq<string>>, status: int): (r: bool)
    ensures status == 0 ==> r
    ensures fileCompile != [] && status != 0 ==> !r
    decreases |fileCompile|
  {
    if fileCompile == [] then true
    else if status != 0 then false
    else WaitLoopAsWritten(fileCompile[1..], status)
  }

  /** `compiler_files` as written: it reports success exactly when the extraction
      succeeded, whatever the compiler returns. */
  function CompileStatusAsWritten(fileCompile: seq<seq<string>>, extractExit: int, clangExit: seq<string> -> int): (r: bool)
    ensures r <==> extractExit == 0
  {
    extractExit == 0 && WaitLoopAsWritten(fileCompile, extractExit)
  }

  /** Against the corrected wait: the program as written accepts every run the corrected
      one accepts, and beyond those exactly the runs where some compile vector fails. */
  lemma AsWrittenIgnoresCompiler(fileCompile: seq<seq<string>>, extractExit: int, clangExit: seq<string> -> int)
    ensures CompileOk(fileCompile, extractExit, clangExit) ==> CompileStatusAsWritten(fileCompile, extractExit, clangExit)
    ensures CompileStatusAsWritten(fileCompile, extractExit, clangExit) && !CompileOk(fileCompile, extractExit, clangExit)
      <==> extractExit == 0 && exists k :: 0 <= k < |fileCompile| && clangExit(fileCompile[k]) != 0
  {
  }

  /** One module that fails to compile: the program as written reports success. */
  lemma WrongHandleMissesFailure()
    ensures var fc := [["m"]]; var clang := (v: seq<string>) => 1;
      CompileStatusAsWritten(fc, 0, clang) && !CompileOk(fc, 0, clang)
  {
    var fc := [["m"]];
    var clang := (v: seq<string>) => 1;
    AsWrittenIgnoresCompiler(fc, 0, clang);
    assert clang(fc[0]) != 0;
  }

  // ---- linking ----

  /** The vector handed to `ld`, or none when `find` failed or printed something that
      is not UTF-8. */
  function LinkVector(info: Info, find: FindOutput): Option<seq<string>> {
    if find.success && find.stdout.Some? then Some(LinkArgs(info, find.stdout.value)) else None
  }

  predicate Linked(info: Info, tools: Tools) {
    var v := LinkVector(info, tools.find);
    v.Some? && tools.ldExit(v.value) == 0
  }

  // ---- the whole run ----

  /** `handle_ofile`: only a Mach-O file is handled. Without a bundle section, or when
      its table of contents cannot be dumped, it reports success without doing anything
      more; otherwise the manifest is parsed, the modules compiled and the objects linked,
      and the first step that fails decides the outcome. */
  function OfileOutcome(info: Info, ofile: OFile, payload: seq<byte>, sdk: Option<string>, tool: Option<string>,
                        existing: set<string>, tools: Tools): Result<bool>
    requires info.WellFormed()
  {
    match ofile
    case MachFile(commands) =>
      (match FirstBundle(commands)
       case None => Ok(true)
       case Some(loc) =>
         (match SectionBytes(payload, SectionAt(commands, loc))
          case Err(e) => Err(e)
          case Ok(archive) =>
            if tools.dumpExit(archive) != 0 then Ok(true)
            else
              (match ParseDocument(info, tools.manifest(archive), 0, sdk, tool, existing)
               case Err(e) => Err(e)
               case Ok(p) =>
                 if !p.ok then Ok(false)
                 else if !CompileOk(p.info.fileCompile, tools.extractExit, tools.clangExit) then Ok(false)
                 else Ok(Linked(p.info, tools)))))
    case _ => Ok(false)
  }

  /** A successful run over a bundle whose table of contents was dumped has parsed the
      manifest and resolved the platform, compiled every module and linked the objects
      with the linker's approval. */
  lemma SuccessMeansLinked(info: Info, commands: seq<LoadCommand>, payload: seq<byte>, sdk: Option<string>,
                           tool: Option<string>, existing: set<string>, tools: Tools, archive: seq<byte>)
    requires info.WellFormed()
    requires FirstBundle(commands).Some?
    requires SectionBytes(payload, SectionAt(commands, FirstBundle(commands).value)) == Ok(archive)
    requires tools.dumpExit(archive) == 0
    requires OfileOutcome(info, MachFile(commands), payload, sdk, tool, existing, tools) == Ok(true)
    ensures var p := ParseDocument(info, tools.manifest(archive), 0, sdk, tool, existing);
      p.Ok? && p.value.ok
      && CompileOk(p.value.info.fileCompile, tools.extractExit, tools.clangExit)
      && Linked(p.value.info, tools)
  {
  }

  /** The recompiler: it owns the plan and updates it as the run proceeds. */
  class MachOProcess {
    const reInfo: ReCompilerInfo

    /** Every compile vector holds its module name. */
    predicate Valid()
      reads this, reInfo
    {
      reInfo.Model().WellFormed()
    }

    constructor ()
      ensures fresh(reInfo) && reInfo.Model() == EmptyInfo && Valid()
    {
      reInfo := new ReCompilerInfo();
    }

    /** `parse_element`, called just after the start of element `tag`. */
    method ParseElement(parse: EventReader, tag: string) returns (r: Result<bool>)
      requires parse.pos <= |parse.events|
      modifies reInfo, parse
      ensures var spec := ParseElementSpec(old(reInfo.Model()), tag, parse.events, old(parse.pos));
        (spec.Ok? ==> r == Ok(true) && reInfo.Model() == spec.value.info && parse.pos == spec.value.next)
        && (spec.Err? ==> r == Err(spec.error))
    {
      if !Recognised(tag) {
        return Ok(true);
      }
      while true
        invariant parse.pos <= |parse.events|
        invariant ElementBody(reInfo.Model(), tag, parse.events, parse.pos)
          == ElementBody(old(reInfo.Model()), tag, parse.events, old(parse.pos))
        decreases |parse.events| - parse.pos
      {
        var event := parse.Next();
        match event {
          case Err(e) =>
            return Err(e);
          case Ok(EndElement(_)) =>
            return Ok(true);
          case Ok(Characters(data)) =>
            if tag == "platform" {
              reInfo.SetPlatform(data);
            } else if tag == "option" {
              reInfo.PushOption(data);
            } else if tag == "lib" {
              var _ := reInfo.PushFramework(data);
            } else if tag == "name" {
              reInfo.AddNewFileVec(data);
            } else {
              if |reInfo.fileCompile| == 0 {
                return Err(NoCurrentModule);
              }
              reInfo.AddFileCmd(data);
            }
          case Ok(_) =>
        }
      }
    }

    /** `parse_xml` over the events of `parse`. */
    method ParseXml(parse: EventReader, sdk: Option<string>, tool: Option<string>, existing: set<string>)
      returns (r: Result<bool>)
      requires Valid() && parse.pos <= |parse.events|
      modifies reInfo, parse
      ensures var spec := ParseDocument(old(reInfo.Model()), parse.events, old(parse.pos), sdk, tool, existing);
        (spec.Ok? ==> r == Ok(spec.value.ok) && reInfo.Model() == spec.value.info && Valid())
        && (spec.Err? ==> r == Err(spec.error))
    {
      ghost var start := reInfo.Model();
      ghost var startPos := parse.pos;
      while true
        invariant parse.pos <= |parse.events| && Valid()
        invariant DocumentFold(reInfo.Model(), parse.events, parse.pos) == DocumentFold(start, parse.events, startPos)
        decreases |parse.events| - parse.pos
      {
        var node := parse.Next();
        match node {
          case Err(e) =>
            return Err(e);
          case Ok(EndDocument) =>
            break;
          case Ok(StartElement(name)) =>
            ghost var before := reInfo.Model();
            ghost var at := parse.pos;
            ElementFrame(before, name, parse.events, at);
            var element := ParseElement(parse, name);
            if element.Err? {
              return Err(element.error);
            }
          case Ok(_) =>
        }
      }
      ghost var parsed := reInfo.Model();
      assert DocumentFold(start, parse.events, startPos) == Ok(parsed);
      var resolved := reInfo.ChoosePathFromPlatform(sdk, tool, existing);
      if !resolved {
        return Ok(false);
      }
      OperationsKeepWellFormed(parsed, "", Resolve(parsed.platform, sdk, tool, existing));
      Finalize();
      return Ok(true);
    }

    /** The loop that names one object file per compile vector and appends to each
        vector the tokens that compile it to that file. */
    method Finalize()
      requires Valid()
      modifies reInfo
      ensures reInfo.Model() == Finalise(old(reInfo.Model()))
      ensures Valid()
    {
      ghost var start := reInfo.Model();
      var n := |reInfo.fileCompile|;
      for index := 0 to n
        invariant |reInfo.fileCompile| == n
        invariant |reInfo.objFile| == |start.objFile| + index
        invariant reInfo.objFile[..|start.objFile|] == start.objFile
        invariant forall k :: 0 <= k < index ==> reInfo.objFile[|start.objFile| + k] == ObjName(start.fileCompile[k])
        invariant forall k :: 0 <= k < n ==>
          reInfo.fileCompile[k] == (if k < index then start.fileCompile[k] + Trailer(ObjName(start.fileCompile[k]))
                                    else start.fileCompile[k])
        invariant reInfo.Model().(objFile := start.objFile, fileCompile := start.fileCompile) == start
      {
        var out := reInfo.fileCompile[index][0] + ".o";
        reInfo.objFile := reInfo.objFile + [out];
        reInfo.fileCompile := reInfo.fileCompile[index := reInfo.fileCompile[index] + ["-x", "ir", "-o", out]];
      }
      assert reInfo.Model() == Finalise(start);
      FinaliseSpec(start);
    }

    /** `compiler_files` with the wait on each compiler process: it succeeds exactly
        when the archive is extracted and every compile vector compiles. */
    method CompilerFiles(extractExit: int, clangExit: seq<string> -> int) returns (ok: bool)
      ensures ok == CompileOk(reInfo.fileCompile, extractExit, clangExit)
    {
      if extractExit != 0 {
        return false;
      }
      for i := 0 to |reInfo.fileCompile|
        invariant forall k :: 0 <= k < i ==> clangExit(reInfo.fileCompile[k]) == 0
      {
        var status := clangExit(reInfo.fileCompile[i]);
        if status != 0 {
          return false;
        }
      }
      return true;
    }

    /** `handle_macho_file`: the first bundle section is read from the file and its table
        of contents dumped; the dump's exit status is the answer. Without a bundle
        section the answer is false. */
    method HandleMachoFile(commands: seq<LoadCommand>, ctxt: FileContext, dumpExit: seq<byte> -> int)
      returns (r: Result<bool>, archive: seq<byte>)
      modifies ctxt
      ensures FirstBundle(commands).None? ==> r == Ok(false)
      ensures FirstBundle(commands).Some? ==>
        var bytes := SectionBytes(ctxt.payload[..], SectionAt(commands, FirstBundle(commands).value));
        (bytes.Err? ==> r == Err(bytes.error))
        && (bytes.Ok? ==> archive == bytes.value && r == Ok(dumpExit(archive) == 0))
    {
      for c := 0 to |commands|
        invariant forall loc :: BundleAt(commands, loc) ==> loc.command >= c
      {
        var command := commands[c];
        if !command.OtherCommand? {
          var sections := command.sections;
          for s := 0 to |sections|
            invariant forall k :: 0 <= k < s ==> !IsBundle(sections[k])
          {
            var sect := sections[s];
            if sect.segname == SegmentName && sect.sectname == SectionName {
              FirstBundleIs(commands, Location(c, s));
              ctxt.Seek(sect.offset);
              var dump := ctxt.SectionHex(sect.addr, sect.size);
              if dump.Err? {
                return Err(dump.error), [];
              }
              archive := dump.value;
              return Ok(dumpExit(archive) == 0), archive;
            }
          }
        }
      }
      return Ok(false), [];
    }

    /** The option loop of `link_objects`: each stored option is copied into the link
        vector, except that the one after the executable-path flag is emitted as `./`
        plus its leaf and cut down in place to its directory part. */
    method RewriteOptions() returns (out: seq<string>)
      modifies reInfo
      ensures out == ScanOptions(old(reInfo.linkOptions)).out
      ensures reInfo.Model() == old(reInfo.Model()).(linkOptions := ScanOptions(old(reInfo.linkOptions)).stored)
    {
      ghost var start := reInfo.Model();
      ghost var opts := reInfo.linkOptions;
      out := [];
      var outPath := false;
      for i := 0 to |reInfo.linkOptions|
        invariant |reInfo.linkOptions| == |opts|
        invariant out == ScanOptions(opts[..i]).out && outPath == ScanOptions(opts[..i]).pending
        invariant reInfo.linkOptions[..i] == ScanOptions(opts[..i]).stored
        invariant reInfo.linkOptions[i..] == opts[i..]
        invariant reInfo.Model().(linkOptions := opts) == start
      {
        ScanStep(opts, i);
        var opt := reInfo.linkOptions[i];
        assert opt == reInfo.linkOptions[i..][0] == opts[i];
        if outPath {
          var off := LeafStart(opt);
          out := out + ["./" + opt[off..]];
          reInfo.linkOptions := reInfo.linkOptions[i := opt[..off]];
          outPath := false;
        } else {
          out := out + [opt];
        }
        if reInfo.linkOptions[i] == ExecutablePath {
          outPath := true;
        }
        assert reInfo.linkOptions[..i + 1] == reInfo.linkOptions[..i] + [reInfo.linkOptions[i]];
        assert reInfo.linkOptions[i + 1..] == reInfo.linkOptions[i..][1..];
      }
      assert opts[..|opts|] == opts;
      assert reInfo.linkOptions == reInfo.linkOptions[..|opts|];
    }

    /** `link_objects`: rewrites the stored options while building the link vector, asks
        `find` for the runtime library and runs the linker on the vector. */
    method LinkObjects(find: FindOutput, ldExit: seq<string> -> int) returns (ok: bool, linked: Option<seq<string>>)
      modifies reInfo
      ensures reInfo.Model() == old(reInfo.Model()).(linkOptions := ScanOptions(old(reInfo.linkOptions)).stored)
      ensures linked == LinkVector(old(reInfo.Model()), find)
      ensures ok == (linked.Some? && ldExit(linked.value) == 0)
      ensures old(Valid()) ==> Valid()
    {
      var linkOptions := RewriteOptions();
      linkOptions := linkOptions + ["-syslibroot", reInfo.sdkPath];
      ghost var head := linkOptions;
      for k := 0 to |reInfo.linkFramework|
        invariant linkOptions == head + FrameworkArgs(reInfo.linkFramework[..k])
      {
        assert reInfo.linkFramework[..k + 1][..k] == reInfo.linkFramework[..k];
        linkOptions := linkOptions + ["-framework", reInfo.linkFramework[k]];
      }
      assert reInfo.linkFramework[..|reInfo.linkFramework|] == reInfo.linkFramework;
      if !find.success {
        return false, None;
      }
      if find.stdout.None? {
        return false, None;
      }
      var libClang := find.stdout.value;
      if |libClang| > 0 {
        libClang := libClang[..|libClang| - 1];
      }
      linkOptions := linkOptions + ["-lSystem", libClang];
      head := linkOptions;
      for k := 0 to |reInfo.objFile|
        invariant linkOptions == head + reInfo.objFile[..k]
      {
        linkOptions := linkOptions + [reInfo.objFile[k]];
      }
      assert reInfo.objFile[..|reInfo.objFile|] == reInfo.objFile;
      linked := Some(linkOptions);
      ok := ldExit(linkOptions) == 0;
    }

    /** `handle_ofile` with the compile step waiting on each compiler process. */
    method HandleOfile(ofile: OFile, ctxt: FileContext, sdk: Option<string>, tool: Option<string>,
                       existing: set<string>, tools: Tools) returns (r: Result<bool>)
      requires Valid()
      modifies reInfo, ctxt
      ensures r == OfileOutcome(old(reInfo.Model()), ofile, ctxt.payload[..], sdk, tool, existing, tools)
      ensures !ofile.MachFile? || FirstBundle(ofile.commands).None? ==> reInfo.Model() == old(reInfo.Model())
      ensures ofile.MachFile? && FirstBundle(ofile.commands).Some? ==>
        var bytes := SectionBytes(ctxt.payload[..], SectionAt(ofile.commands, FirstBundle(ofile.commands).value));
        !(bytes.Ok? && tools.dumpExit(bytes.value) == 0) ==> reInfo.Model() == old(reInfo.Model())
      ensures r.Ok? ==> Valid()
    {
      match ofile {
        case MachFile(commands) =>
          var found, archive := HandleMachoFile(commands, ctxt, tools.dumpExit);
          if found.Err? {
            return Err(found.error);
          }
          if found.value {
            var parse := new EventReader(tools.manifest(archive));
            var parsed := ParseXml(parse, sdk, tool, existing);
            if parsed.Err? {
              return Err(parsed.error);
            }
            if !parsed.value {
              return Ok(false);
            }
            var compiled := CompilerFiles(tools.extractExit, tools.clangExit);
            if !compiled {
              return Ok(false);
            }
            var linked, _ := LinkObjects(tools.find, tools.ldExit);
            if !linked {
              return Ok(false);
            }
          }
          return Ok(true);
        case _ =>
          return Ok(false);
      }
    }
  }
}

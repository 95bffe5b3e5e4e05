/** The manifest half of `MachOProcess` (`parse_element`, `parse_xml` in
    `src/process.rs`) as functions over the events the XML reader hands out: how one
    element and the whole document fold into the plan, and the finalisation that
    names the object files. */
module Manifest {
  import opened Common
  import opened Text
  import opened Context

  /** The reader's events. Whitespace, comments, CDATA and processing instructions,
      which the parser never inspects, are all `OtherEvent`. */
  datatype XmlEvent =
    | StartDocument
    | EndDocument
    | StartElement(localName: string)
    | EndElement(localName: string)
    | Characters(data: string)
    | OtherEvent

  /** The element names `parse_element` acts on; any other name is skipped. */
  predicate Recognised(tag: string) {
    tag == "platform" || tag == "option" || tag == "lib" || tag == "name" || tag == "cmd"
  }

  /** What one character payload inside element `tag` does to the plan. A `cmd`
      payload with no compile vector to extend is the `unwrap` failure of `add_file_cmd`. */
  function ApplyPayload(info: Info, tag: string, data: string): Result<Info>
    requires Recognised(tag)
  {
    if tag == "platform" then Ok(info.WithPlatform(data))
    else if tag == "option" then Ok(info.WithOption(data))
    else if tag == "lib" then Ok(info.WithFramework(data))
    else if tag == "name" then Ok(info.WithNewFile(data))
    else if |info.fileCompile| == 0 then Err(NoCurrentModule)
    else Ok(info.WithFileCmd(data))
  }

  /** The plan after an element, and the index of the first event after its end. */
  datatype Step = Step(info: Info, next: nat)

  /** The inner loop of `parse_element`, from event `i` on: payloads are applied in
      order, other events are skipped, and the first end element stops it. */
  function ElementBody(info: Info, tag: string, events: seq<XmlEvent>, i: nat): (r: Result<Step>)
    requires Recognised(tag)
    ensures r.Ok? ==> i < r.value.next <= |events| && events[r.value.next - 1].EndElement?
    decreases |events| - i
  {
    if i >= |events| then Err(MalformedXml)
    else
      match events[i]
      case EndElement(_) => Ok(Step(info, i + 1))
      case Characters(data) =>
        (match ApplyPayload(info, tag, data)
         case Err(e) => Err(e)
         case Ok(next) => ElementBody(next, tag, events, i + 1))
      case _ => ElementBody(info, tag, events, i + 1)
  }

  /** `parse_element` called just after the start of element `tag`. */
  function ParseElementSpec(info: Info, tag: string, events: seq<XmlEvent>, i: nat): Result<Step> {
    if Recognised(tag) then ElementBody(info, tag, events, i) else Ok(Step(info, i))
  }

  /** The outer loop of `parse_xml`, from event `i` on, up to the end of the document. */
  function DocumentFold(info: Info, events: seq<XmlEvent>, i: nat): Result<Info>
    decreases |events| - i
  {
    if i >= |events| then Err(MalformedXml)
    else
      match events[i]
      case EndDocument => Ok(info)
      case StartElement(tag) =>
        (match ParseElementSpec(info, tag, events, i + 1)
         case Err(e) => Err(e)
         case Ok(step) => DocumentFold(step.info, events, step.next))
      case _ => DocumentFold(info, events, i + 1)
  }

  // ---- an element described by its payloads ----

  /** The index of the first end element at or after `i`. */
  function FirstEnd(events: seq<XmlEvent>, i: nat): (r: Option<nat>)
    ensures r.Some? ==>
      (i <= r.value < |events| && events[r.value].EndElement?
       && forall j :: i <= j < r.value ==> !events[j].EndElement?)
    ensures r.None? ==> forall j :: i <= j < |events| ==> !events[j].EndElement?
    decreases |events| - i
  {
    if i >= |events| then None
    else if events[i].EndElement? then Some(i)
    else FirstEnd(events, i + 1)
  }

  /** The character payloads among `events[i..j]`, in document order. */
  function Payloads(events: seq<XmlEvent>, i: nat, j: nat): seq<string>
    requires i <= j <= |events|
    decreases j - i
  {
    if i == j then []
    else (if events[i].Characters? then [events[i].data] else []) + Payloads(events, i + 1, j)
  }

  /** Payloads applied one after another, stopping at the first failure. */
  function FoldPayloads(info: Info, tag: string, payloads: seq<string>): Result<Info>
    requires Recognised(tag)
    decreases |payloads|
  {
    if payloads == [] then Ok(info)
    else
      match ApplyPayload(info, tag, payloads[0])
      case Err(e) => Err(e)
      case Ok(next) => FoldPayloads(next, tag, payloads[1..])
  }

  /** Where an element's payloads stop: its first end element, or the end of input. */
  function ElementEnd(events: seq<XmlEvent>, i: nat): (j: nat)
    requires i <= |events|
    ensures i <= j <= |events|
    ensures FirstEnd(events, i).Some? <==> j < |events|
  {
    match FirstEnd(events, i)
    case Some(e) => e
    case None => |events|
  }

  /** The outcome of an element once its payloads are folded: resume after the end
      element if there is one, otherwise the reader runs out. */
  function Close(fold: Result<Info>, end: Option<nat>): Result<Step> {
    match fold
    case Err(e) => Err(e)
    case Ok(after) => if end.Some? then Ok(Step(after, end.value + 1)) else Err(MalformedXml)
  }

  /** The induction behind `ElementByPayloads`, stated through `Close`. */
  lemma {:induction false} ElementSteps(info: Info, tag: string, events: seq<XmlEvent>, i: nat)
    requires Recognised(tag) && i <= |events|
    ensures ElementBody(info, tag, events, i) ==
      Close(FoldPayloads(info, tag, Payloads(events, i, ElementEnd(events, i))), FirstEnd(events, i))
    decreases |events| - i
  {
    if i < |events| && !events[i].EndElement? {
      var j := ElementEnd(events, i);
      PayloadsStep(events, i, j);
      assert ElementEnd(events, i + 1) == j;
      if events[i].Characters? {
        var data := events[i].data;
        FoldCons(info, tag, data, Payloads(events, i + 1, j));
        if ApplyPayload(info, tag, data).Ok? {
          ElementSteps(ApplyPayload(info, tag, data).value, tag, events, i + 1);
        }
      } else {
        assert Payloads(events, i, j) == Payloads(events, i + 1, j);
        ElementSteps(info, tag, events, i + 1);
      }
    }
  }

  /** An element applies exactly the payloads before its first end element and resumes
      right after it; with no end element the reader runs out, unless a payload failed first. */
  lemma ElementByPayloads(info: Info, tag: string, events: seq<XmlEvent>, i: nat)
    requires Recognised(tag) && i <= |events|
    ensures ElementBody(info, tag, events, i) ==
      match FirstEnd(events, i)
      case Some(j) =>
        (match FoldPayloads(info, tag, Payloads(events, i, j))
         case Err(e) => Err(e)
         case Ok(after) => Ok(Step(after, j + 1)))
      case None =>
        (match FoldPayloads(info, tag, Payloads(events, i, |events|))
         case Err(e) => Err(e)
         case Ok(_) => Err(MalformedXml))
  {
    ElementSteps(info, tag, events, i);
  }

  /** Stepping over one event that is not an end element. */
  lemma PayloadsStep(events: seq<XmlEvent>, i: nat, j: nat)
    requires i < j <= |events| && !events[i].EndElement?
    ensures FirstEnd(events, i) == FirstEnd(events, i + 1)
    ensures Payloads(events, i, j) ==
      (if events[i].Characters? then [events[i].data] else []) + Payloads(events, i + 1, j)
  {
  }

  /** Folding a payload list that starts with `data`. */
  lemma FoldCons(info: Info, tag: string, data: string, rest: seq<string>)
    requires Recognised(tag)
    ensures ApplyPayload(info, tag, data).Err? ==>
      FoldPayloads(info, tag, [data] + rest) == Err(ApplyPayload(info, tag, data).error)
    ensures ApplyPayload(info, tag, data).Ok? ==>
      FoldPayloads(info, tag, [data] + rest) == FoldPayloads(ApplyPayload(info, tag, data).value, tag, rest)
  {
    assert ([data] + rest)[0] == data && ([data] + rest)[1..] == rest;
  }

  /** `option` payloads are appended to the link options in document order. */
  lemma {:induction false} OptionPayloads(info: Info, payloads: seq<string>)
    ensures FoldPayloads(info, "option", payloads) == Ok(info.(linkOptions := info.linkOptions + payloads))
    decreases |payloads|
  {
    if payloads != [] {
      assert ApplyPayload(info, "option", payloads[0]) == Ok(info.WithOption(payloads[0]));
      OptionPayloads(info.WithOption(payloads[0]), payloads[1..]);
      assert info.linkOptions + [payloads[0]] + payloads[1..] == info.linkOptions + payloads;
    } else {
      assert info.linkOptions + payloads == info.linkOptions;
    }
  }

  /** `platform` payloads overwrite the platform: the last one wins, nothing else changes. */
  lemma {:induction false} PlatformPayloads(info: Info, payloads: seq<string>)
    ensures FoldPayloads(info, "platform", payloads) ==
      Ok(if payloads == [] then info else info.(platform := payloads[|payloads| - 1]))
    decreases |payloads|
  {
    if payloads != [] {
      assert ApplyPayload(info, "platform", payloads[0]) == Ok(info.WithPlatform(payloads[0]));
      PlatformPayloads(info.WithPlatform(payloads[0]), payloads[1..]);
    }
  }

  /** The framework names recorded for a list of `lib` payloads. */
  function Frameworks(payloads: seq<string>): (r: seq<string>)
    ensures |r| <= |payloads|
    ensures forall k :: 0 <= k < |r| ==> '/' !in r[k] && !Contains(r[k], SystemLibRoot)
    decreases |payloads|
  {
    if payloads == [] then []
    else
      var first := NormalizeFramework(payloads[0]);
      if first.Some? then
        NormalizedNotSystem(payloads[0]);
        [first.value] + Frameworks(payloads[1..])
      else Frameworks(payloads[1..])
  }

  /** `lib` payloads extend the frameworks by their normalised names, in order. */
  lemma {:induction false} LibPayloads(info: Info, payloads: seq<string>)
    ensures FoldPayloads(info, "lib", payloads) ==
      Ok(info.(linkFramework := info.linkFramework + Frameworks(payloads)))
    decreases |payloads|
  {
    if payloads != [] {
      var next := info.WithFramework(payloads[0]);
      assert ApplyPayload(info, "lib", payloads[0]) == Ok(next);
      LibPayloads(next, payloads[1..]);
      match NormalizeFramework(payloads[0])
      case None =>
      case Some(name) =>
        assert info.linkFramework + [name] + Frameworks(payloads[1..])
          == info.linkFramework + Frameworks(payloads);
    } else {
      assert info.linkFramework + Frameworks(payloads) == info.linkFramework;
    }
  }

  /** A payload under the system library root adds nothing, however many there are. */
  lemma SystemLibsDropped(payloads: seq<string>)
    requires forall k :: 0 <= k < |payloads| ==> Contains(payloads[k], SystemLibRoot)
    ensures Frameworks(payloads) == []
    decreases |payloads|
  {
    if payloads != [] {
      SystemLibsDropped(payloads[1..]);
    }
  }

  /** One new compile vector per payload, each holding only the module name. */
  function Singletons(names: seq<string>): (r: seq<seq<string>>)
    ensures |r| == |names| && forall k :: 0 <= k < |r| ==> r[k] == [names[k]]
  {
    seq(|names|, k requires 0 <= k < |names| => [names[k]])
  }

  /** `name` payloads each open a compile vector starting with that name. */
  lemma {:induction false} NamePayloads(info: Info, payloads: seq<string>)
    ensures FoldPayloads(info, "name", payloads) ==
      Ok(info.(fileCompile := info.fileCompile + Singletons(payloads)))
    decreases |payloads|
  {
    if payloads != [] {
      assert ApplyPayload(info, "name", payloads[0]) == Ok(info.WithNewFile(payloads[0]));
      NamePayloads(info.WithNewFile(payloads[0]), payloads[1..]);
      assert info.fileCompile + [[payloads[0]]] + Singletons(payloads[1..])
        == info.fileCompile + Singletons(payloads);
    } else {
      assert info.fileCompile + Singletons(payloads) == info.fileCompile;
    }
  }

  /** `cmd` payloads all go to the last compile vector; earlier vectors and every other
      field stay as they were. With no vector to extend the first payload fails. */
  lemma {:induction false} CmdPayloads(info: Info, payloads: seq<string>)
    ensures var n := |info.fileCompile|;
      FoldPayloads(info, "cmd", payloads) ==
        if payloads == [] then Ok(info)
        else if n == 0 then Err(NoCurrentModule)
        else Ok(info.(fileCompile := info.fileCompile[n - 1 := info.fileCompile[n - 1] + payloads]))
    decreases |payloads|
  {
    var n := |info.fileCompile|;
    if payloads != [] && n > 0 {
      var next := info.WithFileCmd(payloads[0]);
      assert ApplyPayload(info, "cmd", payloads[0]) == Ok(next);
      CmdPayloads(next, payloads[1..]);
      assert next.fileCompile[n - 1] + payloads[1..] == info.fileCompile[n - 1] + payloads;
      if |payloads| == 1 {
        assert payloads == [payloads[0]];
      } else {
        assert next.fileCompile[n - 1 := next.fileCompile[n - 1] + payloads[1..]]
          == info.fileCompile[n - 1 := info.fileCompile[n - 1] + payloads];
      }
    }
  }

  /** A framework name as `push_framework` records it: no `/`, nothing of the system
      library root. */
  predicate CleanName(name: string) {
    '/' !in name && !Contains(name, SystemLibRoot)
  }

  /** What manifest parsing may do to a plan `a` to give `b`: every compile vector stays
      non-empty; runtime library, SDK, toolchain and object files stay as they were;
      options and frameworks only grow, and every framework added is a clean name;
      compile vectors are only added or extended, so each keeps its module name in front. */
  predicate FrameKept(a: Info, b: Info) {
    b.WellFormed()
    && b.libClang == a.libClang && b.sdkPath == a.sdkPath
    && b.toolChain == a.toolChain && b.objFile == a.objFile
    && a.linkOptions <= b.linkOptions && a.linkFramework <= b.linkFramework
    && (forall k :: |a.linkFramework| <= k < |b.linkFramework| ==> CleanName(b.linkFramework[k]))
    && |a.fileCompile| <= |b.fileCompile|
    && (forall k :: 0 <= k < |a.fileCompile| ==> a.fileCompile[k] <= b.fileCompile[k])
  }

  /** Two steps that each keep the frame keep it together. */
  lemma FrameTrans(a: Info, b: Info, c: Info)
    requires FrameKept(a, b) && FrameKept(b, c)
    ensures FrameKept(a, c)
  {
    forall k | |a.linkFramework| <= k < |c.linkFramework|
      ensures CleanName(c.linkFramework[k])
    {
      if k < |b.linkFramework| {
        assert c.linkFramework[k] == b.linkFramework[k];
      }
    }
  }

  /** One payload keeps the frame. */
  lemma PayloadFrame(info: Info, tag: string, data: string)
    requires info.WellFormed() && Recognised(tag) && ApplyPayload(info, tag, data).Ok?
    ensures FrameKept(info, ApplyPayload(info, tag, data).value)
  {
    OperationsKeepWellFormed(info, data, Resolution(Resolved, "", "", ""));
    if tag == "lib" && NormalizeFramework(data).Some? {
      NormalizedNotSystem(data);
    }
    if tag == "cmd" {
      var n := |info.fileCompile|;
      assert info.fileCompile[n - 1] <= info.fileCompile[n - 1] + [data];
    }
  }

  /** Parsing a document changes only the platform, options, frameworks and compile
      vectors, within `FrameKept`: whatever the manifest lists under the system library
      root, no such framework is added. */
  lemma {:induction false} DocumentFoldFrame(info: Info, events: seq<XmlEvent>, i: nat)
    requires info.WellFormed()
    ensures var r := DocumentFold(info, events, i);
      r.Ok? ==> FrameKept(info, r.value)
    decreases |events| - i
  {
    if i < |events| {
      match events[i] {
        case EndDocument =>
        case StartElement(tag) =>
          match ParseElementSpec(info, tag, events, i + 1) {
            case Err(_) =>
            case Ok(step) =>
              ElementFrame(info, tag, events, i + 1);
              DocumentFoldFrame(step.info, events, step.next);
              if DocumentFold(step.info, events, step.next).Ok? {
                FrameTrans(info, step.info, DocumentFold(step.info, events, step.next).value);
              }
          }
        case _ =>
          DocumentFoldFrame(info, events, i + 1);
      }
    }
  }

  /** One element keeps the same frame as the whole document. */
  lemma {:induction false} ElementFrame(info: Info, tag: string, events: seq<XmlEvent>, i: nat)
    requires info.WellFormed()
    ensures var r := ParseElementSpec(info, tag, events, i);
      r.Ok? ==> FrameKept(info, r.value.info)
    decreases |events| - i
  {
    if Recognised(tag) && i < |events| {
      match events[i] {
        case EndElement(_) =>
        case Characters(data) =>
          match ApplyPayload(info, tag, data) {
            case Err(_) =>
            case Ok(next) =>
              PayloadFrame(info, tag, data);
              ElementFrame(next, tag, events, i + 1);
              var r := ParseElementSpec(next, tag, events, i + 1);
              if r.Ok? {
                FrameTrans(info, next, r.value.info);
              }
          }
        case _ =>
          ElementFrame(info, tag, events, i + 1);
      }
    }
  }

  /** Parsing a manifest from the empty plan records only clean framework names, keeps
      every compile vector non-empty and leaves the paths and object files empty. */
  lemma DocumentFrameworksClean(events: seq<XmlEvent>)
    requires DocumentFold(EmptyInfo, events, 0).Ok?
    ensures var r := DocumentFold(EmptyInfo, events, 0).value;
      (forall k :: 0 <= k < |r.linkFramework| ==> CleanName(r.linkFramework[k]))
      && r.WellFormed() && r.objFile == [] && r.libClang == "" && r.sdkPath == "" && r.toolChain == ""
  {
    DocumentFoldFrame(EmptyInfo, events, 0);
  }

  // ---- finalisation ----

  /** The object file compiled from a compile vector: its module name and `.o`. */
  function ObjName(v: seq<string>): string
    requires |v| > 0
  {
    v[0] + ".o"
  }

  /** The tokens appended to every compile vector: compile LLVM IR into `obj`. */
  function Trailer(obj: string): seq<string> {
    ["-x", "ir", "-o", obj]
  }

  /** The loop after a successful platform resolution, over every compile vector. */
  function Finalise(info: Info): Info
    requires info.WellFormed()
  {
    var fc := info.fileCompile;
    info.(objFile := info.objFile + seq(|fc|, i requires 0 <= i < |fc| => ObjName(fc[i])),
          fileCompile := seq(|fc|, i requires 0 <= i < |fc| => fc[i] + Trailer(ObjName(fc[i]))))
  }

  /** Finalisation adds one object file per compile vector, named after the vector's
      first token (still its module name), and extends each vector by exactly the four
      tokens that compile it to that file; nothing else changes. */
  lemma FinaliseSpec(info: Info)
    requires info.WellFormed()
    ensures var r := Finalise(info); var m := |info.objFile|;
      |r.objFile| == m + |info.fileCompile| && r.objFile[..m] == info.objFile
      && |r.fileCompile| == |info.fileCompile| && r.WellFormed()
      && (forall i :: 0 <= i < |info.fileCompile| ==>
            r.fileCompile[i][..|info.fileCompile[i]|] == info.fileCompile[i]
            && r.objFile[m + i] == r.fileCompile[i][0] + ".o"
            && r.fileCompile[i][|info.fileCompile[i]|..] == ["-x", "ir", "-o", r.objFile[m + i]])
      && r.(objFile := info.objFile, fileCompile := info.fileCompile) == info
  {
    var r := Finalise(info);
    var m := |info.objFile|;
    forall i | 0 <= i < |info.fileCompile|
      ensures r.fileCompile[i][..|info.fileCompile[i]|] == info.fileCompile[i]
      ensures r.objFile[m + i] == r.fileCompile[i][0] + ".o"
    {
      assert r.fileCompile[i][0] == info.fileCompile[i][0];
    }
  }

  /** Starting with no object files, finalisation leaves the object files parallel to
      the compile vectors: same number, `i`-th named after the `i`-th module, and every
      vector ending in the four tokens that produce that file. */
  lemma FinaliseParallel(info: Info)
    requires info.WellFormed() && info.objFile == []
    ensures var r := Finalise(info);
      |r.objFile| == |r.fileCompile|
      && forall i :: 0 <= i < |r.fileCompile| ==>
           |r.fileCompile[i]| >= 5
           && r.objFile[i] == r.fileCompile[i][0] + ".o"
           && r.fileCompile[i][|r.fileCompile[i]| - 4..] == ["-x", "ir", "-o", r.objFile[i]]
  {
    FinaliseSpec(info);
  }

  // ---- the whole of `parse_xml` ----

  /** Whether `parse_xml` reported success, and the plan it leaves. */
  datatype Parsed = Parsed(ok: bool, info: Info)

  /** `parse_xml`: fold the document, resolve the platform's paths, and finalise the
      compile vectors only when resolution succeeded. */
  function ParseDocument(info: Info, events: seq<XmlEvent>, i: nat, sdk: Option<string>, tool: Option<string>,
                         existing: set<string>): Result<Parsed>
    requires info.WellFormed()
  {
    match DocumentFold(info, events, i)
    case Err(e) => Err(e)
    case Ok(parsed) =>
      DocumentFoldFrame(info, events, i);
      var res := Resolve(parsed.platform, sdk, tool, existing);
      OperationsKeepWellFormed(parsed, "", res);
      var resolved := parsed.WithResolution(res);
      if res.status == Resolved then Ok(Parsed(true, Finalise(resolved))) else Ok(Parsed(false, resolved))
  }

  /** `parse_xml` succeeds exactly when the document folds and the paths resolve. When
      resolution fails the object files and compile vectors are those the document
      produced; when it succeeds one object file per compile vector is added. */
  lemma ParseOutcome(info: Info, events: seq<XmlEvent>, i: nat, sdk: Option<string>, tool: Option<string>,
                     existing: set<string>)
    requires info.WellFormed()
    ensures var fold := DocumentFold(info, events, i); var r := ParseDocument(info, events, i, sdk, tool, existing);
      (fold.Err? ==> r == Err(fold.error))
      && (fold.Ok? ==>
            r.Ok?
            && (r.value.ok <==> Resolve(fold.value.platform, sdk, tool, existing).status == Resolved)
            && r.value.info.linkOptions == fold.value.linkOptions
            && r.value.info.linkFramework == fold.value.linkFramework
            && (!r.value.ok ==>
                  r.value.info.objFile == fold.value.objFile && r.value.info.fileCompile == fold.value.fileCompile)
            && (r.value.ok ==>
                  |r.value.info.objFile| == |fold.value.objFile| + |fold.value.fileCompile|
                  && |r.value.info.fileCompile| == |fold.value.fileCompile|))
  {
    var fold := DocumentFold(info, events, i);
    if fold.Ok? {
      DocumentFoldFrame(info, events, i);
      var res := Resolve(fold.value.platform, sdk, tool, existing);
      OperationsKeepWellFormed(fold.value, "", res);
      if res.status == Resolved {
        FinaliseSpec(fold.value.WithResolution(res));
      }
    }
  }
}

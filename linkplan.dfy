/** The argument vector `link_objects` (`src/process.rs`) hands to the linker, and
    the in-place rewriting of the stored link options that builds its first part. */
module LinkPlan {
  import opened Common
  import opened Text
  import opened Context

  /** The option whose successor names the output executable. */
  const ExecutablePath: string := "-executable_path"

  /** The state of the option loop after some prefix of the options: the tokens
      emitted so far, the stored options as `split_off` left them, and whether the
      next token is to be rewritten. */
  datatype Scan = Scan(out: seq<string>, stored: seq<string>, pending: bool)

  /** The option loop over `opts`. A rewritten token is emitted as `./` plus its
      leaf and is cut down in place to its directory part; the flag test that
      follows sees that cut-down value. */
  function ScanOptions(opts: seq<string>): (r: Scan)
    ensures |r.out| == |opts| && |r.stored| == |opts|
  {
    if opts == [] then Scan([], [], false)
    else
      var prev := ScanOptions(opts[..|opts| - 1]);
      var opt := opts[|opts| - 1];
      if prev.pending then
        Scan(prev.out + ["./" + Leaf(opt)], prev.stored + [Dir(opt)], Dir(opt) == ExecutablePath)
      else
        Scan(prev.out + [opt], prev.stored + [opt], opt == ExecutablePath)
  }

  /** One more token of the option loop. */
  lemma ScanStep(opts: seq<string>, i: nat)
    requires i < |opts|
    ensures var prev := ScanOptions(opts[..i]); var opt := opts[i];
      ScanOptions(opts[..i + 1]) ==
        if prev.pending then Scan(prev.out + ["./" + Leaf(opt)], prev.stored + [Dir(opt)], Dir(opt) == ExecutablePath)
        else Scan(prev.out + [opt], prev.stored + [opt], opt == ExecutablePath)
  {
    assert opts[..i + 1][..i] == opts[..i];
  }

  /** Token `i` is rewritten: it follows a flag that was not itself rewritten. */
  predicate Rewritten(opts: seq<string>, i: nat)
    decreases i
  {
    0 < i < |opts| && opts[i - 1] == ExecutablePath && !Rewritten(opts, i - 1)
  }

  /** Whether token `i` is rewritten depends only on the tokens up to it. */
  lemma {:induction false} RewrittenPrefix(opts: seq<string>, n: nat, i: nat)
    requires i < n <= |opts|
    ensures Rewritten(opts[..n], i) == Rewritten(opts, i)
    decreases i
  {
    if i > 0 {
      RewrittenPrefix(opts, n, i - 1);
    }
  }

  /** What `split_off` leaves behind is never the flag itself: it is empty or ends in `/`. */
  lemma DirNotFlag(s: string)
    ensures Dir(s) != ExecutablePath
  {
    var d := Dir(s);
    assert d == [] || d[|d| - 1] == '/';
    assert ExecutablePath[|ExecutablePath| - 1] == 'h';
  }

  /** Token by token: a rewritten token is emitted as `./` plus its leaf and stored as
      its directory part; every other token is emitted and kept verbatim. After the
      last token a rewrite is pending exactly when the last token is an unrewritten flag. */
  lemma {:induction false} ScanSpec(opts: seq<string>)
    ensures var r := ScanOptions(opts);
      (forall i :: 0 <= i < |opts| ==>
         r.out[i] == (if Rewritten(opts, i) then "./" + Leaf(opts[i]) else opts[i])
         && r.stored[i] == (if Rewritten(opts, i) then Dir(opts[i]) else opts[i]))
      && r.pending == (|opts| > 0 && opts[|opts| - 1] == ExecutablePath && !Rewritten(opts, |opts| - 1))
  {
    if opts != [] {
      var n := |opts| - 1;
      var init := opts[..n];
      var prev := ScanOptions(init);
      var r := ScanOptions(opts);
      ScanSpec(init);
      LastStep(opts);
      forall i | 0 <= i < n
        ensures r.out[i] == (if Rewritten(opts, i) then "./" + Leaf(opts[i]) else opts[i])
        ensures r.stored[i] == (if Rewritten(opts, i) then Dir(opts[i]) else opts[i])
      {
        RewrittenPrefix(opts, n, i);
        assert r.out[i] == prev.out[i] && r.stored[i] == prev.stored[i];
        assert init[i] == opts[i];
      }
    }
  }

  /** The last token of a non-empty option list, as the scan of the rest leaves it. */
  lemma LastStep(opts: seq<string>)
    requires opts != []
    requires var init := opts[..|opts| - 1];
      ScanOptions(init).pending == (|init| > 0 && init[|init| - 1] == ExecutablePath && !Rewritten(init, |init| - 1))
    ensures var n := |opts| - 1; var r := ScanOptions(opts);
      r.out[n] == (if Rewritten(opts, n) then "./" + Leaf(opts[n]) else opts[n])
      && r.stored[n] == (if Rewritten(opts, n) then Dir(opts[n]) else opts[n])
      && r.pending == (opts[n] == ExecutablePath && !Rewritten(opts, n))
  {
    var n := |opts| - 1;
    DirNotFlag(opts[n]);
    if n > 0 {
      RewrittenPrefix(opts, n, n - 1);
    }
  }

  /** Without the flag nothing is rewritten and the options are left as they were. */
  lemma NoFlagUnchanged(opts: seq<string>)
    requires ExecutablePath !in opts
    ensures ScanOptions(opts).out == opts && ScanOptions(opts).stored == opts
  {
    ScanSpec(opts);
    forall i | 0 <= i < |opts|
      ensures !Rewritten(opts, i)
    {
      if i > 0 {
        assert opts[i - 1] in opts;
      }
    }
  }

  /** When the flag never appears twice in a row, exactly the tokens right after a flag
      are rewritten. */
  lemma NaiveRuleAgrees(opts: seq<string>, i: nat)
    requires forall k :: 0 < k < |opts| && opts[k - 1] == ExecutablePath ==> opts[k] != ExecutablePath
    requires i < |opts|
    ensures Rewritten(opts, i) <==> (i > 0 && opts[i - 1] == ExecutablePath)
  {
    if i > 1 && opts[i - 1] == ExecutablePath {
      assert opts[i - 2] != ExecutablePath;
    }
  }

  /** The usual case: the path after the flag becomes `./` plus the executable's name,
      and the stored option is cut down to its directory. */
  lemma RewriteExample()
    ensures ScanOptions(["-executable_path", "/abs/build/out/App", "-x"]).out
      == ["-executable_path", "./App", "-x"]
    ensures ScanOptions(["-executable_path", "/abs/build/out/App", "-x"]).stored
      == ["-executable_path", "/abs/build/out/", "-x"]
  {
    var opts := ["-executable_path", "/abs/build/out/App", "-x"];
    LeafUnique(opts[1], "/abs/build/out/", "App");
    ScanSpec(opts);
    assert !Rewritten(opts, 0) && Rewritten(opts, 1) && !Rewritten(opts, 2);
    var r := ScanOptions(opts);
    assert r.out[0] == opts[0] && r.out[1] == "./App" && r.out[2] == opts[2];
    assert r.stored[0] == opts[0] && r.stored[1] == "/abs/build/out/" && r.stored[2] == opts[2];
  }

  /** A doubled flag: the second flag is taken for the path, and the token after it
      is copied verbatim, since the cut-down second flag is no longer the flag. */
  lemma DoubledFlagExample()
    ensures ScanOptions(["-executable_path", "-executable_path", "/a/b"]).out
      == [ExecutablePath, "./" + ExecutablePath, "/a/b"]
  {
    var opts := ["-executable_path", "-executable_path", "/a/b"];
    assert forall k :: 0 <= k < |ExecutablePath| ==> ExecutablePath[k] != '/';
    LeafUnique(ExecutablePath, "", ExecutablePath);
    ScanSpec(opts);
    assert !Rewritten(opts, 0) && Rewritten(opts, 1) && !Rewritten(opts, 2);
    var r := ScanOptions(opts);
    assert r.out[1] == "./" + ExecutablePath;
    assert r.out[0] == opts[0] && r.out[2] == opts[2];
  }

  /** One `-framework`, name pair per framework, in order. */
  function FrameworkArgs(frameworks: seq<string>): (r: seq<string>)
    ensures |r| == 2 * |frameworks|
    ensures forall k :: 0 <= k < |frameworks| ==> r[2 * k] == "-framework" && r[2 * k + 1] == frameworks[k]
  {
    if frameworks == [] then []
    else
      var n := |frameworks| - 1;
      FrameworkArgs(frameworks[..n]) + ["-framework", frameworks[n]]
  }

  /** `String::pop`: drops the last character, if there is one (the newline `find` prints). */
  function DropLast(s: string): (r: string)
    ensures s == [] ==> r == []
    ensures s != [] ==> r + [s[|s| - 1]] == s
  {
    if s == [] then s else s[..|s| - 1]
  }

  /** The linker's arguments for plan `info`, given what `find` printed. */
  function LinkArgs(info: Info, found: string): seq<string> {
    ScanOptions(info.linkOptions).out
      + ["-syslibroot", info.sdkPath]
      + FrameworkArgs(info.linkFramework)
      + ["-lSystem", DropLast(found)]
      + info.objFile
  }

  /** The layout of the link vector: the rewritten options, `-syslibroot` and the SDK,
      a `-framework` pair per framework, `-lSystem` and the runtime library path
      without its last character, then every object file in order. */
  lemma LinkArgsLayout(info: Info, found: string)
    ensures var a := LinkArgs(info, found);
      var o := |info.linkOptions|; var f := o + 2 + 2 * |info.linkFramework|;
      |a| == f + 2 + |info.objFile|
      && a[..o] == ScanOptions(info.linkOptions).out
      && a[o] == "-syslibroot" && a[o + 1] == info.sdkPath
      && (forall k :: 0 <= k < |info.linkFramework| ==>
            a[o + 2 + 2 * k] == "-framework" && a[o + 3 + 2 * k] == info.linkFramework[k])
      && a[f] == "-lSystem" && a[f + 1] == DropLast(found)
      && a[f + 2..] == info.objFile
  {
    var a := LinkArgs(info, found);
    var o := |info.linkOptions|;
    var fw := FrameworkArgs(info.linkFramework);
    forall k | 0 <= k < |info.linkFramework|
      ensures a[o + 2 + 2 * k] == "-framework" && a[o + 3 + 2 * k] == info.linkFramework[k]
    {
      assert a[o + 2 + 2 * k] == fw[2 * k];
      assert a[o + 3 + 2 * k] == fw[2 * k + 1];
    }
  }
}

/** The vault: a root directory, the resolver that maps an untrusted path to
    a location under that root or rejects it, and the note store that reads
    and overwrites files through the resolver. */
module Vaults {
  import opened Results
  import opened Paths
  import opened Absolutize
  import opened VaultErrors
  import opened Fs
  import Io

  /** What the filesystem-aware traversal probe (`is_path_trav`) answers:
      `Ok(true)`, `Ok(false)` or `Err(kind)`. */
  datatype ProbeResult = Traversal | Contained | ProbeError(kind: Io.ErrorKind)

  /** The probe is an oracle handed the text of the normalised path: its
      answer depends on the disk (symlinks, existence, permissions), which
      the model does not see. */
  type Probe = string -> ProbeResult

  /** Step 1 as text: the `Path` value `normalized_path`. A relative input is
      kept as written; an absolute one is what `as_path` leaves once the root
      is consumed, without leading or trailing empty and `.` pieces. */
  function NormalizedText(path: string): (r: string)
    ensures !IsAbsolute(path) ==> r == path
    ensures Parse(r) == NormalizedPath(path)
  {
    if IsAbsolute(path) then AsPath(path[1..]) else path
  }

  /** Step 1: the vault behaves like a chroot, so an absolute input loses its
      root component and is read relative to the vault. */
  function NormalizedPath(path: string): (r: seq<Component>)
    ensures WellFormed(r) && Relative(r)
    ensures Parse(path) == (if IsAbsolute(path) then [RootDir] + r else r)
  {
    var c := Parse(path);
    if IsAbsolute(path) then c[1..] else c
  }

  /** `format!("Invalid path {:?}: {:?}", path, err)`, with `detail` the
      debug form of the error. */
  function InvalidPathReason(path: string, detail: string): (r: string)
    ensures "Invalid path " <= r
    ensures |r| >= |"Invalid path "| + |Quote(path)| + |detail|
    ensures r[|"Invalid path "|..][..|Quote(path)|] == Quote(path)
    ensures r[|r| - |detail|..] == detail
  {
    "Invalid path " + Quote(path) + ": " + detail
  }

  /** A path of plain characters appears between double quotes verbatim. */
  lemma PlainReason(path: string, detail: string)
    requires forall i :: 0 <= i < |path| ==> Plain(path[i])
    ensures InvalidPathReason(path, detail) == "Invalid path \"" + path + "\": " + detail
  {
    QuotePlain(path);
  }

  /** Steps 2 and 3 once the probe has answered for `normalized`; `path` is
      the caller's original input, the one every reason quotes. */
  function ResolveOutcome(root: seq<Component>, normalized: seq<Component>, path: string, outcome: ProbeResult)
    : (r: Result<seq<Component>, VaultError>)
    requires IsCanonical(root)
    requires WellFormed(normalized)
    ensures r.Ok? ==> root <= r.value && IsCanonical(r.value)
    ensures r.Err? ==> r.error.InvalidPath?
  {
    if outcome == Traversal then
      Err(InvalidPathTraversal(path))
    else if outcome == Contained || outcome == ProbeError(Io.NotFound) then
      match AbsolutizeVirtually(normalized, root)
      case Ok(resolved) => Ok(resolved)
      case Err(err) => Err(InvalidPathError(InvalidPathReason(path, Io.ErrorDebug(err))))
    else
      Err(InvalidPathError(InvalidPathReason(path, Io.KindDebug(outcome.kind))))
  }

  /** `Vault`: the configured root, never changed after construction. */
  datatype Vault = Vault(vaultPath: seq<Component>) {

    /** `Vault::new` accepts any path and keeps it as it is. */
    static function New(vaultPath: seq<Component>): (r: Result<Vault, ()>)
      ensures r.Ok? && r.value.VaultPath() == vaultPath
    {
      Ok(Vault(vaultPath))
    }

    /** `vault_path`: the root exactly as `new` received it. */
    function VaultPath(): (r: seq<Component>)
      ensures r == vaultPath
    {
      vaultPath
    }

    /** `resolve_path_from_vault_root`: every accepted path lies under the
        root and is canonical; every rejection is an `InvalidPath`. */
    function ResolvePathFromVaultRoot(path: string, probe: Probe): (r: Result<seq<Component>, VaultError>)
      requires IsCanonical(vaultPath)
      ensures r.Ok? ==> vaultPath <= r.value && IsCanonical(r.value)
      ensures r.Err? ==> r.error.InvalidPath?
    {
      var normalized := NormalizedPath(path);
      ResolveOutcome(vaultPath, normalized, path, probe(NormalizedText(path)))
    }

    /** What `read_file` returns on a filesystem in the state `files`, `dirs`. */
    function ReadSpec(files: Files, dirs: Dirs, path: string, probe: Probe): Result<string, VaultError>
      requires IsCanonical(vaultPath)
    {
      match ResolvePathFromVaultRoot(path, probe)
      case Err(e) => Err(e)
      case Ok(resolved) =>
        match ReadOutcome(files, dirs, resolved)
        case Ok(content) => Ok(content)
        case Err(err) => Err(FromIo(err))
    }

    /** What `write_file` returns, with the files it leaves behind. */
    function WriteSpec(files: Files, dirs: Dirs, path: string, content: string, probe: Probe)
      : (Result<(), VaultError>, Files)
      requires IsCanonical(vaultPath)
    {
      match ResolvePathFromVaultRoot(path, probe)
      case Err(e) => (Err(e), files)
      case Ok(resolved) =>
        match WriteFailure(files, dirs, resolved)
        case Some(err) => (Err(FromIo(err)), files)
        case None => (Ok(()), files[resolved := content])
    }

    method ReadFile(fs: FileSystem, path: string, probe: Probe) returns (r: Result<string, VaultError>)
      requires IsCanonical(vaultPath)
      ensures r == ReadSpec(fs.files, fs.dirs, path, probe)
    {
      var resolved := ResolvePathFromVaultRoot(path, probe);
      if resolved.Err? {
        return Err(resolved.error);
      }
      var content := fs.ReadToString(resolved.value);
      if content.Err? {
        return Err(FromIo(content.error));
      }
      return Ok(content.value);
    }

    method WriteFile(fs: FileSystem, path: string, content: string, probe: Probe) returns (r: Result<(), VaultError>)
      requires IsCanonical(vaultPath)
      modifies fs
      ensures (r, fs.files) == WriteSpec(old(fs.files), old(fs.dirs), path, content, probe)
      ensures fs.dirs == old(fs.dirs)
      ensures old(fs.Valid()) ==> fs.Valid()
    {
      var resolved := ResolvePathFromVaultRoot(path, probe);
      if resolved.Err? {
        return Err(resolved.error);
      }
      var written := fs.Write(resolved.value, content);
      if written.Err? {
        return Err(FromIo(written.error));
      }
      return Ok(());
    }

    method ReadNote(fs: FileSystem, path: string, probe: Probe) returns (r: Result<string, VaultError>)
      requires IsCanonical(vaultPath)
      ensures r == ReadSpec(fs.files, fs.dirs, path, probe)
    {
      r := ReadFile(fs, path, probe);
    }

    method WriteNote(fs: FileSystem, path: string, content: string, probe: Probe) returns (r: Result<(), VaultError>)
      requires IsCanonical(vaultPath)
      modifies fs
      ensures (r, fs.files) == WriteSpec(old(fs.files), old(fs.dirs), path, content, probe)
      ensures fs.dirs == old(fs.dirs)
      ensures old(fs.Valid()) ==> fs.Valid()
    {
      r := WriteFile(fs, path, content, probe);
    }

    /** The same full overwrite as `WriteNote`. */
    method ModifyNote(fs: FileSystem, path: string, content: string, probe: Probe) returns (r: Result<(), VaultError>)
      requires IsCanonical(vaultPath)
      modifies fs
      ensures (r, fs.files) == WriteSpec(old(fs.files), old(fs.dirs), path, content, probe)
      ensures fs.dirs == old(fs.dirs)
      ensures old(fs.Valid()) ==> fs.Valid()
    {
      r := WriteFile(fs, path, content, probe);
    }
  }

  // ---- The resolver ----

  /** An absolute input is its relative remainder: prefixing `/` removes at
      most a leading `.`, so the probe and the absolutiser see the same
      components up to that `.`. */
  lemma NormalizeAbsolute(p: string)
    ensures var n := NormalizedPath(p);
      NormalizedPath("/" + p) == (if |n| > 0 && n[0] == CurDir then n[1..] else n)
  {
    AbsoluteBody(p);
    if IsAbsolute(p) {
      AbsoluteCase(p);
    } else if DotLed(p) {
      DotLedCase(p);
    } else {
      assert NormalizedPath(p) == Segments(p);
    }
  }

  lemma AbsoluteCase(p: string)
    requires IsAbsolute(p)
    ensures NormalizedPath(p) == Segments(p)
  {
    assert p == "" + "/" + p[1..];
    SkipLead("", p[1..]);
  }

  lemma DotLedCase(p: string)
    requires !IsAbsolute(p) && DotLed(p)
    ensures NormalizedPath(p) == [CurDir] + Segments(p)
  {
    if !IsDot(p) {
      assert p == "." + "/" + p[2..];
      assert p[1..] == "" + "/" + p[2..];
      SkipLead(".", p[2..]);
      SkipLead("", p[2..]);
    }
  }

  lemma AbsoluteBody(p: string)
    ensures NormalizedPath("/" + p) == Segments(p)
  {
    var s := "/" + p;
    assert s[1..] == p;
  }

  /** An empty or `.` piece before a separator contributes nothing. */
  lemma SkipLead(a: string, b: string)
    requires |a| == 0 || IsDot(a)
    ensures Segments(a + "/" + b) == Segments(b)
  {
    SegmentsCons(a, b);
  }

  /** Resolving `/` + p gives what resolving p gives, as long as the probe
      answers alike for the two forms and p does not start with `./..`. */
  lemma AbsoluteInputEquivalence(v: Vault, p: string, probe: Probe)
    requires IsCanonical(v.vaultPath)
    requires probe(NormalizedText(p)) == probe(NormalizedText("/" + p))
    requires var n := NormalizedPath(p); !(|n| >= 2 && n[0] == CurDir && n[1] == ParentDir)
    ensures v.ResolvePathFromVaultRoot("/" + p, probe).Ok? <==> v.ResolvePathFromVaultRoot(p, probe).Ok?
    ensures v.ResolvePathFromVaultRoot(p, probe).Ok? ==>
              v.ResolvePathFromVaultRoot("/" + p, probe) == v.ResolvePathFromVaultRoot(p, probe)
  {
    ResolveSteps(v, p, probe);
    ResolveSteps(v, "/" + p, probe);
    OutcomeAbsolute(v.vaultPath, p, probe(NormalizedText(p)));
  }

  /** Steps 2 and 3 agree on `/` + p and p, for one and the same probe answer. */
  lemma OutcomeAbsolute(root: seq<Component>, p: string, o: ProbeResult)
    requires IsCanonical(root)
    requires var n := NormalizedPath(p); !(|n| >= 2 && n[0] == CurDir && n[1] == ParentDir)
    ensures ResolveOutcome(root, NormalizedPath("/" + p), "/" + p, o).Ok?
        <==> ResolveOutcome(root, NormalizedPath(p), p, o).Ok?
    ensures ResolveOutcome(root, NormalizedPath(p), p, o).Ok? ==>
              ResolveOutcome(root, NormalizedPath("/" + p), "/" + p, o) == ResolveOutcome(root, NormalizedPath(p), p, o)
  {
    NormalizeAbsolute(p);
    OutcomeSkipsCurDir(root, NormalizedPath(p), NormalizedPath("/" + p), "/" + p, p, o);
  }

  /** The resolver is step 1 followed by steps 2 and 3. */
  lemma ResolveSteps(v: Vault, path: string, probe: Probe)
    requires IsCanonical(v.vaultPath)
    ensures v.ResolvePathFromVaultRoot(path, probe)
         == ResolveOutcome(v.vaultPath, NormalizedPath(path), path, probe(NormalizedText(path)))
  {
  }

  /** Steps 2 and 3 give the same outcome for a path and for that path
      without its leading `.`, unless a `..` follows the `.`. */
  lemma OutcomeSkipsCurDir(root: seq<Component>, n: seq<Component>, m: seq<Component>,
                           path1: string, path2: string, o: ProbeResult)
    requires IsCanonical(root) && WellFormed(n) && WellFormed(m)
    requires m == (if |n| > 0 && n[0] == CurDir then n[1..] else n)
    requires !(|n| >= 2 && n[0] == CurDir && n[1] == ParentDir)
    ensures ResolveOutcome(root, m, path1, o).Ok? <==> ResolveOutcome(root, n, path2, o).Ok?
    ensures ResolveOutcome(root, n, path2, o).Ok? ==> ResolveOutcome(root, m, path1, o) == ResolveOutcome(root, n, path2, o)
  {
    if |n| > 0 && n[0] == CurDir {
      assert n == [CurDir] + m;
      AbsolutizeSkipsCurDir(m, root);
    }
  }

  /** A path that does not start with `.` and, unless it is absolute, does
      not end in an empty or `.` piece, is handed to the probe as the same
      text with and without a leading `/`; so it reads the same either way,
      whatever the probe says. */
  lemma AbsoluteInputEquivalencePlain(v: Vault, p: string, probe: Probe)
    requires IsCanonical(v.vaultPath)
    requires !DotLed(p)
    requires p == [] || IsAbsolute(p) || Segment(LastPiece(p)) != []
    ensures v.ResolvePathFromVaultRoot("/" + p, probe).Ok? <==> v.ResolvePathFromVaultRoot(p, probe).Ok?
    ensures v.ResolvePathFromVaultRoot(p, probe).Ok? ==>
              v.ResolvePathFromVaultRoot("/" + p, probe) == v.ResolvePathFromVaultRoot(p, probe)
  {
    SameProbeText(p);
    AbsoluteInputEquivalence(v, p, probe);
  }

  lemma SameProbeText(p: string)
    requires !DotLed(p)
    requires p == [] || IsAbsolute(p) || Segment(LastPiece(p)) != []
    ensures NormalizedText("/" + p) == NormalizedText(p)
    ensures var n := NormalizedPath(p); !(|n| >= 2 && n[0] == CurDir && n[1] == ParentDir)
  {
    AbsoluteText(p);
    if IsAbsolute(p) {
      AsPathSkipsSeparator(p);
    } else if p != [] {
      FirstPieceOf(p);
      AsPathKeeps(p);
    }
  }

  /** A relative path that is not led by a `.` piece has a counting first piece. */
  lemma FirstPieceOf(p: string)
    requires p != [] && !IsAbsolute(p) && !DotLed(p)
    ensures FirstPieceCounts(p)
  {
    var i := SlashIndex(p);
    assert i >= 1 && p[..i][0] == p[0];
    if i == 1 { assert p[..i] == [p[0]]; }
  }

  /** A trailing separator survives in the text of a relative input but is
      trimmed from an absolute one, though both have the same components:
      the probe can tell `a/` from `/a/`. */
  lemma TrailingSeparatorSeen(a: string)
    requires ValidName(a)
    ensures NormalizedPath(a + "/") == NormalizedPath("/" + a + "/")
    ensures NormalizedText(a + "/") == a + "/" && NormalizedText("/" + a + "/") == a
  {
    var s := a + "/";
    assert ("/" + a + "/")[1..] == s;
    assert s == a + "/" + "";
    SlashIndexOf(a, "");
    assert s[..|a|] == a;
    assert TrimFront(s) == s;
    assert s[|a| + 1..] == "";
    assert TrimBack(s) == a;
    AbsoluteBody(s);
    SegmentsCons(a, "");
    FirstPieceParse(s);
  }

  /** A probe that reports a traversal decides the result: an `InvalidPath`
      built by `invalid_path_traversal` from the original, un-normalised
      input. */
  lemma TraversalVeto(v: Vault, path: string, probe: Probe)
    requires IsCanonical(v.vaultPath)
    requires probe(NormalizedText(path)) == Traversal
    ensures v.ResolvePathFromVaultRoot(path, probe) == Err(InvalidPathTraversal(path))
  {
  }

  /** `Err(NotFound)` from the probe is handled exactly like `Ok(false)`. */
  lemma NotFoundFallsThrough(root: seq<Component>, normalized: seq<Component>, path: string)
    requires IsCanonical(root) && WellFormed(normalized)
    ensures ResolveOutcome(root, normalized, path, ProbeError(Io.NotFound))
         == ResolveOutcome(root, normalized, path, Contained)
  {
  }

  /** Any other probe error rejects the input with the error's debug name,
      whatever the root and the normalised path: absolutisation is never
      attempted. */
  lemma ProbeErrorRejects(root1: seq<Component>, n1: seq<Component>, root2: seq<Component>, n2: seq<Component>,
                           path: string, kind: Io.ErrorKind)
    requires IsCanonical(root1) && WellFormed(n1)
    requires IsCanonical(root2) && WellFormed(n2)
    requires kind != Io.NotFound
    ensures ResolveOutcome(root1, n1, path, ProbeError(kind)) == ResolveOutcome(root2, n2, path, ProbeError(kind))
    ensures ResolveOutcome(root1, n1, path, ProbeError(kind))
         == Err(InvalidPath("Invalid path " + Quote(path) + ": " + Io.KindDebug(kind)))
  {
  }

  /** An input that never climbs above the vault root and that the probe
      lets through resolves to the root joined with its lexical normal form. */
  lemma ResolveBelowRoot(v: Vault, path: string, probe: Probe)
    requires IsCanonical(v.vaultPath)
    requires probe(NormalizedText(path)) in {Contained, ProbeError(Io.NotFound)}
    requires Dedot(NormalizedPath(path)).Some?
    ensures v.ResolvePathFromVaultRoot(path, probe) == Ok(v.vaultPath + Dedot(NormalizedPath(path)).value)
  {
    AbsolutizeBelowRoot(NormalizedPath(path), v.vaultPath);
  }

  /** An input whose `..` climb above the vault root is rejected with
      `Kind(InvalidInput)` (unless it walks back in through the root's own
      name), never accepted. */
  lemma EscapeRejected(v: Vault, path: string, probe: Probe)
    requires IsCanonical(v.vaultPath)
    requires probe(NormalizedText(path)) in {Contained, ProbeError(Io.NotFound)}
    requires Dedot(NormalizedPath(path)) == None
    requires NormalizedPath(path)[0] == ParentDir
          || (|v.vaultPath| >= 2 && v.vaultPath[|v.vaultPath| - 1] !in NormalizedPath(path))
    ensures v.ResolvePathFromVaultRoot(path, probe) == Err(InvalidPath(InvalidPathReason(path, "Kind(InvalidInput)")))
  {
    OutcomeEscape(v.vaultPath, NormalizedPath(path), path, probe(NormalizedText(path)));
  }

  lemma OutcomeEscape(root: seq<Component>, n: seq<Component>, path: string, o: ProbeResult)
    requires IsCanonical(root) && WellFormed(n) && Relative(n)
    requires o in {Contained, ProbeError(Io.NotFound)}
    requires Dedot(n) == None
    requires n[0] == ParentDir || (|root| >= 2 && root[|root| - 1] !in n)
    ensures ResolveOutcome(root, n, path, o) == Err(InvalidPath(InvalidPathReason(path, "Kind(InvalidInput)")))
  {
    AbsolutizeRejectsEscape(n, root);
    InvalidInputDebug();
  }

  lemma InvalidInputDebug()
    ensures Io.ErrorDebug(InvalidInput()) == "Kind(InvalidInput)"
  {
    assert Io.ErrorDebug(InvalidInput()) == "Kind(" + "InvalidInput" + ")";
  }

  /** A rejection carries the traversal prefix exactly when the probe
      reported a traversal; the other rejections start "Invalid path ". */
  lemma TraversalIffPrefix(v: Vault, path: string, probe: Probe)
    requires IsCanonical(v.vaultPath)
    requires v.ResolvePathFromVaultRoot(path, probe).Err?
    ensures IsTraversal(v.ResolvePathFromVaultRoot(path, probe).error)
        <==> probe(NormalizedText(path)) == Traversal
  {
    OutcomePrefix(v.vaultPath, NormalizedPath(path), path, probe(NormalizedText(path)));
  }

  lemma OutcomePrefix(root: seq<Component>, n: seq<Component>, path: string, o: ProbeResult)
    requires IsCanonical(root) && WellFormed(n)
    requires ResolveOutcome(root, n, path, o).Err?
    ensures IsTraversal(ResolveOutcome(root, n, path, o).error) <==> o == Traversal
  {
    var e := ResolveOutcome(root, n, path, o).error;
    if o != Traversal {
      var detail :=
        if o == Contained || o == ProbeError(Io.NotFound) then Io.ErrorDebug(InvalidInput())
        else Io.KindDebug(o.kind);
      ReasonIsNotTraversal(path, detail);
      assert e.reason == InvalidPathReason(path, detail);
    }
  }

  /** An ordinary reason never starts with the traversal prefix: the two
      differ in the case of the `p` of "path". */
  lemma ReasonIsNotTraversal(path: string, detail: string)
    ensures !(TraversalPrefix <= InvalidPathReason(path, detail))
  {
    var r := InvalidPathReason(path, detail);
    assert r[8] == "Invalid path "[8] == 'p';
    assert TraversalPrefix[8] == 'P';
  }

  /** When the resolver accepts, the answer does not depend on the probe. */
  lemma AcceptedIgnoresProbe(v: Vault, path: string, probe1: Probe, probe2: Probe)
    requires IsCanonical(v.vaultPath)
    requires v.ResolvePathFromVaultRoot(path, probe1).Ok? && v.ResolvePathFromVaultRoot(path, probe2).Ok?
    ensures v.ResolvePathFromVaultRoot(path, probe1) == v.ResolvePathFromVaultRoot(path, probe2)
  {
  }

  /** A request naming nothing (`""` or `"/"`) resolves to the vault root. */
  lemma RootOnlyRequest(v: Vault, path: string, probe: Probe)
    requires IsCanonical(v.vaultPath)
    requires path == "" || path == "/"
    requires probe("") in {Contained, ProbeError(Io.NotFound)}
    ensures v.ResolvePathFromVaultRoot(path, probe) == Ok(v.vaultPath)
  {
    assert NormalizedPath(path) == [];
  }

  /** A relative path of plain names, e.g. `a/b/c.md`, resolves to the root
      joined with those names when the probe lets it through, whether or
      not the file exists. */
  lemma NamesResolveUnderRoot(v: Vault, names: seq<string>, probe: Probe)
    requires IsCanonical(v.vaultPath)
    requires |names| >= 1 && forall i :: 0 <= i < |names| ==> ValidName(names[i])
    requires probe(Join(names)) in {Contained, ProbeError(Io.NotFound)}
    ensures v.ResolvePathFromVaultRoot(Join(names), probe) == Ok(v.vaultPath + Normals(names))
  {
    NamesNormalize(names);
    NormalResolves(v, Join(names), Normals(names), probe);
  }

  /** The same names behind a leading `/` resolve to the same place. */
  lemma AbsoluteNamesResolveUnderRoot(v: Vault, names: seq<string>, probe: Probe)
    requires IsCanonical(v.vaultPath)
    requires |names| >= 1 && forall i :: 0 <= i < |names| ==> ValidName(names[i])
    requires probe(Join(names)) in {Contained, ProbeError(Io.NotFound)}
    ensures v.ResolvePathFromVaultRoot("/" + Join(names), probe) == Ok(v.vaultPath + Normals(names))
  {
    NamesNormalize(names);
    NormalResolves(v, "/" + Join(names), Normals(names), probe);
  }

  lemma NormalResolves(v: Vault, path: string, n: seq<Component>, probe: Probe)
    requires IsCanonical(v.vaultPath)
    requires NormalizedPath(path) == n && Dedot(n) == Some(n)
    requires probe(NormalizedText(path)) in {Contained, ProbeError(Io.NotFound)}
    ensures v.ResolvePathFromVaultRoot(path, probe) == Ok(v.vaultPath + n)
  {
    ResolveBelowRoot(v, path, probe);
  }

  lemma NamesNormalize(names: seq<string>)
    requires |names| >= 1 && forall i :: 0 <= i < |names| ==> ValidName(names[i])
    ensures NormalizedPath(Join(names)) == Normals(names)
    ensures NormalizedPath("/" + Join(names)) == Normals(names)
    ensures Dedot(Normals(names)) == Some(Normals(names))
    ensures NormalizedText(Join(names)) == Join(names) == NormalizedText("/" + Join(names))
  {
    NamesComponents(names);
    NamesText(names);
    NamesDedot(names);
  }

  lemma NamesDedot(names: seq<string>)
    ensures Dedot(Normals(names)) == Some(Normals(names))
  {
    var n := Normals(names);
    DedotNames([], n);
    assert [] + n == n;
  }

  /** Joined valid names normalise to those names, with or without a leading `/`. */
  lemma NamesComponents(names: seq<string>)
    requires |names| >= 1 && forall i :: 0 <= i < |names| ==> ValidName(names[i])
    ensures NormalizedPath(Join(names)) == Normals(names)
    ensures NormalizedPath("/" + Join(names)) == Normals(names)
  {
    var n := Normals(names);
    ParseJoin(names);
    assert n[0] == Normal(names[0]);
    RelativeNormal(Join(names), n);
  }

  /** A relative path that does not parse to a leading `.` normalises to
      its components, with or without a leading `/`. */
  lemma RelativeNormal(s: string, n: seq<Component>)
    requires !IsAbsolute(s) && Parse(s) == n && (n == [] || n[0] != CurDir)
    ensures NormalizedPath(s) == n && NormalizedPath("/" + s) == n
  {
    NormalizeAbsolute(s);
  }

  /** Joined valid names reach the probe unchanged, with or without a leading `/`. */
  lemma NamesText(names: seq<string>)
    requires |names| >= 1 && forall i :: 0 <= i < |names| ==> ValidName(names[i])
    ensures NormalizedText(Join(names)) == Join(names) == NormalizedText("/" + Join(names))
  {
    JoinUntrimmed(names);
    ParseJoin(names);
    AbsoluteText(Join(names));
  }

  /** The probe text of `/` + s is `as_path` of s. */
  lemma AbsoluteText(s: string)
    ensures NormalizedText("/" + s) == AsPath(s)
  {
    assert IsAbsolute("/" + s) && ("/" + s)[1..] == s;
  }

  /** `./../` followed by valid names (as in `./../subfolder/test-note.md`)
      climbs above the root before descending; unless one of the names is
      the root's own last name it is rejected (see `PlainReason` for the quoted text). */
  lemma ParentTraversalRejected(v: Vault, path: string, names: seq<string>, probe: Probe)
    requires IsCanonical(v.vaultPath) && |v.vaultPath| >= 2
    requires |names| >= 1 && forall i :: 0 <= i < |names| ==> ValidName(names[i])
    requires path == "./../" + Join(names)
    requires forall i :: 0 <= i < |names| ==> Normal(names[i]) != v.vaultPath[|v.vaultPath| - 1]
    requires probe(path) in {Contained, ProbeError(Io.NotFound)}
    ensures v.ResolvePathFromVaultRoot(path, probe) == Err(InvalidPath(InvalidPathReason(path, "Kind(InvalidInput)")))
  {
    DotDotNormalize(path, names);
    var last := v.vaultPath[|v.vaultPath| - 1];
    assert last !in Normals(names) by {
      forall i | 0 <= i < |Normals(names)| ensures Normals(names)[i] != last {
        assert Normal(names[i]) != last;
      }
    }
    UpRejected(v, path, Normals(names), probe);
  }

  lemma UpRejected(v: Vault, path: string, rest: seq<Component>, probe: Probe)
    requires IsCanonical(v.vaultPath) && |v.vaultPath| >= 2
    requires NormalizedPath(path) == [CurDir, ParentDir] + rest
    requires v.vaultPath[|v.vaultPath| - 1] !in rest
    requires probe(NormalizedText(path)) in {Contained, ProbeError(Io.NotFound)}
    ensures v.ResolvePathFromVaultRoot(path, probe) == Err(InvalidPath(InvalidPathReason(path, "Kind(InvalidInput)")))
  {
    var n := [CurDir, ParentDir] + rest;
    assert n[1..][0] == ParentDir;
    assert Dedot(n) == DedotFrom([], n[1..]) == None;
    EscapeRejected(v, path, probe);
  }

  lemma DotDotNormalize(path: string, names: seq<string>)
    requires |names| >= 1 && forall i :: 0 <= i < |names| ==> ValidName(names[i])
    requires path == "./../" + Join(names)
    ensures NormalizedPath(path) == [CurDir, ParentDir] + Normals(names)
  {
    DotDotText(path, Join(names));
    SegmentsJoin(names);
  }

  lemma DotDotText(s: string, t: string)
    requires s == "./../" + t
    ensures NormalizedPath(s) == [CurDir, ParentDir] + Segments(t)
  {
    var b := "/../" + t;
    assert s == "." + b by { assert "./../" + t == "." + ("/../" + t); }
    assert b[0] == '/';
    DotPrefix(s, b);
    UpSegments(t);
    var u := Segments(t);
    assert [CurDir] + ([ParentDir] + u) == [CurDir, ParentDir] + u;
  }

  lemma DotPrefix(s: string, b: string)
    requires |b| >= 1 && b[0] == '/' && s == "." + b
    ensures NormalizedPath(s) == [CurDir] + Segments(b)
  {
    assert s[0] == '.' && s[1] == '/' && !IsAbsolute(s);
    assert s[1..] == b;
    assert Parse(s) == [CurDir] + Segments(b);
  }

  lemma UpSegments(t: string)
    ensures Segments("/../" + t) == [ParentDir] + Segments(t)
  {
    var u := ".." + "/" + t;
    assert "/../" + t == "" + "/" + u;
    SegmentsCons("", u);
    SegmentsCons("..", t);
  }

  // ---- The note store ----

  /** When resolution fails, reading and writing return that error unchanged,
      whatever the filesystem holds, and no file changes. */
  lemma ResolveErrorShortCircuits(v: Vault, files: Files, dirs: Dirs, path: string, content: string, probe: Probe)
    requires IsCanonical(v.vaultPath)
    requires v.ResolvePathFromVaultRoot(path, probe).Err?
    ensures v.ReadSpec(files, dirs, path, probe) == Err(v.ResolvePathFromVaultRoot(path, probe).error)
    ensures v.WriteSpec(files, dirs, path, content, probe) == (Err(v.ResolvePathFromVaultRoot(path, probe).error), files)
  {
  }

  /** Filesystem failures reach the caller as `IoError`. */
  lemma IoFailuresWrapped(v: Vault, files: Files, dirs: Dirs, path: string, content: string, probe: Probe)
    requires IsCanonical(v.vaultPath)
    requires v.ResolvePathFromVaultRoot(path, probe).Ok?
    ensures var p := v.ResolvePathFromVaultRoot(path, probe).value;
      && (ReadOutcome(files, dirs, p).Err? ==>
            v.ReadSpec(files, dirs, path, probe) == Err(IoError(ReadOutcome(files, dirs, p).error)))
      && (WriteFailure(files, dirs, p).Some? ==>
            v.WriteSpec(files, dirs, path, content, probe) == (Err(IoError(WriteFailure(files, dirs, p).value)), files))
  {
  }

  /** A successful write followed by a read of the same path returns the
      content written, unless the read's own resolution is rejected. */
  lemma WriteThenRead(v: Vault, files: Files, dirs: Dirs, path: string, content: string, probe: Probe, probe2: Probe)
    requires IsCanonical(v.vaultPath)
    requires v.WriteSpec(files, dirs, path, content, probe).0.Ok?
    requires v.ResolvePathFromVaultRoot(path, probe2).Ok?
    ensures v.ReadSpec(v.WriteSpec(files, dirs, path, content, probe).1, dirs, path, probe2) == Ok(content)
  {
    AcceptedIgnoresProbe(v, path, probe, probe2);
  }

  /** On a consistent filesystem, modifying a note that exists at an
      accepted path always succeeds, replaces its content and keeps the
      filesystem consistent. */
  lemma ModifyExistingNote(v: Vault, files: Files, dirs: Dirs, path: string, content: string, probe: Probe)
    requires IsCanonical(v.vaultPath)
    requires Consistent(files, dirs)
    requires v.ResolvePathFromVaultRoot(path, probe).Ok?
    requires v.ResolvePathFromVaultRoot(path, probe).value in files
    ensures var p := v.ResolvePathFromVaultRoot(path, probe).value;
      v.WriteSpec(files, dirs, path, content, probe) == (Ok(()), files[p := content])
    ensures Consistent(v.WriteSpec(files, dirs, path, content, probe).1, dirs)
  {
    OverwriteSucceeds(files, dirs, v.ResolvePathFromVaultRoot(path, probe).value, content);
  }

  /** No write, successful or not, changes a file outside the vault root. */
  lemma WritesStayInVault(v: Vault, files: Files, dirs: Dirs, path: string, content: string, probe: Probe,
                          q: seq<Component>)
    requires IsCanonical(v.vaultPath)
    requires !(v.vaultPath <= q)
    ensures var after := v.WriteSpec(files, dirs, path, content, probe).1;
      (q in after <==> q in files) && (q in files ==> after[q] == files[q])
  {
    var r := v.ResolvePathFromVaultRoot(path, probe);
    if r.Ok? {
      assert r.value != q;
    }
  }
}

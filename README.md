# Vault path resolution and note store (yao-mcp)

yao-mcp serves the Markdown notes of an Obsidian-style vault to MCP clients.
An untrusted client names a note by a relative or absolute path. The vault
must either map that path to a file under its root directory or reject it.
It reads and overwrites notes only through that mapping.

This project models that core in Dafny:

- `Vaults.Vault` holds the root. It is a value: nothing in the source
  changes a vault after `Vault::new`.
- `ResolvePathFromVaultRoot` follows `resolve_path_from_vault_root` in
  three steps:
  1. An absolute input loses its root component. The vault behaves like a
     chroot.
  2. The filesystem-aware traversal probe (`is_path_trav` of the path-trav
     crate) is asked about the normalised path, as text. For a relative
     input that is the input as written. For an absolute input it is what
     `Components::as_path` leaves once the root is consumed: leading and
     trailing empty and `.` pieces are dropped (`NormalizedText`).
  3. The normalised path is joined onto the root and its `.` and `..` are
     collapsed without touching the disk (`absolutize_virtually` of the
     path-absolutize crate). The result must stay under the root.
- Paths are sequences of components (`RootDir`, `CurDir`, `ParentDir`,
  `Normal(name)`). They are parsed from the input string the way Rust's
  `Path::components` does on Unix.
- `{:?}` of a path, as it appears in error reasons, is modelled character
  by character after `char::escape_debug`.
- The note store (`read_note`, `write_note`, `modify_note`, `read_file`,
  `write_file`) works on a `Fs.FileSystem` object. Its fields are a map from
  path to content and the set of existing directories; `Write` updates the
  map in place.
- The error taxonomy (`VaultError`: `IoError` and `InvalidPath`) is in
  `VaultErrors`. Its `Display` text and its three constructors are modelled.
  A traversal rejection is an `InvalidPath` whose reason starts
  `Invalid Path: path traversal detected: `. There is no separate
  traversal variant, and the model follows the code on this point.

The traversal probe depends on the disk (symlinks, which files exist,
permissions), so it is a parameter: `probe` maps the normalised text to
`Traversal` (`Ok(true)`), `Contained` (`Ok(false)`) or `ProbeError(kind)`.
The text re-parses to exactly the components that are absolutised
(`NormalizedText`), but two inputs with the same components can
still reach the probe as different texts: `a.md/` keeps its trailing `/`
while `/a.md/` loses it (`TrailingSeparatorSeen`), and on disk the first
can fail with "not a directory" while the second resolves. Each resolver
property either holds for every probe or names the probe answer, for a
given text, that it assumes.

The root is assumed canonical: absolute, with no `.`, `..` or empty
components (`Absolutize.IsCanonical`). The binary produces this by
canonicalising the configured directory before it builds the vault.
`Vault::new` accepts any path.

An empty input is not rejected by the vault. It resolves to the root
itself (`RootOnlyRequest`). The guard against empty paths lives in the MCP
tool layer (src/mcp/tools.rs), which is not part of this model.

## Model

| member | source | states |
|---|---|---|
| Paths.Parse | src/vault/vault.rs:58-61 | The parsed components are well formed: `RootDir` and `CurDir` appear only first, and names are non-empty, not `.` or `..`, and contain no `/`. The first component is `RootDir` exactly when the input starts with `/`. |
| Paths.ParseJoin | src/vault/vault.rs:108-112 | A relative path built from valid names joined with `/` is not absolute and parses to exactly those names, in order. |
| Paths.QuotePlain | src/vault/vault.rs:126 | `{:?}` of a path made of plain characters is the path between double quotes, unchanged. |
| Vaults.NormalizedPath | src/vault/vault.rs:57-64 | The normalised path is relative and well formed. It is the parsed input with its leading root removed, and nothing else removed. |
| Vaults.NormalizeAbsolute | src/vault/vault.rs:58-64 | Normalising `/` + p gives the normal form of p, minus a leading `.` if p had one. |
| Absolutize.Collapse | src/vault/vault.rs:70 | The token loop keeps a canonical token list canonical, for any parsed tail it is fed. |
| Absolutize.AbsolutizeVirtually | src/vault/vault.rs:70 | Every accepted result is canonical and starts with the root. Every failure is `InvalidInput`. |
| Absolutize.AbsolutizeBelowRoot | src/vault/vault.rs:70-71 | A relative path that never climbs above its start is accepted. It lands at the root joined with its lexical normal form, computed independently by `Dedot`. |
| Absolutize.AbsolutizeRejectsEscape | src/vault/vault.rs:70-72 | A relative path that climbs above its start is rejected with `InvalidInput` if it starts with `..`, for any root including `/`, or if the root has a last name and the path never names it. |
| Absolutize.AbsolutizeSkipsCurDir | src/vault/vault.rs:70 | A leading `.` that is not followed by `..` does not change the result. |
| Absolutize.DedotNames | src/vault/vault.rs:108-112 | A path made only of names has itself as its lexical normal form. |
| Vaults.ResolveOutcome | src/vault/vault.rs:66-85 | Whatever the probe answers, an accepted path lies under the root and is canonical, and every rejection is an `InvalidPath`. |
| Vaults.Vault.ResolvePathFromVaultRoot | src/vault/vault.rs:56-86 | Every accepted path starts with the vault root and is canonical, so it has no `..` left. Every rejection is an `InvalidPath`. |
| Vaults.TraversalVeto | src/vault/vault.rs:66-67 | When the probe reports a traversal, the result is the traversal error for the original, un-normalised input. |
| Vaults.NotFoundFallsThrough | src/vault/vault.rs:69 | A `NotFound` error from the probe gives exactly the result `Ok(false)` gives. |
| Vaults.ProbeErrorRejects | src/vault/vault.rs:81-84 | Any other probe error gives `Invalid path <quoted input>: <kind>`, whatever the root and the normalised path. |
| Vaults.ResolveBelowRoot | src/vault/vault.rs:69-71 | An input the probe lets through that never climbs above the root resolves to the root joined with its lexical normal form. |
| Vaults.EscapeRejected | src/vault/vault.rs:72-77 | An input the probe lets through that climbs above the root is rejected with `Invalid path <quoted input>: Kind(InvalidInput)` if it normalises to a leading `..`, for any root including `/`, or if the root has a last name and the path never names it. |
| Vaults.PlainReason | src/vault/vault.rs:73-76 | For a path of plain characters, the reason quotes the path verbatim. |
| Vaults.TraversalIffPrefix | src/vault/vault.rs:66-84 | A rejection carries the traversal prefix exactly when the probe reported a traversal (both directions). |
| Vaults.AcceptedIgnoresProbe | src/vault/vault.rs:69-71 | When two probes both let a path through, the resolved path is the same: the probe only vetoes. |
| Vaults.RootOnlyRequest | src/vault/vault.rs:58-71 | `""` and `/` resolve to the vault root itself, when the probe lets the empty text through. |
| Vaults.AbsoluteInputEquivalence | src/vault/vault.rs:57-71 | `/` + p is accepted exactly when p is, with the same result, given the conditions listed under Left out. |
| Vaults.AbsoluteInputEquivalencePlain | src/vault/vault.rs:57-71 | For any probe, a path whose first piece is not `.` (so `.obsidian/app.json`, `..` and `../x` are included), and that is absolute or whose last piece is a real component, is accepted with and without a leading `/`, with the same result. |
| Vaults.SameProbeText | src/vault/vault.rs:58-64 | A path whose first piece is not `.`, and that is absolute or whose last piece is a real component, reaches the probe as the same text with and without a leading `/`, and it does not normalise to `./..`. |
| Vaults.NormalizedText | src/vault/vault.rs:58-64 | `normalized_path` as text, as handed to `is_path_trav`: a relative input unchanged, and in every case a text that parses to exactly the components handed to `absolutize_virtually`. |
| Vaults.TrailingSeparatorSeen | src/vault/vault.rs:58-66 | For a valid name a, `a/` and `/a/` have the same components, but the probe sees `a/` for the first and `a` for the second. |
| Paths.AsPath | src/vault/vault.rs:59-61 | `as_path` of the rest of an absolute path, after trimming empty and `.` pieces at both ends, parses to the same components as that rest. |
| Paths.Quote | src/vault/error.rs:36 | `{:?}` of a path is framed by double quotes and never shorter than the path plus the two quotes; it is exactly that long when every character is plain. |
| Paths.EscapeAll | src/vault/vault.rs:74-75 | Escaping each character never shortens the path, and keeps its length exactly when every character is one that `escape_debug` leaves alone. |
| Vaults.NamesResolveUnderRoot | src/vault/vault.rs:108-112 | `a/b/…` of valid names resolves to the root joined with those names when the probe lets that text through, whether or not the file exists. |
| Vaults.NamesNormalize | src/vault/vault.rs:58-64 | `a/b/…` and `/a/b/…` of valid names both normalise to those names, both reach the probe as `a/b/…`, and their lexical normal form is themselves. |
| Vaults.AbsoluteNamesResolveUnderRoot | src/vault/vault.rs:114-118 | `/a/b/…` resolves to the same place as `a/b/…`, under the same probe answer for the text `a/b/…`. |
| Vaults.ParentTraversalRejected | src/vault/vault.rs:120-132 | `./../` followed by names that do not include the root's last name is rejected with `Invalid path <quoted input>: Kind(InvalidInput)`, as for `./../subfolder/test-note.md`. |
| VaultErrors.PlainTraversal | src/vault/vault.rs:150-160 | For a path of plain characters, the traversal reason is the prefix followed by the path in double quotes. |
| VaultErrors.FromIo | src/vault/error.rs:24-26 | `io` wraps the error unchanged, and it displays as `IO error: ` + the error's text. |
| VaultErrors.InvalidPathError | src/vault/error.rs:28-32 | `invalid_path` keeps the reason unchanged, and it displays as `Invalid path: ` + reason. |
| VaultErrors.InvalidPathTraversal | src/vault/error.rs:34-38 | `invalid_path_traversal` gives an `InvalidPath` with the traversal prefix, followed by the quoted path. |
| VaultErrors.Display | src/vault/error.rs:14-21 | The text starts `IO error: ` exactly for `IoError`, followed by the error's own text; otherwise it starts `Invalid path: `, followed by the reason unchanged. |
| VaultErrors.DisplayDistinguishes | src/vault/error.rs:14-21 | Equal display texts imply the same variant. They also imply the same reason, for `InvalidPath`, or the same error text, for `IoError`. |
| Vaults.Vault.New | src/vault/vault.rs:14-23 | `new` always succeeds, and `vault_path` gives back the path it was given. |
| Vaults.Vault.VaultPath | src/vault/vault.rs:21-23 | The accessor returns the stored root unchanged; together with `New` this is the round trip from `new` to `vault_path`. |
| Vaults.InvalidPathReason | src/vault/vault.rs:73-76 | The reason starts `Invalid path `, continues with the `{:?}` quotation of the original input, and ends with the error's debug text. |
| Vaults.ReasonIsNotTraversal | src/vault/vault.rs:81-84 | An ordinary `Invalid path …` reason never starts with the traversal prefix `Invalid Path: …`. |
| Fs.FileSystem.ReadToString | src/vault/vault.rs:39-41 | A read succeeds exactly when the file exists, and returns its whole content. A directory gives `IsADirectory`; anything else gives `NotFound`. |
| Fs.FileSystem.Write | src/vault/vault.rs:48-51 | A write creates the file or replaces its content. It fails, changing nothing, on a directory or a missing parent directory. It keeps the filesystem's invariant. |
| Fs.ReadAfterWrite | src/vault/vault.rs:49 | After a successful write, a read of the same path returns the content written. |
| Fs.WriteLeavesOthers | src/vault/vault.rs:49 | A write leaves every other path as it was. |
| Vaults.Vault.ReadFile | src/vault/vault.rs:37-44 | The result is the resolver's error, or the read outcome at the resolved path, with I/O errors wrapped. |
| Vaults.Vault.WriteFile | src/vault/vault.rs:46-54 | The result and the new files are the resolver's error with nothing changed, or the write outcome at the resolved path. Directories are unchanged and the invariant is kept. |
| Vaults.Vault.ReadNote | src/vault/vault.rs:25-27 | The same as `read_file` on the same path. |
| Vaults.Vault.WriteNote | src/vault/vault.rs:29-31 | The same as `write_file` on the same path and content. |
| Vaults.Vault.ModifyNote | src/vault/vault.rs:33-35 | The same full overwrite as `write_note`. |
| Vaults.ResolveErrorShortCircuits | src/vault/vault.rs:37-54 | A rejected path makes reads and writes return that same error, and no file changes. |
| Vaults.IoFailuresWrapped | src/vault/vault.rs:39-51 | For an accepted path, a failing read or write returns `IoError` around the filesystem's own error. |
| Vaults.WriteThenRead | src/vault/vault.rs:25-54 | After a successful note write, reading the note returns the content written, even with a different probe answer, unless that read's resolution is rejected. |
| Fs.OverwriteSucceeds | src/vault/vault.rs:49 | On a consistent filesystem (files and directories distinct, every file in an existing directory), overwriting an existing file cannot fail, and the filesystem stays consistent. |
| Vaults.ModifyExistingNote | src/vault/vault.rs:33-35 | On a consistent filesystem, `modify_note` of an existing note at an accepted path succeeds, replaces exactly that file's content, and keeps the filesystem consistent. |
| Vaults.WritesStayInVault | src/vault/vault.rs:46-54 | No write, successful or not, creates, removes or changes a file outside the vault root. |

## Left out

- Asynchrony (`async`/`.await`), concurrent requests and partially written files are not modelled. Each operation is one atomic step on the filesystem object.
- The traversal probe (`is_path_trav` of the path-trav crate) is modelled as an arbitrary function. Its own algorithm (canonicalising both paths on disk and following symlinks) is not modelled, because it depends on the disk.
- `absolutize_virtually` belongs to the path-absolutize crate, whose source is not part of this model. It is written from that crate's documented algorithm:
  - a leading `..` is `InvalidInput`;
  - within the joined path, `..` never removes the first token;
  - the result must still start with the root.
- Vaults.AbsoluteInputEquivalencePlain is stated only when p is absolute or its relative form ends in a real component. A trailing `/` or `/.` reaches the probe for p but is trimmed for `/` + p (`TrailingSeparatorSeen`), so an arbitrary probe can answer the two inputs differently. For the same reason it excludes a p whose first piece is `.` (`.` or `./…`, not `.obsidian/…`): that piece reaches the probe for p but not for `/` + p; Vaults.AbsoluteInputEquivalence covers it under an equal probe answer.
- Vaults.AbsoluteInputEquivalence is stated only when the probe answers alike for the two forms, and when the normalised path does not start with `./..`. With the crate's algorithm, `./../<root name>/x` can re-enter the root while `/./../<root name>/x` is rejected. This comes from the crate, not from the vault's code, so it is not claimed as a defect.
- Absolutize.AbsolutizeRejectsEscape and Vaults.EscapeRejected do not cover a path that climbs out and then comes back through a component equal to the root's last name. The crate accepts such a path, and the model reproduces that (see `Collapse`), but no lemma characterises it.
- Vaults.Vault.ResolvePathFromVaultRoot requires a canonical root. The source accepts any `PathBuf` in `Vault::new`, and the binary (src/bin/main.rs) canonicalises it first; src/bin/main.rs is not part of this model.
- The MCP tool layer (src/mcp/tools.rs), including its empty-path guard, and the binary's configuration and transport are not part of this model.
- `{:?}` output approximates `char::escape_debug`:
  - non-ASCII characters are printed unchanged, although Rust escapes non-printable and grapheme-extending ones;
  - the `Debug` form of an operating-system error is not modelled, because only bare-kind errors reach a reason.
- Filesystem errors are limited to "is a directory" (os error 21) and "no such file or directory" (os error 2). A parent that is a regular file reports `NotFound` here, where Linux reports "not a directory". Permission errors, full disks and file content that is not valid UTF-8 are not modelled.
- The filesystem holds files and directories only. Symlinks, and therefore what the probe would detect, are not modelled.

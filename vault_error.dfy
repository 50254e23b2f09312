/** The vault's error taxonomy: exactly two variants, their constructors and
    the text they display. A traversal rejection is not a variant of its own
    but an `InvalidPath` whose reason carries a fixed prefix. */
module VaultErrors {
  import Io
  import opened Paths

  datatype VaultError = IoError(err: Io.Error) | InvalidPath(reason: string)

  const TraversalPrefix: string := "Invalid Path: path traversal detected: "

  /** `Display` for `VaultError`: the prefix names the variant and the rest
      is the payload's own text. */
  function Display(e: VaultError): (r: string)
    ensures e.IoError? <==> "IO error: " <= r
    ensures e.IoError? ==> r[|"IO error: "|..] == Io.ErrorDisplay(e.err)
    ensures e.InvalidPath? ==> "Invalid path: " <= r && r[|"Invalid path: "|..] == e.reason
  {
    match e
    case IoError(err) => "IO error: " + Io.ErrorDisplay(err)
    case InvalidPath(reason) =>
      var r := "Invalid path: " + reason;
      assert r[1] != "IO error: "[1];
      r
  }

  /** `VaultError::io`. */
  function FromIo(err: Io.Error): (e: VaultError)
    ensures e.IoError? && e.err == err
    ensures Display(e) == "IO error: " + Io.ErrorDisplay(err)
  {
    IoError(err)
  }

  /** `VaultError::invalid_path`. */
  function InvalidPathError(reason: string): (e: VaultError)
    ensures e.InvalidPath? && e.reason == reason
    ensures Display(e) == "Invalid path: " + reason
  {
    InvalidPath(reason)
  }

  /** A rejection the traversal probe decided, recognisable by its reason. */
  predicate IsTraversal(e: VaultError) {
    e.InvalidPath? && TraversalPrefix <= e.reason
  }

  /** `VaultError::invalid_path_traversal`: an `InvalidPath` quoting the path. */
  function InvalidPathTraversal(path: string): (e: VaultError)
    ensures e.InvalidPath? && IsTraversal(e)
    ensures e.reason[|TraversalPrefix|..] == Quote(path)
    ensures Display(e) == "Invalid path: " + TraversalPrefix + Quote(path)
  {
    InvalidPath(TraversalPrefix + Quote(path))
  }

  /** A path of plain characters is quoted verbatim after the prefix. */
  lemma PlainTraversal(path: string)
    requires forall i :: 0 <= i < |path| ==> Plain(path[i])
    ensures InvalidPathTraversal(path) == InvalidPath(TraversalPrefix + "\"" + path + "\"")
  {
    QuotePlain(path);
    assert TraversalPrefix + Quote(path) == TraversalPrefix + "\"" + path + "\"";
  }

  /** The displayed text tells the two variants apart and gives back the
      reason of an `InvalidPath` and the text of an `IoError`. */
  lemma DisplayDistinguishes(e1: VaultError, e2: VaultError)
    requires Display(e1) == Display(e2)
    ensures e1.IoError? <==> e2.IoError?
    ensures e1.InvalidPath? ==> e1 == e2
    ensures e1.IoError? ==> Io.ErrorDisplay(e1.err) == Io.ErrorDisplay(e2.err)
  {
    var d := Display(e1);
    assert e1.IoError? == e2.IoError? by {
      assert d[1] == Display(e2)[1];
    }
    var k := if e1.IoError? then |"IO error: "| else |"Invalid path: "|;
    match e1
    case IoError(err) =>
      assert d[k..] == Io.ErrorDisplay(err) == Io.ErrorDisplay(e2.err);
    case InvalidPath(reason) =>
      assert d[k..] == reason == e2.reason;
  }
}

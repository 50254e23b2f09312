/** Lexical absolutisation against a virtual root (`absolutize_virtually` of
    the path-absolutize crate, which the vault calls): the path is joined onto
    the root and `.`/`..` are collapsed without consulting the disk; the
    result must still lie under the root. */
module Absolutize {
  import opened Results
  import opened Paths
  import Io

  /** An absolute path with no `.`, `..` or empty components, as
      `canonicalize` returns it. */
  predicate IsCanonical(p: seq<Component>) {
    |p| >= 1 && p[0] == RootDir &&
    forall i :: 1 <= i < |p| ==> p[i].Normal? && ValidName(p[i].name)
  }

  /** Components that may follow the first one of a parsed path. */
  predicate Tail(p: seq<Component>) {
    forall i :: 0 <= i < |p| ==> !p[i].RootDir? && (p[i].Normal? ==> ValidName(p[i].name))
  }

  /** The token loop: `.` is skipped, `..` drops the last token unless only
      one is left, anything else is pushed. */
  function Collapse(tokens: seq<Component>, rest: seq<Component>): (r: seq<Component>)
    ensures IsCanonical(tokens) && Tail(rest) ==> IsCanonical(r)
    decreases |rest|
  {
    if rest == [] then tokens
    else
      var next :=
        match rest[0]
        case CurDir => tokens
        case ParentDir => if |tokens| > 1 then tokens[..|tokens| - 1] else tokens
        case _ => tokens + [rest[0]];
      assert Tail(rest) ==> Tail(rest[1..]);
      Collapse(next, rest[1..])
  }

  function InvalidInput(): Io.Error {
    Io.Simple(Io.InvalidInput)
  }

  /** `path.absolutize_virtually(root)` for a canonical root. */
  function AbsolutizeVirtually(path: seq<Component>, root: seq<Component>): (r: Result<seq<Component>, Io.Error>)
    requires IsCanonical(root)
    requires WellFormed(path)
    ensures r.Ok? ==> root <= r.value && IsCanonical(r.value)
    ensures r.Err? ==> r.error == InvalidInput()
  {
    if path == [] then Ok(root)
    else if path[0] == ParentDir then Err(InvalidInput())
    else
      var start :=
        if path[0] == RootDir then [RootDir]
        else if path[0] == CurDir then root
        else root + [path[0]];
      assert Tail(path[1..]);
      var tokens := Collapse(start, path[1..]);
      if root <= tokens then Ok(tokens) else Err(InvalidInput())
  }

  /** Reference lexical normal form of a relative path: a stack on which
      `..` pops; `None` once a `..` finds the stack empty, i.e. the path
      climbs above the directory it starts from. */
  function DedotFrom(stack: seq<Component>, rest: seq<Component>): Option<seq<Component>>
    decreases |rest|
  {
    if rest == [] then Some(stack)
    else
      match rest[0]
      case CurDir => DedotFrom(stack, rest[1..])
      case ParentDir => if stack == [] then None else DedotFrom(stack[..|stack| - 1], rest[1..])
      case _ => DedotFrom(stack + [rest[0]], rest[1..])
  }

  function Dedot(path: seq<Component>): Option<seq<Component>> {
    DedotFrom([], path)
  }

  /** While the path stays below its start, the token loop run from the
      root keeps the root and adds exactly the reference stack. */
  lemma {:induction false} CollapseWithin(root: seq<Component>, stack: seq<Component>, rest: seq<Component>)
    requires |root| >= 1
    requires Relative(rest)
    requires DedotFrom(stack, rest).Some?
    ensures Collapse(root + stack, rest) == root + DedotFrom(stack, rest).value
    decreases |rest|
  {
    if rest != [] {
      assert Relative(rest[1..]);
      match rest[0]
      case CurDir =>
        CollapseWithin(root, stack, rest[1..]);
      case ParentDir =>
        var t := root + stack;
        assert t[..|t| - 1] == root + stack[..|stack| - 1];
        CollapseWithin(root, stack[..|stack| - 1], rest[1..]);
      case Normal(_) =>
        assert (root + stack) + [rest[0]] == root + (stack + [rest[0]]);
        CollapseWithin(root, stack + [rest[0]], rest[1..]);
    }
  }

  /** Once the tokens no longer start with the root, they never do again
      unless the root's last name is pushed back. */
  lemma {:induction false} CollapseStaysOut(root: seq<Component>, u: seq<Component>, rest: seq<Component>)
    requires |root| >= 2
    requires !(root <= u)
    requires root[|root| - 1] !in rest
    ensures !(root <= Collapse(u, rest))
    decreases |rest|
  {
    if rest != [] {
      var next :=
        match rest[0]
        case CurDir => u
        case ParentDir => if |u| > 1 then u[..|u| - 1] else u
        case _ => u + [rest[0]];
      assert Collapse(u, rest) == Collapse(next, rest[1..]);
      assert !(root <= next);
      assert root[|root| - 1] !in rest[1..];
      CollapseStaysOut(root, next, rest[1..]);
    }
  }

  /** A path that climbs above its start leaves the root for good when it
      never names the root's last component. */
  lemma {:induction false} CollapseEscapes(root: seq<Component>, stack: seq<Component>, rest: seq<Component>)
    requires |root| >= 2
    requires Relative(rest)
    requires DedotFrom(stack, rest) == None
    requires root[|root| - 1] !in rest
    ensures !(root <= Collapse(root + stack, rest))
    decreases |rest|
  {
    assert Relative(rest[1..]);
    assert root[|root| - 1] !in rest[1..];
    match rest[0]
    case CurDir =>
      CollapseEscapes(root, stack, rest[1..]);
    case ParentDir =>
      var t := root + stack;
      if stack == [] {
        assert t == root;
        CollapseStaysOut(root, root[..|root| - 1], rest[1..]);
      } else {
        assert t[..|t| - 1] == root + stack[..|stack| - 1];
        CollapseEscapes(root, stack[..|stack| - 1], rest[1..]);
      }
    case Normal(_) =>
      assert (root + stack) + [rest[0]] == root + (stack + [rest[0]]);
      CollapseEscapes(root, stack + [rest[0]], rest[1..]);
  }

  /** A relative path that never climbs above its start is accepted and
      lands at the root joined with its lexical normal form. */
  lemma AbsolutizeBelowRoot(path: seq<Component>, root: seq<Component>)
    requires IsCanonical(root)
    requires WellFormed(path) && Relative(path)
    requires Dedot(path).Some?
    ensures AbsolutizeVirtually(path, root) == Ok(root + Dedot(path).value)
  {
    if path != [] {
      match path[0]
      case CurDir =>
        assert root + [] == root;
        CollapseWithin(root, [], path[1..]);
      case Normal(_) =>
        assert [] + [path[0]] == [path[0]];
        CollapseWithin(root, [path[0]], path[1..]);
    }
  }

  /** A relative path that climbs above the root is rejected with
      `InvalidInput`, unless it re-enters the root through the root's own
      last name (possible only when it does not start with `..`). */
  lemma AbsolutizeRejectsEscape(path: seq<Component>, root: seq<Component>)
    requires IsCanonical(root)
    requires WellFormed(path) && Relative(path)
    requires Dedot(path) == None
    requires path[0] == ParentDir || (|root| >= 2 && root[|root| - 1] !in path)
    ensures AbsolutizeVirtually(path, root) == Err(InvalidInput())
  {
    if path[0] != ParentDir {
      assert root[|root| - 1] !in path[1..];
      match path[0]
      case CurDir =>
        assert root + [] == root;
        CollapseEscapes(root, [], path[1..]);
      case Normal(_) =>
        assert [] + [path[0]] == [path[0]];
        CollapseEscapes(root, [path[0]], path[1..]);
    }
  }

  /** A path made only of names never climbs: its normal form is itself. */
  lemma {:induction false} DedotNames(stack: seq<Component>, rest: seq<Component>)
    requires forall i :: 0 <= i < |rest| ==> rest[i].Normal?
    ensures DedotFrom(stack, rest) == Some(stack + rest)
    decreases |rest|
  {
    if rest != [] {
      assert rest[0].Normal?;
      DedotNames(stack + [rest[0]], rest[1..]);
      assert rest == [rest[0]] + rest[1..];
      assert stack + [rest[0]] + rest[1..] == stack + rest;
      assert DedotFrom(stack, rest) == DedotFrom(stack + [rest[0]], rest[1..]);
    } else {
      assert stack + rest == stack;
    }
  }

  /** A leading `.` changes nothing unless a `..` follows it. */
  lemma AbsolutizeSkipsCurDir(path: seq<Component>, root: seq<Component>)
    requires IsCanonical(root)
    requires WellFormed([CurDir] + path) && WellFormed(path)
    requires path == [] || path[0] != ParentDir
    ensures AbsolutizeVirtually([CurDir] + path, root) == AbsolutizeVirtually(path, root)
  {
    var p := [CurDir] + path;
    assert p[1..] == path;
    if path != [] {
      assert path[0].Normal?;
      assert Collapse(root, path) == Collapse(root + [path[0]], path[1..]);
    }
  }
}

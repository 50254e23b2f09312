/** Unix paths as Rust's `std::path::Path` sees them: the components its
    iterator yields, and the quoted form `{:?}` prints. */
module Paths {
  datatype Component = RootDir | CurDir | ParentDir | Normal(name: string)

  /** The pieces `.` and `..`. */
  predicate IsDot(p: string) {
    |p| == 1 && p[0] == '.'
  }

  predicate IsDotDot(p: string) {
    |p| == 2 && p[0] == '.' && p[1] == '.'
  }

  /** No separator anywhere in `s`. */
  predicate NoSlash(s: string) {
    forall k :: 0 <= k < |s| ==> s[k] != '/'
  }

  /** A name the component iterator can yield as `Normal`. */
  predicate ValidName(n: string) {
    |n| > 0 && !IsDot(n) && !IsDotDot(n) && NoSlash(n)
  }

  /** What `Path::components` can produce: `RootDir` and `CurDir` only in
      front, every `Normal` name valid. */
  predicate WellFormed(c: seq<Component>) {
    forall i :: 0 <= i < |c| ==>
      (c[i].RootDir? ==> i == 0) && (c[i].CurDir? ==> i == 0) &&
      (c[i].Normal? ==> ValidName(c[i].name))
  }

  /** No root component anywhere. */
  predicate Relative(c: seq<Component>) {
    forall i :: 0 <= i < |c| ==> !c[i].RootDir?
  }

  /** `Path::is_absolute` on Unix: the path starts at the root. */
  predicate IsAbsolute(s: string) {
    |s| > 0 && s[0] == '/'
  }

  /** Position of the first separator, or the length when there is none. */
  function SlashIndex(s: string): (i: nat)
    ensures i <= |s|
    ensures forall k :: 0 <= k < i ==> s[k] != '/'
    ensures i < |s| ==> s[i] == '/'
  {
    if s == [] || s[0] == '/' then 0
    else
      var j := SlashIndex(s[1..]);
      assert s[..1 + j] == [s[0]] + s[1..][..j];
      1 + j
  }

  /** The component a separator-free piece stands for; empty pieces and
      inner `.` pieces yield nothing. */
  function Segment(piece: string): seq<Component> {
    if |piece| == 0 || IsDot(piece) then []
    else if IsDotDot(piece) then [ParentDir]
    else [Normal(piece)]
  }

  /** The components of a path body, split at every separator. */
  function Segments(s: string): (r: seq<Component>)
    ensures forall k :: 0 <= k < |r| ==> r[k] == ParentDir || (r[k].Normal? && ValidName(r[k].name))
    decreases |s|
  {
    var i := SlashIndex(s);
    if i == |s| then Segment(s)
    else Segment(s[..i]) + Segments(s[i + 1..])
  }

  /** `Path::components` of a string: a leading separator gives `RootDir`, a
      leading `.` of a relative path gives `CurDir`, the rest is split. */
  function Parse(s: string): (r: seq<Component>)
    ensures WellFormed(r)
    ensures (|r| > 0 && r[0] == RootDir) <==> IsAbsolute(s)
    ensures forall i :: 1 <= i < |r| ==> !r[i].RootDir? && !r[i].CurDir?
  {
    if IsAbsolute(s) then [RootDir] + Segments(s[1..])
    else if DotLed(s) then [CurDir] + Segments(s[1..])
    else Segments(s)
  }

  /** A relative path whose first piece is `.`: it parses to a `CurDir`. */
  predicate DotLed(s: string) {
    IsDot(s) || (|s| >= 2 && s[0] == '.' && s[1] == '/')
  }

  /** A relative path text made of names separated by single slashes. */
  function Join(names: seq<string>): string
    decreases |names|
  {
    if |names| == 0 then ""
    else if |names| == 1 then names[0]
    else names[0] + "/" + Join(names[1..])
  }

  function Normals(names: seq<string>): (r: seq<Component>)
    ensures |r| == |names| && forall i :: 0 <= i < |r| ==> r[i] == Normal(names[i])
  {
    if names == [] then [] else [Normal(names[0])] + Normals(names[1..])
  }

  /** Splitting at a first separator that follows a separator-free piece. */
  lemma SegmentsCons(a: string, b: string)
    requires NoSlash(a)
    ensures Segments(a + "/" + b) == Segment(a) + Segments(b)
  {
    var s := a + "/" + b;
    SlashIndexOf(a, b);
    assert s[..|a|] == a;
    assert s[|a| + 1..] == b;
  }

  lemma {:induction false} SlashIndexOf(a: string, b: string)
    requires NoSlash(a)
    ensures SlashIndex(a + "/" + b) == |a|
  {
    if a != [] {
      assert (a + "/" + b)[1..] == a[1..] + "/" + b;
      SlashIndexOf(a[1..], b);
    }
  }

  /** Joined valid names read back as exactly those names. */
  lemma {:induction false} SegmentsJoin(names: seq<string>)
    requires |names| >= 1
    requires forall i :: 0 <= i < |names| ==> ValidName(names[i])
    ensures Segments(Join(names)) == Normals(names)
  {
    if |names| == 1 {
      var s := names[0];
      assert SlashIndex(s) == |s|;
    } else {
      SegmentsCons(names[0], Join(names[1..]));
      SegmentsJoin(names[1..]);
    }
  }

  /** `Path::components` of a relative path built from valid names yields
      those names and nothing else. */
  lemma ParseJoin(names: seq<string>)
    requires |names| >= 1
    requires forall i :: 0 <= i < |names| ==> ValidName(names[i])
    ensures !IsAbsolute(Join(names)) && Parse(Join(names)) == Normals(names)
  {
    var s, a := Join(names), names[0];
    JoinStartsWith(names);
    assert s[0] == a[0] != '/';
    assert !(|s| >= 2 && s[0] == '.' && s[1] == '/') by {
      if |a| >= 2 {
        assert s[1] == a[1];
      } else {
        assert a == [a[0]];
      }
    }
    assert !IsDot(s) by {
      if |names| == 1 {
        assert s == a;
      }
    }
    SegmentsJoin(names);
  }

  lemma JoinStartsWith(names: seq<string>)
    requires |names| >= 1
    ensures names[0] <= Join(names)
  {
  }

  // `Components::as_path` after the root has been consumed: leading and
  // trailing pieces that yield no component (empty or `.`) are cut off.

  /** The first piece of `s` yields a component (or `s` is empty). */
  predicate FirstPieceCounts(s: string) {
    |s| == 0 || Segment(s[..SlashIndex(s)]) != []
  }

  /** The piece after the last separator. */
  function LastPiece(s: string): string
    decreases |s|
  {
    var i := SlashIndex(s);
    if i == |s| then s else LastPiece(s[i + 1..])
  }

  /** `trim_left`: drops leading pieces that yield nothing, with their separators. */
  function TrimFront(s: string): string
    decreases |s|
  {
    if |s| == 0 then ""
    else
      var i := SlashIndex(s);
      if Segment(s[..i]) != [] then s
      else if i == |s| then ""
      else TrimFront(s[i + 1..])
  }

  /** `trim_right`: drops trailing pieces that yield nothing, with their separators. */
  function TrimBack(s: string): string
    decreases |s|
  {
    var i := SlashIndex(s);
    if i == |s| then (if Segment(s) == [] then "" else s)
    else
      var rest := TrimBack(s[i + 1..]);
      if |rest| > 0 then s[..i] + "/" + rest
      else if Segment(s[..i]) == [] then ""
      else s[..i]
  }

  /** A piece without separators is split into itself. */
  lemma SegmentsPiece(a: string)
    requires NoSlash(a)
    ensures Segments(a) == Segment(a)
  {
    SlashIndexNone(a);
  }

  lemma {:induction false} SlashIndexNone(a: string)
    requires NoSlash(a)
    ensures SlashIndex(a) == |a|
  {
    if a != [] {
      assert NoSlash(a[1..]);
      SlashIndexNone(a[1..]);
    }
  }

  /** Trimming the front keeps the components and leaves a counting first piece. */
  lemma {:induction false} TrimFrontSegments(s: string)
    ensures FirstPieceCounts(TrimFront(s))
    ensures Segments(TrimFront(s)) == Segments(s)
    decreases |s|
  {
    if |s| > 0 {
      var i := SlashIndex(s);
      var a := s[..i];
      if Segment(a) != [] {
        assert TrimFront(s) == s;
      } else if i == |s| {
        assert TrimFront(s) == "";
      } else {
        var b := s[i + 1..];
        assert s == a + "/" + b;
        SegmentsCons(a, b);
        assert TrimFront(s) == TrimFront(b);
        TrimFrontSegments(b);
      }
    }
  }

  /** Trimming the end keeps the components and a counting first piece. */
  lemma {:induction false} TrimBackSegments(s: string)
    ensures Segments(TrimBack(s)) == Segments(s)
    ensures FirstPieceCounts(s) ==> FirstPieceCounts(TrimBack(s))
    decreases |s|
  {
    var i := SlashIndex(s);
    if i == |s| {
      assert s[..i] == s;
    } else {
      var a, b := s[..i], s[i + 1..];
      assert s == a + "/" + b;
      SegmentsCons(a, b);
      TrimBackSegments(b);
      var rest := TrimBack(b);
      if |rest| > 0 {
        SegmentsCons(a, rest);
        SlashIndexOf(a, rest);
        assert (a + "/" + rest)[..|a|] == a;
      } else {
        SegmentsPiece(a);
        SlashIndexNone(a);
        assert a[..|a|] == a;
      }
    }
  }

  /** A path whose first piece counts parses without a root or a `CurDir`. */
  lemma FirstPieceParse(s: string)
    requires FirstPieceCounts(s)
    ensures Parse(s) == Segments(s)
  {
  }

  /** `Components::as_path` once the root is consumed: the rest of the path
      without leading and trailing empty and `.` pieces. It parses to the
      same components as the rest itself. */
  function AsPath(s: string): (r: string)
    ensures Parse(r) == Segments(s)
  {
    TrimFrontSegments(s);
    TrimBackSegments(TrimFront(s));
    FirstPieceParse(TrimBack(TrimFront(s)));
    TrimBack(TrimFront(s))
  }

  /** A path whose first piece counts is not trimmed at the front. */
  lemma TrimFrontKeeps(s: string)
    requires FirstPieceCounts(s)
    ensures TrimFront(s) == s
  {
  }

  /** A path whose last piece counts is not trimmed at the end. */
  lemma {:induction false} TrimBackKeeps(s: string)
    requires Segment(LastPiece(s)) != []
    ensures TrimBack(s) == s
    decreases |s|
  {
    var i := SlashIndex(s);
    if i < |s| {
      var a, b := s[..i], s[i + 1..];
      assert s == a + "/" + b;
      LastPieceCons(a, b);
      TrimBackKeeps(b);
      TrimBackCons(a, b);
    }
  }

  lemma LastPieceCons(a: string, b: string)
    requires NoSlash(a)
    ensures LastPiece(a + "/" + b) == LastPiece(b)
  {
    var s := a + "/" + b;
    SlashIndexOf(a, b);
    assert s[|a| + 1..] == b;
  }

  lemma TrimBackCons(a: string, b: string)
    requires NoSlash(a) && |b| > 0 && TrimBack(b) == b
    ensures TrimBack(a + "/" + b) == a + "/" + b
  {
    var s := a + "/" + b;
    SlashIndexOf(a, b);
    assert s[..|a|] == a && s[|a| + 1..] == b;
  }

  /** A path whose first and last pieces count is its own `as_path`. */
  lemma AsPathKeeps(s: string)
    requires FirstPieceCounts(s) && Segment(LastPiece(s)) != []
    ensures AsPath(s) == s
  {
    TrimFrontKeeps(s);
    TrimBackKeeps(s);
  }

  /** A leading separator is an empty piece, which `as_path` drops. */
  lemma AsPathSkipsSeparator(s: string)
    requires |s| > 0 && s[0] == '/'
    ensures AsPath(s) == AsPath(s[1..])
  {
    assert SlashIndex(s) == 0;
    assert s[..0] == [];
    assert TrimFront(s) == TrimFront(s[1..]);
  }

  /** Joined valid names are not trimmed at either end. */
  lemma {:induction false} JoinUntrimmed(names: seq<string>)
    requires |names| >= 1
    requires forall i :: 0 <= i < |names| ==> ValidName(names[i])
    ensures TrimBack(TrimFront(Join(names))) == Join(names)
  {
    JoinLastPiece(names);
    SlashIndexJoin(names);
    TrimFrontKeeps(Join(names));
    TrimBackKeeps(Join(names));
  }

  lemma {:induction false} SlashIndexJoin(names: seq<string>)
    requires |names| >= 1
    requires forall i :: 0 <= i < |names| ==> ValidName(names[i])
    ensures SlashIndex(Join(names)) == |names[0]|
    ensures Join(names)[..|names[0]|] == names[0]
  {
    if |names| == 1 {
      SlashIndexNone(names[0]);
    } else {
      SlashIndexOf(names[0], Join(names[1..]));
    }
  }

  lemma {:induction false} JoinLastPiece(names: seq<string>)
    requires |names| >= 1
    requires forall i :: 0 <= i < |names| ==> ValidName(names[i])
    ensures LastPiece(Join(names)) == names[|names| - 1]
    decreases |names|
  {
    if |names| == 1 {
      SlashIndexNone(names[0]);
    } else {
      var t := Join(names[1..]);
      SlashIndexOf(names[0], t);
      assert (names[0] + "/" + t)[|names[0]| + 1..] == t;
      JoinLastPiece(names[1..]);
    }
  }

  // `{:?}` of a path: every character passes through `char::escape_debug`.

  function HexDigit(d: int): char
    requires 0 <= d < 16
  {
    if d < 10 then ('0' as int + d) as char else ('a' as int + d - 10) as char
  }

  /** Lower-case hexadecimal without leading zeros, as `\u{…}` escapes print it. */
  function Hex(n: nat): string
  {
    if n < 16 then [HexDigit(n)] else Hex(n / 16) + [HexDigit(n % 16)]
  }

  /** A character `escape_debug` leaves as it is. */
  predicate Plain(c: char) {
    c != '\\' && c != '"' && c != '\'' && c as int >= 0x20 && c as int != 0x7f
  }

  function EscapeDebug(c: char): (r: string)
    ensures Plain(c) <==> r == [c]
    ensures !Plain(c) ==> |r| >= 2 && r[0] == '\\'
  {
    if c == '\0' then "\\0"
    else if c == '\t' then "\\t"
    else if c == '\r' then "\\r"
    else if c == '\n' then "\\n"
    else if c == '\\' then "\\\\"
    else if c == '"' then "\\\""
    else if c == '\'' then "\\'"
    else if !Plain(c) then "\\u{" + Hex(c as int) + "}"
    else [c]
  }

  /** Escaping never shortens a path, and keeps its length exactly when every
      character is plain. */
  function EscapeAll(s: string): (r: string)
    ensures |r| >= |s|
    ensures |r| == |s| <==> forall i :: 0 <= i < |s| ==> Plain(s[i])
  {
    if s == [] then [] else EscapeDebug(s[0]) + EscapeAll(s[1..])
  }

  /** `format!("{:?}", path)`. */
  function Quote(s: string): (r: string)
    ensures |r| >= |s| + 2 && r[0] == '"' && r[|r| - 1] == '"'
    ensures |r| == |s| + 2 <==> forall i :: 0 <= i < |s| ==> Plain(s[i])
  {
    "\"" + EscapeAll(s) + "\""
  }

  /** A path of plain characters is printed between double quotes unchanged. */
  lemma {:induction false} QuotePlain(s: string)
    requires forall i :: 0 <= i < |s| ==> Plain(s[i])
    ensures Quote(s) == "\"" + s + "\""
  {
    EscapePlain(s);
  }

  lemma {:induction false} EscapePlain(s: string)
    requires forall i :: 0 <= i < |s| ==> Plain(s[i])
    ensures EscapeAll(s) == s
  {
    if s != [] {
      EscapePlain(s[1..]);
      assert s == [s[0]] + s[1..];
    }
  }
}

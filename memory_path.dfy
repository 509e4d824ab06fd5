/**
 * Memory paths of the modular copy memory model: a variable, control or
 * temporary root followed by field and index segments, each segment naming
 * one location, several locations, any location, or the unknown one.
 */
module MemoryPath {
  import opened CSharp

  /** `GlobalContext`. */
  datatype GlobalContext = LocalOnly | GlobalOnly

  /** The temporary index a temporary path starts at; its call level is the path's. */
  datatype TemporaryIndex = TemporaryIndex(id: nat, callLevel: int)

  /** The segment classes: `VariablePathSegment`, `ControlPathSegment`, `FieldPathSegment`, `IndexPathSegment`, `TemporaryPathSegment`. */
  datatype SegmentKind =
    | VariableSegment
    | ControlSegment
    | FieldSegment
    | IndexSegment
    | TemporarySegment(temporary: TemporaryIndex)

  /** `PathSegment`: the names it is built from, in the order given, and the `IsAny` flag. */
  datatype PathSegment = PathSegment(kind: SegmentKind, names: seq<string>, isAny: bool)

  /** The constructor from names: not "any". */
  function NamedSegment(kind: SegmentKind, names: seq<string>): (r: PathSegment)
    ensures r.names == names && !r.isAny && r.kind == kind
  {
    PathSegment(kind, names, false)
  }

  /** The constructor from a flag: no names; `false` gives the unknown segment. */
  function FlagSegment(kind: SegmentKind, isAny: bool): (r: PathSegment)
    ensures r.names == [] && r.isAny == isAny && r.kind == kind
  {
    PathSegment(kind, [], isAny)
  }

  /** `IsDirect` is set by both constructors: a named segment is direct iff it has exactly one name, the flag constructor never. */
  predicate IsDirect(s: PathSegment) {
    |s.names| == 1
  }

  predicate IsUnknown(s: PathSegment) {
    !s.isAny && |s.names| == 0
  }

  /** The three kinds of segment the constructors give. */
  lemma SegmentConstructors(kind: SegmentKind, names: seq<string>, isAny: bool)
    ensures IsDirect(NamedSegment(kind, names)) <==> |names| == 1
    ensures !IsDirect(FlagSegment(kind, isAny))
    ensures IsUnknown(FlagSegment(kind, isAny)) <==> !isAny
    ensures IsUnknown(NamedSegment(kind, names)) <==> |names| == 0
    ensures IsDirect(NamedSegment(kind, names)) ==> !IsUnknown(NamedSegment(kind, names))
  {
  }

  // ----- rendering -----

  const UndefinedStr := "?"

  /** The names joined by `|`. */
  function Join(names: seq<string>): (r: string)
    requires |names| > 0
    ensures |names| == 1 ==> r == names[0]
    decreases |names|
  {
    if |names| == 1 then names[0] else Join(names[..|names| - 1]) + "|" + names[|names| - 1]
  }

  /** `namesToString`. */
  function NamesToString(names: seq<string>): (r: string)
  {
    if |names| == 0 then UndefinedStr
    else if |names| == 1 then names[0]
    else "{" + Join(names) + "}"
  }

  /** The inverse of `Join`: the pieces of a text between the bars. */
  function Split(s: string): (r: seq<string>)
    ensures |r| > 0
    decreases |s|
  {
    if |s| == 0 then [""]
    else
      var rest := Split(s[..|s| - 1]);
      if s[|s| - 1] == '|' then rest + [""]
      else rest[..|rest| - 1] + [rest[|rest| - 1] + [s[|s| - 1]]]
  }

  lemma {:induction false} SplitAppendsPlain(a: string, b: string)
    requires forall i :: 0 <= i < |b| ==> b[i] != '|'
    ensures Split(a + b) == Split(a)[..|Split(a)| - 1] + [Split(a)[|Split(a)| - 1] + b]
    decreases |b|
  {
    if |b| == 0 {
      assert a + b == a;
      assert Split(a)[|Split(a)| - 1] + b == Split(a)[|Split(a)| - 1];
      assert Split(a)[..|Split(a)| - 1] + [Split(a)[|Split(a)| - 1]] == Split(a);
    } else {
      var c := b[|b| - 1];
      var b' := b[..|b| - 1];
      assert (a + b)[..|a + b| - 1] == a + b';
      assert (a + b)[|a + b| - 1] == c;
      SplitAppendsPlain(a, b');
      var rest := Split(a + b');
      assert Split(a + b) == rest[..|rest| - 1] + [rest[|rest| - 1] + [c]];
      var n := |Split(a)|;
      assert rest[..|rest| - 1] == Split(a)[..n - 1];
      assert rest[|rest| - 1] == Split(a)[n - 1] + b';
      assert b' + [c] == b;
      assert Split(a)[n - 1] + b' + [c] == Split(a)[n - 1] + b;
    }
  }

  lemma SplitAfterBar(a: string, b: string)
    requires forall i :: 0 <= i < |b| ==> b[i] != '|'
    ensures Split(a + "|" + b) == Split(a) + [b]
  {
    SplitAppendsPlain(a + "|", b);
    assert (a + "|")[..|a + "|"| - 1] == a;
    assert Split(a + "|") == Split(a) + [""];
    assert "" + b == b;
  }

  predicate NoBar(name: string) {
    forall i :: 0 <= i < |name| ==> name[i] != '|'
  }

  /** Names without `|` can be read back from the text `Join` makes of them. */
  lemma {:induction false} SplitJoin(names: seq<string>)
    requires |names| > 0
    requires forall k :: 0 <= k < |names| ==> NoBar(names[k])
    ensures Split(Join(names)) == names
    decreases |names|
  {
    if |names| == 1 {
      SplitAppendsPlain("", names[0]);
      assert "" + names[0] == names[0];
    } else {
      var init := names[..|names| - 1];
      SplitJoin(init);
      assert NoBar(names[|names| - 1]);
      SplitAfterBar(Join(init), names[|names| - 1]);
      assert init + [names[|names| - 1]] == names;
    }
  }

  /** The three renderings of a segment's names, and that the list form gives the names back. */
  lemma NamesRendering(names: seq<string>)
    requires forall k :: 0 <= k < |names| ==> NoBar(names[k])
    ensures |names| == 0 ==> NamesToString(names) == "?"
    ensures |names| == 1 ==> NamesToString(names) == names[0]
    ensures |names| >= 2 ==> (
      var t := NamesToString(names);
      |t| >= 2 && t[0] == '{' && t[|t| - 1] == '}' && Split(t[1..|t| - 1]) == names)
  {
    if |names| >= 2 {
      var t := NamesToString(names);
      assert t[1..|t| - 1] == Join(names);
      SplitJoin(names);
    }
  }

  /** `ToString` of a segment; a temporary segment is rendered by its index, which is given. */
  function SegmentToString(s: PathSegment, temporaryText: string): (r: string)
  {
    var n := NamesToString(s.names);
    match s.kind
      case VariableSegment => "$" + n
      case ControlSegment => "CTRL$" + n
      case FieldSegment => "->" + n
      case IndexSegment => "[" + n + "]"
      case TemporarySegment(_) => temporaryText
  }

  // ----- segment equality -----

  /**
   * `PathSegment.Equals` as written: same class (for temporary segments, the
   * same temporary index too), same `IsAny`, `IsDirect` and number of names,
   * and every name of this segment among the other's names.
   */
  predicate SegmentEqualsAsWritten(a: PathSegment, b: PathSegment) {
    a.kind == b.kind &&
    a.isAny == b.isAny && IsDirect(a) == IsDirect(b) && |a.names| == |b.names| &&
    forall k :: 0 <= k < |a.names| ==> a.names[k] in b.names
  }

  /** With a repeated name the comparison as written is not symmetric. */
  lemma SegmentEqualsAsWrittenIsNotSymmetric()
    ensures var a := NamedSegment(IndexSegment, ["x", "x"]);
            var b := NamedSegment(IndexSegment, ["x", "y"]);
            SegmentEqualsAsWritten(a, b) && !SegmentEqualsAsWritten(b, a)
  {
    var a := NamedSegment(IndexSegment, ["x", "x"]);
    var b := NamedSegment(IndexSegment, ["x", "y"]);
    assert b.names[1] == "y" && "y" !in a.names;
  }

  /** Segment equality, comparing the names as a multiset: the order of the names does not matter. */
  predicate SegmentEquals(a: PathSegment, b: PathSegment) {
    a.kind == b.kind && a.isAny == b.isAny && multiset(a.names) == multiset(b.names)
  }

  /** The corrected equality agrees with the comparison as written on segments without repeated names. */
  lemma SegmentEqualsAgreesWithoutRepeats(a: PathSegment, b: PathSegment)
    requires NoRepeats(a.names) && NoRepeats(b.names)
    ensures SegmentEquals(a, b) <==> SegmentEqualsAsWritten(a, b)
  {
    if SegmentEqualsAsWritten(a, b) {
      DistinctContained(a.names, b.names);
    }
    if SegmentEquals(a, b) {
      assert |a.names| == |multiset(a.names)| == |multiset(b.names)| == |b.names|;
      forall k | 0 <= k < |a.names| ensures a.names[k] in b.names {
        assert a.names[k] in multiset(a.names);
      }
    }
  }

  predicate NoRepeats(xs: seq<string>) {
    forall i, j :: 0 <= i < j < |xs| ==> xs[i] != xs[j]
  }

  /** Removing the element at `j` takes one occurrence of it out of the multiset. */
  lemma RemoveAtCount(ys: seq<string>, j: nat)
    requires j < |ys|
    ensures multiset(ys) == multiset(ys[..j] + ys[j + 1..]) + multiset{ys[j]}
  {
    assert ys == ys[..j] + [ys[j]] + ys[j + 1..];
  }

  /** Removing an element keeps a sequence free of repeats, and keeps every other element. */
  lemma RemoveAtKeeps(ys: seq<string>, j: nat)
    requires j < |ys| && NoRepeats(ys)
    ensures NoRepeats(ys[..j] + ys[j + 1..])
    ensures forall y :: y in ys && y != ys[j] ==> y in ys[..j] + ys[j + 1..]
  {
    var ys' := ys[..j] + ys[j + 1..];
    forall p, q | 0 <= p < q < |ys'| ensures ys'[p] != ys'[q] {
      var p' := if p < j then p else p + 1;
      var q' := if q < j then q else q + 1;
      assert ys'[p] == ys[p'] && ys'[q] == ys[q'];
    }
    forall y | y in ys && y != ys[j] ensures y in ys' {
      var m :| 0 <= m < |ys| && ys[m] == y;
      if m < j { assert ys'[m] == y; } else { assert ys'[m - 1] == y; }
    }
  }

  /** A sequence without repeats contained in a sequence just as long has the same elements. */
  lemma {:induction false} DistinctContained(xs: seq<string>, ys: seq<string>)
    requires NoRepeats(xs) && NoRepeats(ys)
    requires |xs| == |ys|
    requires forall k :: 0 <= k < |xs| ==> xs[k] in ys
    ensures multiset(xs) == multiset(ys)
    decreases |xs|
  {
    if |xs| > 0 {
      var x := xs[|xs| - 1];
      var j :| 0 <= j < |ys| && ys[j] == x;
      var xs' := xs[..|xs| - 1];
      var ys' := ys[..j] + ys[j + 1..];
      RemoveAtCount(ys, j);
      RemoveAtKeeps(ys, j);
      assert xs == xs' + [x];
      forall k | 0 <= k < |xs'| ensures xs'[k] in ys' {
        assert xs'[k] == xs[k] && xs[k] != x;
        assert xs[k] in ys;
      }
      assert NoRepeats(xs') by {
        forall p, q | 0 <= p < q < |xs'| ensures xs'[p] != xs'[q] { assert xs'[p] == xs[p] && xs'[q] == xs[q]; }
      }
      DistinctContained(xs', ys');
      assert multiset(xs) == multiset(xs') + multiset{x};
    }
  }

  /** The corrected segment equality is an equivalence that ignores the order of the names. */
  lemma SegmentEqualsIsEquivalence(a: PathSegment, b: PathSegment, c: PathSegment, names: seq<string>, reordered: seq<string>)
    requires multiset(names) == multiset(reordered)
    ensures SegmentEquals(a, a)
    ensures SegmentEquals(a, b) ==> SegmentEquals(b, a)
    ensures SegmentEquals(a, b) && SegmentEquals(b, c) ==> SegmentEquals(a, c)
    ensures SegmentEquals(NamedSegment(a.kind, names), NamedSegment(a.kind, reordered))
  {
  }

  /** Equal segments are equally direct and equally unknown. */
  lemma SegmentEqualsKeepsFlags(a: PathSegment, b: PathSegment)
    requires SegmentEquals(a, b)
    ensures IsDirect(a) == IsDirect(b) && IsUnknown(a) == IsUnknown(b)
  {
    assert |a.names| == |multiset(a.names)| == |multiset(b.names)| == |b.names|;
  }

  // ----- paths -----

  /** `MemoryPath`: the segments, the `IsDirect` flag the constructors compute, the global context and the call level. */
  datatype MemoryPath = MemoryPath(segments: seq<PathSegment>, isDirect: bool, global: GlobalContext, callLevel: int)

  predicate AllDirect(segments: seq<PathSegment>) {
    forall k :: 0 <= k < |segments| ==> IsDirect(segments[k])
  }

  /** A path the factories build: at least one segment, and its flag says whether every segment is direct. */
  predicate WellFormed(p: MemoryPath) {
    |p.segments| > 0 && (p.isDirect <==> AllDirect(p.segments))
  }

  /** The constructor of a root path. */
  function Root(segment: PathSegment, global: GlobalContext, callLevel: int): (r: MemoryPath)
    ensures WellFormed(r) && r.segments == [segment] && r.global == global && r.callLevel == callLevel
  {
    assert [segment][0] == segment;
    MemoryPath([segment], IsDirect(segment), global, callLevel)
  }

  /** The constructor extending a parent path by one segment. */
  function Extend(parent: MemoryPath, segment: PathSegment): (r: MemoryPath)
    requires WellFormed(parent)
    ensures WellFormed(r)
    ensures |r.segments| == |parent.segments| + 1
    ensures r.segments[..|parent.segments|] == parent.segments && r.segments[|parent.segments|] == segment
    ensures r.global == parent.global && r.callLevel == parent.callLevel
    ensures r.isDirect <==> parent.isDirect && IsDirect(segment)
  {
    var segments := parent.segments + [segment];
    assert AllDirect(segments) <==> AllDirect(parent.segments) && IsDirect(segment) by {
      if AllDirect(parent.segments) && IsDirect(segment) {
        forall k | 0 <= k < |segments| ensures IsDirect(segments[k]) {
          if k < |parent.segments| { assert segments[k] == parent.segments[k]; }
        }
      }
      if AllDirect(segments) {
        assert segments[|parent.segments|] == segment;
        forall k | 0 <= k < |parent.segments| ensures IsDirect(parent.segments[k]) {
          assert segments[k] == parent.segments[k];
        }
      }
    }
    MemoryPath(segments, parent.isDirect && IsDirect(segment), parent.global, parent.callLevel)
  }

  function Length(p: MemoryPath): nat {
    |p.segments|
  }

  // The factories.

  function MakePathAnyVariable(global: GlobalContext, callLevel: int): (r: MemoryPath)
    ensures WellFormed(r) && !r.isDirect && r.segments[0].isAny
  {
    Root(FlagSegment(VariableSegment, true), global, callLevel)
  }

  function MakePathVariable(names: seq<string>, global: GlobalContext, callLevel: int): (r: MemoryPath)
    ensures WellFormed(r) && (r.isDirect <==> |names| == 1) && Length(r) == 1
  {
    Root(NamedSegment(VariableSegment, names), global, callLevel)
  }

  function MakePathAnyControl(global: GlobalContext, callLevel: int): (r: MemoryPath)
    ensures WellFormed(r) && !r.isDirect && r.segments[0].isAny
  {
    Root(FlagSegment(ControlSegment, true), global, callLevel)
  }

  function MakePathControl(names: seq<string>, global: GlobalContext, callLevel: int): (r: MemoryPath)
    ensures WellFormed(r) && (r.isDirect <==> |names| == 1) && Length(r) == 1
  {
    Root(NamedSegment(ControlSegment, names), global, callLevel)
  }

  function MakePathAnyField(parent: MemoryPath): (r: MemoryPath)
    requires WellFormed(parent)
    ensures WellFormed(r) && !r.isDirect && Length(r) == Length(parent) + 1
    ensures r.segments[..Length(parent)] == parent.segments && r.segments[Length(parent)] == FlagSegment(FieldSegment, true)
    ensures r.global == parent.global && r.callLevel == parent.callLevel
  {
    Extend(parent, FlagSegment(FieldSegment, true))
  }

  function MakePathField(parent: MemoryPath, names: seq<string>): (r: MemoryPath)
    requires WellFormed(parent)
    ensures WellFormed(r) && Length(r) == Length(parent) + 1
    ensures r.segments[..Length(parent)] == parent.segments && r.segments[Length(parent)] == NamedSegment(FieldSegment, names)
    ensures r.global == parent.global && r.callLevel == parent.callLevel
  {
    Extend(parent, NamedSegment(FieldSegment, names))
  }

  function MakePathAnyIndex(parent: MemoryPath): (r: MemoryPath)
    requires WellFormed(parent)
    ensures WellFormed(r) && !r.isDirect && Length(r) == Length(parent) + 1
    ensures r.segments[..Length(parent)] == parent.segments && r.segments[Length(parent)] == FlagSegment(IndexSegment, true)
    ensures r.global == parent.global && r.callLevel == parent.callLevel
  {
    Extend(parent, FlagSegment(IndexSegment, true))
  }

  function MakePathUnknownIndex(parent: MemoryPath): (r: MemoryPath)
    requires WellFormed(parent)
    ensures WellFormed(r) && !r.isDirect && Length(r) == Length(parent) + 1 && IsUnknown(r.segments[Length(parent)])
    ensures r.segments[..Length(parent)] == parent.segments && r.segments[Length(parent)] == FlagSegment(IndexSegment, false)
    ensures r.global == parent.global && r.callLevel == parent.callLevel
  {
    Extend(parent, FlagSegment(IndexSegment, false))
  }

  function MakePathIndex(parent: MemoryPath, names: seq<string>): (r: MemoryPath)
    requires WellFormed(parent)
    ensures WellFormed(r) && Length(r) == Length(parent) + 1
    ensures r.segments[..Length(parent)] == parent.segments && r.segments[Length(parent)] == NamedSegment(IndexSegment, names)
    ensures r.global == parent.global && r.callLevel == parent.callLevel
  {
    Extend(parent, NamedSegment(IndexSegment, names))
  }

  /** A temporary path is local, at the call level of its temporary index. */
  function MakePathTemporary(t: TemporaryIndex): (r: MemoryPath)
    ensures WellFormed(r) && r.global == LocalOnly && r.callLevel == t.callLevel && !r.isDirect
  {
    Root(FlagSegment(TemporarySegment(t), true), LocalOnly, t.callLevel)
  }

  /** A path extended by named segments stays direct exactly while each segment has one name. */
  lemma {:induction false} ExtendedPathIsDirect(root: MemoryPath, segments: seq<PathSegment>)
    requires WellFormed(root)
    ensures WellFormed(ExtendAll(root, segments))
    ensures ExtendAll(root, segments).isDirect <==> root.isDirect && AllDirect(segments)
    ensures Length(ExtendAll(root, segments)) == Length(root) + |segments|
    ensures ExtendAll(root, segments).global == root.global && ExtendAll(root, segments).callLevel == root.callLevel
    decreases |segments|
  {
    if |segments| > 0 {
      var init := segments[..|segments| - 1];
      ExtendedPathIsDirect(root, init);
      assert AllDirect(segments) <==> AllDirect(init) && IsDirect(segments[|segments| - 1]) by {
        if AllDirect(init) && IsDirect(segments[|segments| - 1]) {
          forall k | 0 <= k < |segments| ensures IsDirect(segments[k]) {
            if k < |init| { assert segments[k] == init[k]; }
          }
        }
        if AllDirect(segments) {
          forall k | 0 <= k < |init| ensures IsDirect(init[k]) { assert segments[k] == init[k]; }
        }
      }
    }
  }

  function ExtendAll(root: MemoryPath, segments: seq<PathSegment>): (r: MemoryPath)
    requires WellFormed(root)
    ensures WellFormed(r)
    decreases |segments|
  {
    if |segments| == 0 then root else Extend(ExtendAll(root, segments[..|segments| - 1]), segments[|segments| - 1])
  }

  /**
   * The corrected `MemoryPath.Equals`: the same call level, context and length,
   * and pairwise equal segments under the corrected segment equality. The
   * test of the cached hash codes is left out.
   */
  predicate PathEquals(p: MemoryPath, q: MemoryPath) {
    p.callLevel == q.callLevel && p.global == q.global && |p.segments| == |q.segments| &&
    forall k :: 0 <= k < |p.segments| ==> SegmentEquals(p.segments[k], q.segments[k])
  }

  /** Path equality is an equivalence, and equal paths are equally direct. */
  lemma PathEqualsIsEquivalence(p: MemoryPath, q: MemoryPath, s: MemoryPath)
    ensures PathEquals(p, p)
    ensures PathEquals(p, q) ==> PathEquals(q, p)
    ensures PathEquals(p, q) && PathEquals(q, s) ==> PathEquals(p, s)
  {
  }

  lemma PathEqualsKeepsDirectness(p: MemoryPath, q: MemoryPath)
    requires WellFormed(p) && WellFormed(q) && PathEquals(p, q)
    ensures p.isDirect == q.isDirect
  {
    forall k | 0 <= k < |p.segments| ensures IsDirect(p.segments[k]) == IsDirect(q.segments[k]) {
      SegmentEqualsKeepsFlags(p.segments[k], q.segments[k]);
    }
  }

  /** Extending equal paths by equal segments gives equal paths. */
  lemma ExtendKeepsEquality(p: MemoryPath, q: MemoryPath, a: PathSegment, b: PathSegment)
    requires WellFormed(p) && WellFormed(q) && PathEquals(p, q) && SegmentEquals(a, b)
    ensures PathEquals(Extend(p, a), Extend(q, b))
  {
    var p', q' := Extend(p, a), Extend(q, b);
    forall k | 0 <= k < |p'.segments| ensures SegmentEquals(p'.segments[k], q'.segments[k]) {
      if k < |p.segments| {
        assert p'.segments[k] == p.segments[k] && q'.segments[k] == q.segments[k];
      }
    }
  }

  /** `MemoryPath.ToString`: a local call level as a `<level>::` prefix, then the segments. */
  function PathToString(p: MemoryPath, temporaryText: string): (r: string)
  {
    (if p.callLevel > 0 then NatToString(p.callLevel) + "::" else "") + SegmentsToString(p.segments, temporaryText)
  }

  function SegmentsToString(segments: seq<PathSegment>, temporaryText: string): (r: string)
    decreases |segments|
  {
    if |segments| == 0 then ""
    else SegmentsToString(segments[..|segments| - 1], temporaryText) + SegmentToString(segments[|segments| - 1], temporaryText)
  }

  /** Rendering a path extended by one segment appends the segment's text. */
  lemma ExtendText(p: MemoryPath, segment: PathSegment, temporaryText: string)
    requires WellFormed(p)
    ensures PathToString(Extend(p, segment), temporaryText) == PathToString(p, temporaryText) + SegmentToString(segment, temporaryText)
  {
    var e := Extend(p, segment);
    assert e.segments == p.segments + [segment];
    SegmentsAppendText(p.segments, segment, temporaryText);
    var prefix := if p.callLevel > 0 then NatToString(p.callLevel) + "::" else "";
    var before, added := SegmentsToString(p.segments, temporaryText), SegmentToString(segment, temporaryText);
    assert PathToString(e, temporaryText) == prefix + (before + added);
  }

  lemma SegmentsAppendText(segments: seq<PathSegment>, segment: PathSegment, temporaryText: string)
    ensures SegmentsToString(segments + [segment], temporaryText) ==
      SegmentsToString(segments, temporaryText) + SegmentToString(segment, temporaryText)
  {
    assert (segments + [segment])[..|segments|] == segments;
  }

  /** A field access renders as the parent's text followed by `->` and the field names. */
  lemma FieldPathText(p: MemoryPath, names: seq<string>, temporaryText: string)
    requires WellFormed(p)
    ensures PathToString(MakePathField(p, names), temporaryText) == PathToString(p, temporaryText) + "->" + NamesToString(names)
  {
    var segment := NamedSegment(FieldSegment, names);
    var text, n := PathToString(p, temporaryText), NamesToString(names);
    ExtendText(p, segment, temporaryText);
    assert SegmentToString(segment, temporaryText) == "->" + n;
    assert text + ("->" + n) == text + "->" + n;
  }

  /** An index access renders as the parent's text followed by the index names in brackets. */
  lemma IndexPathText(p: MemoryPath, names: seq<string>, temporaryText: string)
    requires WellFormed(p)
    ensures PathToString(MakePathIndex(p, names), temporaryText) == PathToString(p, temporaryText) + "[" + NamesToString(names) + "]"
  {
    var segment := NamedSegment(IndexSegment, names);
    var text, n := PathToString(p, temporaryText), NamesToString(names);
    ExtendText(p, segment, temporaryText);
    assert SegmentToString(segment, temporaryText) == "[" + n + "]";
    assert text + ("[" + n + "]") == text + "[" + n + "]";
  }
}

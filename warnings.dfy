/**
 * The warnings the analyser reports: the three warning records, their
 * messages, equality and order, and the handler that files each warning both
 * in the flow's warning storage and in the analysis-wide de-duplicating stores.
 *
 * The analysis-wide stores are static sets in the analyser; here they are the
 * fields of one handler object that callers pass around.
 */
module AnalysisWarnings {
  import opened Wrappers
  import opened CSharp
  import TypeConversion
  import Comparison

  /** Why a warning was raised. The first one is the default of a warning built without a cause. */
  datatype WarningCause =
    | WrongNumberOfArguments | WrongArgumentsType | DivisionByZero | ObjectConvertedToInteger
    | PropertyOfNonObjectVariable | ElementOfNonArrayVariable | MethodCallOnNonObjectVariable
    | UndefinedValue | ClassDoesntExist | ClassAlreadyExists | FinalClassCannotBeExtended
    | ClassDoesntImplementAllInterfaceMethods | InterfaceDoesntExist
    | CannotRedeclareNonStaticFieldWithStatic | CannotRedeclareStaticFieldWithNonStatic
    | CannotRedeclareNonStaticMethodWithStatic | CannotRedeclareStaticMethodWithNonStatic
    | CannotRedeclareFinalMethod | CannotOverrideInterfaceConstant | ClassMultipleConstDeclaration
    | ClassMultipleFieldDeclaration | ClassMultipleFunctionDeclaration
    | NonAbstractClassContainsAbstractMethod | CannotOverrideFunctionWithAbstract
    | CannotOverwriteFunction | InterfaceCannotContainFields | CannotRedeclareInterfaceFunction
    | InterfaceMethodMustBePublic | InterfaceMethodCannotBeFinal
    | InterfaceMethodCannotHaveImplementation | AbstractMethodCannotHaveBody
    | NonAbstractMethodMustHaveBody | FileToBeIncludedNotFound
    | IncludeRequireOnceCalledMoreTimesWithSameFile | OnlyObjectCanBeThrown
    | CannotAccessSelfWhenNotInClass | CannotAccessParentWhenNotInClass
    | CannotAccessParentCurrentClassHasNoParent | ClassConstantDoesntExist
    | CannotAccessConstantOnNonObject | CannotInstantiateAbstractClass | CannotInstantiateInterface
    | StaticVariableDoesntExist | CannotAccessStaticVariableOnNonObject | CannotCallMethodWithoutBody
    | CannotAccessFieldOperatorOnNonArray | CannotAccessObjectOperatorOnNonObject | IndexOutOfRange
    | CallingInaccessibleMethod | AccessingInaccessibleField | FunctionDoesntExist
    | MethodWasNotResolved | FunctionAlreadyExists | CouldntResolveAllEvals
    | ParserExceptionInIncludeOrEval | CfgExceptionInIncludeOrEval | CouldntResolveAllCalls
    | CouldntResolveAllIncludes | TooDeepEvalRecursion | CallMethodOnUndefinedObject | Other

  /** Where tainted data ends up. */
  datatype FlagType = HTMLDirty | FilePathDirty | SQLDirty

  /** The source position of the PHP element a warning is about. */
  datatype Position = Position(FirstLine: Int32, FirstColumn: Int32, FirstOffset: int)

  /** A warning an operation emits: its message and cause, before it is attached to a position. */
  datatype Warning = Warning(message: string, cause: WarningCause)

  /**
   * A plain analysis warning. `Element` is the position of the PHP element, or
   * `None` when the warning has no element; `ProgramPoint` is an identity.
   */
  datatype AnalysisWarning = AnalysisWarning(
    FullFileName: string, Message: string, Element: Option<Position>, ProgramPoint: nat, Cause: WarningCause)

  /**
   * A security warning. `OwningGraph` is the identity of the program-point
   * graph that owns `ProgramPoint`: the hash code of the warning covers it,
   * while its equality does not.
   */
  datatype AnalysisSecurityWarning = AnalysisSecurityWarning(
    FullFileName: string, Message: string, Element: Option<Position>, ProgramPoint: nat, OwningGraph: nat,
    Flag: FlagType, TaintedVarName: string)

  datatype AnalysisTaintWarning = AnalysisTaintWarning(
    FullFileName: string, Message: string, Element: Option<Position>, ProgramPoint: nat,
    Flag: FlagType, TaintFlow: string, HighPriority: bool)

  /** The constructor without a cause leaves the cause at its default, the first cause. */
  function NewWarning(fullFileName: string, message: string, element: Option<Position>, programPoint: nat): (r: AnalysisWarning)
    ensures r.Cause == WrongNumberOfArguments
    ensures r.Message == message && r.FullFileName == fullFileName && r.Element == element
  {
    AnalysisWarning(fullFileName, message, element, programPoint, WrongNumberOfArguments)
  }

  // ----- messages -----

  /** What the security message says about the destination of the tainted value. */
  function SecurityDestination(flag: FlagType): string
  {
    match flag
    case HTMLDirty => "goes into browser"
    case FilePathDirty => "used as a filename when opening a file"
    case SQLDirty => "goes into database"
  }

  /** The message of a security warning names the tainted variable in parentheses when there is one. */
  function SecurityMessage(flag: FlagType, taintedVar: string): (r: string)
    ensures taintedVar == "" ==> r == "Unsanitized value " + SecurityDestination(flag)
    ensures taintedVar != "" ==> r == "Unsanitized value (" + taintedVar + ") " + SecurityDestination(flag)
  {
    "Unsanitized value " + (if taintedVar != "" then "(" + taintedVar + ") " else "") + SecurityDestination(flag)
  }

  /** For one variable name the message tells the destinations apart, and it tells whether a name was given. */
  lemma SecurityMessageDeterminesFlag(f1: FlagType, f2: FlagType, v: string)
    requires SecurityMessage(f1, v) == SecurityMessage(f2, v)
    ensures f1 == f2
  {
    assert |SecurityDestination(f1)| == |SecurityDestination(f2)|;
  }

  lemma SecurityMessageShowsVariable(flag: FlagType, v: string)
    ensures (SecurityMessage(flag, v)[18] == '(') <==> v != ""
  {
  }

  function SecurityWarningOf(fullFileName: string, element: Option<Position>, programPoint: nat, owningGraph: nat, flag: FlagType, taintedVar: string): (r: AnalysisSecurityWarning)
    ensures r.Message == SecurityMessage(flag, taintedVar) && r.Flag == flag && r.TaintedVarName == taintedVar
  {
    AnalysisSecurityWarning(fullFileName, SecurityMessage(flag, taintedVar), element, programPoint, owningGraph, flag, taintedVar)
  }

  /** The message of a taint warning: a null flow and a tainted flow are reported differently. */
  function TaintMessage(flag: FlagType, nullFlow: bool): string
  {
    match flag
    case HTMLDirty => if nullFlow then "Null value goes into browser" else "Unsanitized value goes into browser"
    case FilePathDirty =>
      if nullFlow then "Null value used when opening a file"
      else "Unsanitized value used as a file name when opening a file"
    case SQLDirty => if nullFlow then "Null value goes into database" else "Unsanitized value goes into database"
  }

  /** The six taint messages are pairwise different. */
  lemma TaintMessagesDistinct(f1: FlagType, n1: bool, f2: FlagType, n2: bool)
    requires (f1, n1) != (f2, n2)
    ensures TaintMessage(f1, n1) != TaintMessage(f2, n2)
  {
  }

  function TaintWarningOf(fullFileName: string, taintFlow: string, priority: bool, element: Option<Position>, programPoint: nat, flag: FlagType, nullFlow: bool): (r: AnalysisTaintWarning)
    ensures r.Message == TaintMessage(flag, nullFlow) && r.Flag == flag && r.HighPriority == priority
  {
    AnalysisTaintWarning(fullFileName, TaintMessage(flag, nullFlow), element, programPoint, flag, taintFlow, priority)
  }

  /** "Warning at line L char C: message". */
  function WarningToString(w: AnalysisWarning): (r: string)
    requires w.Element.Some?
    ensures r == "Warning at line " + TypeConversion.ToStringInt(w.Element.value.FirstLine) + " char "
      + TypeConversion.ToStringInt(w.Element.value.FirstColumn) + ": " + w.Message
  {
    "Warning at line " + TypeConversion.ToStringInt(w.Element.value.FirstLine) + " char "
    + TypeConversion.ToStringInt(w.Element.value.FirstColumn) + ": " + w.Message
  }

  /** The text ends with the message. */
  lemma WarningToStringEndsWithMessage(w: AnalysisWarning)
    requires w.Element.Some?
    ensures var s := WarningToString(w); |s| >= |w.Message| && s[|s| - |w.Message|..] == w.Message
  {
  }

  // ----- order and equality -----

  /**
   * The order of warnings: by file name, then by the offset of the element.
   * The three kinds share it. File names are compared by `string.Compare`,
   * whose order depends on the current culture; it is the parameter
   * `compareNames` (negative, zero or positive).
   */
  function CompareWarnings(compareNames: (string, string) -> int, fileA: string, offsetA: int, fileB: string, offsetB: int): (r: int)
    ensures fileA == fileB ==> -1 <= r <= 1 && (r == 0 <==> offsetA == offsetB) && (r < 0 <==> offsetA < offsetB)
    ensures fileA != fileB ==> r == compareNames(fileA, fileB)
  {
    if fileA == fileB then
      if offsetA < offsetB then -1 else if offsetA > offsetB then 1 else 0
    else compareNames(fileA, fileB)
  }

  function CompareTo(compareNames: (string, string) -> int, a: AnalysisWarning, b: AnalysisWarning): (r: int)
    requires a.Element.Some? && b.Element.Some?
    ensures a.FullFileName == b.FullFileName ==> (r == 0 <==> a.Element.value.FirstOffset == b.Element.value.FirstOffset)
    ensures a.FullFileName != b.FullFileName ==> r == compareNames(a.FullFileName, b.FullFileName)
  {
    CompareWarnings(compareNames, a.FullFileName, a.Element.value.FirstOffset, b.FullFileName, b.Element.value.FirstOffset)
  }

  /** The order is antisymmetric when the comparison of file names is. */
  lemma CompareToAntisymmetric(compareNames: (string, string) -> int, a: AnalysisWarning, b: AnalysisWarning)
    requires a.Element.Some? && b.Element.Some?
    requires compareNames(b.FullFileName, a.FullFileName) == -compareNames(a.FullFileName, b.FullFileName)
    ensures CompareTo(compareNames, b, a) == -CompareTo(compareNames, a, b)
  {
  }

  /** Under the ordinal comparison of names, two warnings compare as 0 exactly at the same file and offset. */
  lemma CompareToOrdinal(a: AnalysisWarning, b: AnalysisWarning)
    requires a.Element.Some? && b.Element.Some?
    ensures var r := CompareTo(Comparison.OrdinalCompare, a, b);
      -1 <= r <= 1 && (r == 0 <==> a.FullFileName == b.FullFileName && a.Element.value.FirstOffset == b.Element.value.FirstOffset)
    ensures CompareTo(Comparison.OrdinalCompare, b, a) == -CompareTo(Comparison.OrdinalCompare, a, b)
  {
    Comparison.OrdinalCompareAntisymmetric(a.FullFileName, b.FullFileName);
  }

  /** Equality of plain warnings: message, offset, file and cause. */
  predicate WarningEquals(a: AnalysisWarning, b: AnalysisWarning)
    requires a.Element.Some? && b.Element.Some?
  {
    b.Message == a.Message && b.Element.value.FirstOffset == a.Element.value.FirstOffset &&
    a.FullFileName == b.FullFileName && b.Cause == a.Cause
  }

  /** Equality of security warnings compares the flag instead of the cause. */
  predicate SecurityWarningEquals(a: AnalysisSecurityWarning, b: AnalysisSecurityWarning)
    requires a.Element.Some? && b.Element.Some?
  {
    b.Message == a.Message && b.Element.value.FirstOffset == a.Element.value.FirstOffset &&
    b.FullFileName == a.FullFileName && b.Flag == a.Flag
  }

  /** Equality of taint warnings also compares the program point. */
  predicate TaintWarningEquals(a: AnalysisTaintWarning, b: AnalysisTaintWarning)
    requires a.Element.Some? && b.Element.Some?
  {
    b.Message == a.Message && b.Element.value.FirstOffset == a.Element.value.FirstOffset &&
    b.FullFileName == a.FullFileName && b.Flag == a.Flag && b.ProgramPoint == a.ProgramPoint
  }

  /** Equal warnings are at the same place in the order, and equality is an equivalence. */
  lemma WarningEqualsIsEquivalence(compareNames: (string, string) -> int, a: AnalysisWarning, b: AnalysisWarning, c: AnalysisWarning)
    requires a.Element.Some? && b.Element.Some? && c.Element.Some?
    ensures WarningEquals(a, a)
    ensures WarningEquals(a, b) ==> WarningEquals(b, a) && CompareTo(compareNames, a, b) == 0
    ensures WarningEquals(a, b) && WarningEquals(b, c) ==> WarningEquals(a, c)
  {
  }

  /** Taint equality is finer than security-style equality on the shared fields. */
  lemma TaintEqualityAddsProgramPoint(a: AnalysisTaintWarning, b: AnalysisTaintWarning)
    requires a.Element.Some? && b.Element.Some?
    ensures TaintWarningEquals(a, b) <==>
      SecurityWarningEquals(
        AnalysisSecurityWarning(a.FullFileName, a.Message, a.Element, a.ProgramPoint, 0, a.Flag, ""),
        AnalysisSecurityWarning(b.FullFileName, b.Message, b.Element, b.ProgramPoint, 0, b.Flag, ""))
      && a.ProgramPoint == b.ProgramPoint
  {
  }

  // ----- the stores -----

  /** The kinds of warning `getStorage` is asked about; any other subclass is unsupported. */
  datatype WarningKind = PlainKind | SecurityKind | TaintKind | UnsupportedKind

  /** The control variable of the flow's warning storage for each kind; unsupported kinds throw. */
  function StorageName(kind: WarningKind): (r: Option<string>)
    ensures r.None? <==> kind == UnsupportedKind
  {
    match kind
    case PlainKind => Some(".analysisWarning")
    case SecurityKind => Some(".analysisSecurityWarning")
    case TaintKind => Some(".analysisTaintWarning")
    case UnsupportedKind => None
  }

  /** Different kinds are filed in different storages. */
  lemma StorageNamesDistinct(k1: WarningKind, k2: WarningKind)
    requires StorageName(k1).Some? && StorageName(k1) == StorageName(k2)
    ensures k1 == k2
  {
  }

  /** A warning of any of the three kinds, as the storage holds it. */
  datatype StoredWarning =
    | Plain(plain: AnalysisWarning)
    | Security(security: AnalysisSecurityWarning)
    | Taint(taint: AnalysisTaintWarning)
  {
    function Kind(): WarningKind {
      match this
      case Plain(_) => PlainKind
      case Security(_) => SecurityKind
      case Taint(_) => TaintKind
    }
    function Element(): Option<Position> {
      match this
      case Plain(w) => w.Element
      case Security(w) => w.Element
      case Taint(w) => w.Element
    }
  }

  /** The warning storage of one flow: the warnings read back from each control variable. */
  class WarningStorage {
    var entries: map<string, set<StoredWarning>>

    constructor ()
      ensures entries == map[]
    {
      entries := map[];
    }

    /** The warnings of one storage; an unwritten variable holds none. */
    function Read(name: string): set<StoredWarning>
      reads this
    {
      if name in entries then entries[name] else {}
    }
  }

  /** No two elements of `s` are equal as plain warnings. */
  ghost predicate NoDuplicateWarnings(s: seq<AnalysisWarning>)
  {
    (forall k :: 0 <= k < |s| ==> s[k].Element.Some?) &&
    forall k, l :: 0 <= k < l < |s| ==> !WarningEquals(s[k], s[l])
  }

  /**
   * What the hash set of security warnings takes for one element: equal
   * warnings whose hash codes agree, that is, raised in the same graph.
   * Hash codes that collide for different graphs are left out.
   */
  predicate SameSecurityEntry(a: AnalysisSecurityWarning, b: AnalysisSecurityWarning)
    requires a.Element.Some? && b.Element.Some?
  {
    SecurityWarningEquals(a, b) && a.OwningGraph == b.OwningGraph
  }

  ghost predicate NoDuplicateSecurityWarnings(s: seq<AnalysisSecurityWarning>)
  {
    (forall k :: 0 <= k < |s| ==> s[k].Element.Some?) &&
    forall k, l :: 0 <= k < l < |s| ==> !SameSecurityEntry(s[k], s[l])
  }

  /**
   * The security store may hold two equal warnings: the same warning raised
   * in two graphs, such as a function analysed in two call contexts, is kept
   * twice, and both count.
   */
  lemma SecurityStoreKeepsEqualWarningsOfTwoGraphs(w: AnalysisSecurityWarning)
    requires w.Element.Some?
    ensures var v := w.(OwningGraph := w.OwningGraph + 1);
      SecurityWarningEquals(w, v) && NoDuplicateSecurityWarnings([w, v])
  {
  }

  /**
   * The analysis-wide stores; `Add` of a hash set keeps one plain warning of
   * each equality class, and one security warning of each equality class and
   * owning graph.
   */
  class AnalysisWarningHandler {
    var warnings: seq<AnalysisWarning>
    var securityWarnings: seq<AnalysisSecurityWarning>
    var taintWarnings: seq<AnalysisTaintWarning>

    ghost predicate Valid()
      reads this
    {
      NoDuplicateWarnings(warnings) && NoDuplicateSecurityWarnings(securityWarnings)
    }

    constructor ()
      ensures Valid()
      ensures warnings == [] && securityWarnings == [] && taintWarnings == []
    {
      warnings, securityWarnings, taintWarnings := [], [], [];
    }

    /** The reported count covers plain and security warnings only. */
    function NumberOfWarnings(): (r: nat)
      reads this
      ensures r == |warnings| + |securityWarnings|
    {
      |warnings| + |securityWarnings|
    }

    method ResetWarnings()
      modifies this
      ensures Valid()
      ensures warnings == [] && securityWarnings == [] && taintWarnings == []
    {
      securityWarnings := [];
      warnings := [];
      taintWarnings := [];
    }

    /**
     * Files a warning with a position: it joins the flow's storage for its kind,
     * and plain and security warnings also join the analysis-wide store unless an
     * equal one is there (for a security warning, an equal one of the same graph).
     * Taint warnings reach only the flow's storage. A warning without an element
     * is dropped.
     */
    method SetWarning(storage: WarningStorage, warning: StoredWarning)
      requires Valid()
      modifies this, storage
      ensures Valid()
      ensures warning.Element().None? ==>
        storage.entries == old(storage.entries) && warnings == old(warnings) && securityWarnings == old(securityWarnings)
      ensures warning.Element().Some? ==> (
        var name := StorageName(warning.Kind()).value;
        storage.entries == old(storage.entries)[name := old(storage.Read(name)) + {warning}])
      ensures warning.Element().Some? && warning.Plain? ==>
        securityWarnings == old(securityWarnings) &&
        (if exists k :: 0 <= k < |old(warnings)| && WarningEquals(old(warnings)[k], warning.plain)
         then warnings == old(warnings) else warnings == old(warnings) + [warning.plain])
      ensures warning.Element().Some? && warning.Security? ==>
        warnings == old(warnings) &&
        (if exists k :: 0 <= k < |old(securityWarnings)| && SameSecurityEntry(old(securityWarnings)[k], warning.security)
         then securityWarnings == old(securityWarnings) else securityWarnings == old(securityWarnings) + [warning.security])
      ensures warning.Taint? ==> warnings == old(warnings) && securityWarnings == old(securityWarnings)
      ensures taintWarnings == old(taintWarnings)
    {
      if warning.Element().None? {
        return;
      }
      var name := StorageName(warning.Kind()).value;
      var previous := storage.Read(name);
      storage.entries := storage.entries[name := previous + {warning}];
      match warning
      case Plain(w) =>
        if exists k :: 0 <= k < |warnings| && WarningEquals(warnings[k], w) {
        } else {
          warnings := warnings + [w];
        }
      case Security(w) =>
        if exists k :: 0 <= k < |securityWarnings| && SameSecurityEntry(securityWarnings[k], w) {
        } else {
          securityWarnings := securityWarnings + [w];
        }
      case Taint(_) =>
    }
  }
}

# WeVerca core in Dafny

WeVerca is a static analyser for PHP written in C#. It runs a fix-point
analysis over abstract values: integers, integer intervals `[Start, End]`,
a three-valued boolean ("true", "false" or "any"), strings, and "any" values
of each type. The values live in memory snapshots. This project models the
sequential core of the analyser and proves properties of that model. The
core falls into six groups.

- **Abstract-value operations.** Modules `Comparison`, `ModuloOperation`,
  `ArithmeticOperation`, `UnaryOperation` and `TypeConversion` cover
  comparisons of values with intervals, integer and interval modulo, the
  32-bit overflow guards of `+ - * /`, unary operators and the PHP
  string-to-number scanner. Each answer is proved sound: a definite answer
  holds for every concrete pair drawn from the operands, and every concrete
  result lies in the returned interval. Most answers are also proved exact.
  C#'s truncating `/` and `%` and its unchecked 32-bit wrap-around are
  written out in `CSharp`. Overflow into floating point is a tagged
  "became float" outcome.
- **PHP runtime helpers.**
  - `MemoryAssistant`: string offsets, the value-set simplifier and
    widening.
  - `NativeFunctions`: overload filtering, the cartesian product of
    arguments, `array_merge` renumbering and `define`.
  - `FunctionResolver`: call-count bookkeeping and arity checks.
  - `ExpressionEvaluator`: default array keys and `isset`/`empty`
    aggregation.
- **Memory-model structure.**
  - `MemoryIndexes` and `MemoryAliases`: must/may alias entries, kept
    disjoint and free of the index they belong to.
  - `TrackingStructure` and `CopyStructure`: the two structure containers.
    The copy model's container refuses changes once locked.
  - `MemoryPath`: the immutable memory path.
  - `VirtualReferenceModel`: storage naming, which round-trips.
  - `TrackingMerge` and `TrackingMergeStructure`: the merge worklists of
    the tracking model, including the common-ancestor walk over
    change-tracker chains ordered by id.
  - `MergeWorkers`: the copy model's merge worker.
- **Snapshots.**
  - `SnapshotBase`: the transaction state machine (start, commit, widen,
    freeze) and the replay of allocation sites.
  - `ModularSnapshot` and `CopyModel`: the call-level and alias operations
    of the modular and copy snapshots.
- **Control flow.**
  - `ControlFlowGraph`: label and goto resolution, and break and continue.
  - `FlowResolver`: the immutable try-block stack, catch unwinding, the
    include-once guard and throw routing.
  - `AssumptionExecuter`: assumption refinement.
- **Warnings.** `AnalysisWarnings` covers the warning records, their
  equality, ordering and messages, and the analysis-wide stores. The plain
  store keeps one warning of each equality class. The security store keeps
  one of each equality class and owning program-point graph, because the
  hash code of a security warning also covers that graph.

Code whose state changes step by step is modelled as classes and methods:
- snapshots, structure containers and merge workers;
- warning stores and the label table;
- loops such as the ancestor walk and the cartesian product.

Each method's `ensures` ties its result or new state to a specification
function, and lemmas prove the properties the code promises about that
function. Pure tables are functions with lemmas.

The repository holds two snapshots of several files: the current tree and
an older copy under `VSProjects/Realisation/`. Where the two copies agree,
one member models both and its row cites one of them. For example, the
comparison table exists in both copies, and `Comparison.CompareInt`,
`Comparison.LeftAlwaysGreater`, `Comparison.LeftAbstractBooleanCompare` and
`Comparison.GreaterThanOrEqualValueInterval` cite the older copy. Where the
copies differ, both versions are modelled: the alias rule is the main case,
see the findings below.

Clocks, randomness and I/O do not occur in the modelled code. The XML
function catalogue, the Phalanger syntax tree and the program-point graph
are given as inputs. Static singletons (`instance` fields, static warning
sets, the snapshot id counter) are explicit state.

## Model

| member | source | states |
|---|---|---|
| TypeConversion.ToBooleanString | VSProjects/Realisation/Weverca.Analysis/ExpressionEvaluator/TypeConversion.cs:96-101 | a PHP string is false exactly when it is empty or "0" |
| TypeConversion.ToStringBool | VSProjects/Realisation/Weverca.Analysis/ExpressionEvaluator/TypeConversion.cs:538-541 | the text of a boolean is at most one character and converts back to the same boolean |
| TypeConversion.ToIntegerBool | VSProjects/Realisation/Weverca.Analysis/ExpressionEvaluator/TypeConversion.cs:228-231 | a boolean converts to 0 or 1, which converts back to the same boolean |
| TypeConversion.TryConvertToIntegerLong | VSProjects/Realisation/Weverca.Analysis/ExpressionEvaluator/TypeConversion.cs:255-266 | narrowing a long succeeds exactly when it lies in the int range and keeps its value; a failure reports 0 |
| TypeConversion.TryConvertToBoolean | VSProjects/Realisation/Weverca.Analysis/ExpressionEvaluator/TypeConversion.cs:173-195 | an interval converts to true exactly when it excludes 0, to false exactly when it is [0, 0], and otherwise does not convert |
| TypeConversion.TryConvertToIntegerInterval | VSProjects/Realisation/Weverca.Analysis/ExpressionEvaluator/TypeConversion.cs:756-764 | a long interval narrows exactly when both ends lie in the int range; a first end out of range leaves [0, 0] |
| TypeConversion.CanBeDirtyExactlyNonNumericNonBoolean | VSProjects/Realisation/Weverca.Analysis/ExpressionEvaluator/TypeConversion.cs:1258-1264 | a value can carry taint exactly when it is neither numeric nor boolean |
| TypeConversion.HexDigitValue | VSProjects/Realisation/Weverca.Analysis/ExpressionEvaluator/TypeConversion.cs:1071-1093 | a character has a hexadecimal value exactly when it is a hexadecimal digit; the value is below 16 and a decimal digit keeps its own value |
| TypeConversion.SkipDigits | VSProjects/Realisation/Weverca.Analysis/ExpressionEvaluator/TypeConversion.cs:1132-1143 | the loop stops at the end of the run of digits that starts at the index |
| TypeConversion.SkipWhiteSpace | VSProjects/Realisation/Weverca.Analysis/ExpressionEvaluator/TypeConversion.cs:1172-1184 | the loop stops at the first character that is not white space |
| TypeConversion.SkipSign | VSProjects/Realisation/Weverca.Analysis/ExpressionEvaluator/TypeConversion.cs:1153-1165 | exactly one character is skipped, when it is a sign |
| TypeConversion.SkipExponent | VSProjects/Realisation/Weverca.Analysis/ExpressionEvaluator/TypeConversion.cs:1103-1124 | an exponent is skipped only when an e or E, an optional sign and at least one digit follow; otherwise the index stays |
| TypeConversion.Int32Parse | VSProjects/Realisation/Weverca.Analysis/ExpressionEvaluator/TypeConversion.cs:993-1007 | a parse succeeds only on non-empty text, and on exactly sign-and-digits text whose value fits in an int |
| TypeConversion.TaintedTryConvertToInteger | VSProjects/Realisation/Weverca.TaintedAnalysis/ExpressionEvaluator/TypeConversion.cs:337-352 | the tainted copy succeeds exactly when the library parser accepts the trimmed text and returns its value; a failure reports 0 |
| TypeConversion.TryParseHexadecimal | VSProjects/Realisation/Weverca.Analysis/ExpressionEvaluator/TypeConversion.cs:1017-1063 | the loop succeeds exactly when the number spelled by the first digit followed by the whole run of hexadecimal digits from the index fits in an int, and then returns that number; a failure returns 0 |
| TypeConversion.HexFoldValue | VSProjects/Realisation/Weverca.Analysis/ExpressionEvaluator/TypeConversion.cs:1017-1063 | reading hexadecimal digits one by one from 0, as the scanner does, gives the number they spell |
| TypeConversion.HexScanValue | VSProjects/Realisation/Weverca.Analysis/ExpressionEvaluator/TypeConversion.cs:1017-1063 | the scan gives the number spelled by the accumulated value followed by the whole run of hexadecimal digits, or nothing exactly when that number passes int.MaxValue |
| TypeConversion.IntegerNumber | VSProjects/Realisation/Weverca.Analysis/ExpressionEvaluator/TypeConversion.cs:966-982 | sign-and-digits text is an integer exactly when the parse succeeds; it is never hexadecimal and a failure is 0 |
| TypeConversion.TryConvertToNumber | VSProjects/Realisation/Weverca.Analysis/ExpressionEvaluator/TypeConversion.cs:823-933 | the scanner returns what the specification function ConvertToNumber gives: white space skipped, a hexadecimal number after 0x, otherwise sign, digits, fraction and exponent, with a float for a fraction or exponent |
| TypeConversion.TryConvertToIntegerString | VSProjects/Realisation/Weverca.Analysis/ExpressionEvaluator/TypeConversion.cs:356-363 | converting a string to an integer succeeds only when the scanner reads an integer; a failure is 0 |
| TypeConversion.NatToDigits | VSProjects/Realisation/Weverca.Analysis/ExpressionEvaluator/TypeConversion.cs:559-562 | the decimal digits of a natural number denote it, with no leading zero |
| TypeConversion.ToStringInt | VSProjects/Realisation/Weverca.Analysis/ExpressionEvaluator/TypeConversion.cs:559-562 | the text of an integer is non-empty, starts with a minus exactly for a negative number, and is digits after it |
| TypeConversion.ToStringIntRoundTrip | VSProjects/Realisation/Weverca.Analysis/ExpressionEvaluator/TypeConversion.cs:356-363 | reading back the text of any int with the scanner gives the same integer |
| TypeConversion.TaintedToStringIntRoundTrip | VSProjects/Realisation/Weverca.TaintedAnalysis/ExpressionEvaluator/TypeConversion.cs:337-352 | the tainted copy also reads back the text of any int as the same integer |
| TypeConversion.NoLeadingDigitsNoNumber | VSProjects/Realisation/Weverca.Analysis/ExpressionEvaluator/TypeConversion.cs:823-933 | a string whose first non-blank character after the sign is neither a digit nor a point is a parse failure |
| TypeConversion.ScannerReadsSignedPrefix | VSProjects/Realisation/Weverca.Analysis/ExpressionEvaluator/TypeConversion.cs:823-933 | leading blanks and trailing garbage are ignored: " -42abc" reads as the integer -42 |
| TypeConversion.ConvertToNumber | VSProjects/Realisation/Weverca.Analysis/ExpressionEvaluator/TypeConversion.cs:823-933 | a string with no leading number converts to integer 0, and a hexadecimal reading happens only where hexadecimal is allowed |
| TypeConversion.ConvertToNumberHexadecimal | VSProjects/Realisation/Weverca.Analysis/ExpressionEvaluator/TypeConversion.cs:827-849 | after blanks and 0x or 0X, a non-digit gives the non-hexadecimal integer 0, and a hexadecimal digit gives the hexadecimal integer spelled by the whole run of digits when it fits in an int and a failure when it does not |
| Comparison.CompareBy | VSProjects/Weverca.Analysis/ExpressionEvaluator/BinaryOperations/Comparison.cs:79-100 | the generic comparison answers exactly the six comparison operators and returns nothing for any other operation |
| Comparison.CompareInt | VSProjects/Realisation/Weverca.Analysis/ExpressionEvaluator/BinaryOperations/Comparison.cs:59-80 | on two integers every comparison operator is answered by its mathematical truth |
| Comparison.CompareBool | VSProjects/Weverca.Analysis/ExpressionEvaluator/BinaryOperations/Comparison.cs:79-100 | on two booleans every comparison is answered under the order false < true |
| Comparison.OrdinalCompare | VSProjects/Weverca.Analysis/ExpressionEvaluator/BinaryOperations/Comparison.cs:110-136 | the ordinal comparison is -1, 0 or 1 and is 0 exactly for equal strings |
| Comparison.PrefixSortsFirst | VSProjects/Weverca.Analysis/ExpressionEvaluator/BinaryOperations/Comparison.cs:110-136 | a proper prefix sorts before the longer string |
| Comparison.OrdinalCompareAntisymmetric | VSProjects/Weverca.Analysis/ExpressionEvaluator/BinaryOperations/Comparison.cs:110-136 | swapping the strings negates the ordinal comparison |
| Comparison.CompareString | VSProjects/Weverca.Analysis/ExpressionEvaluator/BinaryOperations/Comparison.cs:110-136 | strings are compared ordinally: == and != are string equality and inequality, each comparison holds exactly as it holds between the sign of `OrdinalCompare(a, b)` and 0, other operations give nothing |
| Comparison.AbstractCompare | VSProjects/Weverca.Analysis/ExpressionEvaluator/BinaryOperations/Comparison.cs:499-502 | a comparison of unknown operands is "any boolean"; any other operation gives nothing |
| Comparison.RightAlwaysGreater | VSProjects/Weverca.Analysis/ExpressionEvaluator/BinaryOperations/Comparison.cs:292-307 | when every left value is below every right value the answer is the one every such pair gives |
| Comparison.LeftAlwaysGreater | VSProjects/Realisation/Weverca.Analysis/ExpressionEvaluator/BinaryOperations/Comparison.cs:296-311 | when every left value is above every right value the answer is the one every such pair gives |
| Comparison.EqualValueInterval | VSProjects/Weverca.Analysis/ExpressionEvaluator/BinaryOperations/Comparison.cs:535-555 | value == interval is sound (a definite answer holds for every member) and exact (every shared answer is given) |
| Comparison.EqualIntervalValue | VSProjects/Weverca.Analysis/ExpressionEvaluator/BinaryOperations/Comparison.cs:565-570 | interval == value is sound and exact |
| Comparison.EqualIntervals | VSProjects/Weverca.Analysis/ExpressionEvaluator/BinaryOperations/Comparison.cs:580-602 | interval == interval is sound and exact: overlapping intervals are equal only as the same singleton |
| Comparison.NotEqualValueInterval | VSProjects/Weverca.Analysis/ExpressionEvaluator/BinaryOperations/Comparison.cs:616-636 | value != interval is sound and exact |
| Comparison.NotEqualIntervalValue | VSProjects/Weverca.Analysis/ExpressionEvaluator/BinaryOperations/Comparison.cs:646-651 | interval != value is sound and exact |
| Comparison.NotEqualIntervals | VSProjects/Weverca.Analysis/ExpressionEvaluator/BinaryOperations/Comparison.cs:661-683 | interval != interval is sound and exact |
| Comparison.NotEqualNegatesEqual | VSProjects/Weverca.Analysis/ExpressionEvaluator/BinaryOperations/Comparison.cs:616-683 | every != answer is the three-valued negation of the matching == answer |
| Comparison.LessThanValueInterval | VSProjects/Weverca.Analysis/ExpressionEvaluator/BinaryOperations/Comparison.cs:697-716 | value < interval is sound and exact |
| Comparison.LessThanIntervalValue | VSProjects/Weverca.Analysis/ExpressionEvaluator/BinaryOperations/Comparison.cs:726-731 | interval < value, computed by mirroring, is sound and exact |
| Comparison.LessThanIntervals | VSProjects/Weverca.Analysis/ExpressionEvaluator/BinaryOperations/Comparison.cs:741-760 | interval < interval is sound and exact |
| Comparison.LessThanOrEqualValueInterval | VSProjects/Weverca.Analysis/ExpressionEvaluator/BinaryOperations/Comparison.cs:774-793 | value <= interval is sound and exact |
| Comparison.LessThanOrEqualIntervalValue | VSProjects/Weverca.Analysis/ExpressionEvaluator/BinaryOperations/Comparison.cs:803-808 | interval <= value is sound and exact |
| Comparison.LessThanOrEqualIntervals | VSProjects/Weverca.Analysis/ExpressionEvaluator/BinaryOperations/Comparison.cs:818-837 | interval <= interval is sound and exact |
| Comparison.GreaterThanValueInterval | VSProjects/Weverca.Analysis/ExpressionEvaluator/BinaryOperations/Comparison.cs:851-870 | value > interval is sound and exact |
| Comparison.GreaterThanIntervalValue | VSProjects/Weverca.Analysis/ExpressionEvaluator/BinaryOperations/Comparison.cs:880-885 | interval > value is sound and exact |
| Comparison.GreaterThanIntervals | VSProjects/Weverca.Analysis/ExpressionEvaluator/BinaryOperations/Comparison.cs:895-900 | interval > interval is sound and exact |
| Comparison.GreaterThanOrEqualValueInterval | VSProjects/Realisation/Weverca.Analysis/ExpressionEvaluator/BinaryOperations/Comparison.cs:893-912 | value >= interval is sound and exact |
| Comparison.GreaterThanOrEqualIntervalValue | VSProjects/Weverca.Analysis/ExpressionEvaluator/BinaryOperations/Comparison.cs:943-948 | interval >= value is sound and exact |
| Comparison.GreaterThanOrEqualIntervals | VSProjects/Weverca.Analysis/ExpressionEvaluator/BinaryOperations/Comparison.cs:958-963 | interval >= interval is sound and exact |
| Comparison.IntervalCompareValueInterval | VSProjects/Weverca.Analysis/ExpressionEvaluator/BinaryOperations/Comparison.cs:171-192 | value-with-interval dispatch: nothing for a non-comparison, otherwise a sound and exact answer |
| Comparison.IntervalCompareIntervalValue | VSProjects/Weverca.Analysis/ExpressionEvaluator/BinaryOperations/Comparison.cs:227-248 | interval-with-value dispatch: nothing for a non-comparison, otherwise a sound and exact answer |
| Comparison.IntervalCompareIntervals | VSProjects/Weverca.Analysis/ExpressionEvaluator/BinaryOperations/Comparison.cs:259-280 | interval-with-interval dispatch: nothing for a non-comparison, otherwise a sound and exact answer |
| Comparison.ValueIsSingletonInterval | VSProjects/Weverca.Analysis/ExpressionEvaluator/BinaryOperations/Comparison.cs:171-280 | a value compares with an interval exactly as the singleton interval holding it would |
| Comparison.RightAbstractBooleanCompare | VSProjects/Weverca.Analysis/ExpressionEvaluator/BinaryOperations/Comparison.cs:340-388 | a boolean compared with an unknown boolean is definite exactly when both values of the unknown give the same answer, and then it is that answer |
| Comparison.LeftAbstractBooleanCompare | VSProjects/Realisation/Weverca.Analysis/ExpressionEvaluator/BinaryOperations/Comparison.cs:400-448 | an unknown boolean compared with a boolean is definite exactly when both of its values give the same answer |
| Comparison.UnconvertibleHoldsBoth | VSProjects/Weverca.Analysis/ExpressionEvaluator/BinaryOperations/Comparison.cs:147-160 | a non-empty interval that does not convert to one boolean holds both 0 and a non-zero number |
| Comparison.IntervalCompareBoolInterval | VSProjects/Weverca.Analysis/ExpressionEvaluator/BinaryOperations/Comparison.cs:147-160 | a boolean compared with an interval read as a boolean: definite answers hold for every member, and a true shared by every member is given |
| Comparison.IntervalCompareIntervalBool | VSProjects/Weverca.Analysis/ExpressionEvaluator/BinaryOperations/Comparison.cs:203-216 | an interval read as a boolean compared with a boolean: definite answers hold for every member, and a true shared by every member is given |
| Comparison.RightAbstractBooleanCompareInterval | VSProjects/Weverca.Analysis/ExpressionEvaluator/BinaryOperations/Comparison.cs:398-411 | an interval compared with an unknown boolean: a definite answer holds for every member and both booleans |
| Comparison.LeftAbstractBooleanCompareInterval | VSProjects/Weverca.Analysis/ExpressionEvaluator/BinaryOperations/Comparison.cs:478-491 | an unknown boolean compared with an interval: a definite answer holds for both booleans and every member |
| Comparison.BooleanTableRows | VSProjects/Weverca.Analysis/ExpressionEvaluator/BinaryOperations/Comparison.cs:340-388 | rows of the boolean table: true < unknown is false, false <= unknown is true, true >= unknown is true |
| AnalysisWarnings.NewWarning | VSProjects/Weverca.Analysis/Warnings.cs:250-256 | a warning built without a cause carries the given file, message and element and the first cause, the enumeration's default |
| AnalysisWarnings.SecurityMessage | VSProjects/Weverca.Analysis/Warnings.cs:394-414 | the security message is "Unsanitized value ", the tainted variable in parentheses exactly when a name is given, then the destination of the flag |
| AnalysisWarnings.SecurityMessageDeterminesFlag | VSProjects/Weverca.Analysis/Warnings.cs:394-414 | for one variable name, equal messages mean equal flags |
| AnalysisWarnings.SecurityMessageShowsVariable | VSProjects/Weverca.Analysis/Warnings.cs:394-414 | the character after "Unsanitized value " is an opening parenthesis exactly when a variable name was given |
| AnalysisWarnings.SecurityWarningOf | VSProjects/Weverca.Analysis/Warnings.cs:394-414 | the security warning's message, flag and tainted-variable name are the ones the constructor sets |
| AnalysisWarnings.SecurityStoreKeepsEqualWarningsOfTwoGraphs | VSProjects/Weverca.Analysis/Warnings.cs:417-440 | two security warnings equal by Equals but raised in different graphs are both kept by the security store, since their hash codes differ |
| AnalysisWarnings.TaintMessagesDistinct | VSProjects/Weverca.Analysis/Warnings.cs:467-491 | the six taint messages (three flags, null flow or not) are pairwise different |
| AnalysisWarnings.TaintWarningOf | VSProjects/Weverca.Analysis/Warnings.cs:467-491 | the taint warning's message follows its flag and null-flow flag; flag and priority are kept |
| AnalysisWarnings.WarningToString | VSProjects/Weverca.Analysis/Warnings.cs:287-291 | the text is "Warning at line L char C: " followed by the message |
| AnalysisWarnings.WarningToStringEndsWithMessage | VSProjects/Weverca.Analysis/Warnings.cs:287-291 | the text ends with the warning's message |
| AnalysisWarnings.CompareWarnings | VSProjects/Weverca.Analysis/Warnings.cs:306-328 | in one file the result is -1, 0 or 1, 0 exactly at the same offset and negative exactly for a smaller offset; across files it is the culture-dependent `string.Compare` of the names, a parameter |
| AnalysisWarnings.CompareTo | VSProjects/Weverca.Analysis/Warnings.cs:335-338 | plain warnings in one file compare as 0 exactly at the same offset, and across files as their file names do |
| AnalysisWarnings.CompareToAntisymmetric | VSProjects/Weverca.Analysis/Warnings.cs:306-328 | swapping the two warnings negates the comparison whenever swapping the names negates the name comparison |
| AnalysisWarnings.CompareToOrdinal | VSProjects/Weverca.Analysis/Warnings.cs:306-328 | under an ordinal name comparison the order lies in -1..1, is 0 exactly for the same file and offset, and is antisymmetric |
| AnalysisWarnings.WarningEqualsIsEquivalence | VSProjects/Weverca.Analysis/Warnings.cs:345-351 | equality of plain warnings is reflexive, symmetric and transitive, and equal warnings compare as 0 |
| AnalysisWarnings.TaintEqualityAddsProgramPoint | VSProjects/Weverca.Analysis/Warnings.cs:532-539 | taint equality is security-style equality on message, offset, file and flag plus equal program points |
| AnalysisWarnings.StorageName | VSProjects/Weverca.Analysis/Warnings.cs:84-102 | each of the three warning kinds has its storage variable; any other kind has none (the code throws) |
| AnalysisWarnings.StorageNamesDistinct | VSProjects/Weverca.Analysis/Warnings.cs:84-102 | different kinds are filed under different storage variables |
| AnalysisWarnings.AnalysisWarningHandler.NumberOfWarnings | VSProjects/Weverca.Analysis/Warnings.cs:73-76 | the count is the number of plain plus security warnings; taint warnings are not counted |
| AnalysisWarnings.AnalysisWarningHandler.ResetWarnings | VSProjects/Weverca.Analysis/Warnings.cs:107-112 | all three analysis-wide stores become empty |
| AnalysisWarnings.AnalysisWarningHandler.SetWarning | VSProjects/Weverca.Analysis/Warnings.cs:131-150 | a warning without an element changes nothing; otherwise it joins its kind's flow storage; a plain warning also joins its analysis-wide store unless an equal one is there, and a security warning unless an equal one of the same owning graph is there; taint warnings never reach a store; the plain store never holds two equal warnings, and the security store never two equal warnings of one graph |
| ModuloOperation.ModuloIntsAsWritten | VSProjects/Realisation/Weverca.Analysis/ExpressionEvaluator/BinaryOperations/ModuloOperation.cs:46-57 | as written, the analysis of int.MinValue % -1 fails with the overflow exception of C#'s remainder, and only that pair fails |
| ModuloOperation.ModuloIntsAsWrittenOverflows | VSProjects/Realisation/Weverca.Analysis/ExpressionEvaluator/BinaryOperations/ModuloOperation.cs:46-57 | the as-written modulo fails on (int.MinValue, -1), although 0 is the remainder there |
| ModuloOperation.ModuloInts | VSProjects/Realisation/Weverca.Analysis/ExpressionEvaluator/BinaryOperations/ModuloOperation.cs:46-57 | a non-zero divisor gives the integer remainder, with the sign of the dividend, and no warning; 0 gives false with a division-by-zero warning |
| ModuloOperation.RemainderMeetsDefinition | VSProjects/Realisation/Weverca.Analysis/ExpressionEvaluator/BinaryOperations/ModuloOperation.cs:46-57 | C#'s % meets the definition of the remainder: it recomposes the dividend, is smaller than the divisor and follows the dividend's sign |
| ModuloOperation.RemainderIsUnique | VSProjects/Realisation/Weverca.Analysis/ExpressionEvaluator/BinaryOperations/ModuloOperation.cs:46-57 | only one value meets the definition of the remainder |
| ModuloOperation.ModuloStringByIntAsWritten | VSProjects/Realisation/Weverca.Analysis/ExpressionEvaluator/BinaryOperations/ModuloOperation.cs:96-121 | as written, the remainder of a string read as an integer fails exactly for the text of int.MinValue modulo -1, and otherwise agrees with the corrected operation |
| ModuloOperation.ModuloOfPrintedIntegerAsWritten | VSProjects/Realisation/Weverca.Analysis/ExpressionEvaluator/BinaryOperations/ModuloOperation.cs:96-121 | as written, the decimal text of an integer gives what the as-written integer modulo gives |
| ModuloOperation.ModuloStringByIntAsWrittenOverflows | VSProjects/Realisation/Weverca.Analysis/ExpressionEvaluator/BinaryOperations/ModuloOperation.cs:96-121 | as written, the text of int.MinValue modulo -1 fails, while the corrected operation gives 0 |
| ModuloOperation.ModuloStringByInt | VSProjects/Realisation/Weverca.Analysis/ExpressionEvaluator/BinaryOperations/ModuloOperation.cs:96-121 | corrected: a string dividend read as an integer is reduced exactly, without the overflow of int.MinValue modulo -1; any other number gives an integer interval; 0 warns |
| ModuloOperation.ModuloOfPrintedInteger | VSProjects/Realisation/Weverca.Analysis/ExpressionEvaluator/BinaryOperations/ModuloOperation.cs:96-121 | corrected: a dividend given as the decimal text of an integer gives the same result as the corrected integer modulo |
| ModuloOperation.PositiveDividendModulo | VSProjects/Realisation/Weverca.Analysis/ExpressionEvaluator/BinaryOperations/ModuloOperation.cs:896-929 | the remainders of non-negative dividends form an interval with a non-negative start |
| ModuloOperation.PositiveDividendModuloSound | VSProjects/Realisation/Weverca.Analysis/ExpressionEvaluator/BinaryOperations/ModuloOperation.cs:896-929 | every dividend of [s, e] with s >= 0 has its remainder inside the result |
| ModuloOperation.PositiveDividendModuloFullRange | VSProjects/Realisation/Weverca.Analysis/ExpressionEvaluator/BinaryOperations/ModuloOperation.cs:896-929 | a run of at least abs(r) dividends gives [0, abs(r)-1] and reaches every remainder of it, so the answer is the tightest |
| ModuloOperation.NegativeDividendModuloAsWritten | VSProjects/Realisation/Weverca.Analysis/ExpressionEvaluator/BinaryOperations/ModuloOperation.cs:931-978 | as written, the width of the run is computed with 32-bit wrap-around; the result stays non-positive |
| ModuloOperation.NegativeDividendModuloAsWrittenMissesRemainder | VSProjects/Realisation/Weverca.Analysis/ExpressionEvaluator/BinaryOperations/ModuloOperation.cs:931-978 | as written, [int.MinValue, 0] modulo 2 gives [0, 0] and misses the remainder -1 of the dividend -1 |
| ModuloOperation.NegativeDividendModulo | VSProjects/Realisation/Weverca.Analysis/ExpressionEvaluator/BinaryOperations/ModuloOperation.cs:931-978 | with the width computed exactly, the remainders of non-positive dividends form a non-positive interval |
| ModuloOperation.NegativeDividendModuloSound | VSProjects/Realisation/Weverca.Analysis/ExpressionEvaluator/BinaryOperations/ModuloOperation.cs:931-978 | every dividend of [s, e] with e <= 0 has its remainder inside the result |
| ModuloOperation.DividendIntervalModulo | VSProjects/Realisation/Weverca.Analysis/ExpressionEvaluator/BinaryOperations/ModuloOperation.cs:861-894 | a dividend interval straddling 0 is split there and the halves joined; a result of one number is that integer |
| ModuloOperation.DividendIntervalModuloSound | VSProjects/Realisation/Weverca.Analysis/ExpressionEvaluator/BinaryOperations/ModuloOperation.cs:861-894 | every dividend of the interval has its remainder admitted by the result |
| ModuloOperation.ModuloIntervalByInt | VSProjects/Realisation/Weverca.Analysis/ExpressionEvaluator/BinaryOperations/ModuloOperation.cs:130-140 | a zero divisor warns; otherwise no warning and every remainder of the dividend interval is admitted |
| ModuloOperation.LeftAbstractBooleanModulo | VSProjects/Realisation/Weverca.Analysis/ExpressionEvaluator/BinaryOperations/ModuloOperation.cs:177-182 | an unknown boolean dividend admits the remainders of both 0 and 1; a zero divisor warns |
| ModuloOperation.WorstModuloResultSoundAndTight | VSProjects/Realisation/Weverca.Analysis/ExpressionEvaluator/BinaryOperations/ModuloOperation.cs:980-993 | [1-d, d-1] (or [d+1, -(d+1)] for a negative d) holds every remainder, and both of its ends are remainders |
| ModuloOperation.AbstractModuloInt | VSProjects/Realisation/Weverca.Analysis/ExpressionEvaluator/BinaryOperations/ModuloOperation.cs:190-200 | an unknown dividend gives the worst-case interval, which admits every remainder; a zero divisor warns |
| ModuloOperation.ModuloIntByInterval | VSProjects/Realisation/Weverca.Analysis/ExpressionEvaluator/BinaryOperations/ModuloOperation.cs:419-510 | a divisor interval holding 0 gives "any value" with a warning, and only that case warns; divisors all beyond the dividend's magnitude give the dividend itself |
| ModuloOperation.ModuloIntByIntervalSound | VSProjects/Realisation/Weverca.Analysis/ExpressionEvaluator/BinaryOperations/ModuloOperation.cs:419-510 | every non-zero divisor of the interval leaves a remainder the result admits |
| ModuloOperation.ModuloStringByInterval | VSProjects/Realisation/Weverca.Analysis/ExpressionEvaluator/BinaryOperations/ModuloOperation.cs:541-558 | a string that is not an integer, or a divisor interval holding 0, gives "any value" with a warning |
| ModuloOperation.ModuloStringByIntervalOfPrintedInteger | VSProjects/Realisation/Weverca.Analysis/ExpressionEvaluator/BinaryOperations/ModuloOperation.cs:541-558 | the decimal text of an integer divides by an interval as the integer does |
| ModuloOperation.AbstractModuloInterval | VSProjects/Realisation/Weverca.Analysis/ExpressionEvaluator/BinaryOperations/ModuloOperation.cs:616-638 | an unknown dividend warns exactly when the divisor interval holds 0: [0, 0] gives false, any other such interval "any value" |
| ModuloOperation.AbstractModuloIntervalSound | VSProjects/Realisation/Weverca.Analysis/ExpressionEvaluator/BinaryOperations/ModuloOperation.cs:616-638 | for every dividend and every non-zero divisor of the interval the result admits the remainder |
| ModuloOperation.ModuloIntervals | VSProjects/Realisation/Weverca.Analysis/ExpressionEvaluator/BinaryOperations/ModuloOperation.cs:567-572 | two intervals: every remainder of a dividend of the first by a non-zero divisor of the second is admitted |
| ModuloOperation.LeftAbstractBooleanModuloInterval | VSProjects/Realisation/Weverca.Analysis/ExpressionEvaluator/BinaryOperations/ModuloOperation.cs:603-608 | an unknown boolean dividend by an interval: the remainders of 0 and 1 by every non-zero divisor are admitted |
| ModuloOperation.ModuloByBooleanValue | VSProjects/Realisation/Weverca.Analysis/ExpressionEvaluator/BinaryOperations/ModuloOperation.cs:746-761 | a true divisor gives 0, a false one false with a warning, and only false warns |
| ModuloOperation.ModuloByBooleanAgreesWithInteger | VSProjects/Realisation/Weverca.Analysis/ExpressionEvaluator/BinaryOperations/ModuloOperation.cs:746-761 | a boolean divisor gives the value and the warning status of its integer 1 or 0 |
| ModuloOperation.ModuloByNullAgreesWithZero | VSProjects/Realisation/Weverca.Analysis/ExpressionEvaluator/BinaryOperations/ModuloOperation.cs:782-789 | null as a divisor gives the value of a modulo by 0, with a warning |
| ArithmeticOperation.AddInts | VSProjects/Realisation/Weverca.Analysis/ExpressionEvaluator/BinaryOperations/ArithmeticOperation.cs:146-158 | the sum is an int exactly when it lies in the int range, and the "became float" tag otherwise |
| ArithmeticOperation.SubtractInts | VSProjects/Realisation/Weverca.Analysis/ExpressionEvaluator/BinaryOperations/ArithmeticOperation.cs:207-220 | the difference is an int exactly when it lies in the int range, and the float tag otherwise |
| ArithmeticOperation.SubtractIsAddOfNegation | VSProjects/Realisation/Weverca.Analysis/ExpressionEvaluator/BinaryOperations/ArithmeticOperation.cs:146-220 | subtracting is adding the negated subtrahend |
| ArithmeticOperation.MultiplyIntsAsWritten | VSProjects/Realisation/Weverca.Analysis/ExpressionEvaluator/BinaryOperations/ArithmeticOperation.cs:269-283 | as written, the guard fails with an overflow exception exactly for a multiplier of -1 and a non-negative multiplicand |
| ArithmeticOperation.MultiplyIntsAsWrittenNonNegative | VSProjects/Realisation/Weverca.Analysis/ExpressionEvaluator/BinaryOperations/ArithmeticOperation.cs:269-283 | as written, the guard is right for a zero multiplier and for two non-negative operands |
| ArithmeticOperation.MultiplyIntsAsWrittenCounterexamples | VSProjects/Realisation/Weverca.Analysis/ExpressionEvaluator/BinaryOperations/ArithmeticOperation.cs:269-283 | as written, 5 * -1 throws, -1 * -1 becomes a float and int.MinValue * 2 stays the int 0, all three wrongly |
| ArithmeticOperation.MultiplyInts | VSProjects/Realisation/Weverca.Analysis/ExpressionEvaluator/BinaryOperations/ArithmeticOperation.cs:269-283 | with the guard written out per sign, the product is an int exactly when it fits, and the float tag otherwise |
| ArithmeticOperation.MultiplyIntsGuardExact | VSProjects/Realisation/Weverca.Analysis/ExpressionEvaluator/BinaryOperations/ArithmeticOperation.cs:269-283 | the corrected guard holds exactly when the product fits in an int |
| ArithmeticOperation.DivideIntsAsWritten | VSProjects/Realisation/Weverca.Analysis/ExpressionEvaluator/BinaryOperations/ArithmeticOperation.cs:332-352 | as written, the divisibility test runs first and throws exactly for int.MinValue / -1 |
| ArithmeticOperation.DivideIntsAsWrittenOverflows | VSProjects/Realisation/Weverca.Analysis/ExpressionEvaluator/BinaryOperations/ArithmeticOperation.cs:332-352 | as written, int.MinValue / -1 fails |
| ArithmeticOperation.DivideInts | VSProjects/Realisation/Weverca.Analysis/ExpressionEvaluator/BinaryOperations/ArithmeticOperation.cs:332-352 | a zero divisor, and only that, gives false with a warning; otherwise the result is an int exactly when the division leaves no remainder and the quotient fits |
| ArithmeticOperation.QuotientFits | VSProjects/Realisation/Weverca.Analysis/ExpressionEvaluator/BinaryOperations/ArithmeticOperation.cs:332-352 | only int.MinValue / -1 has a quotient outside the int range |
| ArithmeticOperation.ArithmeticInts | VSProjects/Realisation/Weverca.Analysis/ExpressionEvaluator/BinaryOperations/ArithmeticOperation.cs:65-81 | the dispatch answers exactly the four arithmetic operators (IsArithmetic), warns only for division, and gives no result otherwise |
| ArithmeticOperation.AddIntInterval | VSProjects/Realisation/Weverca.Analysis/ExpressionEvaluator/BinaryOperations/ArithmeticOperation.cs:560-574 | adding an int to an interval gives the shifted interval, holding exactly the sums, when no end overflows, and a float interval otherwise |
| ArithmeticOperation.SubtractIntInterval | VSProjects/Realisation/Weverca.Analysis/ExpressionEvaluator/BinaryOperations/ArithmeticOperation.cs:627-641 | subtracting an interval gives [a-End, a-Start], holding exactly the differences, when no end overflows, and a float interval otherwise |
| ArithmeticOperation.SubtractIntervalIsAddOfNegation | VSProjects/Realisation/Weverca.Analysis/ExpressionEvaluator/BinaryOperations/ArithmeticOperation.cs:560-641 | subtracting an interval is adding its negation |
| ArithmeticOperation.MultiplyIntIntervalAsWrittenThrows | VSProjects/Realisation/Weverca.Analysis/ExpressionEvaluator/BinaryOperations/ArithmeticOperation.cs:694-725 | as written, -3 times [-5, 0] throws, although both end products fit |
| ArithmeticOperation.MultiplyGuardExact | VSProjects/Realisation/Weverca.Analysis/ExpressionEvaluator/BinaryOperations/ArithmeticOperation.cs:694-725 | the corrected guard holds exactly when both end products fit in an int |
| ArithmeticOperation.MultiplyGuardAsWrittenAgrees | VSProjects/Realisation/Weverca.Analysis/ExpressionEvaluator/BinaryOperations/ArithmeticOperation.cs:694-725 | the guard as written fails (divides by the end 0) exactly for a negative multiplicand and an interval ending at 0 that passes the first test, and elsewhere agrees with the corrected guard |
| ArithmeticOperation.MultiplyIntIntervalAsWrittenAgrees | VSProjects/Realisation/Weverca.Analysis/ExpressionEvaluator/BinaryOperations/ArithmeticOperation.cs:694-725 | wherever the as-written multiplication does not throw, it gives the corrected result |
| ArithmeticOperation.MultiplyIntInterval | VSProjects/Realisation/Weverca.Analysis/ExpressionEvaluator/BinaryOperations/ArithmeticOperation.cs:694-725 | the result is an int interval exactly when both end products fit, and then holds every product of the interval, with the ends swapped for a negative multiplicand |
| ArithmeticOperation.DivideIntInterval | VSProjects/Realisation/Weverca.Analysis/ExpressionEvaluator/BinaryOperations/ArithmeticOperation.cs:787-794 | dividing by an interval warns exactly when it holds 0; otherwise the result is a float interval |
| ArithmeticOperation.ArithmeticIntInterval | VSProjects/Realisation/Weverca.Analysis/ExpressionEvaluator/BinaryOperations/ArithmeticOperation.cs:411-427 | the int-with-interval dispatch answers exactly the four arithmetic operators and gives no result otherwise |
| UnaryOperation.VisitValue | VSProjects/Realisation/Weverca.Analysis/ExpressionEvaluator/UnaryOperationEvaluator.cs:203-228 | only `(unset)` and `@` succeed on an arbitrary value, `@` returning the operand; the integral and binary casts are "not supported" and every remaining operator is an invalid operation |
| UnaryOperation.UsualOperation | VSProjects/Realisation/Weverca.Analysis/ExpressionEvaluator/UnaryOperationEvaluator.cs:1220-1244 | `clone`, `print` and the object and array casts are handled alike for every operand, and nothing else is |
| UnaryOperation.VisitScalar | VSProjects/Realisation/Weverca.Analysis/ExpressionEvaluator/UnaryOperationEvaluator.cs:235-243 | a scalar adds exactly the usual operations to what every value supports, with the same unsupported casts |
| UnaryOperation.VisitBoolean | VSProjects/Realisation/Weverca.Analysis/ExpressionEvaluator/UnaryOperationEvaluator.cs:246-275 | a boolean operand accepts every unary operator and rejects the integral and binary casts as unsupported |
| UnaryOperation.NegateIntegerAsWritten | VSProjects/Realisation/Weverca.Analysis/ExpressionEvaluator/UnaryOperationEvaluator.cs:301-315 | as written, negation always yields an integer |
| UnaryOperation.NegateIntegerAsWrittenWraps | VSProjects/Realisation/Weverca.Analysis/ExpressionEvaluator/UnaryOperationEvaluator.cs:301-315 | as written, negating `int.MinValue` yields `int.MinValue` again although its true negation does not fit an int |
| UnaryOperation.NegateInteger | VSProjects/Realisation/Weverca.Analysis/ExpressionEvaluator/UnaryOperationEvaluator.cs:301-315 | negation yields PHP's negated number, and a float exactly for `int.MinValue` |
| UnaryOperation.VisitInteger | VSProjects/Realisation/Weverca.Analysis/ExpressionEvaluator/UnaryOperationEvaluator.cs:294-330 | an integer operand accepts every unary operator and rejects the integral and binary casts as unsupported |
| UnaryOperation.NegateIntervalAsWritten | VSProjects/Realisation/Weverca.Analysis/ExpressionEvaluator/UnaryOperationEvaluator.cs:725-738 | as written, negating an interval always yields an integer interval |
| UnaryOperation.NegateIntervalAsWrittenInverts | VSProjects/Realisation/Weverca.Analysis/ExpressionEvaluator/UnaryOperationEvaluator.cs:725-738 | as written, negating `[int.MinValue, 0]` yields the inverted interval `[0, int.MinValue]` |
| UnaryOperation.NegateInterval | VSProjects/Realisation/Weverca.Analysis/ExpressionEvaluator/UnaryOperationEvaluator.cs:725-738 | negation yields a float interval exactly when the start is `int.MinValue`, and otherwise a well-formed interval holding exactly the negations of the operand's numbers |
| UnaryOperation.VisitInterval | VSProjects/Realisation/Weverca.Analysis/ExpressionEvaluator/UnaryOperationEvaluator.cs:683-710 | a general interval accepts `+`, `!` and the usual operations, with the same unsupported casts |
| UnaryOperation.VisitIntegerInterval | VSProjects/Realisation/Weverca.Analysis/ExpressionEvaluator/UnaryOperationEvaluator.cs:713-751 | an integer interval accepts every unary operator and rejects the integral and binary casts as unsupported |
| UnaryOperation.VisitUndefined | VSProjects/Realisation/Weverca.Analysis/ExpressionEvaluator/UnaryOperationEvaluator.cs:642-676 | `null` accepts every unary operator and rejects the integral and binary casts as unsupported |
| UnaryOperation.VisitAny | VSProjects/Realisation/Weverca.Analysis/ExpressionEvaluator/UnaryOperationEvaluator.cs:853-897 | a completely unknown value accepts every unary operator and rejects the integral and binary casts as unsupported |
| UnaryOperation.VisitAnyScalar | VSProjects/Realisation/Weverca.Analysis/ExpressionEvaluator/UnaryOperationEvaluator.cs:902-923 | an unknown scalar accepts every unary operator and rejects the same casts |
| UnaryOperation.VisitAnyBoolean | VSProjects/Realisation/Weverca.Analysis/ExpressionEvaluator/UnaryOperationEvaluator.cs:926-948 | an unknown boolean accepts every unary operator and rejects the same casts |
| UnaryOperation.VisitAnyInteger | VSProjects/Realisation/Weverca.Analysis/ExpressionEvaluator/UnaryOperationEvaluator.cs:970-985 | an unknown integer accepts every unary operator and rejects the same casts |
| UnaryOperation.Visit | VSProjects/Realisation/Weverca.Analysis/ExpressionEvaluator/UnaryOperationEvaluator.cs:129-153 | on every modelled operand the visitor succeeds exactly for the unary operators and reports "not supported" exactly for the integral and binary casts |
| UnaryOperation.SingletonIntervalIsInteger | VSProjects/Realisation/Weverca.Analysis/ExpressionEvaluator/UnaryOperationEvaluator.cs:713-719 | an interval of one number gives exactly what that number gives, for every operator |
| UnaryOperation.PlusIsIntegerCastOnScalars | VSProjects/Realisation/Weverca.Analysis/ExpressionEvaluator/UnaryOperationEvaluator.cs:294-330 | `+` gives the same outcome as the integer cast on every modelled operand |
| UnaryOperation.MinusNegatesIntegers | VSProjects/Realisation/Weverca.Analysis/ExpressionEvaluator/UnaryOperationEvaluator.cs:301-315 | `-` of an integer is its mathematical negation, a float when that does not fit an int |
| UnaryOperation.LogicNegationIsInvolution | VSProjects/Realisation/Weverca.Analysis/ExpressionEvaluator/UnaryOperationEvaluator.cs:246-275 | applying `!` twice to a boolean gives the boolean back without a warning |
| UnaryOperation.BitNegationIsInvolution | VSProjects/Realisation/Weverca.Analysis/ExpressionEvaluator/UnaryOperationEvaluator.cs:713-751 | applying `~` twice gives back an integer and an interval of more than one number |
| UnaryOperation.AnyBooleanCoversBooleans | VSProjects/Realisation/Weverca.Analysis/ExpressionEvaluator/UnaryOperationEvaluator.cs:926-948 | the outcome for an unknown boolean covers the outcome for each boolean, with the same warning |
| UnaryOperation.IntervalCoversItsNumbers | VSProjects/Realisation/Weverca.Analysis/ExpressionEvaluator/UnaryOperationEvaluator.cs:713-751 | the outcome for an interval covers the outcome for each of its numbers, except that negating an interval starting at `int.MinValue` gives the float interval |
| UnaryOperation.AnyIntegerCoversIntegers | VSProjects/Realisation/Weverca.Analysis/ExpressionEvaluator/UnaryOperationEvaluator.cs:970-985 | the outcome for an unknown integer covers the outcome for every integer and every integer interval |
| UnaryOperation.AnyValueCoversEverything | VSProjects/Realisation/Weverca.Analysis/ExpressionEvaluator/UnaryOperationEvaluator.cs:853-897 | the outcome for a completely unknown value covers the outcome for every modelled operand |
| UnaryOperation.UnaryOperationEvaluator.constructor | VSProjects/Realisation/Weverca.Analysis/ExpressionEvaluator/UnaryOperationEvaluator.cs:104-121 | a new evaluator holds no result and no warnings |
| UnaryOperation.UnaryOperationEvaluator.Accept | VSProjects/Realisation/Weverca.Analysis/ExpressionEvaluator/UnaryOperationEvaluator.cs:129-153 | visiting an operand fails exactly when the visitor rejects it, with the visitor's exception, and otherwise stores the visitor's result |
| UnaryOperation.UnaryOperationEvaluator.Evaluate | VSProjects/Realisation/Weverca.Analysis/ExpressionEvaluator/UnaryOperationEvaluator.cs:129-153 | the string and boolean casts go to the converters unchanged; every other operator gives the visitor's value or its exception |
| UnaryOperation.UnaryOperationEvaluator.EvaluateEntry | VSProjects/Realisation/Weverca.Analysis/ExpressionEvaluator/UnaryOperationEvaluator.cs:161-192 | over a set of operands the result is the set of the visitor's values when all succeed, it is a failure whenever some operand fails, any failure is one of the operands' exceptions, and every new warning is raised by some operand |
| MemoryAssistant.Positions | VSProjects/Weverca.Analysis/MemoryAssistant.cs:281-287 | an index with no names stands for exactly the positions of the string |
| MemoryAssistant.StringIndicesOfNames | VSProjects/Weverca.Analysis/MemoryAssistant.cs:265-289 | a name that prints an integer stands for that integer, and a name that is not a number stands for 0 |
| MemoryAssistant.ResolveStringIndex | VSProjects/Weverca.Analysis/MemoryAssistant.cs:265-289 | the loop collects exactly the positions the index's names stand for |
| MemoryAssistant.ReadStringIndex | VSProjects/Weverca.Analysis/MemoryAssistant.cs:293-313 | reading gives the value at every position the index stands for, and warns exactly when one of them is negative |
| MemoryAssistant.ReadWithoutNamesGivesEveryCharacter | VSProjects/Weverca.Analysis/MemoryAssistant.cs:281-313 | reading a string through an index of no names gives each of its characters |
| MemoryAssistant.WrittenStringAsWrittenLosesCharacter | VSProjects/Weverca.Analysis/MemoryAssistant.cs:342-345 | as written, writing `x` at position 5 of "ab" gives "ab x", so reading position 5 back gives the empty string |
| MemoryAssistant.WrittenString | VSProjects/Weverca.Analysis/MemoryAssistant.cs:332-345 | the written string is long enough to hold the position, has the character there and keeps every other character |
| MemoryAssistant.WrittenStringAsWrittenNearEnd | VSProjects/Weverca.Analysis/MemoryAssistant.cs:332-341 | inside the string and right at its end the write as written agrees with the corrected one |
| MemoryAssistant.WriteThenRead | VSProjects/Weverca.Analysis/MemoryAssistant.cs:293-345 | reading back a written position gives the written character and other positions keep theirs |
| MemoryAssistant.SimpleText | VSProjects/Weverca.Analysis/MemoryAssistant.cs:705-747 | exactly the printable values have a text; a string is its own text and only a float gives the digits of a float |
| MemoryAssistant.IntegerText | VSProjects/Weverca.Analysis/MemoryAssistant.cs:726-729 | the text of an integer is never empty |
| MemoryAssistant.ConvertedStrings | VSProjects/Weverca.Analysis/MemoryAssistant.cs:675-690 | every converted text is non-empty and is the text of one of the input values |
| MemoryAssistant.ConvertedStringsComplete | VSProjects/Weverca.Analysis/MemoryAssistant.cs:675-690 | every printable value with a non-empty text, a float included, is among the converted texts |
| MemoryAssistant.SimpleStringConverter.constructor | VSProjects/Weverca.Analysis/MemoryAssistant.cs:671-674 | a new converter starts concrete with no text |
| MemoryAssistant.SimpleStringConverter.Evaluate | VSProjects/Weverca.Analysis/MemoryAssistant.cs:675-690 | the converter returns the converted texts, which hold the text of every input value with a non-empty one, and is concrete exactly when it was and every input value is |
| MemoryAssistant.WriteStringIndex | VSProjects/Weverca.Analysis/MemoryAssistant.cs:316-356 | writing gives, for each written text and each position the index stands for, the string with the first character of the text at that position (the unchanged string at a negative position, "any string" for the digits of a float), plus "any string" when a written value is not concrete, and warns exactly when something is written and a position is negative |
| MemoryAssistant.WriteCharacter | VSProjects/Weverca.Analysis/MemoryAssistant.cs:325-350 | the inner loop writes the first character of one text at every position and finds exactly whether a position is negative |
| MemoryAssistant.ReadValueIndex | VSProjects/Weverca.Analysis/MemoryAssistant.cs:359-376 | reading an index warns exactly for values that are neither undefined nor "any array", and gives "any value" exactly for "any array" |
| MemoryAssistant.WriteValueIndex | VSProjects/Weverca.Analysis/MemoryAssistant.cs:379-388 | writing an index leaves the value unchanged and warns exactly for values that are neither undefined nor "any array" |
| MemoryAssistant.ReadValueField | VSProjects/Weverca.Analysis/MemoryAssistant.cs:408-425 | reading a field warns exactly for values that are neither undefined nor "any object", and gives "any value" exactly for "any object" |
| MemoryAssistant.WriteValueField | VSProjects/Weverca.Analysis/MemoryAssistant.cs:398-405 | writing a field leaves the value unchanged and warns exactly for values that are neither undefined nor "any object" |
| MemoryAssistant.ReadAndWriteWarnAlike | VSProjects/Weverca.Analysis/MemoryAssistant.cs:359-425 | reading and writing through an index or a field warn for exactly the same values |
| MemoryAssistant.MinOf | VSProjects/Weverca.Analysis/MemoryAssistant.cs:874-943 | the least number of a kind is at most every number of that kind in the entry and is attained by one of them, and is the type's greatest number when there is none |
| MemoryAssistant.MaxOf | VSProjects/Weverca.Analysis/MemoryAssistant.cs:874-943 | the greatest number of a kind is at least every number of that kind in the entry and is attained by one of them, and is the type's least number when there is none |
| MemoryAssistant.NumberPart | VSProjects/Weverca.Analysis/MemoryAssistant.cs:802-871 | the numbers of one kind become at most one value, present exactly when the entry has such numbers, spanning all of them and no wider |
| MemoryAssistant.Collapse | VSProjects/Weverca.Analysis/MemoryAssistant.cs:802-871 | two or more booleans or strings are replaced by the unknown value of that type, fewer are kept |
| MemoryAssistant.SimplifiedCovers | VSProjects/Weverca.Analysis/MemoryAssistant.cs:802-871 | simplification loses no value: each value of the entry is covered by one of the simplified values |
| MemoryAssistant.GatheredValues | VSProjects/Weverca.Analysis/MemoryAssistant.cs:874-967 | the visits gather exactly the booleans, strings and other values of the entry |
| MemoryAssistant.GatheredNumbers | VSProjects/Weverca.Analysis/MemoryAssistant.cs:874-943 | the visits gather, for each number kind, whether it occurs and its least and greatest number |
| MemoryAssistant.JoinedGathered | VSProjects/Weverca.Analysis/MemoryAssistant.cs:802-871 | joining what the visits gathered gives the simplified entry |
| MemoryAssistant.Simplifier.constructor | VSProjects/Weverca.Analysis/MemoryAssistant.cs:782-788 | a new simplifier has gathered nothing |
| MemoryAssistant.Simplifier.Accept | VSProjects/Weverca.Analysis/MemoryAssistant.cs:874-967 | visiting a value updates the simplifier's state by one gathering step |
| MemoryAssistant.Simplifier.Simplify | VSProjects/Weverca.Analysis/MemoryAssistant.cs:802-871 | the simplifier returns the simplified entry |
| MemoryAssistant.Simplify | VSProjects/Weverca.Analysis/MemoryAssistant.cs:391-395 | the assistant's simplification is the simplified entry |
| MemoryAssistant.PreservedMembers | VSProjects/Weverca.Analysis/MemoryAssistant.cs:644-660 | the preserved values are exactly the current values of an undefined, array or object type |
| MemoryAssistant.SplitByPreservation | VSProjects/Weverca.Analysis/MemoryAssistant.cs:486-492 | the current values are the preserved ones together with the others, counted with multiplicity |
| MemoryAssistant.WideningDropsOnlyKnownValues | VSProjects/Weverca.Analysis/MemoryAssistant.cs:494-507 | when every value to be widened was a value of the previous iteration, the result is the preserved values, and it drops each of those values |
| MemoryAssistant.WideningCovers | VSProjects/Weverca.Analysis/MemoryAssistant.cs:486-527 | widening loses no value: each current value was a value of the previous iteration or is covered by a widened value |
| MemoryAssistant.WidenedKindCommonType | VSProjects/Weverca.Analysis/MemoryAssistant.cs:509-526 | the widened value is one unknown value, not preserved, of the type shared by the values it replaces |
| MemoryAssistant.WideningVisitor.constructor | VSProjects/Weverca.Analysis/MemoryAssistant.cs:450-468 | a new widening visitor is in its initial state |
| MemoryAssistant.WideningVisitor.Accept | VSProjects/Weverca.Analysis/MemoryAssistant.cs:532-660 | each visit either keeps the value or clears the flags of the types it does not have, and never changes the list to be widened |
| MemoryAssistant.WideningVisitor.Widen | VSProjects/Weverca.Analysis/MemoryAssistant.cs:468-478 | the visitor's widening of the two iterations is the specified widening |
| MemoryAssistant.WideningVisitor.GetResult | VSProjects/Weverca.Analysis/MemoryAssistant.cs:486-527 | the result after all visits is the specified widening |
| MemoryAssistant.RemoveAll | VSProjects/Weverca.Analysis/MemoryAssistant.cs:488-491 | removing one occurrence of each preserved value leaves the multiset difference |
| MemoryAssistant.AllIn | VSProjects/Weverca.Analysis/MemoryAssistant.cs:494-502 | the search finds exactly whether every remaining value is a value of the previous iteration |
| MemoryAssistant.RemainderIsNotPreserved | VSProjects/Weverca.Analysis/MemoryAssistant.cs:486-491 | after the removals exactly the values to be widened are left |
| MemoryAssistant.OnlyAppend | VSProjects/Weverca.Analysis/MemoryAssistant.cs:532-660 | after one more value each "contains only" flag is still set exactly when it was and the value is preserved or of the flag's type |
| MemoryAssistant.Widen | VSProjects/Weverca.Analysis/MemoryAssistant.cs:96-114 | the assistant's widening is the specified widening of the previous and current iteration |
| NativeFunctions.NativeFunctionAnalyzer.constructor | VSProjects/Weverca.Analysis/NativeAnalyzers/NativeFunctionAnalyzer.cs:184-381 | a new analyser holds the given catalogue and model tables and has created no type-modelled analyser |
| NativeFunctions.NativeFunctionAnalyzer.GetInstance | VSProjects/Weverca.Analysis/NativeAnalyzers/NativeFunctionAnalyzer.cs:565-586 | an unknown name has no model; otherwise the special model wins over the concrete one, which wins over the type-modelled analyser |
| NativeFunctions.NativeFunctionAnalyzer.InitTypeModeledFunction | VSProjects/Weverca.Analysis/NativeAnalyzers/NativeFunctionAnalyzer.cs:592-599 | a function's type-modelled analyser is created only when it has none, and an existing one is kept |
| NativeFunctions.GetInstanceTwice | VSProjects/Weverca.Analysis/NativeAnalyzers/NativeFunctionAnalyzer.cs:565-599 | asking twice for a type-modelled function gives the same analyser, and at most one analyser is created |
| NativeFunctions.ReturnValuesMembers | VSProjects/Weverca.Analysis/NativeAnalyzers/NativeFunctionAnalyzer.cs:699-726 | a value is collected exactly when one of the considered overloads returns it |
| NativeFunctions.ResultTypeMembers | VSProjects/Weverca.Analysis/NativeAnalyzers/NativeFunctionAnalyzer.cs:699-726 | a value is a possible result exactly when an overload accepting the argument count returns it, and only when none of those returns anything do all overloads count |
| NativeFunctions.ComputeResultType | VSProjects/Weverca.Analysis/NativeAnalyzers/NativeFunctionAnalyzer.cs:699-726 | the loop collects exactly the specified result values |
| NativeFunctions.TuplesAreTheProduct | VSProjects/Weverca.Analysis/NativeAnalyzers/NativeFunctionAnalyzer.cs:772-793 | the visited argument tuples are exactly the cartesian product of the non-abstract argument values |
| NativeFunctions.SeesAbstractExactly | VSProjects/Weverca.Analysis/NativeAnalyzers/NativeFunctionAnalyzer.cs:772-793 | an abstract value is met exactly when some argument holds one and every earlier argument holds a non-abstract value |
| NativeFunctions.ConcreteFunctionAnalyzerHelper.constructor | VSProjects/Weverca.Analysis/NativeAnalyzers/NativeFunctionAnalyzer.cs:750-754 | a new helper holds the catalogue and the implementation and has met no abstract value |
| NativeFunctions.ConcreteFunctionAnalyzerHelper.ComputeResult | VSProjects/Weverca.Analysis/NativeAnalyzers/NativeFunctionAnalyzer.cs:757-770 | the results are the implementation's result on every tuple of the product, followed by the type-modelled result exactly when an abstract value was skipped |
| NativeFunctions.ConcreteFunctionAnalyzerHelper.Combination | VSProjects/Weverca.Analysis/NativeAnalyzers/NativeFunctionAnalyzer.cs:772-793 | the recursion appends the implementation's result for every tuple extending the chosen values, and notes whether it met an abstract value |
| NativeFunctions.ConcreteFunctionAnalyzerHelper.CombineValue | VSProjects/Weverca.Analysis/NativeAnalyzers/NativeFunctionAnalyzer.cs:779-791 | one step notes and skips an abstract value and recurses into any other one |
| NativeFunctions.ProcessIsFunctions | VSProjects/Weverca.Analysis/NativeAnalyzers/NativeFunctionAnalyzer.cs:1308-1347 | the loop computes the specified three-valued answer of an `is_*` test |
| NativeFunctions.IsFunctionAnswers | VSProjects/Weverca.Analysis/NativeAnalyzers/NativeFunctionAnalyzer.cs:1308-1347 | `is_*` answers true when every value passes, false when every value is concrete and fails, both when an abstract value fails, and any boolean for a wrong argument count |
| NativeFunctions.ConstantValuesMembers | VSProjects/Realisation/Weverca.Analysis/NativeAnalyzers/NativeFunctionAnalyzer.cs:798-889 | the values a constant receives are exactly the defined values that are neither arrays nor objects |
| NativeFunctions.Define | VSProjects/Realisation/Weverca.Analysis/NativeAnalyzers/NativeFunctionAnalyzer.cs:798-889 | `define` returns the specified answer and, with an accepted argument count, declares one constant per possible name and case sensitivity holding the values that can be constant |
| NativeFunctions.CaseSensitivity | VSProjects/Weverca.Analysis/NativeAnalyzers/NativeFunctionAnalyzer.cs:860-888 | with two arguments the constant is case-sensitive only; otherwise it can be case-insensitive exactly when some value of the third argument converts to true or to no definite boolean, and case-sensitive exactly when some value converts to false or to no definite boolean |
| NativeFunctions.SplitDefinedValues | VSProjects/Realisation/Weverca.Analysis/NativeAnalyzers/NativeFunctionAnalyzer.cs:798-889 | the inner loop keeps the values that can be a constant's and finds whether some can and some cannot |
| NativeFunctions.DefineAnswers | VSProjects/Realisation/Weverca.Analysis/NativeAnalyzers/NativeFunctionAnalyzer.cs:798-889 | `define` answers true when some value can be a constant and false when some cannot, and only false for a wrong argument count |
| NativeFunctions.LaterArgumentValuesMembers | VSProjects/Weverca.Analysis/NativeAnalyzers/NativeFunctionAnalyzer.cs:976-1006 | the pushed values are exactly the values of the arguments after the first |
| NativeFunctions.ArrayPush | VSProjects/Weverca.Analysis/NativeAnalyzers/NativeFunctionAnalyzer.cs:976-1006 | with an accepted argument count and an array, every later argument's values are pushed under an unknown integer index; otherwise nothing is pushed |
| NativeFunctions.ArrayPop | VSProjects/Weverca.Analysis/NativeAnalyzers/NativeFunctionAnalyzer.cs:1008-1027 | with an accepted argument count and an array the result holds undefined and every value at the last index; otherwise there is no result |
| NativeFunctions.ArrayMerge | VSProjects/Weverca.Analysis/NativeAnalyzers/NativeFunctionAnalyzer.cs:1134-1174 | with an accepted argument count the result is the merge of every argument's indexes in order, and there is none otherwise |
| NativeFunctions.MergedIntegerKeys | VSProjects/Weverca.Analysis/NativeAnalyzers/NativeFunctionAnalyzer.cs:1148-1169 | the integer-keyed values are found under 0, 1, 2, … in the order they occur |
| NativeFunctions.MergedOtherKeys | VSProjects/Weverca.Analysis/NativeAnalyzers/NativeFunctionAnalyzer.cs:1148-1169 | every other key holds the values of its last occurrence, and only keys that occur are present |
| NativeFunctions.MergedNoOtherIntegerKeys | VSProjects/Weverca.Analysis/NativeAnalyzers/NativeFunctionAnalyzer.cs:1148-1169 | the only integer keys of the result are the renumbered ones |
| NativeFunctions.MergeRenumbersFromZero | VSProjects/Weverca.Analysis/NativeAnalyzers/NativeFunctionAnalyzer.cs:1134-1174 | `array_merge` renumbers the integer keys of all arguments 0, 1, 2, … in order and keeps every other key with its last value |
| FunctionResolver.CallsEqualIsIdentity | VSProjects/Weverca.Analysis/FunctionResolver.cs:1416-1439 | two call records are equal exactly when their callees are equal, or both absent, and their counts are equal |
| FunctionResolver.IncreaseCalledInfo | VSProjects/Weverca.Analysis/FunctionResolver.cs:588-617 | the loop builds exactly the specified increased records |
| FunctionResolver.DecreaseCalledInfo | VSProjects/Weverca.Analysis/FunctionResolver.cs:628-651 | the loop builds exactly the specified decreased records |
| FunctionResolver.BumpChangesOnlyTheCallee | VSProjects/Weverca.Analysis/FunctionResolver.cs:588-651 | only the records of the callee change, and only by the given amount; no record is dropped |
| FunctionResolver.IncreaseUndoesDecrease | VSProjects/Weverca.Analysis/FunctionResolver.cs:588-651 | an increase after a decrease restores the records when the callee has a record |
| FunctionResolver.DecreaseUndoesIncrease | VSProjects/Weverca.Analysis/FunctionResolver.cs:588-651 | a decrease after an increase restores the records, except that a first call leaves a record of 0 calls behind |
| FunctionResolver.CallCountOfBumped | VSProjects/Weverca.Analysis/FunctionResolver.cs:588-651 | changing every count of the callee by the same amount changes its largest count by that amount |
| FunctionResolver.NoRecordNoCount | VSProjects/Weverca.Analysis/FunctionResolver.cs:930-941 | a callee without a record has been called 0 times |
| FunctionResolver.IncreaseCountsOneMoreCall | VSProjects/Weverca.Analysis/FunctionResolver.cs:588-617 | each call raises the recorded count of the callee by one, also a first one |
| FunctionResolver.MaxTimesCalled | VSProjects/Weverca.Analysis/FunctionResolver.cs:930-941 | the scan of the recorded calls finds the callee's largest count |
| FunctionResolver.ArgumentBounds | VSProjects/Weverca.Analysis/FunctionResolver.cs:1155-1170 | the fewest arguments are the parameters before the trailing run of parameters with defaults, and the most are all parameters |
| FunctionResolver.WrongNumberOfArguments | VSProjects/Weverca.Analysis/FunctionResolver.cs:1155-1170 | the wrong-arity warning is raised exactly when the argument count lies outside those bounds |
| FunctionResolver.Argument | VSProjects/Weverca.Analysis/FunctionResolver.cs:843-851 | a negative argument index is not supported, and any other one is named |
| FunctionResolver.ArgumentNamesDistinct | VSProjects/Weverca.Analysis/FunctionResolver.cs:843-851 | different argument indexes are stored in different variables |
| FunctionResolver.SetCallBranching | VSProjects/Weverca.Analysis/FunctionResolver.cs:873-904 | one warning per bodiless method, the extensions of keys no longer resolved to a callable function are removed, and exactly the callable functions not yet branched to get a new branch |
| FunctionResolver.DropBodiless | VSProjects/Weverca.Analysis/FunctionResolver.cs:877-887 | the first loop keeps exactly the callable functions and warns once per bodiless method |
| FunctionResolver.KeepExtensions | VSProjects/Weverca.Analysis/FunctionResolver.cs:889-903 | the second loop removes exactly the extensions of unresolved keys and leaves new branches only for keys not yet extended |
| FunctionResolver.CallBranches.constructor | VSProjects/Weverca.Analysis/FunctionResolver.cs:56-58 | a new resolver shares no function and no graph |
| FunctionResolver.CallBranches.NewGraph | VSProjects/Weverca.Analysis/FunctionResolver.cs:911-976 | building a graph gives a new graph and changes nothing else |
| FunctionResolver.CallBranches.AddCallBranch | VSProjects/Weverca.Analysis/FunctionResolver.cs:911-976 | a shared function reuses its cached graph or builds and caches it; a function whose recorded calls reach two is marked shared and still gets its own new graph, as does any other; only a cached graph avoids building one, and the call number always grows by one |
| FunctionResolver.SharedCallsShareAGraph | VSProjects/Weverca.Analysis/FunctionResolver.cs:930-973 | once a function is shared, two calls of it are analysed in the same graph and at most one graph is built |
| ExpressionEvaluator.FollowingKeys | VSProjects/Realisation/Weverca.Analysis/ExpressionEvaluator/ExpressionEvaluator.cs:366-380 | the defaults that follow explicit integer keys are never negative |
| ExpressionEvaluator.ArrayEx | VSProjects/Realisation/Weverca.Analysis/ExpressionEvaluator/ExpressionEvaluator.cs:339-444 | the loop writes each element of `array(...)` to the specified index and raises the illegal-offset warning for exactly the keys that may be illegal |
| ExpressionEvaluator.IdentifierAt | VSProjects/Realisation/Weverca.Analysis/ExpressionEvaluator/ExpressionEvaluator.cs:350-441 | each element is written where the default keys left by the elements before it say |
| ExpressionEvaluator.DefaultsNonNegative | VSProjects/Realisation/Weverca.Analysis/ExpressionEvaluator/ExpressionEvaluator.cs:345-426 | default keys are never negative |
| ExpressionEvaluator.KeylessDefaults | VSProjects/Realisation/Weverca.Analysis/ExpressionEvaluator/ExpressionEvaluator.cs:411-426 | without explicit keys, the defaults after n elements are exactly {n} |
| ExpressionEvaluator.KeylessElementsCount | VSProjects/Realisation/Weverca.Analysis/ExpressionEvaluator/ExpressionEvaluator.cs:411-426 | without explicit keys the n-th element is written to index n, so `array(a, b, c)` has the keys 0, 1 and 2 |
| ExpressionEvaluator.KeyThenKeyless | VSProjects/Realisation/Weverca.Analysis/ExpressionEvaluator/ExpressionEvaluator.cs:366-426 | after an element with the single integer key k a keyless element is written to k+1, or to 0 when k is negative |
| ExpressionEvaluator.AnyIndexIffNotConcrete | VSProjects/Realisation/Weverca.Analysis/ExpressionEvaluator/ExpressionEvaluator.cs:428-437 | an element is written to "any index" exactly when its key is not always concrete |
| ExpressionEvaluator.IssetEx | VSProjects/Realisation/Weverca.Analysis/ExpressionEvaluator/ExpressionEvaluator.cs:651-720 | the loop, which stops at the first location that makes the answer indefinite, gives the specified answer |
| ExpressionEvaluator.IssetAnswers | VSProjects/Realisation/Weverca.Analysis/ExpressionEvaluator/ExpressionEvaluator.cs:651-720 | `isset` is definitely true exactly when every location is defined with only concrete defined values, and definitely false exactly when every location is undefined or holds only undefined values |
| ExpressionEvaluator.EmptyEx | VSProjects/Realisation/Weverca.Analysis/ExpressionEvaluator/ExpressionEvaluator.cs:723-784 | the loop gives the specified answer of `empty` |
| ExpressionEvaluator.EmptyAnswers | VSProjects/Realisation/Weverca.Analysis/ExpressionEvaluator/ExpressionEvaluator.cs:723-784 | `empty` is definitely true exactly when the location is undefined or every value converts to false, and definitely false exactly when it is defined with at least one value and every value converts to true |
| ExpressionEvaluator.WithNewArrayContents | VSProjects/Realisation/Weverca.Analysis/ExpressionEvaluator/ExpressionEvaluator.cs:474-520 | the rewritten entry holds exactly the defined values and, when some value was undefined, the new array |
| ExpressionEvaluator.ResolveIndexedVariable | VSProjects/Realisation/Weverca.Analysis/ExpressionEvaluator/ExpressionEvaluator.cs:474-520 | one warning per `$this` among the possible names, and the entry is rewritten exactly when some value was undefined |
| ExpressionEvaluator.ArraysInContents | VSProjects/Realisation/Weverca.Analysis/ExpressionEvaluator/ExpressionEvaluator.cs:973-1014 | the arrays found are exactly the concrete arrays among the values |
| ExpressionEvaluator.ResolveArraysForIndex | VSProjects/Realisation/Weverca.Analysis/ExpressionEvaluator/ExpressionEvaluator.cs:973-1014 | the concrete arrays, whether every value is an array, and whether none is "any array" |
| CSharp.Wrap64 | VSProjects/Weverca.Analysis/FlowResolver/Deprecated/AssumptionExecuter.cs:446-453 | the 64-bit wrap-around of `bound++` and `bound--` differs from the exact value by a multiple of 2^64 and leaves a value that fits unchanged |
| AssumptionExecuter.GetConditionResult | VSProjects/Weverca.Analysis/FlowResolver/Deprecated/AssumptionExecuter.cs:157-177 | the result is unknown exactly when the value does not convert to one boolean, and otherwise the condition holds exactly when that boolean differs from "the form is None" |
| AssumptionExecuter.IsSatisfied | VSProjects/Weverca.Analysis/FlowResolver/Deprecated/AssumptionExecuter.cs:103-115 | a condition the log has no value for is unknown, and one whose value converts to a boolean is decided |
| AssumptionExecuter.RefineState | VSProjects/Weverca.Analysis/FlowResolver/Deprecated/AssumptionExecuter.cs:121-135 | the form All assumes the condition true, None assumes it false, and every other form is not supported |
| AssumptionExecuter.AssumeIsset | VSProjects/Weverca.Analysis/FlowResolver/Deprecated/AssumptionExecuter.cs:596-609 | `isset` makes at most one refinement per variable |
| AssumptionExecuter.AssumeFalseIsNegatedTrue | VSProjects/Weverca.Analysis/FlowResolver/Deprecated/AssumptionExecuter.cs:259-325 | assuming a comparison false is assuming its negation true: `==` and `!=`, `>` and `<=`, `>=` and `<` |
| AssumptionExecuter.NegationSwapsAssumptions | VSProjects/Weverca.Analysis/FlowResolver/Deprecated/AssumptionExecuter.cs:185-325 | logical negation swaps assuming true and assuming false, so a double negation assumes the condition itself |
| AssumptionExecuter.LiteralFirstIsMirrored | VSProjects/Weverca.Analysis/FlowResolver/Deprecated/AssumptionExecuter.cs:351-594 | a literal on the left and a variable on the right are swapped, with `>` and `<` mirrored and `==` kept |
| AssumptionExecuter.GreaterThanLiteralBounds | VSProjects/Weverca.Analysis/FlowResolver/Deprecated/AssumptionExecuter.cs:435-443 | `x > c` narrows x to [c+1, MaxValue] when c is below the maximum and `x >= c` to [c, MaxValue]; every int satisfying the comparison lies in the interval |
| AssumptionExecuter.LessThanLiteralBounds | VSProjects/Weverca.Analysis/FlowResolver/Deprecated/AssumptionExecuter.cs:508-594 | `x < c` narrows x to [MinValue, c-1] when c is above the minimum and `x <= c` to [MinValue, c]; every int satisfying the comparison lies in the interval |
| AssumptionExecuter.IssetRefinesPlainVariables | VSProjects/Weverca.Analysis/FlowResolver/Deprecated/AssumptionExecuter.cs:596-619 | assuming `isset` true removes the undefined value from exactly the plain variables among its operands, and assuming it false assigns undefined to them |
| AssumptionExecuter.ComparisonsRefineOnlyVariables | VSProjects/Weverca.Analysis/FlowResolver/Deprecated/AssumptionExecuter.cs:351-594 | the comparisons narrow nothing but variable-like constructs |
| AssumptionExecuter.AssumptionsRefineOnlyVariables | VSProjects/Weverca.Analysis/FlowResolver/Deprecated/AssumptionExecuter.cs:185-325 | assuming any condition true or false narrows nothing but variable-like constructs |
| FlowResolver.Push | VSProjects/Weverca.Analysis/FlowResolver/FlowResolver.cs:652-657 | the new stack is the old one with the try statement's catch blocks on top |
| FlowResolver.Pop | VSProjects/Weverca.Analysis/FlowResolver/FlowResolver.cs:671-676 | popping removes exactly the innermost level, and an empty stack makes it throw |
| FlowResolver.PopUndoesPush | VSProjects/Weverca.Analysis/FlowResolver/FlowResolver.cs:652-676 | popping after a push gives the original stack back |
| FlowResolver.PushUndoesPop | VSProjects/Weverca.Analysis/FlowResolver/FlowResolver.cs:652-676 | pushing the popped level back onto a non-empty stack gives the original stack |
| FlowResolver.EqualsAsWritten | VSProjects/Weverca.Analysis/FlowResolver/FlowResolver.cs:679-711 | as written, stacks compare equal exactly when they have the same depth |
| FlowResolver.EqualsAsWrittenConfusesStacks | VSProjects/Weverca.Analysis/FlowResolver/FlowResolver.cs:694-695 | as written, two different stacks of the same depth are judged equal |
| FlowResolver.Equals | VSProjects/Weverca.Analysis/FlowResolver/FlowResolver.cs:679-711 | comparing each level with the other stack's level, stacks are equal exactly when they are the same stack |
| FlowResolver.TryScopeStart | VSProjects/Weverca.Analysis/FlowResolver/FlowResolver.cs:322-331 | every possible stack gets the catch blocks of the try statement entered |
| FlowResolver.TryScopeEnd | VSProjects/Weverca.Analysis/FlowResolver/FlowResolver.cs:334-344 | every possible stack loses its innermost level, and an empty one makes the pop throw |
| FlowResolver.MergedDepth | VSProjects/Weverca.Analysis/FlowResolver/FlowResolver.cs:358-375 | merging the possible stacks fails, by indexing past the end, exactly when some stack is deeper than the first non-empty one, and otherwise has that depth |
| FlowResolver.MergedContents | VSProjects/Weverca.Analysis/FlowResolver/FlowResolver.cs:358-375 | each merged level holds exactly the catch blocks some possible stack holds at that level |
| FlowResolver.MergeStacks | VSProjects/Weverca.Analysis/FlowResolver/FlowResolver.cs:358-375 | the loop computes the specified merge |
| FlowResolver.UnwindingPopsToTheCatch | VSProjects/Weverca.Analysis/FlowResolver/FlowResolver.cs:525-533 | catching a type keeps the levels below the innermost level declaring it and drops at least one level; no dropped level above it declares the type, and when none declares it every level goes |
| FlowResolver.Catch | VSProjects/Weverca.Analysis/FlowResolver/FlowResolver.cs:500-537 | a catch of no type does nothing, and otherwise the stack becomes the unwound merge of the possible stacks, or the merge's exception |
| FlowResolver.TopmostCatching | VSProjects/Weverca.Analysis/FlowResolver/FlowResolver.cs:393-429 | the level chosen is the innermost one with a block catching the type or a base class, and there is none exactly when no level catches it |
| FlowResolver.GroupedContents | VSProjects/Weverca.Analysis/FlowResolver/FlowResolver.cs:457-473 | a catch block receives a thrown value exactly when the value is sent there |
| FlowResolver.AllNonObjects | VSProjects/Weverca.Analysis/FlowResolver/FlowResolver.cs:450-456 | every thrown value is a non-object exactly when all of them are counted as warnings |
| FlowResolver.ThrowFatal | VSProjects/Weverca.Analysis/FlowResolver/FlowResolver.cs:475-482 | there is no fatal error exactly when no value warned and something was thrown |
| FlowResolver.RouteValue | VSProjects/Weverca.Analysis/FlowResolver/FlowResolver.cs:379-466 | each thrown value goes where the routing rules say: matching catch blocks for an exception object, every block for an unknown object, and the program end otherwise |
| FlowResolver.Throw | VSProjects/Weverca.Analysis/FlowResolver/FlowResolver.cs:356-485 | the throw fails exactly when the merge of the stacks fails; otherwise every value is routed validly, the blocks receive exactly the values sent to them, the non-objects are counted, and the fatal error follows from that count |
| FlowResolver.RouteAll | VSProjects/Weverca.Analysis/FlowResolver/FlowResolver.cs:379-466 | the loop routes every thrown value, groups them by catch block and counts the non-objects |
| FlowResolver.ThrowFatalIffAllNonObjects | VSProjects/Weverca.Analysis/FlowResolver/FlowResolver.cs:475-478 | the successors are removed exactly when every thrown value is a non-object, or nothing was thrown |
| FlowResolver.ConfirmAssumption | VSProjects/Weverca.Analysis/FlowResolver/FlowResolver.cs:59-82 | a condition known false is not entered, and exactly a condition of unknown truth is refined by the assumption executor |
| FlowResolver.KnownConditionsRefineNothing | VSProjects/Weverca.Analysis/FlowResolver/FlowResolver.cs:59-82 | a condition of known truth is entered exactly when it holds in the form's sense, and refines nothing |
| FlowResolver.UnloggedConditionsAreRefined | VSProjects/Weverca.Analysis/FlowResolver/FlowResolver.cs:59-82 | a condition the log knows nothing about is entered and refined |
| FlowResolver.OnceGuard | VSProjects/Weverca.Analysis/FlowResolver/FlowResolver.cs:158-183 | `include_once` and `require_once` skip a file whose marker has several values or one that is not undefined, and throw on an empty marker; plain inclusions never skip |
| FlowResolver.OnceGuardSkipsOnlyMarkedFiles | VSProjects/Weverca.Analysis/FlowResolver/FlowResolver.cs:158-183 | plain `include` and `require` never skip, a file never marked is included, and a marked one is skipped by the once forms |
| FlowResolver.IncludeCountMeansIncluded | VSProjects/Weverca.Analysis/FlowResolver/FlowResolver.cs:186-197 | the count of inclusions is at least -1, and non-negative exactly when some record of the file has a non-negative count |
| FlowResolver.NumberOfIncludes | VSProjects/Weverca.Analysis/FlowResolver/FlowResolver.cs:186-197 | the scan of the included files finds the specified count |
| FlowResolver.EarlyOutcome | VSProjects/Weverca.Analysis/FlowResolver/FlowResolver.cs:147-183 | of the outcomes decided before any graph, only a missing file warns |
| FlowResolver.SharedGraphAsWritten | VSProjects/Weverca.Analysis/FlowResolver/FlowResolver.cs:203-227 | as written, a shared file with a cached graph reuses it |
| FlowResolver.SharedGraphAsWrittenThrows | VSProjects/Weverca.Analysis/FlowResolver/FlowResolver.cs:206-226 | as written, a shared file whose graph cannot be built makes the dictionary read throw instead of continuing with the warning |
| FlowResolver.IncludeResolver.constructor | VSProjects/Weverca.Analysis/FlowResolver/FlowResolver.cs:44-46 | a new resolver shares no file and no graph |
| FlowResolver.IncludeResolver.IncludeFile | VSProjects/Weverca.Analysis/FlowResolver/FlowResolver.cs:145-257 | a file decided early changes nothing; a shared file reuses its cached graph, or builds and caches it, or warns when it cannot be built; a file included more than twice becomes shared and gets its own graph |
| FlowResolver.SharedIncludesShareAGraph | VSProjects/Weverca.Analysis/FlowResolver/FlowResolver.cs:200-227 | once a file is shared, two inclusions of it are analysed in the same graph and at most one graph is built |
| FlowResolver.RemoveFirstNames | VSProjects/Weverca.Analysis/FlowResolver/FlowResolver.cs:134-141 | taking the first request of a name off the list removes exactly one occurrence of that name |
| FlowResolver.MatchExtensions | VSProjects/Weverca.Analysis/FlowResolver/FlowResolver.cs:134-141 | every extension whose key is not among the named files is removed, and each other one takes one file of its name off the list |
| FlowResolver.MatchExtension | VSProjects/Weverca.Analysis/FlowResolver/FlowResolver.cs:136-140 | one extension key takes a file of its name off the list, or the extension is removed |
| FlowResolver.IncludeFatal | VSProjects/Weverca.Analysis/FlowResolver/FlowResolver.cs:259-269 | `include` is never fatal, and a `require` removes the successors only when every file failed and the names were all concrete |
| FlowResolver.IncludeFiles | VSProjects/Weverca.Analysis/FlowResolver/FlowResolver.cs:115-271 | `Include` matches the extensions first, then includes each remaining file, ending with the exception at an unreadable marker; otherwise every file gets an outcome and the fatal error follows from the warnings |
| FlowResolver.IncludeAll | VSProjects/Weverca.Analysis/FlowResolver/FlowResolver.cs:143-257 | every file included gets its outcome until an unreadable marker ends the loop, and the warnings are counted |
| SnapshotBase.CheckFrozen | VSProjects/Realisation/Weverca.AnalysisFramework/Memory/SnapshotBase.cs:1003-1009 | the check fails, with the frozen-snapshot error, exactly when the snapshot is frozen |
| SnapshotBase.CheckCanUpdate | VSProjects/Realisation/Weverca.AnalysisFramework/Memory/SnapshotBase.cs:994-1001 | updates are allowed exactly inside a transaction of a snapshot that is not frozen, with the frozen error first and the no-transaction error otherwise |
| SnapshotBase.StartStep | VSProjects/Realisation/Weverca.AnalysisFramework/Memory/SnapshotBase.cs:470-485 | starting succeeds exactly when the snapshot is not frozen and no transaction is open, opens one and clears the changed flag, and leaves the snapshot as it was on failure |
| SnapshotBase.CommitStep | VSProjects/Realisation/Weverca.AnalysisFramework/Memory/SnapshotBase.cs:495-539 | a commit outside a transaction or of a frozen snapshot fails and changes nothing; otherwise the transaction is closed and the commit fails exactly when the memory model's commit does |
| SnapshotBase.FreezeStep | VSProjects/Realisation/Weverca.AnalysisFramework/Memory/SnapshotBase.cs:587-597 | freezing succeeds exactly when the snapshot is not frozen and no transaction is open, and then only sets the frozen flag |
| SnapshotBase.ControlKeepsConsistency | VSProjects/Realisation/Weverca.AnalysisFramework/Memory/SnapshotBase.cs:470-597 | starting, committing and freezing keep a snapshot consistent: a frozen snapshot never has a transaction open |
| SnapshotBase.CommitClosesTransaction | VSProjects/Realisation/Weverca.AnalysisFramework/Memory/SnapshotBase.cs:495-539 | a commit of a consistent snapshot never leaves a transaction open, whether or not it fails |
| SnapshotBase.FrozenRefusesEverything | VSProjects/Realisation/Weverca.AnalysisFramework/Memory/SnapshotBase.cs:470-597 | a frozen snapshot refuses every control operation and stays as it is |
| SnapshotBase.TransactionRoundTrip | VSProjects/Realisation/Weverca.AnalysisFramework/Memory/SnapshotBase.cs:470-512 | updates are refused before a transaction and allowed inside it, and a commit closes it with the changed flag the memory model reported |
| SnapshotBase.Rewind | VSProjects/Realisation/Weverca.AnalysisFramework/Memory/SnapshotBase.cs:143-146 | starting a transaction moves the allocation cursor back to the first site and keeps the sites |
| SnapshotBase.Allocate | VSProjects/Realisation/Weverca.AnalysisFramework/Memory/SnapshotBase.cs:794-820 | a creation returns the site under the cursor and moves on, or records the new value as a site when the cursor is past the last one |
| SnapshotBase.AllocateAll | VSProjects/Realisation/Weverca.AnalysisFramework/Memory/SnapshotBase.cs:794-848 | the creations of a transaction return one value each and keep the cursor in range |
| SnapshotBase.AllocationReplaysSites | VSProjects/Realisation/Weverca.AnalysisFramework/Memory/SnapshotBase.cs:138-151 | from a rewound cursor the k-th creation returns the k-th recorded site when there is one and a new value otherwise, and the new values are recorded after the old sites |
| SnapshotBase.SecondPassReusesSites | VSProjects/Realisation/Weverca.AnalysisFramework/Memory/SnapshotBase.cs:138-151 | processing the same program point again creates the same objects as the first pass |
| SnapshotBase.Snapshot.constructor | VSProjects/Realisation/Weverca.AnalysisFramework/Memory/SnapshotBase.cs:463-465 | a new snapshot is neither frozen nor in a transaction and has no assistant; its mode and limit, which the argument-less base constructor leaves at their defaults, are made explicit as the given mode and limit |
| SnapshotBase.Snapshot.StartTransaction | VSProjects/Realisation/Weverca.AnalysisFramework/Memory/SnapshotBase.cs:470-485 | the snapshot's flags follow the start step and both allocation cursors are rewound |
| SnapshotBase.Snapshot.CommitTransaction | VSProjects/Realisation/Weverca.AnalysisFramework/Memory/SnapshotBase.cs:495-539 | the snapshot's flags and failure follow the commit step |
| SnapshotBase.Snapshot.Freeze | VSProjects/Realisation/Weverca.AnalysisFramework/Memory/SnapshotBase.cs:587-597 | the snapshot's flags and failure follow the freeze step |
| SnapshotBase.Snapshot.SetMode | VSProjects/Realisation/Weverca.AnalysisFramework/Memory/SnapshotBase.cs:555-567 | setting the mode is refused when frozen; a new mode is set and counted as a switch, the current mode changes nothing |
| SnapshotBase.Snapshot.SetSimplifyLimit | VSProjects/Realisation/Weverca.AnalysisFramework/Memory/SnapshotBase.cs:573-582 | setting the limit is refused when frozen and otherwise changes only the limit |
| SnapshotBase.Snapshot.InitAssistant | VSProjects/Realisation/Weverca.AnalysisFramework/Memory/SnapshotBase.cs:604-610 | the assistant can be set once, and a second attempt fails and keeps the first |
| SnapshotBase.Snapshot.CreateObject | VSProjects/Realisation/Weverca.AnalysisFramework/Memory/SnapshotBase.cs:794-820 | after the update guard, the object of the next allocation site, or the new object recorded as a site |
| SnapshotBase.Snapshot.CreateArray | VSProjects/Realisation/Weverca.AnalysisFramework/Memory/SnapshotBase.cs:826-848 | the same as creating an object, over the array sites |
| SnapshotBase.ProgramPointRevisited | VSProjects/Realisation/Weverca.AnalysisFramework/Memory/SnapshotBase.cs:794-820 | across two transactions the same program point creates the very same object |
| MemoryPath.NamedSegment | VSProjects/Weverca.MemoryModels/ModularCopyMemoryModel/Memory/MemoryPath.cs:450-455 | a segment built from names holds exactly those names and is not "any" |
| MemoryPath.FlagSegment | VSProjects/Weverca.MemoryModels/ModularCopyMemoryModel/Memory/MemoryPath.cs:460-465 | a segment built from a flag has no names, and the flag decides between "any" and the unknown segment |
| MemoryPath.SegmentConstructors | VSProjects/Weverca.MemoryModels/ModularCopyMemoryModel/Memory/MemoryPath.cs:450-465 | a segment from names is direct exactly when it has one name; a flag segment is never direct and is the unknown one exactly for `false` |
| MemoryPath.SplitJoin | VSProjects/Weverca.MemoryModels/ModularCopyMemoryModel/Memory/MemoryPath.cs:486-511 | names without a bar can be read back from the text that joins them with bars |
| MemoryPath.NamesRendering | VSProjects/Weverca.MemoryModels/ModularCopyMemoryModel/Memory/MemoryPath.cs:486-511 | no names render as `?`, one name as itself, and several as the bar-separated list in braces, from which the names can be read back |
| MemoryPath.SegmentEqualsAsWrittenIsNotSymmetric | VSProjects/Weverca.MemoryModels/ModularCopyMemoryModel/Memory/MemoryPath.cs:522-556 | as written, the index segment with the names x and x equals the one with the names x and y, but not the other way round |
| MemoryPath.SegmentEqualsAgreesWithoutRepeats | VSProjects/Weverca.MemoryModels/ModularCopyMemoryModel/Memory/MemoryPath.cs:522-556 | on segments without repeated names the corrected equality agrees with the comparison as written |
| MemoryPath.SegmentEqualsIsEquivalence | VSProjects/Weverca.MemoryModels/ModularCopyMemoryModel/Memory/MemoryPath.cs:522-556 | the corrected segment equality is reflexive, symmetric and transitive |
| MemoryPath.SegmentEqualsKeepsFlags | VSProjects/Weverca.MemoryModels/ModularCopyMemoryModel/Memory/MemoryPath.cs:522-556 | equal segments are equally direct and equally unknown |
| MemoryPath.Root | VSProjects/Weverca.MemoryModels/ModularCopyMemoryModel/Memory/MemoryPath.cs:226-238 | a root path is well formed and has the one segment, the context and the call level given |
| MemoryPath.Extend | VSProjects/Weverca.MemoryModels/ModularCopyMemoryModel/Memory/MemoryPath.cs:248-260 | an extended path is well formed and is the parent's segments followed by the new one |
| MemoryPath.MakePathAnyVariable | VSProjects/Weverca.MemoryModels/ModularCopyMemoryModel/Memory/MemoryPath.cs:113-116 | the path of any variable is not direct and starts with an "any" segment |
| MemoryPath.MakePathVariable | VSProjects/Weverca.MemoryModels/ModularCopyMemoryModel/Memory/MemoryPath.cs:125-128 | the path of a variable has one segment and is direct exactly for one name |
| MemoryPath.MakePathAnyControl | VSProjects/Weverca.MemoryModels/ModularCopyMemoryModel/Memory/MemoryPath.cs:136-139 | the path of any control variable is not direct and starts with an "any" segment |
| MemoryPath.MakePathControl | VSProjects/Weverca.MemoryModels/ModularCopyMemoryModel/Memory/MemoryPath.cs:148-151 | the path of a control variable has one segment and is direct exactly for one name |
| MemoryPath.MakePathAnyField | VSProjects/Weverca.MemoryModels/ModularCopyMemoryModel/Memory/MemoryPath.cs:158-161 | the path of any field is its parent's segments followed by the "any field" segment, in the parent's context and call level, and not direct |
| MemoryPath.MakePathField | VSProjects/Weverca.MemoryModels/ModularCopyMemoryModel/Memory/MemoryPath.cs:169-172 | the path of a field is its parent's segments followed by a field segment with the given names, in the parent's context and call level |
| MemoryPath.MakePathAnyIndex | VSProjects/Weverca.MemoryModels/ModularCopyMemoryModel/Memory/MemoryPath.cs:179-182 | the path of any index is its parent's segments followed by the "any index" segment, in the parent's context and call level, and not direct |
| MemoryPath.MakePathUnknownIndex | VSProjects/Weverca.MemoryModels/ModularCopyMemoryModel/Memory/MemoryPath.cs:189-192 | the path of the unknown index is its parent's segments followed by the unknown-index segment, in the parent's context and call level, and not direct |
| MemoryPath.MakePathIndex | VSProjects/Weverca.MemoryModels/ModularCopyMemoryModel/Memory/MemoryPath.cs:200-203 | the path of an index is its parent's segments followed by an index segment with the given names, in the parent's context and call level |
| MemoryPath.MakePathTemporary | VSProjects/Weverca.MemoryModels/ModularCopyMemoryModel/Memory/MemoryPath.cs:210-213 | a temporary path is local, at the call level of its temporary index, and not direct |
| MemoryPath.ExtendedPathIsDirect | VSProjects/Weverca.MemoryModels/ModularCopyMemoryModel/Memory/MemoryPath.cs:248-260 | a path extended by segments stays direct exactly while the root and every segment are direct, and grows by one segment each |
| MemoryPath.PathEqualsIsEquivalence | VSProjects/Weverca.MemoryModels/ModularCopyMemoryModel/Memory/MemoryPath.cs:292-323 | the corrected path equality, built on the corrected segment equality, is reflexive, symmetric and transitive |
| MemoryPath.PathEqualsKeepsDirectness | VSProjects/Weverca.MemoryModels/ModularCopyMemoryModel/Memory/MemoryPath.cs:292-323 | paths equal under the corrected path equality are equally direct |
| MemoryPath.ExtendKeepsEquality | VSProjects/Weverca.MemoryModels/ModularCopyMemoryModel/Memory/MemoryPath.cs:248-323 | extending equal paths by equal segments gives equal paths |
| MemoryPath.ExtendText | VSProjects/Weverca.MemoryModels/ModularCopyMemoryModel/Memory/MemoryPath.cs:268-283 | rendering a path extended by one segment appends the segment's text |
| MemoryPath.FieldPathText | VSProjects/Weverca.MemoryModels/ModularCopyMemoryModel/Memory/MemoryPath.cs:788-791 | a field access renders as the parent's text followed by `->` and the field names |
| MemoryPath.IndexPathText | VSProjects/Weverca.MemoryModels/ModularCopyMemoryModel/Memory/MemoryPath.cs:833-836 | an index access renders as the parent's text followed by the index names in brackets |
| ControlFlowGraph.LinkedStack.constructor | VSProjects/Weverca.ControlFlowGraph/CFGVisitor.cs:49-58 | a new stack is empty |
| ControlFlowGraph.LinkedStack.Push | VSProjects/Weverca.ControlFlowGraph/CFGVisitor.cs:55-58 | pushing appends the item on top |
| ControlFlowGraph.LinkedStack.Peek | VSProjects/Weverca.ControlFlowGraph/CFGVisitor.cs:63-66 | peeking gives the last pushed item and throws on an empty stack |
| ControlFlowGraph.LinkedStack.Pop | VSProjects/Weverca.ControlFlowGraph/CFGVisitor.cs:71-76 | popping returns the top item and removes it, and throws on an empty stack |
| ControlFlowGraph.PushPopIsLifo | VSProjects/Weverca.ControlFlowGraph/CFGVisitor.cs:55-76 | a pop gives back the item just pushed and restores the stack |
| ControlFlowGraph.EdgesTo | VSProjects/Weverca.ControlFlowGraph/CFGVisitor.cs:131-148 | one direct edge from each queued block, in order, to the label's block |
| ControlFlowGraph.AfterGoto | VSProjects/Weverca.ControlFlowGraph/CFGVisitor.cs:155-165 | a goto to a label already met is connected to it, and otherwise queued |
| ControlFlowGraph.AfterLabel | VSProjects/Weverca.ControlFlowGraph/CFGVisitor.cs:131-148 | a second label of the same name throws; the first one connects every queued goto and empties the queue |
| ControlFlowGraph.EveryGotoReachesItsLabel | VSProjects/Weverca.ControlFlowGraph/CFGVisitor.cs:131-165 | whatever the order of gotos and label, the record fails exactly when the label occurs twice; with no label every goto stays queued, and with one label the queue is empty and every goto of the name is connected to it |
| ControlFlowGraph.Graph.NewBlock | VSProjects/Weverca.ControlFlowGraph/CFGVisitor.cs:839-839 | a new basic block gets the next number and adds no edge |
| ControlFlowGraph.LabelData.constructor | VSProjects/Weverca.ControlFlowGraph/CFGVisitor.cs:120-123 | a new label record has no queued goto, no block and the position of its first mention |
| ControlFlowGraph.LabelData.HasAssociatedLabel | VSProjects/Weverca.ControlFlowGraph/CFGVisitor.cs:116-116 | a record has its label exactly when the label's block is known |
| ControlFlowGraph.LabelData.AssociateLabel | VSProjects/Weverca.ControlFlowGraph/CFGVisitor.cs:131-148 | the record and the graph change as the label step says: an error for a second label, otherwise the queued gotos connected and the queue cleared |
| ControlFlowGraph.LabelData.AssociateGoto | VSProjects/Weverca.ControlFlowGraph/CFGVisitor.cs:155-165 | the record and the graph change as the goto step says |
| ControlFlowGraph.LabelDataDictionary.GetOrCreateLabelData | VSProjects/Weverca.ControlFlowGraph/CFGVisitor.cs:190-200 | a known name gives its record unchanged, and a new name gets a fresh empty record at this position |
| ControlFlowGraph.CheckLabels | VSProjects/Weverca.ControlFlowGraph/CFGVisitor.cs:251-260 | the check throws the missing-label error at a label mentioned but never defined, and exactly when there is one |
| ControlFlowGraph.NumberedJumpEdges | VSProjects/Weverca.ControlFlowGraph/CFGVisitor.cs:805-822 | a numbered jump adds one conditional edge per enclosing loop, innermost first, the k-th taken when the expression equals k + 1 |
| ControlFlowGraph.CFGVisitor.constructor | VSProjects/Weverca.ControlFlowGraph/CFGVisitor.cs:242-249 | a new visitor has one block, no edges, no enclosing loop and no label; the sink block the constructor pushes onto `functionSinkStack` (CFGVisitor.cs:247) belongs to the return handling, which is not modelled |
| ControlFlowGraph.CFGVisitor.VisitLabelStmt | VSProjects/Weverca.ControlFlowGraph/CFGVisitor.cs:314-326 | a label gets one new block that the current block falls through to, its record follows the label step, and every other label keeps its record and that record's state; every label name has a record of its own |
| ControlFlowGraph.CFGVisitor.VisitGotoStmt | VSProjects/Weverca.ControlFlowGraph/CFGVisitor.cs:332-342 | the current block jumps to the label through its record, the code after the goto starts a new block, and every other label keeps its record and that record's state |
| ControlFlowGraph.CFGVisitor.PushLoop | VSProjects/Weverca.ControlFlowGraph/CFGVisitor.cs:563-566 | entering a loop pushes its targets |
| ControlFlowGraph.CFGVisitor.PopLoop | VSProjects/Weverca.ControlFlowGraph/CFGVisitor.cs:563-566 | leaving a loop pops the targets pushed last |
| ControlFlowGraph.CFGVisitor.VisitJump | VSProjects/Weverca.ControlFlowGraph/CFGVisitor.cs:771-841 | a `break` or `continue` without an expression throws outside every loop and otherwise jumps to the innermost loop's target; with an expression it adds the numbered edges |
| ControlFlowGraph.CFGVisitor.NumberedJump | VSProjects/Weverca.ControlFlowGraph/CFGVisitor.cs:805-822 | the loop adds exactly the numbered jump's edges and one new block per enclosing loop |
| VirtualReferenceModel.IteratedIndex | VSProjects/Realisation/Weverca.MemoryModels/VirtualReferenceModel/Snapshot.cs:603-620 | a meta variable outside the array's prefix is skipped, and one inside it gives the text between the prefix and the closing bracket |
| VirtualReferenceModel.IteratedField | VSProjects/Realisation/Weverca.MemoryModels/VirtualReferenceModel/Snapshot.cs:559-578 | a meta variable outside the object's prefix is skipped, and one inside it gives the text after the prefix |
| VirtualReferenceModel.Delimited | VSProjects/Realisation/Weverca.MemoryModels/VirtualReferenceModel/Snapshot.cs:1192-1213 | a storage name of the form number-then-non-digit starts with another of that form only when both numbers and both delimiters agree |
| VirtualReferenceModel.IndexNameRoundTrip | VSProjects/Realisation/Weverca.MemoryModels/VirtualReferenceModel/Snapshot.cs:1204-1213 | only the storage names of this array's indexes start with its prefix, and each gives back its index |
| VirtualReferenceModel.FieldNameRoundTrip | VSProjects/Realisation/Weverca.MemoryModels/VirtualReferenceModel/Snapshot.cs:1192-1196 | only the storage names of this object's fields start with its prefix, and each gives back its field |
| VirtualReferenceModel.IterateIndexesRoundTrip | VSProjects/Realisation/Weverca.MemoryModels/VirtualReferenceModel/Snapshot.cs:603-620 | iterating an array's indexes over the meta variables yields exactly the indexes stored for that array, in order |
| VirtualReferenceModel.IterateFieldsRoundTrip | VSProjects/Realisation/Weverca.MemoryModels/VirtualReferenceModel/Snapshot.cs:559-578 | iterating an object's fields over the meta variables yields exactly the fields stored for that object, in order |
| VirtualReferenceModel.RepairKind | VSProjects/Realisation/Weverca.MemoryModels/VirtualReferenceModel/Snapshot.cs:1270-1282 | global controls and meta variables keep their kind; any other variable becomes global exactly when forced or in global scope |
| VirtualReferenceModel.RepairKindIsIdempotent | VSProjects/Realisation/Weverca.MemoryModels/VirtualReferenceModel/Snapshot.cs:1270-1282 | repairing a kind twice is repairing it once |
| VirtualReferenceModel.Union | VSProjects/Realisation/Weverca.MemoryModels/VirtualReferenceModel/Snapshot.cs:918-938 | the union holds exactly the values some reference's entry holds |
| VirtualReferenceModel.Resolve | VSProjects/Realisation/Weverca.MemoryModels/VirtualReferenceModel/Snapshot.cs:918-938 | no reference reads undefined, one reads its entry, and several read the union of their entries |
| VirtualReferenceModel.WeakUpdated | VSProjects/Realisation/Weverca.MemoryModels/VirtualReferenceModel/Snapshot.cs:906-916 | a weak update merges the update into every listed reference's entry and leaves every other entry as it was |
| VirtualReferenceModel.Assigned | VSProjects/Realisation/Weverca.MemoryModels/VirtualReferenceModel/Snapshot.cs:796-817 | a variable without a reference gets a new one at the current stamp, and otherwise keeps its references; the written entries are stored |
| VirtualReferenceModel.AssignedIsRead | VSProjects/Realisation/Weverca.MemoryModels/VirtualReferenceModel/Snapshot.cs:796-938 | the variable reads exactly the assigned value after a strong update, and the old values together with it after a weak one |
| VirtualReferenceModel.WeakUpdateIsRead | VSProjects/Realisation/Weverca.MemoryModels/VirtualReferenceModel/Snapshot.cs:906-938 | after a weak update the references read their old values together with the update |
| VirtualReferenceModel.WeakUpdateKeepsValues | VSProjects/Realisation/Weverca.MemoryModels/VirtualReferenceModel/Snapshot.cs:906-916 | a weak update loses nothing: every reference still reads its old values |
| VirtualReferenceModel.VirtualSnapshot.constructor | VSProjects/Realisation/Weverca.MemoryModels/VirtualReferenceModel/Snapshot.cs:97-107 | a new snapshot has no variables, no entries, and the global context stamp |
| VirtualReferenceModel.VirtualSnapshot.IsGlobalScope | VSProjects/Realisation/Weverca.MemoryModels/VirtualReferenceModel/Snapshot.cs:133-145 | the snapshot is in global scope exactly when its context stamp is 0 |
| VirtualReferenceModel.VirtualSnapshot.KeyOf | VSProjects/Realisation/Weverca.MemoryModels/VirtualReferenceModel/Snapshot.cs:1270-1282 | a variable lives in the container of its repaired kind in the current scope |
| VirtualReferenceModel.VirtualSnapshot.ReadValue | VSProjects/Realisation/Weverca.MemoryModels/VirtualReferenceModel/Snapshot.cs:836-859 | a variable that does not exist reads undefined, and an existing one reads what its references resolve to |
| VirtualReferenceModel.VirtualSnapshot.StartMemoryTransaction | VSProjects/Realisation/Weverca.MemoryModels/VirtualReferenceModel/Snapshot.cs:133-145 | starting a transaction resets the context to the global scope and keeps the memory |
| VirtualReferenceModel.VirtualSnapshot.ExtendAsCallMemory | VSProjects/Realisation/Weverca.MemoryModels/VirtualReferenceModel/Snapshot.cs:243-260 | a called context is local, stamped by this snapshot; the containers become the extended ones given, and a given `this` object is then assigned to the local variable `this` as `Assigned` says |
| VirtualReferenceModel.VirtualSnapshot.ExtendMemory | VSProjects/Realisation/Weverca.MemoryModels/VirtualReferenceModel/Snapshot.cs:293-315 | extending takes the stamp of the last input, or keeps the old one without inputs, and the containers become the extended ones given |
| VirtualReferenceModel.VirtualSnapshot.WeakUpdate | VSProjects/Realisation/Weverca.MemoryModels/VirtualReferenceModel/Snapshot.cs:906-916 | the loop performs exactly the specified weak update and changes nothing else |
| VirtualReferenceModel.VirtualSnapshot.Assign | VSProjects/Realisation/Weverca.MemoryModels/VirtualReferenceModel/Snapshot.cs:784-788 | assigning finds or creates the references of the variable's key in its container and writes them as `Assigned` says |
| VirtualReferenceModel.VirtualSnapshot.AssignKey | VSProjects/Realisation/Weverca.MemoryModels/VirtualReferenceModel/Snapshot.cs:790-817 | assigning to a key finds or creates its references, writes them as `Assigned` says, and keeps every variable's references stored |
| VirtualReferenceModel.VirtualSnapshot.AssignReferences | VSProjects/Realisation/Weverca.MemoryModels/VirtualReferenceModel/Snapshot.cs:819-834 | without a reference nothing is written, one reference is written strongly, and several are updated weakly |
| MemoryIndexes.ChildIndex | VSProjects/Weverca.MemoryModels/ModularCopyMemoryModel/Snapshot.cs:1544-1569 | the index of a named array element or field keeps the root and call level of its parent, extends the parent's path by one name and differs from the parent |
| MemoryIndexes.UnknownChild | VSProjects/Weverca.MemoryModels/ModularCopyMemoryModel/Snapshot.cs:1433-1449 | the unknown index of an array keeps the root and call level of its parent, extends the path by one and differs from the parent and from every named child |
| MemoryIndexes.AliasesOf | VSProjects/Weverca.MemoryModels/ModularCopyMemoryModel/Snapshot.cs:1988-1995 | an index has aliases exactly when it is defined and its definition holds an alias entry |
| MemoryIndexes.WithAliases | VSProjects/Weverca.MemoryModels/ModularCopyMemoryModel/Snapshot.cs:1843-1843 | setting the alias entry of an index defines it, adds only that index to the defined ones, gives it exactly the new entry and keeps its array |
| MemoryAliases.AliasAdded | VSProjects/Weverca.MemoryModels/ModularCopyMemoryModel/Snapshot.cs:1813-1844 | adding one must and one may alias adds the must alias unless it is the index itself, removes it from the may set, keeps every other may alias, and puts the may alias (not the index itself) in the may set exactly when it is not a must alias |
| MemoryAliases.AliasAddedAsWritten | VSProjects/Realisation/Weverca.MemoryModels/CopyMemoryModel/Snapshot/Snapshot.cs:1087-1116 | the older AddAlias adds the must alias whatever it is, takes it out of the may set, keeps every other may alias, and adds nothing to the may set but the given may alias |
| MemoryAliases.AliasAddedAsWrittenAliasesItself | VSProjects/Realisation/Weverca.MemoryModels/CopyMemoryModel/Snapshot/Snapshot.cs:1100-1108 | the older AddAlias given the index itself as its must alias produces an entry that names its own index |
| MemoryAliases.AliasAddedKeepsSelfFree | VSProjects/Weverca.MemoryModels/ModularCopyMemoryModel/Snapshot.cs:1827-1840 | the newer AddAlias never makes an entry name the index it belongs to |
| MemoryAliases.AliasesAdded | VSProjects/Weverca.MemoryModels/ModularCopyMemoryModel/Snapshot.cs:1771-1804 | adding sequences of aliases gives disjoint must and may sets: the must set grows by the given must aliases other than the index, the may set by the given may aliases other than the index, less every must alias |
| MemoryAliases.AliasesAddedAsWritten | VSProjects/Realisation/Weverca.MemoryModels/CopyMemoryModel/Snapshot/Snapshot.cs:1047-1078 | the older AddAliases gives disjoint sets that grow by every given alias, the index itself included, with must aliases removed from the may set |
| MemoryAliases.Detached | VSProjects/Weverca.MemoryModels/ModularCopyMemoryModel/Snapshot.cs:1998-2026 | a partner's entry disappears exactly when its only alias of the detached kind was the index and it has none of the other kind; otherwise just the index leaves that set and the other set is kept |
| MemoryAliases.DetachedForgetsIndex | VSProjects/Weverca.MemoryModels/ModularCopyMemoryModel/Snapshot.cs:1998-2026 | a partner whose only alias was the index loses its entry, and a partner that keeps its entry no longer names the index |
| MemoryAliases.DetachedAll | VSProjects/Weverca.MemoryModels/ModularCopyMemoryModel/Snapshot.cs:1998-2026 | detaching a set of partners changes no defined index outside that set and defines no new one |
| MemoryAliases.DestroyedForgetsIndex | VSProjects/Weverca.MemoryModels/ModularCopyMemoryModel/Snapshot.cs:1988-2027 | after the aliases of an index are destroyed, no must partner names it as a must alias and no may partner names it as a may alias |
| MemoryAliases.DetachedAllStep | VSProjects/Weverca.MemoryModels/ModularCopyMemoryModel/Snapshot.cs:1998-2026 | detaching one more partner inside the loop is the same as detaching the set extended by that partner |
| MemoryAliases.DetachedAllSelfFree | VSProjects/Weverca.MemoryModels/ModularCopyMemoryModel/Snapshot.cs:1988-2027 | destroying aliases keeps every entry free of the index it belongs to |
| MemoryAliases.MustSet | VSProjects/Weverca.MemoryModels/ModularCopyMemoryModel/Snapshot.cs:1853-1863 | the entry MustSetAliases builds holds every given must and may alias except the index itself, and nothing else |
| TrackingStructure.Inserted | VSProjects/Weverca.MemoryModels/ModularCopyMemoryModel/Implementation/Structure/TrackingStructure/TrackingSnapshotStructureContainer.cs:361-371 | inserting an index adds exactly that key; an index already defined keeps its definition and a new one gets an empty definition |
| TrackingStructure.TrackingStructureContainer.constructor | VSProjects/Weverca.MemoryModels/ModularCopyMemoryModel/Implementation/Structure/TrackingStructure/TrackingSnapshotStructureContainer.cs:98-110 | an empty container has no stack levels, no definitions, no descriptors, no declarations and no recorded changes |
| TrackingStructure.TrackingStructureContainer.Copy | VSProjects/Weverca.MemoryModels/ModularCopyMemoryModel/Implementation/Structure/TrackingStructure/TrackingSnapshotStructureContainer.cs:117-133 | the copy is a new container with the same stack, definitions, descriptors and declarations and an empty change record |
| TrackingStructure.TrackingStructureContainer.GetReadonlyStackContext | VSProjects/Weverca.MemoryModels/ModularCopyMemoryModel/Implementation/Structure/TrackingStructure/TrackingSnapshotStructureContainer.cs:221-231 | the context of a level is returned exactly when the level is on the stack, and otherwise the out-of-range error |
| TrackingStructure.TrackingStructureContainer.AddStackLevel | VSProjects/Weverca.MemoryModels/ModularCopyMemoryModel/Implementation/Structure/TrackingStructure/TrackingSnapshotStructureContainer.cs:297-307 | the unknown variable and control indexes of the level are defined first; a new level gets an empty context and one already on the stack fails |
| TrackingStructure.TrackingStructureContainer.SetLocalStackLevelNumber | VSProjects/Weverca.MemoryModels/ModularCopyMemoryModel/Implementation/Structure/TrackingStructure/TrackingSnapshotStructureContainer.cs:310-313 | only the local call level changes |
| TrackingStructure.TrackingStructureContainer.NewIndex | VSProjects/Weverca.MemoryModels/ModularCopyMemoryModel/Implementation/Structure/TrackingStructure/TrackingSnapshotStructureContainer.cs:361-371 | the index becomes defined; an index already defined changes nothing, and a new one gets an empty definition and one recorded insertion |
| TrackingStructure.TrackingStructureContainer.RemoveIndex | VSProjects/Weverca.MemoryModels/ModularCopyMemoryModel/Implementation/Structure/TrackingStructure/TrackingSnapshotStructureContainer.cs:374-378 | the index becomes undefined, nothing else is removed, and the deletion is recorded |
| TrackingStructure.TrackingStructureContainer.GetObjects | VSProjects/Weverca.MemoryModels/ModularCopyMemoryModel/Implementation/Structure/TrackingStructure/TrackingSnapshotStructureContainer.cs:425-437 | an undefined index and one without an object container hold no objects; otherwise the objects are those of its container |
| TrackingStructure.TrackingStructureContainer.HasObjectsIffNonEmpty | VSProjects/Weverca.MemoryModels/ModularCopyMemoryModel/Implementation/Structure/TrackingStructure/TrackingSnapshotStructureContainer.cs:411-437 | HasObjects answers true exactly when GetObjects returns a non-empty container |
| TrackingStructure.TrackingStructureContainer.SetObjects | VSProjects/Weverca.MemoryModels/ModularCopyMemoryModel/Implementation/Structure/TrackingStructure/TrackingSnapshotStructureContainer.cs:446-460 | the index holds exactly the given objects afterwards, it becomes defined, and one modification is recorded |
| TrackingStructure.TrackingStructureContainer.SetObjectDescriptor | VSProjects/Weverca.MemoryModels/ModularCopyMemoryModel/Implementation/Structure/TrackingStructure/TrackingSnapshotStructureContainer.cs:440-443 | only the descriptor of that object changes |
| TrackingStructure.TrackingStructureContainer.TryGetArray | VSProjects/Weverca.MemoryModels/ModularCopyMemoryModel/Implementation/Structure/TrackingStructure/TrackingSnapshotStructureContainer.cs:523-537 | an array is found exactly when HasArray holds, and it is the array of the index's definition |
| TrackingStructure.TrackingStructureContainer.GetArray | VSProjects/Weverca.MemoryModels/ModularCopyMemoryModel/Implementation/Structure/TrackingStructure/TrackingSnapshotStructureContainer.cs:493-505 | the array is returned exactly when the index holds one, and otherwise the missing-array error |
| TrackingStructure.TrackingStructureContainer.SetArrayDescriptor | VSProjects/Weverca.MemoryModels/ModularCopyMemoryModel/Implementation/Structure/TrackingStructure/TrackingSnapshotStructureContainer.cs:556-560 | only the descriptor changes, and a modification of its parent index is recorded when it has one |
| TrackingStructure.TrackingStructureContainer.SetArray | VSProjects/Weverca.MemoryModels/ModularCopyMemoryModel/Implementation/Structure/TrackingStructure/TrackingSnapshotStructureContainer.cs:576-599 | the index holds the array afterwards; the array leaves the stack level of its old parent and joins the level of the index, and a missing level fails after the definition was updated |
| TrackingStructure.TrackingStructureContainer.RemoveArray | VSProjects/Weverca.MemoryModels/ModularCopyMemoryModel/Implementation/Structure/TrackingStructure/TrackingSnapshotStructureContainer.cs:602-618 | the index holds no array, the descriptor is gone, the array leaves the stack level of the index, and a missing level fails after the rest was done |
| TrackingStructure.TrackingStructureContainer.AddFunctionDeclaration | VSProjects/Weverca.MemoryModels/ModularCopyMemoryModel/Implementation/Structure/TrackingStructure/TrackingSnapshotStructureContainer.cs:649-654 | the declaration joins the function's declarations, and the change is recorded |
| TrackingStructure.TrackingStructureContainer.SetFunctionDeclarations | VSProjects/Weverca.MemoryModels/ModularCopyMemoryModel/Implementation/Structure/TrackingStructure/TrackingSnapshotStructureContainer.cs:657-662 | the function's declarations are replaced, and the change is recorded |
| TrackingStructure.TrackingStructureContainer.AddClassDeclaration | VSProjects/Weverca.MemoryModels/ModularCopyMemoryModel/Implementation/Structure/TrackingStructure/TrackingSnapshotStructureContainer.cs:693-698 | the declaration joins the class's declarations, and the change is recorded |
| TrackingStructure.TrackingStructureContainer.SetClassDeclarations | VSProjects/Weverca.MemoryModels/ModularCopyMemoryModel/Implementation/Structure/TrackingStructure/TrackingSnapshotStructureContainer.cs:701-706 | the class's declarations are replaced, and the change is recorded |
| TrackingStructure.TrackingStructureContainer.GetAliases | VSProjects/Weverca.MemoryModels/ModularCopyMemoryModel/Implementation/Structure/TrackingStructure/TrackingSnapshotStructureContainer.cs:729-740 | the aliases are returned exactly when the index has an alias entry, and otherwise the missing-alias error |
| TrackingStructure.TrackingStructureContainer.SetAlias | VSProjects/Weverca.MemoryModels/ModularCopyMemoryModel/Implementation/Structure/TrackingStructure/TrackingSnapshotStructureContainer.cs:743-756 | the index has exactly the given alias entry afterwards, it becomes defined, nothing else changes, and one modification is recorded |
| TrackingStructure.TrackingStructureContainer.RemoveAlias | VSProjects/Weverca.MemoryModels/ModularCopyMemoryModel/Implementation/Structure/TrackingStructure/TrackingSnapshotStructureContainer.cs:759-763 | the index has no alias entry afterwards, and the modification is recorded twice because SetAlias records it too |
| ModularSnapshot.ExtendActionFor | VSProjects/Realisation/Weverca.MemoryModels/ModularCopyMemoryModel/Snapshot.cs:2008-2017 | no input does nothing, exactly one input is copied and more than one are merged |
| ModularSnapshot.MaxCallLevel | VSProjects/Weverca.MemoryModels/ModularCopyMemoryModel/Snapshot.cs:2046-2061 | the result is at least the global level, at least every input level, and is the global level or one of the inputs |
| ModularSnapshot.AddAllAliases | VSProjects/Weverca.MemoryModels/ModularCopyMemoryModel/Snapshot.cs:2029-2038 | the target set grows by exactly the given aliases other than the target index, so a set without that index never gains it |
| ModularSnapshot.RemoveMustFromMay | VSProjects/Weverca.MemoryModels/ModularCopyMemoryModel/Snapshot.cs:1794-1800 | the may set loses exactly the must aliases and shares none with the must set |
| ModularSnapshot.ModularSnapshot.constructor | VSProjects/Weverca.MemoryModels/ModularCopyMemoryModel/Snapshot.cs:243-256 | a new snapshot is at the global call level, both current and remembered, with no memory entries |
| ModularSnapshot.ModularSnapshot.AddAlias | VSProjects/Weverca.MemoryModels/ModularCopyMemoryModel/Snapshot.cs:1813-1844 | the entry of the index becomes the AliasAdded entry of its current one (an empty entry when there is none), one modification is recorded, nothing else changes, and no entry names its own index |
| ModularSnapshot.ModularSnapshot.AddAliases | VSProjects/Weverca.MemoryModels/ModularCopyMemoryModel/Snapshot.cs:1771-1804 | the entry of the index becomes the AliasesAdded entry of its current one, one modification is recorded, nothing else changes, and no entry names its own index |
| ModularSnapshot.ModularSnapshot.DetachPartner | VSProjects/Weverca.MemoryModels/ModularCopyMemoryModel/Snapshot.cs:1998-2010 | only the partner's entry changes, to its entry detached from the index, and changes are only appended |
| ModularSnapshot.ModularSnapshot.DetachPartners | VSProjects/Weverca.MemoryModels/ModularCopyMemoryModel/Snapshot.cs:1998-2026 | detaching the partners succeeds exactly when every partner has an alias entry, and then the definitions are those of DetachedAll |
| ModularSnapshot.ModularSnapshot.DetachNext | VSProjects/Weverca.MemoryModels/ModularCopyMemoryModel/Snapshot.cs:1998-2026 | one loop step succeeds exactly when the partner has an entry, and then it extends the detached partners by that one; a failing step changes nothing |
| ModularSnapshot.ModularSnapshot.DestroyAliases | VSProjects/Weverca.MemoryModels/ModularCopyMemoryModel/Snapshot.cs:1988-2027 | destroying succeeds exactly when every partner still has an entry when it is visited; the definitions are then those of DestroyedAliases, and an index without aliases changes nothing |
| ModularSnapshot.ModularSnapshot.MustSetAliases | VSProjects/Weverca.MemoryModels/ModularCopyMemoryModel/Snapshot.cs:1853-1863 | after the aliases are destroyed, the index has exactly the MustSet entry of the given aliases, and no entry names its own index |
| ModularSnapshot.ModularSnapshot.AddAliasAsWritten | VSProjects/Realisation/Weverca.MemoryModels/ModularCopyMemoryModel/Snapshot.cs:1822-1853 | the older AddAlias sets the entry to the AliasAddedAsWritten entry of the current one and records one modification |
| ModularSnapshot.ModularSnapshot.AddAliasesAsWritten | VSProjects/Realisation/Weverca.MemoryModels/ModularCopyMemoryModel/Snapshot.cs:1780-1813 | the older AddAliases sets the entry to the AliasesAddedAsWritten entry of the current one and records one modification |
| ModularSnapshot.ModularSnapshot.CreateField | VSProjects/Weverca.MemoryModels/ModularCopyMemoryModel/Snapshot.cs:1384-1407 | a field name the object already has is an error that changes nothing; otherwise the field index of the object is defined and returned |
| ModularSnapshot.ModularSnapshot.CreateIndex | VSProjects/Weverca.MemoryModels/ModularCopyMemoryModel/Snapshot.cs:1544-1569 | a name the array already has, or an array without a parent, is an error that changes nothing; otherwise the child index of the parent is defined and returned |
| ModularSnapshot.ModularSnapshot.CreateArray | VSProjects/Weverca.MemoryModels/ModularCopyMemoryModel/Snapshot.cs:1433-1472 | a parent that already holds an array is an error that changes nothing; otherwise the parent holds the array, the descriptor names the parent and the unknown child, that child is defined with an undefined entry, and the only other data change empties the entry of a temporary old parent |
| ModularSnapshot.ModularSnapshot.InitializeObject | VSProjects/Weverca.MemoryModels/ModularCopyMemoryModel/Snapshot.cs:425-439 | an object with a descriptor is left as it is; a new one gets a descriptor with no fields and a defined unknown field |
| ModularSnapshot.ModularSnapshot.RemoveUndefinedFromMemoryEntry | VSProjects/Weverca.MemoryModels/ModularCopyMemoryModel/Snapshot.cs:1700-1712 | the undefined value leaves the entry of the index when it is there, and nothing else changes |
| ModularSnapshot.ModularSnapshot.StartTransaction | VSProjects/Realisation/Weverca.MemoryModels/ModularCopyMemoryModel/Snapshot.cs:339-345 | a transaction remembers the call level it started at and changes nothing else |
| ModularSnapshot.ModularSnapshot.ExtendAsCall | VSProjects/Realisation/Weverca.MemoryModels/ModularCopyMemoryModel/Snapshot.cs:722-734 | a call runs one level below its caller, unless a shared function called again keeps the non-global level of its previous call |
| ModularSnapshot.ModularSnapshot.Extend | VSProjects/Realisation/Weverca.MemoryModels/ModularCopyMemoryModel/Snapshot.cs:687-694 | the snapshot takes the call level of its first input, and then copies or merges as ExtendActionFor says; no input is an error |
| ModularSnapshot.ModularSnapshot.MergeWithCallLevel | VSProjects/Realisation/Weverca.MemoryModels/ModularCopyMemoryModel/Snapshot.cs:782-833 | the merge runs at the lower of the caller's and the first output's level and the snapshot ends at the caller's level; no output is an error |
| CopyStructure.Registered | VSProjects/Realisation/Weverca.MemoryModels/CopyMemoryModel/Snapshot/SnapshotStructure.cs:891-915 | registering or unregistering an array at a level succeeds exactly when the level is on the stack; the array is then in (or out of) that level's set and every other level is kept |
| CopyStructure.SnapshotStructure.constructor | VSProjects/Realisation/Weverca.MemoryModels/CopyMemoryModel/Snapshot/SnapshotStructure.cs:228-247 | a new structure has only the global level, with no arrays, its unknown variable and unknown control variable defined, no descriptors and no declarations, and is not locked |
| CopyStructure.SnapshotStructure.Copy | VSProjects/Realisation/Weverca.MemoryModels/CopyMemoryModel/Snapshot/SnapshotStructure.cs:255-274 | the copy is a new unlocked structure with the same contents over the given snapshot data |
| CopyStructure.SnapshotStructure.CopyAndAddLocalLevel | VSProjects/Realisation/Weverca.MemoryModels/CopyMemoryModel/Snapshot/SnapshotStructure.cs:282-301 | the copy has one more call level, with no arrays and with its unknown variable and unknown control variable defined |
| CopyStructure.SnapshotStructure.LockedTest | VSProjects/Realisation/Weverca.MemoryModels/CopyMemoryModel/Snapshot/SnapshotStructure.cs:333-339 | a structural change is refused exactly while the structure is locked |
| CopyStructure.SnapshotStructure.CompareDeclarations | VSProjects/Realisation/Weverca.MemoryModels/CopyMemoryModel/Snapshot/SnapshotStructure.cs:401-424 | two structures compare equal exactly when their function and class declarations are the same, and then they have as many function and class names |
| CopyStructure.SnapshotStructure.NewIndex | VSProjects/Realisation/Weverca.MemoryModels/CopyMemoryModel/Snapshot/SnapshotStructure.cs:581-589 | an unlocked structure defines the index with empty data and an undefined memory entry; a locked one refuses and stays as it was |
| CopyStructure.SnapshotStructure.RemoveIndex | VSProjects/Realisation/Weverca.MemoryModels/CopyMemoryModel/Snapshot/SnapshotStructure.cs:604-610 | an unlocked structure drops the index and its memory entry; a locked one refuses and stays as it was |
| CopyStructure.SnapshotStructure.SetMemoryEntry | VSProjects/Realisation/Weverca.MemoryModels/CopyMemoryModel/Snapshot/SnapshotStructure.cs:1137-1151 | a defined index gets the entry; an undefined one is defined first when the structure is unlocked, and the write is silently dropped when it is locked |
| CopyStructure.SnapshotStructure.GetObjects | VSProjects/Realisation/Weverca.MemoryModels/CopyMemoryModel/Snapshot/SnapshotStructure.cs:708-720 | an undefined index and one without an object container hold no objects; otherwise the objects are those of its container |
| CopyStructure.SnapshotStructure.SetObjectDescriptor | VSProjects/Realisation/Weverca.MemoryModels/CopyMemoryModel/Snapshot/SnapshotStructure.cs:678-683 | an unlocked structure changes only that object's descriptor; a locked one refuses |
| CopyStructure.SnapshotStructure.SetObjects | VSProjects/Realisation/Weverca.MemoryModels/CopyMemoryModel/Snapshot/SnapshotStructure.cs:727-741 | an unlocked structure makes the index hold exactly the given objects; a locked one refuses |
| CopyStructure.SnapshotStructure.SetArrayDescriptor | VSProjects/Realisation/Weverca.MemoryModels/CopyMemoryModel/Snapshot/SnapshotStructure.cs:782-787 | an unlocked structure changes only that array's descriptor; a locked one refuses |
| CopyStructure.SnapshotStructure.SetArray | VSProjects/Realisation/Weverca.MemoryModels/CopyMemoryModel/Snapshot/SnapshotStructure.cs:891-915 | the index holds the array, which leaves its old parent's level and joins the level of the index; a level outside the stack fails after the earlier steps, and a locked structure refuses |
| CopyStructure.SnapshotStructure.RemoveArray | VSProjects/Realisation/Weverca.MemoryModels/CopyMemoryModel/Snapshot/SnapshotStructure.cs:922-939 | the descriptor is dropped, the index holds no array and the array leaves the level of the index; a level outside the stack fails last, and a locked structure refuses |
| CopyStructure.SnapshotStructure.SetFunction | VSProjects/Realisation/Weverca.MemoryModels/CopyMemoryModel/Snapshot/SnapshotStructure.cs:970-975 | an unlocked structure adds the declaration under the function's name; a locked one refuses |
| CopyStructure.SnapshotStructure.SetClass | VSProjects/Realisation/Weverca.MemoryModels/CopyMemoryModel/Snapshot/SnapshotStructure.cs:996-1001 | an unlocked structure adds the declaration under the class's name; a locked one refuses |
| CopyStructure.SnapshotStructure.TryGetAliases | VSProjects/Realisation/Weverca.MemoryModels/CopyMemoryModel/Snapshot/SnapshotStructure.cs:1032-1045 | aliases are found exactly when the index is defined and has an alias entry |
| CopyStructure.SnapshotStructure.GetAliases | VSProjects/Realisation/Weverca.MemoryModels/CopyMemoryModel/Snapshot/SnapshotStructure.cs:1053-1064 | the aliases are returned exactly when the index has an alias entry, and otherwise the missing-alias error |
| CopyStructure.SnapshotStructure.SetAlias | VSProjects/Realisation/Weverca.MemoryModels/CopyMemoryModel/Snapshot/SnapshotStructure.cs:1071-1085 | an unlocked structure gives the index exactly the given alias entry, defining it when needed; a locked one refuses |
| CopyStructure.SnapshotStructure.RemoveAlias | VSProjects/Realisation/Weverca.MemoryModels/CopyMemoryModel/Snapshot/SnapshotStructure.cs:1091-1105 | an unlocked structure clears the alias entry of the index; a locked one refuses |
| CopyStructure.LockedStructureRefusesChanges | VSProjects/Realisation/Weverca.MemoryModels/CopyMemoryModel/Snapshot/SnapshotStructure.cs:333-339 | a locked structure refuses defining, aliasing, array and removal changes one after another and stays as it was |
| CopyModel.CommonCallerContext | VSProjects/Realisation/Weverca.MemoryModels/CopyMemoryModel/Snapshot/Snapshot.cs:252-268 | the loop settles on the first caller context it meets and accepts exactly the outputs whose contexts are absent or equal to it; outputs with two different contexts are refused |
| CopyModel.SameCallerAccepted | VSProjects/Realisation/Weverca.MemoryModels/CopyMemoryModel/Snapshot/Snapshot.cs:252-268 | call outputs that all come from one caller are accepted with that caller |
| CopyModel.LeadingGlobalOutputAccepted | VSProjects/Realisation/Weverca.MemoryModels/CopyMemoryModel/Snapshot/Snapshot.cs:258-266 | an output without a caller context ahead of one with a context is not an error |
| CopyModel.Mismatch | VSProjects/Realisation/Weverca.MemoryModels/CopyMemoryModel/Snapshot/Snapshot.cs:997-1019 | an input differs from the merged context exactly when its caller context, call level or this object differs |
| CopyModel.Snapshot.constructor | VSProjects/Realisation/Weverca.MemoryModels/CopyMemoryModel/Snapshot/Snapshot.cs:80-87 | a new snapshot is at the global level with no caller and no this object, over a new unlocked structure with one level and no arrays |
| CopyModel.Snapshot.ExtendAsCall | VSProjects/Realisation/Weverca.MemoryModels/CopyMemoryModel/Snapshot/Snapshot.cs:239-248 | a call runs one level below its caller, records the caller and the this object, and starts from an unlocked copy of the caller's structure |
| CopyModel.Snapshot.ExtendSnapshot | VSProjects/Realisation/Weverca.MemoryModels/CopyMemoryModel/Snapshot/Snapshot.cs:969-978 | a single input is continued with its caller, level and this object and an unlocked copy of its structure |
| CopyModel.Snapshot.MergeSnapshots | VSProjects/Realisation/Weverca.MemoryModels/CopyMemoryModel/Snapshot/Snapshot.cs:991-1034 | inputs are merged exactly when each has the caller, level and this object of the first; otherwise the first input that differs names the error and the snapshot is unchanged |
| CopyModel.Snapshot.Extend | VSProjects/Realisation/Weverca.MemoryModels/CopyMemoryModel/Snapshot/Snapshot.cs:227-237 | no input leaves the snapshot as it is, one input is copied, and several are merged in the context of the first |
| CopyModel.Snapshot.MergeWithCallLevel | VSProjects/Realisation/Weverca.MemoryModels/CopyMemoryModel/Snapshot/Snapshot.cs:250-278 | the outputs are merged exactly when their caller contexts agree and one exists; the snapshot then takes that caller's own context, level and this object, and otherwise stays as it was |
| CopyModel.Snapshot.ResolveFunction | VSProjects/Realisation/Weverca.MemoryModels/CopyMemoryModel/Snapshot/Snapshot.cs:331-341 | the declarations of a declared function are returned, and an undeclared function is an error |
| CopyModel.Snapshot.DeclareFunction | VSProjects/Realisation/Weverca.MemoryModels/CopyMemoryModel/Snapshot/Snapshot.cs:343-355 | a function is declared exactly when its name is new and the structure is unlocked; otherwise nothing changes |
| CopyModel.Snapshot.DeclareClass | VSProjects/Realisation/Weverca.MemoryModels/CopyMemoryModel/Snapshot/Snapshot.cs:357-369 | a class is declared exactly when its name is new and the structure is unlocked; otherwise nothing changes |
| CopyModel.Snapshot.HasMustReference | VSProjects/Realisation/Weverca.MemoryModels/CopyMemoryModel/Snapshot/Snapshot.cs:563-577 | an index without an entry is an error; otherwise it surely references an object exactly when its entry holds one value and it holds one object |
| CopyModel.Snapshot.MustReferenceIsSingle | VSProjects/Realisation/Weverca.MemoryModels/CopyMemoryModel/Snapshot/Snapshot.cs:563-577 | a must reference names exactly one object and exactly one value |
| CopyModel.Snapshot.AddAlias | VSProjects/Realisation/Weverca.MemoryModels/CopyMemoryModel/Snapshot/Snapshot.cs:1087-1116 | an unlocked structure sets the entry of the index to the AliasAddedAsWritten entry of its current one; a locked one refuses and stays as it was |
| CopyModel.Snapshot.AddAliases | VSProjects/Realisation/Weverca.MemoryModels/CopyMemoryModel/Snapshot/Snapshot.cs:1047-1078 | an unlocked structure sets the entry of the index to the AliasesAddedAsWritten entry of its current one; a locked one refuses and stays as it was |
| CopyModel.Snapshot.DetachPartner | VSProjects/Realisation/Weverca.MemoryModels/CopyMemoryModel/Snapshot/Snapshot.cs:1236-1247 | only the partner's entry changes, to its entry detached from the index; a locked structure refuses |
| CopyModel.Snapshot.DetachPartners | VSProjects/Realisation/Weverca.MemoryModels/CopyMemoryModel/Snapshot/Snapshot.cs:1236-1262 | detaching succeeds exactly when every partner has an entry and, with partners to visit, the structure is unlocked; the definitions are then those of DetachedAll |
| CopyModel.Snapshot.DestroyAliases | VSProjects/Realisation/Weverca.MemoryModels/CopyMemoryModel/Snapshot/Snapshot.cs:1227-1264 | destroying succeeds exactly when every partner still has an entry when it is visited; the definitions are then those of DestroyedAliases, and an index without aliases changes nothing |
| CopyModel.Snapshot.MustSetAliases | VSProjects/Realisation/Weverca.MemoryModels/CopyMemoryModel/Snapshot/Snapshot.cs:1125-1134 | after the aliases are destroyed, the index has exactly the given must and may aliases, itself included |
| CopyModel.Snapshot.CreateField | VSProjects/Realisation/Weverca.MemoryModels/CopyMemoryModel/Snapshot/Snapshot.cs:684-705 | a field name the object already has, or a locked structure, is an error that changes nothing; otherwise the field index is defined with an undefined entry and the descriptor gains the name |
| CopyModel.Snapshot.CreateIndex | VSProjects/Realisation/Weverca.MemoryModels/CopyMemoryModel/Snapshot/Snapshot.cs:841-862 | a name the array already has, an array without a parent or a locked structure is an error that changes nothing; otherwise the child index of the parent is defined and returned |
| CopyModel.CallerContexts | VSProjects/Realisation/Weverca.MemoryModels/CopyMemoryModel/Snapshot/Snapshot.cs:256-263 | the caller contexts of the outputs, one per output and in order |
| CopyModel.CommitResultAsWrittenInverted | VSProjects/Realisation/Weverca.MemoryModels/CopyMemoryModel/Snapshot/Snapshot.cs:139-142 | as written, a commit reports no change for a transaction that changed the data and a change for one that changed nothing |
| CopyModel.CommitResult | VSProjects/Realisation/Weverca.AnalysisFramework/Memory/SnapshotBase.cs:225-236 | a commit reports a change exactly when the data differ from those of the previous transaction |
| CopyModel.CommitResultReportsChange | VSProjects/Realisation/Weverca.AnalysisFramework/Memory/SnapshotBase.cs:225-236 | the corrected commit reports no change for an unchanged transaction and a change for a changed one |
| MergeWorkers.Diagonal | VSProjects/Realisation/Weverca.MemoryModels/CopyMemoryModel/MemoryWorkers/MergeWorker.cs:98-118 | the n pairs that match each level below n to itself, in order |
| MergeWorkers.MergedLevels | VSProjects/Realisation/Weverca.MemoryModels/CopyMemoryModel/MemoryWorkers/MergeWorker.cs:98-118 | the level loop of Merge for one source yields exactly the pairs of LevelMapping |
| MergeWorkers.LevelMappingInRange | VSProjects/Realisation/Weverca.MemoryModels/CopyMemoryModel/MemoryWorkers/MergeWorker.cs:98-118 | every merged pair lands on a level of the target, and a target level receives only its own source level or, outside a call merge, the source's local level |
| MergeWorkers.LocalLevelMerged | VSProjects/Realisation/Weverca.MemoryModels/CopyMemoryModel/MemoryWorkers/MergeWorker.cs:101-113 | the local level of a source at a lower call level is merged into the target's local level, and a call merge merges only the levels below it |
| MergeWorkers.SameLevelIsDiagonal | VSProjects/Realisation/Weverca.MemoryModels/CopyMemoryModel/MemoryWorkers/MergeWorker.cs:98-118 | a source at the target's call level has each of its levels merged into the same level |
| MergeWorkers.DefiningSources | VSProjects/Realisation/Weverca.MemoryModels/CopyMemoryModel/MemoryWorkers/MergeWorker.cs:343-353 | exactly the sources that define the index contribute it, each with its number |
| MergeWorkers.MergeTemporary | VSProjects/Realisation/Weverca.MemoryModels/CopyMemoryModel/MemoryWorkers/MergeWorker.cs:336-355 | the operation of a temporary merges it from every source that defines it and is undefined exactly when some source does not |
| MergeWorkers.UnionOf | VSProjects/Realisation/Weverca.MemoryModels/CopyMemoryModel/MemoryWorkers/MergeWorker.cs:239-255 | the merged values are exactly the values of all the entries |
| MergeWorkers.MergedEntry | VSProjects/Realisation/Weverca.MemoryModels/CopyMemoryModel/MemoryWorkers/MergeWorker.cs:191-230 | a merged location holds every non-array value of its sources, the merged array exactly when some source held an array, and the undefined value when some source lacked the location |
| MergeWorkers.SelectTargetArray | VSProjects/Realisation/Weverca.MemoryModels/CopyMemoryModel/MemoryWorkers/MergeWorker.cs:263-311 | the merged array is the first source array found at the target index itself, else a fresh one, and undefined is reported exactly when some source lacks the index |
| MergeWorkers.MergeDeclarations | VSProjects/Realisation/Weverca.MemoryModels/CopyMemoryModel/MemoryWorkers/MergeWorker.cs:161-170 | the target gains every name of the source and, under each name, every declaration of the source |
| MergeWorkers.AllDeclarationsUnion | VSProjects/Realisation/Weverca.MemoryModels/CopyMemoryModel/MemoryWorkers/MergeWorker.cs:96-124 | the merged declarations of a name are exactly those of the sources that declare it |
| MergeWorkers.MergeAllDeclarations | VSProjects/Realisation/Weverca.MemoryModels/CopyMemoryModel/MemoryWorkers/MergeWorker.cs:96-124 | merging the sources one after the other yields the declarations of all of them |
| MergeWorkers.MergeWorker.constructor | VSProjects/Realisation/Weverca.MemoryModels/CopyMemoryModel/MemoryWorkers/MergeWorker.cs:56-65 | a new worker has no alias entries and an empty operation queue |
| MergeWorkers.MergeWorker.AddAlias | VSProjects/Realisation/Weverca.MemoryModels/CopyMemoryModel/MemoryWorkers/MergeWorker.cs:482-506 | the entry built for the index becomes the AliasAddedAsWritten entry of its current one, and the queue is kept |
| MergeWorkers.MergeWorker.AddAliases | VSProjects/Realisation/Weverca.MemoryModels/CopyMemoryModel/MemoryWorkers/MergeWorker.cs:447-473 | the entry built for the index becomes the AliasesAddedAsWritten entry of its current one, and the queue is kept |
| MergeWorkers.MergeWorker.AddOperation | VSProjects/Realisation/Weverca.MemoryModels/CopyMemoryModel/MemoryWorkers/MergeWorker.cs:423-426 | the operation is queued behind the others, and nothing else changes |
| MergeWorkers.MergeWorker.GetOperation | VSProjects/Realisation/Weverca.MemoryModels/CopyMemoryModel/MemoryWorkers/MergeWorker.cs:432-438 | the oldest queued operation is taken off the queue; an empty queue is an error |
| MergeWorkers.QueueIsFifo | VSProjects/Realisation/Weverca.MemoryModels/CopyMemoryModel/MemoryWorkers/MergeWorker.cs:423-438 | two operations queued on an empty worker are taken in the order they were queued, leaving the queue empty |
| TrackingMerge.Chain | VSProjects/Weverca.MemoryModels/ModularCopyMemoryModel/Implementation/Algorithm/TrackingAlgorithms/MemoryWorkers/AbstractTrackingMergeWorker.cs:460-486 | the trackers reached from a tracker along its predecessors, itself included, are all real trackers |
| TrackingMerge.TrackingMergeWorker.constructor | VSProjects/Weverca.MemoryModels/ModularCopyMemoryModel/Implementation/Algorithm/TrackingAlgorithms/MemoryWorkers/AbstractTrackingMergeWorker.cs:89-96 | a new worker has no collected changes, no source trees and an empty queue, over the given target |
| TrackingMerge.TrackingMergeWorker.AddSourceTree | VSProjects/Weverca.MemoryModels/ModularCopyMemoryModel/Implementation/Algorithm/TrackingAlgorithms/MemoryWorkers/AbstractTrackingMergeWorker.cs:130-142 | one more source gets an empty change tree of its own, and nothing else changes |
| TrackingMerge.TrackingMergeWorker.AddToAllTrees | VSProjects/Weverca.MemoryModels/ModularCopyMemoryModel/Implementation/Algorithm/TrackingAlgorithms/MemoryWorkers/AbstractTrackingMergeWorker.cs:477-483 | every source's change tree gains the given changes, and nothing else changes |
| TrackingMerge.TrackingMergeWorker.Collect | VSProjects/Weverca.MemoryModels/ModularCopyMemoryModel/Implementation/Algorithm/TrackingAlgorithms/MemoryWorkers/AbstractTrackingMergeWorker.cs:471-483 | the collected index, function and class changes gain exactly those of the tracker |
| TrackingMerge.TrackingMergeWorker.StepOver | VSProjects/Weverca.MemoryModels/ModularCopyMemoryModel/Implementation/Algorithm/TrackingAlgorithms/MemoryWorkers/AbstractTrackingMergeWorker.cs:460-486 | one step of the ancestor walk brings the two trackers strictly closer to the start of their chains and keeps what the walk has collected in step with the trackers it passed |
| TrackingMerge.TrackingMergeWorker.CollectGained | VSProjects/Weverca.MemoryModels/ModularCopyMemoryModel/Implementation/Algorithm/TrackingAlgorithms/MemoryWorkers/AbstractTrackingMergeWorker.cs:471-483 | collecting one tracker adds its changes to the change tree, the declaration changes and the current source's tree, and to the others only after the first swap |
| TrackingMerge.TrackingMergeWorker.GetFirstCommonAncestor | VSProjects/Weverca.MemoryModels/ModularCopyMemoryModel/Implementation/Algorithm/TrackingAlgorithms/MemoryWorkers/AbstractTrackingMergeWorker.cs:453-489 | the ancestor's chain is exactly what the two chains share; every tracker passed adds its changes to the change tree, the declaration changes and the current source's tree, and once the walk swapped, to every other source's tree too |
| TrackingMerge.TrackingMergeWorker.CollectSingleFunctionChanges | VSProjects/Weverca.MemoryModels/ModularCopyMemoryModel/Implementation/Algorithm/TrackingAlgorithms/MemoryWorkers/AbstractTrackingMergeWorker.cs:499-535 | the changes collected are exactly those of the trackers of the function walk, which stays at the tracker's call level, passes subprogram merges by their call tracker and stops after a call extension |
| TrackingMerge.TrackingMergeWorker.CreateAndEnqueueOperations | VSProjects/Weverca.MemoryModels/ModularCopyMemoryModel/Implementation/Algorithm/TrackingAlgorithms/MemoryWorkers/AbstractTrackingMergeWorker.cs:544-625 | the queue gains the planned operation of every changed child in order and then the unknown child's operation, and the target container is edited as planned |
| TrackingMerge.TrackingMergeWorker.EnqueueChildren | VSProjects/Weverca.MemoryModels/ModularCopyMemoryModel/Implementation/Algorithm/TrackingAlgorithms/MemoryWorkers/AbstractTrackingMergeWorker.cs:554-606 | the queue gains the planned operations of the changed children in order, and the container is edited as planned |
| TrackingMerge.TrackingMergeWorker.EnqueueStep | VSProjects/Weverca.MemoryModels/ModularCopyMemoryModel/Implementation/Algorithm/TrackingAlgorithms/MemoryWorkers/AbstractTrackingMergeWorker.cs:554-606 | one child's step followed by the plan for the remaining children is the plan for the children from that one on |
| TrackingMerge.TrackingMergeWorker.EnqueueUnknown | VSProjects/Weverca.MemoryModels/ModularCopyMemoryModel/Implementation/Algorithm/TrackingAlgorithms/MemoryWorkers/AbstractTrackingMergeWorker.cs:609-624 | a changed unknown child adds one operation merging the sources' unknown indexes into the target's unknown index, and otherwise nothing is queued |
| TrackingMerge.TrackingMergeWorker.EnqueueChild | VSProjects/Weverca.MemoryModels/ModularCopyMemoryModel/Implementation/Algorithm/TrackingAlgorithms/MemoryWorkers/AbstractTrackingMergeWorker.cs:556-605 | the queue gains the operation ChildOperation plans for the child, if any, and the container is edited as ChildContainer says |
| TrackingMerge.TrackingMergeWorker.ProcessDeleteOperation | VSProjects/Weverca.MemoryModels/ModularCopyMemoryModel/Implementation/Algorithm/TrackingAlgorithms/MemoryWorkers/AbstractTrackingMergeWorker.cs:408-442 | a target index holding an array queues a delete for every child index and then an undefined delete for its unknown index; an array without a descriptor is an error, and any other index queues nothing |
| TrackingMerge.TrackingMergeWorker.EnqueueChildDeletes | VSProjects/Weverca.MemoryModels/ModularCopyMemoryModel/Implementation/Algorithm/TrackingAlgorithms/MemoryWorkers/AbstractTrackingMergeWorker.cs:422-430 | the queue gains exactly one delete operation per child index of the array |
| TrackingMerge.TrackingMergeWorker.ProcessMergeOperation | VSProjects/Weverca.MemoryModels/ModularCopyMemoryModel/Implementation/Algorithm/TrackingAlgorithms/MemoryWorkers/AbstractTrackingMergeWorker.cs:285-385 | an undefined target index is created, which a read-only merge refuses; an array in some source needs a target descriptor, which a read-only merge cannot create; the target array is the target's own, else the first source array at the target index |
| TrackingMerge.FirstSwap | VSProjects/Weverca.MemoryModels/ModularCopyMemoryModel/Implementation/Algorithm/TrackingAlgorithms/MemoryWorkers/AbstractTrackingMergeWorker.cs:462-469 | when the walk first swaps, it has passed exactly the trackers of the first chain newer than the second start |
| TrackingMerge.StepLeavesShared | VSProjects/Weverca.MemoryModels/ModularCopyMemoryModel/Implementation/Algorithm/TrackingAlgorithms/MemoryWorkers/AbstractTrackingMergeWorker.cs:460-486 | stepping back from the newer of two distinct trackers keeps what their chains share, and the tracker stepped over is on neither remaining chain |
| TrackingMerge.FunctionWalkMembers | VSProjects/Weverca.MemoryModels/ModularCopyMemoryModel/Implementation/Algorithm/TrackingAlgorithms/MemoryWorkers/AbstractTrackingMergeWorker.cs:505-535 | every tracker of a function walk is at the function's call level, is not a subprogram merge and is no newer than the start, and a call extension on the walk ends it |
| TrackingMerge.SourceFor | VSProjects/Weverca.MemoryModels/ModularCopyMemoryModel/Implementation/Algorithm/TrackingAlgorithms/MemoryWorkers/AbstractTrackingMergeWorker.cs:639-659 | a source that has the child contributes its index; one that lacks it contributes its unknown index with the whole subtree |
| TrackingMerge.SourcesFor | VSProjects/Weverca.MemoryModels/ModularCopyMemoryModel/Implementation/Algorithm/TrackingAlgorithms/MemoryWorkers/AbstractTrackingMergeWorker.cs:634-663 | the sources of a child's operation are one per source container, in order |
| TrackingMerge.UnknownSources | VSProjects/Weverca.MemoryModels/ModularCopyMemoryModel/Implementation/Algorithm/TrackingAlgorithms/MemoryWorkers/AbstractTrackingMergeWorker.cs:613-617 | the sources of the unknown child's operation are every source's unknown index, in order |
| TrackingMerge.CollectIndexes | VSProjects/Weverca.MemoryModels/ModularCopyMemoryModel/Implementation/Algorithm/TrackingAlgorithms/MemoryWorkers/AbstractTrackingMergeWorker.cs:634-663 | the operation gets SourcesFor the child, the child counts as defined exactly when some source has it, and the operation is undefined exactly when some source lacks it |
| TrackingMerge.TargetContainer.constructor | VSProjects/Weverca.MemoryModels/ModularCopyMemoryModel/Implementation/Algorithm/TrackingAlgorithms/MemoryWorkers/AbstractTrackingMergeWorker.cs:551-551 | a target container over the given owner, unknown index and indexes |
| TrackingMerge.ChildOperation | VSProjects/Weverca.MemoryModels/ModularCopyMemoryModel/Implementation/Algorithm/TrackingAlgorithms/MemoryWorkers/AbstractTrackingMergeWorker.cs:559-604 | a child some source has is merged into the target's index of that name, or a new child index when indexes may be created, undefined when some source lacks it or the container is not always defined; a child no source has is deleted exactly when the target has it |
| TrackingMerge.ChildContainer | VSProjects/Weverca.MemoryModels/ModularCopyMemoryModel/Implementation/Algorithm/TrackingAlgorithms/MemoryWorkers/AbstractTrackingMergeWorker.cs:566-603 | the target container gains the child's index when it is created and loses it when it is deleted, and every other name is kept |
| TrackingMerge.PlannedUnfold | VSProjects/Weverca.MemoryModels/ModularCopyMemoryModel/Implementation/Algorithm/TrackingAlgorithms/MemoryWorkers/AbstractTrackingMergeWorker.cs:554-606 | the plan for the children from one child on starts with that child's operation |
| TrackingMerge.PlannedContainerFacts | VSProjects/Weverca.MemoryModels/ModularCopyMemoryModel/Implementation/Algorithm/TrackingAlgorithms/MemoryWorkers/AbstractTrackingMergeWorker.cs:554-606 | after all changed children, a changed child is in the target container exactly when some source has it and the target had it or could create it, and every other name is as it was |
| TrackingMerge.UnknownOperation | VSProjects/Weverca.MemoryModels/ModularCopyMemoryModel/Implementation/Algorithm/TrackingAlgorithms/MemoryWorkers/AbstractTrackingMergeWorker.cs:609-624 | a changed unknown child gives exactly one operation, on the target's unknown index, undefined and not a delete |
| TrackingMerge.OlderChildOperation | VSProjects/Realisation/Weverca.MemoryModels/ModularCopyMemoryModel/Implementation/Algorithm/TrackingAlgorithms/MemoryWorkers/AbstractTrackingMergeWorker.cs:361-417 | the older merge never deletes a child; a child some source has and the target lacks is created, and a read-only merge refuses it |
| TrackingMerge.OlderAgreesWithNewer | VSProjects/Realisation/Weverca.MemoryModels/ModularCopyMemoryModel/Implementation/Algorithm/TrackingAlgorithms/MemoryWorkers/AbstractTrackingMergeWorker.cs:389-417 | where the older step succeeds on a child some source has, it plans what the newer step plans when it may create indexes |
| TrackingMerge.OlderNeverDeletes | VSProjects/Realisation/Weverca.MemoryModels/ModularCopyMemoryModel/Implementation/Algorithm/TrackingAlgorithms/MemoryWorkers/AbstractTrackingMergeWorker.cs:356-418 | the older merge never plans a delete operation |
| TrackingMerge.OlderWriteableSucceeds | VSProjects/Realisation/Weverca.MemoryModels/ModularCopyMemoryModel/Implementation/Algorithm/TrackingAlgorithms/MemoryWorkers/AbstractTrackingMergeWorker.cs:394-405 | a writeable older merge never fails |
| TrackingMerge.OlderReadonlyFails | VSProjects/Realisation/Weverca.MemoryModels/ModularCopyMemoryModel/Implementation/Algorithm/TrackingAlgorithms/MemoryWorkers/AbstractTrackingMergeWorker.cs:394-405 | a read-only older merge fails exactly when some changed child that a source has is missing from the target |
| TrackingMerge.ChildDeleteOperations | VSProjects/Weverca.MemoryModels/ModularCopyMemoryModel/Implementation/Algorithm/TrackingAlgorithms/MemoryWorkers/AbstractTrackingMergeWorker.cs:422-430 | one delete operation per child index of the array, in the order the children are visited |
| TrackingMerge.MergedArraySources | VSProjects/Weverca.MemoryModels/ModularCopyMemoryModel/Implementation/Algorithm/TrackingAlgorithms/MemoryWorkers/AbstractTrackingMergeWorker.cs:290-333 | whether some source holds an array, whether every source does and the operation is defined, and the first array held at the target index itself |
| TrackingMerge.LevelSources | VSProjects/Weverca.MemoryModels/ModularCopyMemoryModel/Implementation/Algorithm/TrackingAlgorithms/MemoryWorkers/AbstractTrackingMergeWorker.cs:222-240 | the sources that have the stack level, in order, and whether all of them do |
| TrackingMerge.HasLevel | VSProjects/Weverca.MemoryModels/ModularCopyMemoryModel/Implementation/Algorithm/TrackingAlgorithms/MemoryWorkers/AbstractTrackingMergeWorker.cs:224-239 | for each source, whether it has the level |
| TrackingMerge.MergeStackLevels | VSProjects/Weverca.MemoryModels/ModularCopyMemoryModel/Implementation/Algorithm/TrackingAlgorithms/MemoryWorkers/AbstractTrackingMergeWorker.cs:203-249 | a changed level is merged exactly when the target has it or the merge accepts the missing level; its sources are those that have it and it is always defined when all do |
| TrackingMerge.ReachesLevel | VSProjects/Realisation/Weverca.MemoryModels/ModularCopyMemoryModel/Implementation/Algorithm/TrackingAlgorithms/MemoryWorkers/AbstractTrackingMergeWorker.cs:163-170 | for each source, whether its call level reaches the level |
| TrackingMerge.MergeStackLevelsByCallLevel | VSProjects/Realisation/Weverca.MemoryModels/ModularCopyMemoryModel/Implementation/Algorithm/TrackingAlgorithms/MemoryWorkers/AbstractTrackingMergeWorker.cs:148-188 | the older merge merges exactly the changed levels up to the target's call level, from the sources whose call level reaches them |
| TrackingMerge.SelectParentSnapshot | VSProjects/Realisation/Weverca.MemoryModels/ModularCopyMemoryModel/Implementation/Algorithm/TrackingAlgorithms/MemoryWorkers/AbstractTrackingMergeWorker.cs:76-93 | every source must be at the target's call level; the parent is the first source with the most changed indexes, and no source selects none |
| TrackingMerge.FirstMaximumStep | VSProjects/Realisation/Weverca.MemoryModels/ModularCopyMemoryModel/Implementation/Algorithm/TrackingAlgorithms/MemoryWorkers/AbstractTrackingMergeWorker.cs:82-86 | one more source becomes the parent exactly when it has more changed indexes than the current one |
| TrackingMergeStructure.FoldStaysGlobal | VSProjects/Weverca.MemoryModels/ModularCopyMemoryModel/Implementation/Algorithm/TrackingAlgorithms/MemoryWorkers/Merge/TrackingMergeStructureWorker.cs:163-174 | once the local level has been chosen as the global level, it stays global |
| TrackingMergeStructure.FoldAfterChoice | VSProjects/Weverca.MemoryModels/ModularCopyMemoryModel/Implementation/Algorithm/TrackingAlgorithms/MemoryWorkers/Merge/TrackingMergeStructureWorker.cs:163-174 | after a local level was chosen, it is kept while the later call levels agree with it and becomes global otherwise |
| TrackingMergeStructure.LocalLevelChoice | VSProjects/Weverca.MemoryModels/ModularCopyMemoryModel/Implementation/Algorithm/TrackingAlgorithms/MemoryWorkers/Merge/TrackingMergeStructureWorker.cs:151-176 | sources that share one call level give the merged structure that level, sources at different levels give it the global level, and no source gives -1 |
| TrackingMergeStructure.CallLevels | VSProjects/Weverca.MemoryModels/ModularCopyMemoryModel/Implementation/Algorithm/TrackingAlgorithms/MemoryWorkers/Merge/TrackingMergeStructureWorker.cs:153-163 | the call levels of the sources, one per source and in order |
| TrackingMergeStructure.AddLevelIfMissing | VSProjects/Weverca.MemoryModels/ModularCopyMemoryModel/Implementation/Algorithm/TrackingAlgorithms/MemoryWorkers/Merge/TrackingMergeStructureWorker.cs:157-160 | the target gains the level unless it has it, and nothing but the stack grows |
| TrackingMergeStructure.StackExtendedStep | VSProjects/Weverca.MemoryModels/ModularCopyMemoryModel/Implementation/Algorithm/TrackingAlgorithms/MemoryWorkers/Merge/TrackingMergeStructureWorker.cs:155-161 | extending the stack by some levels and then one more extends it by all of them |
| TrackingMergeStructure.OnlyStackGrewStep | VSProjects/Weverca.MemoryModels/ModularCopyMemoryModel/Implementation/Algorithm/TrackingAlgorithms/MemoryWorkers/Merge/TrackingMergeStructureWorker.cs:155-161 | growing the stack twice only grows the stack |
| TrackingMergeStructure.AddMissingLevels | VSProjects/Weverca.MemoryModels/ModularCopyMemoryModel/Implementation/Algorithm/TrackingAlgorithms/MemoryWorkers/Merge/TrackingMergeStructureWorker.cs:155-161 | the target gains, in order, every given level it lacks, and nothing but the stack grows |
| TrackingMergeStructure.CreateStackLevels | VSProjects/Weverca.MemoryModels/ModularCopyMemoryModel/Implementation/Algorithm/TrackingAlgorithms/MemoryWorkers/Merge/TrackingMergeStructureWorker.cs:149-178 | the merged structure has every stack level of every source, keeps the levels it had, and its local level is LocalLevel of the sources' call levels |
| TrackingMergeStructure.AllDeclared | VSProjects/Weverca.MemoryModels/ModularCopyMemoryModel/Implementation/Algorithm/TrackingAlgorithms/MemoryWorkers/Merge/TrackingMergeStructureWorker.cs:238-246 | the merged declarations of a name are exactly those of the sources that declare it |
| TrackingMergeStructure.Overridden | VSProjects/Weverca.MemoryModels/ModularCopyMemoryModel/Implementation/Algorithm/TrackingAlgorithms/MemoryWorkers/Merge/TrackingMergeStructureWorker.cs:236-248 | every changed name gets its merged declarations and every other name is kept |
| TrackingMergeStructure.OverriddenStep | VSProjects/Weverca.MemoryModels/ModularCopyMemoryModel/Implementation/Algorithm/TrackingAlgorithms/MemoryWorkers/Merge/TrackingMergeStructureWorker.cs:236-248 | overriding one more name adds exactly its merged declarations |
| TrackingMergeStructure.MergeFunctionDeclarations | VSProjects/Weverca.MemoryModels/ModularCopyMemoryModel/Implementation/Algorithm/TrackingAlgorithms/MemoryWorkers/Merge/TrackingMergeStructureWorker.cs:236-248 | every changed function name gets the union of its declarations in the sources, and only the declarations and change record differ |
| TrackingMergeStructure.MergeClassDeclarations | VSProjects/Weverca.MemoryModels/ModularCopyMemoryModel/Implementation/Algorithm/TrackingAlgorithms/MemoryWorkers/Merge/TrackingMergeStructureWorker.cs:250-262 | every changed class name gets the union of its declarations in the sources, and only the declarations and change record differ |
| TrackingMergeStructure.UnionDeclared | VSProjects/Weverca.MemoryModels/ModularCopyMemoryModel/Implementation/Algorithm/TrackingAlgorithms/MemoryWorkers/Merge/TrackingMergeStructureWorker.cs:238-246 | the loop over the sources collects exactly the merged declarations of the name |
| TrackingMergeStructure.WithAliasInfo | VSProjects/Weverca.MemoryModels/ModularCopyMemoryModel/Implementation/Algorithm/TrackingAlgorithms/MemoryWorkers/Merge/TrackingMergeStructureWorker.cs:805-816 | looking up an info stores an empty one for an index without one and keeps every other info |
| TrackingMergeStructure.MarkRemoved | VSProjects/Weverca.MemoryModels/ModularCopyMemoryModel/Implementation/Algorithm/TrackingAlgorithms/MemoryWorkers/Merge/TrackingMergeStructureWorker.cs:741-751 | every partner's info records the index as removed, a partner without an info gets one, and every other info is kept |
| TrackingMergeStructure.UpdatedAlias | VSProjects/Weverca.MemoryModels/ModularCopyMemoryModel/Implementation/Algorithm/TrackingAlgorithms/MemoryWorkers/Merge/TrackingMergeStructureWorker.cs:379-399 | the written aliases hold none of the removed aliases, keep every collected alias that was not removed, and come only from the collected aliases and, for an index that is not a merge target, its current ones |
| TrackingMergeStructure.AliasesUpdated | VSProjects/Weverca.MemoryModels/ModularCopyMemoryModel/Implementation/Algorithm/TrackingAlgorithms/MemoryWorkers/Merge/TrackingMergeStructureWorker.cs:379-400 | each collected index gets the aliases UpdatedAlias computes and every other definition is kept |
| TrackingMergeStructure.TrackingMergeStructureWorker.constructor | VSProjects/Weverca.MemoryModels/ModularCopyMemoryModel/Implementation/Algorithm/TrackingAlgorithms/MemoryWorkers/Merge/TrackingMergeStructureWorker.cs:45-57 | a new worker has no collected alias infos |
| TrackingMergeStructure.TrackingMergeStructureWorker.GetAliasInfo | VSProjects/Weverca.MemoryModels/ModularCopyMemoryModel/Implementation/Algorithm/TrackingAlgorithms/MemoryWorkers/Merge/TrackingMergeStructureWorker.cs:805-816 | the info of an index is returned, and a missing one is created empty and stored |
| TrackingMergeStructure.TrackingMergeStructureWorker.AddAlias | VSProjects/Weverca.MemoryModels/ModularCopyMemoryModel/Implementation/Algorithm/TrackingAlgorithms/MemoryWorkers/Merge/TrackingMergeStructureWorker.cs:784-803 | the alias info of the index becomes the AliasAddedAsWritten entry of its current one, and infos whose must and may sets were disjoint stay so |
| TrackingMergeStructure.TrackingMergeStructureWorker.AddAliases | VSProjects/Weverca.MemoryModels/ModularCopyMemoryModel/Implementation/Algorithm/TrackingAlgorithms/MemoryWorkers/Merge/TrackingMergeStructureWorker.cs:761-782 | the alias info of the index becomes the AliasesAddedAsWritten entry of its current one, with disjoint must and may sets |
| TrackingMergeStructure.TrackingMergeStructureWorker.MarkRemovedFrom | VSProjects/Weverca.MemoryModels/ModularCopyMemoryModel/Implementation/Algorithm/TrackingAlgorithms/MemoryWorkers/Merge/TrackingMergeStructureWorker.cs:741-751 | the index is recorded as removed in the info of each partner |
| TrackingMergeStructure.TrackingMergeStructureWorker.DeleteAliases | VSProjects/Weverca.MemoryModels/ModularCopyMemoryModel/Implementation/Algorithm/TrackingAlgorithms/MemoryWorkers/Merge/TrackingMergeStructureWorker.cs:739-753 | a deleted index is recorded as removed in the info of each of its must and then may aliases, and every other info is kept |
| TrackingMergeStructure.TrackingMergeStructureWorker.UpdateAlias | VSProjects/Weverca.MemoryModels/ModularCopyMemoryModel/Implementation/Algorithm/TrackingAlgorithms/MemoryWorkers/Merge/TrackingMergeStructureWorker.cs:381-399 | one collected index gets the aliases UpdatedAlias computes, one modification is recorded, and only the definitions change |
| TrackingMergeStructure.TrackingMergeStructureWorker.UpdateAliases | VSProjects/Weverca.MemoryModels/ModularCopyMemoryModel/Implementation/Algorithm/TrackingAlgorithms/MemoryWorkers/Merge/TrackingMergeStructureWorker.cs:377-401 | every collected index gets the aliases UpdatedAlias computes from its info and current aliases, each is recorded as modified, and only the definitions change |
| TrackingMergeStructure.RecordsModifiedStep | VSProjects/Weverca.MemoryModels/ModularCopyMemoryModel/Implementation/Algorithm/TrackingAlgorithms/MemoryWorkers/Merge/TrackingMergeStructureWorker.cs:379-400 | recording one more written index extends the recorded modifications by it |
| TrackingMergeStructure.DeletedAliasDropped | VSProjects/Weverca.MemoryModels/ModularCopyMemoryModel/Implementation/Algorithm/TrackingAlgorithms/MemoryWorkers/Merge/TrackingMergeStructureWorker.cs:377-401 | once the aliases of a deleted index are deleted, writing the aliases of any of its partners leaves the deleted index out, whatever the partner's current aliases |
| TrackingMergeStructure.MarkRemovedStep | VSProjects/Weverca.MemoryModels/ModularCopyMemoryModel/Implementation/Algorithm/TrackingAlgorithms/MemoryWorkers/Merge/TrackingMergeStructureWorker.cs:741-751 | marking one more partner reads its info as it was before any marking |
| TrackingMergeStructure.AliasesUpdatedStep | VSProjects/Weverca.MemoryModels/ModularCopyMemoryModel/Implementation/Algorithm/TrackingAlgorithms/MemoryWorkers/Merge/TrackingMergeStructureWorker.cs:379-400 | writing one more collected index reads its aliases as they were before the update |

## Left out

- Floating point. Double values and float intervals are tags (`Float`, `FloatInterval`), so a float result is "some float" and no float arithmetic is modelled. This covers `TryConvertToInteger(double)`, the `double.TryParse` and hexadecimal-overflow paths of `TryConvertToNumber`, and the float part of the simplifier and widening.
- TypeConversion.ConvertToNumber: its own contract says only that a failed reading gives 0 and that a hexadecimal reading happens only where hexadecimal is allowed. The hexadecimal result is stated by `TypeConversion.ConvertToNumberHexadecimal`, and the decimal one by `TypeConversion.NoLeadingDigitsNoNumber`, `TypeConversion.ToStringIntRoundTrip` and `TypeConversion.ScannerReadsSignedPrefix`; no lemma gives the decimal value of an arbitrary digit run.
- MemoryAssistant.SimpleText: the digits `double.ToString` gives a float are not modelled, because floats are tags. A float's text is `FloatDigits`, a non-empty text that is not spelled out.
- MemoryAssistant.ConvertedStrings: a float's text is kept in its place as `FloatDigits`, not as its characters.
- MemoryAssistant.ConvertedStringsComplete: for a float it promises that `FloatDigits` is among the texts, not the float's characters.
- MemoryAssistant.SimpleStringConverter.Evaluate: the texts of floats are `FloatDigits`, as in `ConvertedStrings`.
- MemoryAssistant.WriteStringIndex: writing a float at a non-negative position gives "any string" instead of the string with the first character of the float's text, which the model does not know.
- Modulo by a string or a double divisor (ModuloOperation.cs:811-859) is not modelled, because it goes through float conversion.
- `Add(interval, interval)` in ArithmeticOperation.cs is not modelled: only the integer and integer-with-interval paths are in this model.
- Unary operators are modelled only for the operand kinds undefined, boolean, integer, integer interval, any boolean, any integer and any value. The object and array casts of these operands give the tags `AnyObject` and `AnyArray`, not new objects or arrays. The other visitor methods of the evaluator forward to framework classes that are not part of this model.
- `AnyBooleanToIntegerInterval` is not part of this model; it is taken to be the interval [0, 1].
- The XML catalogue loading of both `NativeFunctionAnalyzer` constructors is library I/O. The resulting dictionaries are parameters.
- The native `_constant` and `analyze` entry points, the concrete push and pop variants and `checkArgumentTypes` are not modelled. The `is_*` tests are modelled by `Passes`.
- ExpressionEvaluator: the results of the value converters and of the index evaluator are inputs, and writes into the snapshot are not modelled.
- `GetWarnings` sorting in Warnings.cs is not modelled; the stores are modelled as sets per variable.
- FlowResolver: `Eval` and `CallDispatchMerge` call into the program-point graph and the parser, which are not part of this model.
- The tracker's `SetCallLevel` and the `IsTargetOfMerge` flag of an alias info are not modelled as operations. The flag is a field, and no modelled code sets it.
- TrackingMergeStructureWorker's own child planning is not modelled separately. This covers its `createAndEnqueueOperations` and `enqueueDeleteOperation`, which also removes the child from the target container. The shared worker's planning is modelled in `TrackingMerge`.
- The structure worker's `processDeleteOperation`, `DeleteArray` and `mergeObjectDefinitions` are not modelled.
- TrackingMerge.TrackingMergeWorker.ProcessMergeOperation: the merge of array descriptors and the recursive enqueueing after the target part are not modelled; the contract covers the choice of sources and target.
- Where the code enumerates a set, such as dictionary keys or the changes of a tracker, the order is modelled as a given sequence without repeats. Properties that depend on one particular order are not stated.
- CopyModel: `ThisObject` is compared by value, not by reference.
- CopyModel: `SnapshotData`, which `commitTransaction` compares, is not part of this model. The commit is modelled on the structure state, compared by content (see Findings).
- Object identity of snapshots, containers and tracker nodes is modelled as numbers (ids), not as references. Aliasing between two distinct objects is therefore not captured.
- The Phalanger syntax tree and the program-point graph are not part of this model: statements, expressions and blocks are small datatypes and numbers. The control-flow-graph visitors beyond label, goto, break and continue handling are not part of this model.
- The application, benchmark, logging and test code are not part of this model.
- Static singletons (`instance` fields, static warning sets, the `SNAP_ID` counter) are explicit state in this model, not globals.
- AnalysisWarnings.CompareWarnings: `string.Compare` depends on the current culture and is not modelled; the name comparison is a parameter, so nothing is promised about the order of two different file names unless that parameter is known, as in `AnalysisWarnings.CompareToOrdinal`.
- TypeConversion.IsDigit: only the ASCII digits count as digits. `char.IsDigit` accepts every Unicode decimal digit (TypeConversion.cs:1073 and 1136), whose table depends on the .NET version. For such a digit, `SkipDigits` and `HexDigitValue` in the source go on where the model stops, and the hexadecimal path adds `c - '0'`, which is not below 16.
- TypeConversion.HexDigitValue: see `TypeConversion.IsDigit`; non-ASCII decimal digits are not hexadecimal digits here.
- TypeConversion.SkipDigits: see `TypeConversion.IsDigit`; the run of digits ends at the first non-ASCII-digit character.
- Comparison.OrdinalCompare: characters are Unicode scalar values, while .NET compares UTF-16 code units. The two orders differ only between a character above U+FFFF and one in U+E000 to U+FFFF.
- ModularSnapshot.ModularSnapshot.CreateField: the `copyFromUnknown` branch (Snapshot.cs:1401-1404) is not modelled. It copies the unknown field into the new one through the memory algorithm's `CopyMemory`, which is not part of this model. The contract is that of a call without the flag.
- ModularSnapshot.ModularSnapshot.CreateIndex: the `copyFromUnknown` branch (Snapshot.cs:1563-1566) is not modelled, for the same reason as in `CreateField`.
- ModularSnapshot.ModularSnapshot.CreateArray: of `closeTemporaryArray` (Snapshot.cs:1462-1472), only the emptying of the temporary parent's entry is modelled. `ReleaseTemporary` and `ReleaseMemory` of the old unknown index go through `DestroyMemory`, which is in the memory algorithm and not part of this model, so the old indexes stay defined here. The error paths after the parent check leave the snapshot unspecified.
- CopyModel.Snapshot.CreateField: the `copyFromUnknown` branch (CopyMemoryModel/Snapshot/Snapshot.cs:699-702) is not modelled. `CopyMemory` is not part of this model; the contract is that of a call without the flag.
- CopyModel.Snapshot.CreateIndex: the `copyFromUnknown` branch (CopyMemoryModel/Snapshot/Snapshot.cs:856-859) is not modelled, for the same reason.
- VirtualReferenceModel.VirtualSnapshot.ExtendAsCallMemory: `ExtendBy` of the variable and data containers is not part of this model. The extended containers are inputs, so the merge of the caller's containers into these is not captured.
- VirtualReferenceModel.VirtualSnapshot.ExtendMemory: `ClearCurrent` and `ExtendBy` of the containers are not part of this model. The containers after extending by every input are inputs.
- FlowResolver.Throw: the "Only objects can be thrown" warning is counted but not stored in the warning handler (FlowResolver.cs:450-452), and the "Only objects derived from Exception can be thrown" warning that FlowResolver.cs:388 sets for an object of a class not derived from Exception is not modelled either; that value is still routed to the program end. The warning storage is modelled on its own in `AnalysisWarnings`.
- TrackingStructure.TrackingStructureContainer.SetArrayDescriptor: a descriptor without a parent index records no modification. The source passes the missing parent, a null reference, to the change tracker; this model has no null index.
- ModuloOperation: `Modulo(double, int)` (ModuloOperation.cs:67-88) has the same unguarded remainder of the converted integer. Because floats are tags, the conversion of a double to an integer is not modelled, so this path is not part of this model.
- AnalysisWarnings.AnalysisWarningHandler.SetWarning: the security store tells warnings apart by owning graph, as if hash codes of different graphs never collided. A collision would let `Equals` merge two such warnings in the source; hash values are not modelled.
- AnalysisWarnings.SecurityStoreKeepsEqualWarningsOfTwoGraphs: the owning graph is a number given with the warning, since the program-point graph is not part of this model.
- MemoryAssistant.WriteStringIndex: the flags that `FlagsHandler.CopyFlags` copies from the indexed string onto every written value (MemoryAssistant.cs:338-353) are not modelled; the results carry no taint or info flags.
- MemoryAssistant.Simplifier.Simplify: the flags of the strings that the collapsed "any string" carries (MemoryAssistant.cs:823) are not modelled.
- MemoryAssistant.WideningVisitor.GetResult: the flags that widening gathers and attaches with `SetInfo` (MemoryAssistant.cs:470, 522 and 525) are not modelled.
- MemoryPath.PathEqualsIsEquivalence: the corrected path equality leaves out the `hashCode == other.hashCode` test of MemoryPath.cs:302. That is harmless for it: the hash is a function of the global flag, the call level and the segments' hashes (MemoryPath.cs:336-355), and a segment's hash XORs the hashes of its names with its type and `IsAny` (MemoryPath.cs:564-572), which does not depend on the order of the names. Paths that are equal under the corrected equality therefore have equal hashes. The test only adds hash-collision behaviour to the as-written segment equality.
- MemoryPath.PathEquals: see `MemoryPath.PathEqualsIsEquivalence`; the cached hash codes are not compared.
- FunctionResolver.IncreaseCalledInfo: its `KnownCallees` precondition asks every call record to name a callee. A record with a null callee would make `Callee.Equals` throw (FunctionResolver.cs:597); that exception is not modelled.
- FunctionResolver.DecreaseCalledInfo: the same `KnownCallees` precondition, for the same null-callee exception (FunctionResolver.cs:636).
- TrackingStructure: the container's `callArrays` (TrackingSnapshotStructureContainer.cs:74 and 540), the arrays created per call level, are not modelled.
- FlowResolver.IncludeResolver.IncludeFile: the include-once marker is an input, so its `varIncluded.WriteMemory` (FlowResolver.cs:240) appears only as an outcome of the include, not as a write into a snapshot.
- Concurrency does not occur in the modelled code.

## Findings

| source | as written | input that shows it | evidently intended | confidence | as-written member | corrected member |
|---|---|---|---|---|---|---|
| VSProjects/Realisation/Weverca.Analysis/ExpressionEvaluator/BinaryOperations/ModuloOperation.cs:931-978 | the width `End - Start` of a non-positive dividend interval is computed with 32-bit wrap-around | [int.MinValue, 0] modulo 2 gives [0, 0], but -1 % 2 is -1 | the width compared without overflow, so the fallback [1 - r, 0] is taken | not executed | ModuloOperation.NegativeDividendModuloAsWritten, ModuloOperation.NegativeDividendModuloAsWrittenMissesRemainder | ModuloOperation.NegativeDividendModulo |
| VSProjects/Realisation/Weverca.Analysis/ExpressionEvaluator/BinaryOperations/ModuloOperation.cs:46-57 | `dividend % divisor` is evaluated for every non-zero divisor | int.MinValue % -1 throws an overflow exception in .NET | the remainder 0 | not executed | ModuloOperation.ModuloIntsAsWritten, ModuloOperation.ModuloIntsAsWrittenOverflows | ModuloOperation.ModuloInts |
| VSProjects/Realisation/Weverca.Analysis/ExpressionEvaluator/BinaryOperations/ModuloOperation.cs:96-121 | the integer read from a string dividend is reduced with an unguarded `integerValue % divisor` | the string "-2147483648" modulo -1 throws an overflow exception in .NET | the remainder 0 | not executed | ModuloOperation.ModuloStringByIntAsWritten, ModuloOperation.ModuloStringByIntAsWrittenOverflows | ModuloOperation.ModuloStringByInt, ModuloOperation.ModuloOfPrintedInteger |
| VSProjects/Realisation/Weverca.Analysis/ExpressionEvaluator/BinaryOperations/ArithmeticOperation.cs:269-283 | the overflow guard divides int.MaxValue by the multiplier and compares, which is wrong for negative operands | 5 * -1 throws; -1 * -1 becomes a float; int.MinValue * 2 stays the int 0 | an integer result exactly when the product fits in 32 bits | not executed | ArithmeticOperation.MultiplyIntsAsWritten, ArithmeticOperation.MultiplyIntsAsWrittenCounterexamples | ArithmeticOperation.MultiplyInts |
| VSProjects/Realisation/Weverca.Analysis/ExpressionEvaluator/BinaryOperations/ArithmeticOperation.cs:332-352 | the divisibility test `dividend % divisor` runs before the overflow test | int.MinValue / -1 throws | the quotient becomes a float | not executed | ArithmeticOperation.DivideIntsAsWritten, ArithmeticOperation.DivideIntsAsWrittenOverflows | ArithmeticOperation.DivideInts |
| VSProjects/Realisation/Weverca.Analysis/ExpressionEvaluator/BinaryOperations/ArithmeticOperation.cs:694-725 | for a negative multiplicand the guard divides by the interval's end | -3 times [-5, 0] divides by 0 | [0, 15], since both end products fit | not executed | ArithmeticOperation.MultiplyIntIntervalAsWritten, ArithmeticOperation.MultiplyIntIntervalAsWrittenThrows | ArithmeticOperation.MultiplyIntInterval |
| VSProjects/Realisation/Weverca.Analysis/ExpressionEvaluator/UnaryOperationEvaluator.cs:301-315 | unary minus negates with wrap-around, and the test for a float result can never hold | -int.MinValue gives int.MinValue | a float, since the negation does not fit | not executed | UnaryOperation.NegateIntegerAsWritten, UnaryOperation.NegateIntegerAsWrittenWraps | UnaryOperation.NegateInteger |
| VSProjects/Realisation/Weverca.Analysis/ExpressionEvaluator/UnaryOperationEvaluator.cs:725-738 | interval minus negates both ends with wrap-around | -[int.MinValue, 0] gives the inverted interval [0, int.MinValue] | a float interval | not executed | UnaryOperation.NegateIntervalAsWritten, UnaryOperation.NegateIntervalAsWrittenInverts | UnaryOperation.NegateInterval |
| VSProjects/Weverca.Analysis/MemoryAssistant.cs:342-345 | a write past the end of a string appends a single space and then the character | writing x at position 5 of "ab" gives "ab x", so position 5 reads back the empty string | padding with spaces up to the position, as PHP does | not executed | MemoryAssistant.WrittenStringAsWritten, MemoryAssistant.WrittenStringAsWrittenLosesCharacter | MemoryAssistant.WrittenString |
| VSProjects/Weverca.Analysis/FlowResolver/FlowResolver.cs:694-695 | `TryBlockStack.Equals` compares each level of this stack with the same level of this stack | two stacks of depth 1 with different catch blocks are equal | a comparison of this stack with the other one | not executed | FlowResolver.EqualsAsWritten, FlowResolver.EqualsAsWrittenConfusesStacks | FlowResolver.Equals |
| VSProjects/Weverca.Analysis/FlowResolver/FlowResolver.cs:206-226 | after the graph of a shared file fails to build, the warning is raised and the dictionary is then read at the missing key | a file included twice that cannot be parsed | go on with the warning only | not executed | FlowResolver.SharedGraphAsWritten, FlowResolver.SharedGraphAsWrittenThrows | FlowResolver.IncludeResolver.IncludeFile |
| VSProjects/Weverca.MemoryModels/ModularCopyMemoryModel/Memory/MemoryPath.cs:522-556 | segment equality checks equal name counts and that each name of this segment is among the other's | the names x, x equal the names x, y, but x, y do not equal x, x | equality of the names as a multiset, which is symmetric | not executed | MemoryPath.SegmentEqualsAsWritten, MemoryPath.SegmentEqualsAsWrittenIsNotSymmetric | MemoryPath.SegmentEquals, MemoryPath.SegmentEqualsIsEquivalence |
| VSProjects/Realisation/Weverca.MemoryModels/CopyMemoryModel/Snapshot/Snapshot.cs:1087-1116 | the older `AddAlias` adds the given must alias even when it is the index itself | an index given itself as its must alias gets an entry that names itself | the newer snapshot skips the index itself (ModularCopyMemoryModel/Snapshot.cs:1813-1844) | not executed | MemoryAliases.AliasAddedAsWritten, MemoryAliases.AliasAddedAsWrittenAliasesItself | MemoryAliases.AliasAdded, MemoryAliases.AliasAddedKeepsSelfFree |
| VSProjects/Realisation/Weverca.MemoryModels/CopyMemoryModel/Snapshot/Snapshot.cs:139-142 | `commitTransaction` returns `Data.Equals(oldData)`, true when the data are equal | a transaction that writes a new value is reported as unchanged, and one that writes nothing as changed | true exactly when the content differs, as `commitTransaction` is documented in SnapshotBase.cs:225-236 | not executed | CopyModel.CommitResultAsWritten, CopyModel.CommitResultAsWrittenInverted | CopyModel.CommitResult, CopyModel.CommitResultReportsChange |

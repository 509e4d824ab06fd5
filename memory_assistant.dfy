/**
 * The memory assistant: what the analyser does when PHP code indexes a string
 * or a value that is neither a string nor an array, how it simplifies the
 * possible values of a memory entry into fewer, coarser ones, and how it
 * widens the values of a loop variable between iterations.
 */
module MemoryAssistant {
  import opened Wrappers
  import opened CSharp
  import opened Values
  import opened AnalysisWarnings
  import TypeConversion

  const NegativeStringIndex: Warning :=
    Warning("Cannot index string with negative numbers", IndexOutOfRange)

  const IndexOfNonArray: Warning :=
    Warning("Cannot use operator [] on variable other than string or array", CannotAccessFieldOperatorOnNonArray)

  const FieldOfNonObject: Warning :=
    Warning("Cannot use operator -> on variable other than object", CannotAccessObjectOperatorOnNonObject)

  // ---------------------------------------------------------------------------
  // Indexing a string

  /** `int.TryParse` of an index name, with 0 for a name that is not a number. */
  function ParsedIndex(name: string): Int32 {
    TypeConversion.TaintedTryConvertToInteger(name).1
  }

  /** The positions `0 .. n - 1` of a string of length `n`. */
  function Positions(n: nat): (r: set<int>)
    ensures forall i :: i in r <==> 0 <= i < n
  {
    if n == 0 then {} else Positions(n - 1) + {n - 1}
  }

  /**
   * The positions an index stands for: the number each of its possible names
   * denotes, or every position of the string when the index has no names.
   */
  function StringIndices(s: string, names: seq<string>): set<int> {
    if |names| == 0 then Positions(|s|) else set n | n in names :: ParsedIndex(n) as int
  }

  /** The printed form of an integer names that integer, and a name that is not a number names 0. */
  lemma StringIndicesOfNames(s: string, n: Int32, name: string)
    ensures StringIndices(s, [TypeConversion.ToStringInt(n)]) == {n as int}
    ensures !TypeConversion.TaintedTryConvertToInteger(name).0 ==> StringIndices(s, [name]) == {0}
  {
    var t := TypeConversion.ToStringInt(n);
    TypeConversion.TaintedToStringIntRoundTrip(n);
    assert ParsedIndex(t) == n;
    assert t in [t];
    assert forall m | m in [t] :: m == t;
    assert name in [name];
    assert forall m | m in [name] :: m == name;
  }

  /** `ResolveStringIndex`. */
  method ResolveStringIndex(s: string, names: seq<string>) returns (indices: set<int>)
    ensures indices == StringIndices(s, names)
  {
    indices := {};
    var k := 0;
    while k < |names|
      invariant 0 <= k <= |names|
      invariant indices == set n | n in names[..k] :: ParsedIndex(n) as int
    {
      assert names[..k + 1] == names[..k] + [names[k]];
      indices := indices + {ParsedIndex(names[k]) as int};
      k := k + 1;
    }
    assert names[..k] == names;
    if |names| > 0 {
      assert ParsedIndex(names[0]) as int in indices;
    }
    if |indices| == 0 {
      var i := 0;
      while i < |s|
        invariant 0 <= i <= |s|
        invariant indices == Positions(i)
      {
        indices := indices + {i};
        i := i + 1;
      }
    }
  }

  /**
   * The value `s[n]` reads: the whole string for a negative index, the
   * character at an index inside the string, and the empty string past its end.
   */
  function CharAt(s: string, n: int): Value {
    if n < 0 then Str(s) else if n < |s| then Str([s[n]]) else Str("")
  }

  /** `ReadStringIndex`: the values read at every position the index stands for. */
  method ReadStringIndex(s: string, names: seq<string>) returns (values: set<Value>, warning: Option<Warning>)
    ensures values == set n | n in StringIndices(s, names) :: CharAt(s, n)
    ensures warning.Some? <==> exists n | n in StringIndices(s, names) :: n < 0
    ensures warning.Some? ==> warning.value == NegativeStringIndex
  {
    var indices := ResolveStringIndex(s, names);
    values, warning := {}, None;
    var remaining := indices;
    while remaining != {}
      invariant remaining <= indices
      invariant values == set n | n in indices - remaining :: CharAt(s, n)
      invariant warning.Some? <==> exists n | n in indices - remaining :: n < 0
      invariant warning.Some? ==> warning.value == NegativeStringIndex
      decreases remaining
    {
      var n :| n in remaining;
      if n < 0 {
        values := values + {Str(s)};
        warning := Some(NegativeStringIndex);
      } else if n < |s| {
        values := values + {Str([s[n]])};
      } else {
        values := values + {Str("")};
      }
      assert indices - (remaining - {n}) == (indices - remaining) + {n};
      remaining := remaining - {n};
    }
    assert indices - remaining == indices;
  }

  /** Reading a string with an index of no names gives each of its characters. */
  lemma ReadWithoutNamesGivesEveryCharacter(s: string)
    ensures (set n | n in StringIndices(s, []) :: CharAt(s, n)) == set i | 0 <= i < |s| :: Str([s[i]])
  {
    var left := set n | n in StringIndices(s, []) :: CharAt(s, n);
    var right := set i | 0 <= i < |s| :: Str([s[i]]);
    forall v | v in left
      ensures v in right
    {
      var n :| n in Positions(|s|) && v == CharAt(s, n);
      assert v == Str([s[n]]);
    }
    forall v | v in right
      ensures v in left
    {
      var i :| 0 <= i < |s| && v == Str([s[i]]);
      assert i in Positions(|s|) && CharAt(s, i) == v;
    }
  }

  /** Writing past the end as written: a single space, whatever the distance, then the character. */
  function WrittenStringAsWritten(s: string, n: nat, c: char): string {
    if n < |s| then s[n := c] else if n == |s| then s + [c] else s + " " + [c]
  }

  /** Writing `x` at index 5 of "ab" and reading index 5 back gives the empty string as written. */
  lemma WrittenStringAsWrittenLosesCharacter()
    ensures WrittenStringAsWritten("ab", 5, 'x') == "ab x"
    ensures CharAt(WrittenStringAsWritten("ab", 5, 'x'), 5) == Str("")
  {
  }

  function Spaces(k: nat): (r: string)
    ensures |r| == k && forall i :: 0 <= i < k ==> r[i] == ' '
  {
    if k == 0 then "" else Spaces(k - 1) + " "
  }

  /**
   * Writing the character `c` at index `n`: the character replaces the one at
   * `n`, and past the end the string is padded with spaces up to `n`.
   */
  function WrittenString(s: string, n: nat, c: char): (r: string)
    ensures |r| == Max(|s|, n + 1)
    ensures r[n] == c
    ensures forall k :: 0 <= k < |s| && k != n ==> r[k] == s[k]
    ensures forall k :: |s| <= k < n ==> r[k] == ' '
  {
    if n < |s| then s[n := c] else s + Spaces(n - |s|) + [c]
  }

  /** Where the write as written is right: inside the string and right at its end. */
  lemma WrittenStringAsWrittenNearEnd(s: string, n: nat, c: char)
    requires n <= |s|
    ensures WrittenStringAsWritten(s, n, c) == WrittenString(s, n, c)
  {
  }

  /** Reading back a written index gives the written character, and other positions keep theirs. */
  lemma WriteThenRead(s: string, n: nat, c: char, k: int)
    ensures CharAt(WrittenString(s, n, c), n) == Str([c])
    ensures 0 <= k < |s| && k != n ==> CharAt(WrittenString(s, n, c), k) == CharAt(s, k)
  {
  }

  /**
   * A converted text: spelled out, or the digits of a floating-point number,
   * which are not part of the model (a float always prints as at least one
   * character).
   */
  datatype Text = Spelled(chars: string) | FloatDigits

  predicate IsNonEmpty(w: Text) { w.FloatDigits? || |w.chars| > 0 }

  /**
   * The value written at one position: the unchanged string for a negative
   * index, and "any string" where the written character is a digit of a float.
   */
  function WriteAt(s: string, n: int, w: Text): Value
    requires IsNonEmpty(w)
  {
    if n < 0 then Str(s)
    else if w.FloatDigits? then AnyString
    else Str(WrittenString(s, n, w.chars[0]))
  }

  /**
   * The values `SimpleStringConverter` can print; unknown values, intervals and
   * everything else make the conversion not concrete.
   */
  predicate IsPrintable(v: Value) {
    v.Str? || v.Bool? || v.Int? || v.Long? || v.Float? || v.AnyArray? || v.Array?
  }

  /** The text `SimpleStringConverter` gives a printable value; other values have none. */
  function SimpleText(v: Value): (r: Option<Text>)
    ensures r.Some? <==> IsPrintable(v)
    ensures r.Some? && r.value.Spelled? && v.Str? ==> r.value.chars == v.s
    ensures r == Some(FloatDigits) <==> v.Float?
  {
    match v
    case Str(t) => Some(Spelled(t))
    case Bool(b) => Some(Spelled(if b then "1" else "0"))
    case Int(i) => Some(Spelled(IntegerText(i)))
    case Long(l) => Some(Spelled(IntegerText(l)))
    case Float => Some(FloatDigits)
    case AnyArray => Some(Spelled("Array"))
    case Array(_) => Some(Spelled("Array"))
    case _ => None
  }

  /** `ToString` of a C# integer: a minus sign for negative numbers, then the digits. */
  function IntegerText(i: int): (r: string)
    ensures |r| > 0
  {
    if i < 0 then "-" + TypeConversion.NatToDigits(-i) else TypeConversion.NatToDigits(i)
  }

  predicate AllConcrete(input: seq<Value>) {
    forall v | v in input :: IsPrintable(v)
  }

  /** The non-empty texts of the values, in order; empty texts are dropped. */
  function ConvertedStrings(input: seq<Value>): (r: seq<Text>)
    ensures forall w | w in r :: IsNonEmpty(w)
    ensures forall w | w in r :: exists v | v in input :: SimpleText(v) == Some(w)
  {
    if |input| == 0 then []
    else
      var rest := ConvertedStrings(input[..|input| - 1]);
      var last := input[|input| - 1];
      assert forall v | v in input[..|input| - 1] :: v in input;
      match SimpleText(last)
      case Some(t) => if IsNonEmpty(t) then rest + [t] else rest
      case None => rest
  }

  /** Every printable value with a non-empty text is among the converted strings. */
  lemma ConvertedStringsComplete(input: seq<Value>, v: Value)
    requires v in input && SimpleText(v).Some? && IsNonEmpty(SimpleText(v).value)
    ensures SimpleText(v).value in ConvertedStrings(input)
    decreases |input|
  {
    if input[|input| - 1] != v {
      assert v in input[..|input| - 1];
      ConvertedStringsComplete(input[..|input| - 1], v);
    }
  }

  /** The converter used for the values written into a string. */
  class SimpleStringConverter {
    var isConcrete: bool
    var result: Text

    constructor ()
      ensures isConcrete && result == Spelled("")
    {
      isConcrete := true;
      result := Spelled("");
    }

    method Evaluate(input: seq<Value>) returns (res: seq<Text>, concrete: bool)
      modifies this
      ensures res == ConvertedStrings(input)
      ensures forall v | v in input && SimpleText(v).Some? && IsNonEmpty(SimpleText(v).value) :: SimpleText(v).value in res
      ensures concrete == isConcrete == (old(isConcrete) && AllConcrete(input))
    {
      res := [];
      var k := 0;
      while k < |input|
        invariant 0 <= k <= |input|
        invariant res == ConvertedStrings(input[..k])
        invariant isConcrete == (old(isConcrete) && AllConcrete(input[..k]))
      {
        assert input[..k + 1][..k] == input[..k];
        result := Spelled("");
        if !IsPrintable(input[k]) {
          isConcrete := false;
        } else {
          result := SimpleText(input[k]).value;
        }
        if IsNonEmpty(result) {
          res := res + [result];
        }
        assert input[..k + 1] == input[..k] + [input[k]];
        k := k + 1;
      }
      assert input[..k] == input;
      forall v | v in input && SimpleText(v).Some? && IsNonEmpty(SimpleText(v).value) {
        ConvertedStringsComplete(input, v);
      }
      concrete := isConcrete;
    }
  }

  /** The values of the string after the assignment, over all written texts and positions. */
  function WrittenStrings(s: string, names: seq<string>, written: seq<Value>): set<Value> {
    (set w, n | w in ConvertedStrings(written) && n in StringIndices(s, names) :: WriteAt(s, n, w)) +
    (if AllConcrete(written) then {} else {AnyString})
  }

  /**
   * `WriteStringIndex`: the first character of each written text at each
   * position the index stands for (the unchanged string at a negative one), and
   * "any string" when a written value has no concrete text or the character is
   * a digit of a float.
   */
  method WriteStringIndex(s: string, names: seq<string>, written: seq<Value>)
    returns (values: set<Value>, warning: Option<Warning>)
    ensures values == WrittenStrings(s, names, written)
    ensures warning.Some? <==> |ConvertedStrings(written)| > 0 && exists n | n in StringIndices(s, names) :: n < 0
    ensures warning.Some? ==> warning.value == NegativeStringIndex
  {
    var converter := new SimpleStringConverter();
    var texts, isConcrete := converter.Evaluate(written);
    var indices := ResolveStringIndex(s, names);
    values, warning := {}, None;
    var k := 0;
    while k < |texts|
      invariant 0 <= k <= |texts|
      invariant values == set w, n | w in texts[..k] && n in indices :: WriteAt(s, n, w)
      invariant warning.Some? <==> k > 0 && exists n | n in indices :: n < 0
      invariant warning.Some? ==> warning.value == NegativeStringIndex
    {
      ghost var before := values;
      var added, negative := WriteCharacter(s, indices, texts[k]);
      values := values + added;
      if negative {
        warning := Some(NegativeStringIndex);
      }
      AddWrittenText(s, texts, k, indices, before);
      k := k + 1;
    }
    assert texts[..k] == texts;
    if !isConcrete {
      values := values + {AnyString};
    }
  }

  /** The inner loop of `WriteStringIndex`: the character written at each position, and whether a position is negative. */
  method WriteCharacter(s: string, indices: set<int>, w: Text) returns (values: set<Value>, negative: bool)
    requires IsNonEmpty(w)
    ensures values == set n | n in indices :: WriteAt(s, n, w)
    ensures negative <==> exists n | n in indices :: n < 0
  {
    values, negative := {}, false;
    var remaining := indices;
    while remaining != {}
      invariant remaining <= indices
      invariant values == set n | n in indices - remaining :: WriteAt(s, n, w)
      invariant negative <==> exists n | n in indices - remaining :: n < 0
      decreases remaining
    {
      ghost var some := SomeIndex(remaining);
      var n :| n in remaining;
      var newValue;
      if n < 0 {
        newValue := Str(s);
        negative := true;
      } else if w.FloatDigits? {
        newValue := AnyString;
      } else if n < |s| {
        newValue := Str(s[n := w.chars[0]]);
      } else {
        newValue := Str(s + Spaces(n - |s|) + [w.chars[0]]);
      }
      values := values + {newValue};
      assert indices - (remaining - {n}) == (indices - remaining) + {n};
      remaining := remaining - {n};
    }
    assert indices - remaining == indices;
  }

  lemma SomeIndex(indices: set<int>) returns (n: int)
    requires indices != {}
    ensures n in indices
  {
    if forall m: int :: m !in indices {
      assert false;
    }
    n :| n in indices;
  }

  lemma AddWrittenText(s: string, texts: seq<Text>, k: nat, indices: set<int>, before: set<Value>)
    requires k < |texts| && forall w | w in texts :: IsNonEmpty(w)
    requires before == set w, n | w in texts[..k] && n in indices :: WriteAt(s, n, w)
    ensures before + (set n | n in indices :: WriteAt(s, n, texts[k])) ==
      set w, n | w in texts[..k + 1] && n in indices :: WriteAt(s, n, w)
  {
    assert texts[..k + 1] == texts[..k] + [texts[k]];
  }

  // ---------------------------------------------------------------------------
  // Indexing and fielding values that are neither strings, arrays nor objects

  /** Values read or written through an index or a field, and the warning raised. */
  datatype Access = Access(values: seq<Value>, warning: Option<Warning>)

  /**
   * `ReadValueIndex`: "any array" reads as "any value", undefined as undefined,
   * and anything else warns and reads as undefined, and also as "any value"
   * when the value itself is unknown (every unknown value is an `AnyValue`).
   */
  function ReadValueIndex(v: Value): (r: Access)
    ensures r.warning.Some? <==> !(v.AnyArray? || v.Undefined?)
    ensures r.warning.Some? ==> r.warning.value == IndexOfNonArray
    ensures v.AnyArray? <==> r.values == [AnyValue]
    ensures !v.AnyArray? ==> Undefined in r.values
    ensures AnyValue in r.values <==> v.IsAbstract()
  {
    if v.AnyArray? then Access([AnyValue], None)
    else if v.Undefined? then Access([Undefined], None)
    else Access(if v.IsAbstract() then [AnyValue, Undefined] else [Undefined], Some(IndexOfNonArray))
  }

  /** `WriteValueIndex`: the indexed value is never changed, and anything but undefined or "any array" warns. */
  function WriteValueIndex(v: Value): (r: Access)
    ensures r.values == [v]
    ensures r.warning.Some? <==> !(v.AnyArray? || v.Undefined?)
    ensures r.warning.Some? ==> r.warning.value == IndexOfNonArray
  {
    Access([v], if v.Undefined? || v.AnyArray? then None else Some(IndexOfNonArray))
  }

  /** `ReadValueField`: the same as reading an index, with "any object" in place of "any array". */
  function ReadValueField(v: Value): (r: Access)
    ensures r.warning.Some? <==> !(v.AnyObject? || v.Undefined?)
    ensures r.warning.Some? ==> r.warning.value == FieldOfNonObject
    ensures v.AnyObject? <==> r.values == [AnyValue]
    ensures !v.AnyObject? ==> Undefined in r.values
    ensures AnyValue in r.values <==> v.IsAbstract()
  {
    if v.AnyObject? then Access([AnyValue], None)
    else if v.Undefined? then Access([Undefined], None)
    else Access(if v.IsAbstract() then [AnyValue, Undefined] else [Undefined], Some(FieldOfNonObject))
  }

  function WriteValueField(v: Value): (r: Access)
    ensures r.values == [v]
    ensures r.warning.Some? <==> !(v.AnyObject? || v.Undefined?)
    ensures r.warning.Some? ==> r.warning.value == FieldOfNonObject
  {
    Access([v], if v.Undefined? || v.AnyObject? then None else Some(FieldOfNonObject))
  }

  /** Reading and writing through an index or a field warn for exactly the same values. */
  lemma ReadAndWriteWarnAlike(v: Value)
    ensures ReadValueIndex(v).warning == WriteValueIndex(v).warning
    ensures ReadValueField(v).warning == WriteValueField(v).warning
  {
  }

  // ---------------------------------------------------------------------------
  // Simplification of a memory entry

  /** The two integer types whose values the simplifier joins into one interval. */
  datatype NumberKind = IntegerKind | LongKind

  function Least(k: NumberKind): int {
    if k.IntegerKind? then MinValue else LongMinValue
  }

  function Greatest(k: NumberKind): int {
    if k.IntegerKind? then MaxValue else LongMaxValue
  }

  /** A number, an interval or "any number" of the kind. */
  predicate OfKind(k: NumberKind, v: Value) {
    if k.IntegerKind? then v.Int? || v.IntInterval? || v.AnyInt?
    else v.Long? || v.LongInterval? || v.AnyLong?
  }

  /** The least number the value stands for; "any number" stands for the whole type. */
  function Low(k: NumberKind, v: Value): int
    requires OfKind(k, v)
  {
    if v.Int? then v.i else if v.Long? then v.l
    else if v.IntInterval? || v.LongInterval? then Min(v.Start, v.End)
    else Least(k)
  }

  function High(k: NumberKind, v: Value): int
    requires OfKind(k, v)
  {
    if v.Int? then v.i else if v.Long? then v.l
    else if v.IntInterval? || v.LongInterval? then Max(v.Start, v.End)
    else Greatest(k)
  }

  lemma LowAtMostHigh(k: NumberKind, v: Value)
    requires OfKind(k, v)
    ensures Low(k, v) <= High(k, v)
  {
  }

  predicate IsFloatKind(v: Value) { v.Float? || v.FloatInterval? || v.AnyFloat? }
  predicate IsBooleanKind(v: Value) { v.Bool? || v.AnyBool? }
  predicate IsStringKind(v: Value) { v.Str? || v.AnyString? }

  /** Values the simplifier keeps as they are. */
  predicate IsOther(v: Value) {
    !OfKind(IntegerKind, v) && !OfKind(LongKind, v) && !IsFloatKind(v) && !IsBooleanKind(v) && !IsStringKind(v)
  }

  predicate ContainsKind(k: NumberKind, entry: seq<Value>) {
    exists v | v in entry :: OfKind(k, v)
  }

  /** Every number of the entry lies in the range of its C# type. */
  predicate AllInRange(entry: seq<Value>) {
    forall v | v in entry :: v.InRange()
  }

  lemma KindInRange(k: NumberKind, v: Value)
    requires OfKind(k, v) && v.InRange()
    ensures Least(k) <= Low(k, v) <= High(k, v) <= Greatest(k)
  {
  }

  /** The least number of the kind in the entry, starting from the greatest one of the type. */
  function MinOf(k: NumberKind, entry: seq<Value>): (r: int)
    requires AllInRange(entry)
    ensures forall v | v in entry && OfKind(k, v) :: r <= Low(k, v)
    ensures !ContainsKind(k, entry) ==> r == Greatest(k)
    ensures ContainsKind(k, entry) ==> exists v | v in entry && OfKind(k, v) :: r == Low(k, v)
  {
    if |entry| == 0 then Greatest(k)
    else
      var prefix, last := entry[..|entry| - 1], entry[|entry| - 1];
      assert entry == prefix + [last];
      var m := MinOf(k, prefix);
      if !OfKind(k, last) then m
      else
        KindInRange(k, last);
        Min(m, Low(k, last))
  }

  /** The greatest number of the kind in the entry, starting from the least one of the type. */
  function MaxOf(k: NumberKind, entry: seq<Value>): (r: int)
    requires AllInRange(entry)
    ensures forall v | v in entry && OfKind(k, v) :: High(k, v) <= r
    ensures !ContainsKind(k, entry) ==> r == Least(k)
    ensures ContainsKind(k, entry) ==> exists v | v in entry && OfKind(k, v) :: r == High(k, v)
  {
    if |entry| == 0 then Least(k)
    else
      var prefix, last := entry[..|entry| - 1], entry[|entry| - 1];
      assert entry == prefix + [last];
      var m := MaxOf(k, prefix);
      if !OfKind(k, last) then m
      else
        KindInRange(k, last);
        Max(m, High(k, last))
  }

  /** A single number and an interval of the kind. */
  function Single(k: NumberKind, x: int): (r: Value)
    ensures OfKind(k, r) && Low(k, r) == High(k, r) == x
  {
    if k.IntegerKind? then Int(x) else Long(x)
  }

  function Span(k: NumberKind, lo: int, hi: int): (r: Value)
    ensures OfKind(k, r)
    ensures lo <= hi ==> Low(k, r) == lo && High(k, r) == hi
  {
    if k.IntegerKind? then IntInterval(lo, hi) else LongInterval(lo, hi)
  }

  /** The one number value standing for all numbers of kind `k` gathered, if any. */
  function Bounds(k: NumberKind, found: bool, lo: int, hi: int): set<Value> {
    if !found then {} else if lo == hi then {Single(k, lo)} else {Span(k, lo, hi)}
  }

  /**
   * The numbers of one kind joined into one value: the least value of the kind
   * that stands for all of them, a single number when they all are the same.
   */
  function NumberPart(k: NumberKind, entry: seq<Value>): (r: set<Value>)
    requires AllInRange(entry)
    ensures |r| <= 1
    ensures r != {} <==> ContainsKind(k, entry)
    ensures forall w | w in r :: OfKind(k, w) && forall v | v in entry && OfKind(k, v) ::
      Low(k, w) <= Low(k, v) && High(k, v) <= High(k, w)
    ensures forall w | w in r :: exists v | v in entry && OfKind(k, v) :: Low(k, w) == Low(k, v)
    ensures forall w | w in r :: exists v | v in entry && OfKind(k, v) :: High(k, w) == High(k, v)
  {
    if !ContainsKind(k, entry) then {}
    else
      var v :| v in entry && OfKind(k, v);
      LowAtMostHigh(k, v);
      var w := Bound(k, MinOf(k, entry), MaxOf(k, entry));
      BoundCovers(k, entry, w);
      Bounds(k, true, MinOf(k, entry), MaxOf(k, entry))
  }

  /** The value `Bounds` holds for numbers from `lo` to `hi`. */
  function Bound(k: NumberKind, lo: int, hi: int): (w: Value)
    requires lo <= hi
    ensures Bounds(k, true, lo, hi) == {w}
    ensures OfKind(k, w) && Low(k, w) == lo && High(k, w) == hi
  {
    if lo == hi then Single(k, lo) else Span(k, lo, hi)
  }

  /** The value from the least to the greatest number of the entry stands for all of them. */
  lemma BoundCovers(k: NumberKind, entry: seq<Value>, w: Value)
    requires AllInRange(entry) && ContainsKind(k, entry)
    requires OfKind(k, w) && Low(k, w) == MinOf(k, entry) && High(k, w) == MaxOf(k, entry)
    ensures forall v | v in entry && OfKind(k, v) :: Low(k, w) <= Low(k, v) && High(k, v) <= High(k, w)
    ensures exists v | v in entry && OfKind(k, v) :: Low(k, w) == Low(k, v)
    ensures exists v | v in entry && OfKind(k, v) :: High(k, w) == High(k, v)
  {
  }

  /** More than one boolean or string is replaced by the unknown value of that type. */
  function Collapse(values: set<Value>, unknown: Value): (r: set<Value>)
    ensures |values| >= 2 ==> r == {unknown}
    ensures |values| < 2 ==> r == values
  {
    if |values| >= 2 then {unknown} else values
  }

  function Booleans(entry: seq<Value>): set<Value> { set v | v in entry && IsBooleanKind(v) }
  function Strings(entry: seq<Value>): set<Value> { set v | v in entry && IsStringKind(v) }
  function Others(entry: seq<Value>): set<Value> { set v | v in entry && IsOther(v) }

  predicate ContainsFloat(entry: seq<Value>) { exists v | v in entry :: IsFloatKind(v) }

  /** The values of a simplified memory entry. */
  function Simplified(entry: seq<Value>): set<Value>
    requires AllInRange(entry)
  {
    Others(entry) + Collapse(Booleans(entry), AnyBool) + Collapse(Strings(entry), AnyString) +
    NumberPart(IntegerKind, entry) + NumberPart(LongKind, entry) +
    (if ContainsFloat(entry) then {FloatInterval} else {})
  }

  /** `w` stands for every value `v` stands for. */
  predicate Covers(w: Value, v: Value) {
    w == v || (w.AnyBool? && IsBooleanKind(v)) || (w.AnyString? && IsStringKind(v)) ||
    (w.FloatInterval? && IsFloatKind(v)) || CoversNumbers(IntegerKind, w, v) || CoversNumbers(LongKind, w, v)
  }

  predicate CoversNumbers(k: NumberKind, w: Value, v: Value) {
    OfKind(k, w) && OfKind(k, v) && Low(k, w) <= Low(k, v) && High(k, v) <= High(k, w)
  }

  /** Simplification loses no value: each value of the entry is covered by one of the simplified entry. */
  lemma SimplifiedCovers(entry: seq<Value>, v: Value)
    requires AllInRange(entry) && v in entry
    ensures exists w | w in Simplified(entry) :: Covers(w, v)
  {
    var r := Simplified(entry);
    if OfKind(IntegerKind, v) || OfKind(LongKind, v) {
      var k := if OfKind(IntegerKind, v) then IntegerKind else LongKind;
      var w :| w in NumberPart(k, entry);
      assert CoversNumbers(k, w, v);
      assert w in r;
    } else if IsFloatKind(v) {
      assert FloatInterval in r;
    } else if IsBooleanKind(v) {
      var b := Booleans(entry);
      assert v in b;
      if |b| >= 2 { assert AnyBool in r; } else { assert v in r; }
    } else if IsStringKind(v) {
      var t := Strings(entry);
      assert v in t;
      if |t| >= 2 { assert AnyString in r; } else { assert v in r; }
    } else {
      assert v in Others(entry);
    }
  }

  /** What the simplifier has gathered from the values it visited. */
  datatype Summary = Summary(
    others: set<Value>, booleans: set<Value>, strings: set<Value>,
    containsInt: bool, minInt: int, maxInt: int,
    containsLong: bool, minLong: int, maxLong: int,
    containsFloat: bool)
  {
    /** Whether numbers of the kind were seen, and their least and greatest one. */
    function Numbers(k: NumberKind): (bool, int, int) {
      if k.IntegerKind? then (containsInt, minInt, maxInt) else (containsLong, minLong, maxLong)
    }
  }

  /** The state of a new simplifier. */
  const NothingGathered: Summary :=
    Summary({}, {}, {}, false, MaxValue, MinValue, false, LongMaxValue, LongMinValue, false)

  /** The visit of one value. */
  function Step(m: Summary, v: Value): Summary {
    if OfKind(IntegerKind, v) then
      m.(containsInt := true, minInt := Min(m.minInt, Low(IntegerKind, v)), maxInt := Max(m.maxInt, High(IntegerKind, v)))
    else if OfKind(LongKind, v) then
      m.(containsLong := true, minLong := Min(m.minLong, Low(LongKind, v)), maxLong := Max(m.maxLong, High(LongKind, v)))
    else if IsFloatKind(v) then m.(containsFloat := true)
    else if IsBooleanKind(v) then m.(booleans := m.booleans + {v})
    else if IsStringKind(v) then m.(strings := m.strings + {v})
    else m.(others := m.others + {v})
  }

  /** What a new simplifier gathers by visiting the values of `entry` in order. */
  function Gathered(entry: seq<Value>): Summary {
    if |entry| == 0 then NothingGathered else Step(Gathered(entry[..|entry| - 1]), entry[|entry| - 1])
  }

  lemma GatheredAppend(entry: seq<Value>, v: Value)
    ensures Gathered(entry + [v]) == Step(Gathered(entry), v)
  {
    assert (entry + [v])[..|entry|] == entry;
  }

  /** What the visit of one value changes. */
  lemma StepChanges(m: Summary, v: Value)
    ensures Step(m, v).others == m.others + (if IsOther(v) then {v} else {})
    ensures Step(m, v).booleans == m.booleans + (if IsBooleanKind(v) then {v} else {})
    ensures Step(m, v).strings == m.strings + (if IsStringKind(v) then {v} else {})
    ensures Step(m, v).containsFloat == (m.containsFloat || IsFloatKind(v))
  {
  }

  lemma StepChangesNumbers(m: Summary, v: Value, k: NumberKind)
    ensures Step(m, v).Numbers(k) ==
      if OfKind(k, v) then (true, Min(m.Numbers(k).1, Low(k, v)), Max(m.Numbers(k).2, High(k, v))) else m.Numbers(k)
  {
  }

  /** How the descriptions of an entry change when it grows by one value. */
  lemma AppendSets(prefix: seq<Value>, last: Value)
    ensures Others(prefix + [last]) == Others(prefix) + (if IsOther(last) then {last} else {})
    ensures Booleans(prefix + [last]) == Booleans(prefix) + (if IsBooleanKind(last) then {last} else {})
    ensures Strings(prefix + [last]) == Strings(prefix) + (if IsStringKind(last) then {last} else {})
    ensures ContainsFloat(prefix + [last]) == (ContainsFloat(prefix) || IsFloatKind(last))
    ensures forall k :: ContainsKind(k, prefix + [last]) == (ContainsKind(k, prefix) || OfKind(k, last))
  {
    assert forall u :: u in prefix + [last] <==> u in prefix || u == last;
  }

  lemma AppendNumbers(k: NumberKind, prefix: seq<Value>, last: Value)
    requires AllInRange(prefix + [last])
    ensures AllInRange(prefix)
    ensures MinOf(k, prefix + [last]) == if OfKind(k, last) then Min(MinOf(k, prefix), Low(k, last)) else MinOf(k, prefix)
    ensures MaxOf(k, prefix + [last]) == if OfKind(k, last) then Max(MaxOf(k, prefix), High(k, last)) else MaxOf(k, prefix)
  {
    assert (prefix + [last])[..|prefix|] == prefix;
    assert forall u | u in prefix :: u in prefix + [last];
  }

  /** The booleans, strings and other values gathered are those of the entry. */
  lemma {:induction false} GatheredValues(entry: seq<Value>)
    ensures Gathered(entry).others == Others(entry)
    ensures Gathered(entry).booleans == Booleans(entry)
    ensures Gathered(entry).strings == Strings(entry)
    ensures Gathered(entry).containsFloat == ContainsFloat(entry)
  {
    if |entry| > 0 {
      var prefix, last := entry[..|entry| - 1], entry[|entry| - 1];
      assert entry == prefix + [last];
      GatheredValues(prefix);
      StepChanges(Gathered(prefix), last);
      AppendSets(prefix, last);
    }
  }

  /** The numbers gathered are exactly the least and greatest ones of the entry. */
  lemma {:induction false} GatheredNumbers(k: NumberKind, entry: seq<Value>)
    requires AllInRange(entry)
    ensures Gathered(entry).Numbers(k) == (ContainsKind(k, entry), MinOf(k, entry), MaxOf(k, entry))
  {
    if |entry| > 0 {
      var prefix, last := entry[..|entry| - 1], entry[|entry| - 1];
      assert entry == prefix + [last];
      AppendNumbers(k, prefix, last);
      GatheredNumbers(k, prefix);
      StepChangesNumbers(Gathered(prefix), last, k);
      AppendSets(prefix, last);
    }
  }

  /** The entry `Simplify` builds from what was gathered. */
  function Joined(m: Summary): set<Value> {
    m.others + Collapse(m.booleans, AnyBool) + Collapse(m.strings, AnyString) +
    Bounds(IntegerKind, m.containsInt, m.minInt, m.maxInt) +
    Bounds(LongKind, m.containsLong, m.minLong, m.maxLong) +
    (if m.containsFloat then {FloatInterval} else {})
  }

  lemma NumbersJoined(k: NumberKind, entry: seq<Value>)
    requires AllInRange(entry)
    ensures var (found, lo, hi) := Gathered(entry).Numbers(k);
      NumberPart(k, entry) == Bounds(k, found, lo, hi)
  {
    GatheredNumbers(k, entry);
  }

  /** Joining what was gathered from the entry gives its simplified values. */
  lemma JoinedGathered(entry: seq<Value>)
    requires AllInRange(entry)
    ensures Joined(Gathered(entry)) == Simplified(entry)
  {
    GatheredValues(entry);
    NumbersJoined(IntegerKind, entry);
    NumbersJoined(LongKind, entry);
  }

  /** The analyser's simplifier: one visit per value, then the joined entry. */
  class Simplifier {
    var result: set<Value>
    var booleans: set<Value>
    var strings: set<Value>
    var containsInt: bool
    var minInt: int
    var maxInt: int
    var containsLong: bool
    var minLong: int
    var maxLong: int
    var containsFloat: bool

    function State(): Summary
      reads this
    {
      Summary(result, booleans, strings, containsInt, minInt, maxInt, containsLong, minLong, maxLong, containsFloat)
    }

    constructor ()
      ensures State() == NothingGathered
    {
      result, booleans, strings := {}, {}, {};
      containsInt, minInt, maxInt := false, MaxValue, MinValue;
      containsLong, minLong, maxLong := false, LongMaxValue, LongMinValue;
      containsFloat := false;
    }

    /** Visiting one more value. */
    method Accept(v: Value)
      modifies this
      ensures State() == Step(old(State()), v)
    {
      if OfKind(IntegerKind, v) {
        containsInt := true;
        minInt := Min(minInt, Low(IntegerKind, v));
        maxInt := Max(maxInt, High(IntegerKind, v));
      } else if OfKind(LongKind, v) {
        containsLong := true;
        minLong := Min(minLong, Low(LongKind, v));
        maxLong := Max(maxLong, High(LongKind, v));
      } else if IsFloatKind(v) {
        containsFloat := true;
      } else if IsBooleanKind(v) {
        booleans := booleans + {v};
      } else if IsStringKind(v) {
        strings := strings + {v};
      } else {
        result := result + {v};
      }
    }

    /** `Simplify`: the entry's values joined as described by `Simplified`. */
    method Simplify(entry: seq<Value>) returns (r: set<Value>)
      requires AllInRange(entry) && State() == NothingGathered
      modifies this
      ensures r == result == Simplified(entry)
    {
      assert entry[..0] == [];
      var k := 0;
      while k < |entry|
        invariant 0 <= k <= |entry|
        invariant State() == Gathered(entry[..k])
      {
        assert entry[..k] + [entry[k]] == entry[..k + 1];
        GatheredAppend(entry[..k], entry[k]);
        Accept(entry[k]);
        k := k + 1;
      }
      assert entry[..k] == entry;
      JoinedGathered(entry);
      result := Joined(State());
      r := result;
    }
  }

  /** `MemoryAssistant.Simplify`: a fresh simplifier over the entry's values. */
  method Simplify(entry: seq<Value>) returns (r: set<Value>)
    requires AllInRange(entry)
    ensures r == Simplified(entry)
  {
    var simplifier := new Simplifier();
    r := simplifier.Simplify(entry);
  }

  // ---------------------------------------------------------------------------
  // Widening between iterations

  /** Arrays, objects and undefined values are never widened. */
  predicate IsPreserved(v: Value) {
    v.Undefined? || v.Array? || v.Object? || v.AnyArray? || v.AnyObject?
  }

  function Preserved(values: seq<Value>): seq<Value>
  {
    if |values| == 0 then []
    else (if IsPreserved(values[0]) then [values[0]] else []) + Preserved(values[1..])
  }

  /** The preserved values are exactly the values of an undefined, array or object type. */
  lemma {:induction false} PreservedMembers(values: seq<Value>, v: Value)
    ensures v in Preserved(values) <==> v in values && IsPreserved(v)
  {
    if |values| > 0 {
      PreservedMembers(values[1..], v);
      assert values == [values[0]] + values[1..];
    }
  }

  function NotPreserved(values: seq<Value>): (r: seq<Value>)
    ensures forall v :: v in r <==> v in values && !IsPreserved(v)
  {
    if |values| == 0 then []
    else (if IsPreserved(values[0]) then [] else [values[0]]) + NotPreserved(values[1..])
  }

  lemma {:induction false} SplitByPreservation(values: seq<Value>)
    ensures multiset(values) == multiset(Preserved(values)) + multiset(NotPreserved(values))
  {
    if |values| > 0 {
      SplitByPreservation(values[1..]);
      assert values == [values[0]] + values[1..];
    }
  }

  lemma {:induction false} NothingToWiden(values: seq<Value>)
    requires forall v | v in values :: IsPreserved(v)
    ensures NotPreserved(values) == []
  {
    if |values| > 0 {
      assert values[0] in values;
      assert forall v | v in values[1..] :: v in values;
      NothingToWiden(values[1..]);
    }
  }

  /** The widening flags: every value that is widened is a boolean, a number or a string. */
  predicate OnlyBooleans(values: seq<Value>) { forall v | v in values :: IsPreserved(v) || IsBooleanKind(v) }
  predicate OnlyNumbers(values: seq<Value>) { forall v | v in values :: IsPreserved(v) || v.IsNumeric() }
  predicate OnlyStrings(values: seq<Value>) { forall v | v in values :: IsPreserved(v) || IsStringKind(v) }

  /** The unknown value that replaces the widened values. */
  function WidenedKind(current: seq<Value>): Value {
    if OnlyBooleans(current) then AnyBool
    else if OnlyNumbers(current) then AnyFloat
    else if OnlyStrings(current) then AnyString
    else AnyValue
  }

  /** Every value to be widened already was a value of the previous iteration. */
  predicate Stable(previous: seq<Value>, current: seq<Value>) {
    forall v | v in current && !IsPreserved(v) :: v in previous
  }

  /**
   * Widening: when every value to be widened already occurred in the previous
   * iteration only the preserved values are returned; otherwise the values to be
   * widened are replaced by the one unknown value of their common type.
   */
  function Widened(previous: seq<Value>, current: seq<Value>): seq<Value> {
    if Stable(previous, current) then Preserved(current) else Preserved(current) + [WidenedKind(current)]
  }

  /**
   * A stable widening drops exactly the values to be widened, each of which is a
   * value of the previous iteration.
   */
  lemma WideningDropsOnlyKnownValues(previous: seq<Value>, current: seq<Value>)
    requires Stable(previous, current)
    ensures multiset(Widened(previous, current)) + multiset(NotPreserved(current)) == multiset(current)
    ensures forall v | v in NotPreserved(current) :: v in previous
  {
    SplitByPreservation(current);
  }

  /** `w` stands for every value `v` stands for, as far as widening goes. */
  predicate WidenCovers(w: Value, v: Value) {
    w == v || w.AnyValue? || (w.AnyBool? && IsBooleanKind(v)) || (w.AnyFloat? && v.IsNumeric()) ||
    (w.AnyString? && IsStringKind(v))
  }

  /**
   * Widening loses no value: each current value is a value of the previous
   * iteration or is covered by a widened one.
   */
  lemma WideningCovers(previous: seq<Value>, current: seq<Value>, v: Value)
    requires v in current
    ensures v in previous || exists w | w in Widened(previous, current) :: WidenCovers(w, v)
  {
    var r := Widened(previous, current);
    if IsPreserved(v) {
      PreservedMembers(current, v);
      assert v in r;
    } else if !Stable(previous, current) {
      assert WidenedKind(current) in r;
    }
  }

  /** What widens is a single unknown value, of the type shared by what it replaces. */
  lemma WidenedKindCommonType(current: seq<Value>, v: Value)
    requires v in current && !IsPreserved(v)
    ensures WidenCovers(WidenedKind(current), v)
    ensures !IsPreserved(WidenedKind(current))
  {
  }

  function RemoveFirst(values: seq<Value>, x: Value): (r: seq<Value>)
    ensures multiset(r) == multiset(values) - multiset{x}
  {
    if |values| == 0 then []
    else if values[0] == x then
      assert values == [values[0]] + values[1..];
      values[1..]
    else
      assert values == [values[0]] + values[1..];
      [values[0]] + RemoveFirst(values[1..], x)
  }

  /** The analyser's widening visitor. */
  class WideningVisitor {
    var containsOnlyBool: bool
    var containsOnlyNumericValues: bool
    var containsOnlyString: bool
    var preservedValues: seq<Value>
    var notPreservedValuesBeforeWidening: seq<Value>

    predicate Initial()
      reads this
    {
      containsOnlyBool && containsOnlyNumericValues && containsOnlyString
    }

    /** The state after visiting `values`. */
    predicate Visited(values: seq<Value>)
      reads this
    {
      containsOnlyBool == OnlyBooleans(values) && containsOnlyNumericValues == OnlyNumbers(values) &&
      containsOnlyString == OnlyStrings(values) && preservedValues == Preserved(values)
    }

    constructor ()
      ensures Initial()
    {
      containsOnlyBool, containsOnlyNumericValues, containsOnlyString := true, true, true;
      preservedValues, notPreservedValuesBeforeWidening := [], [];
    }

    /** The visit of one value: it is kept, or it clears the flags of the types it does not have. */
    method Accept(visited: seq<Value>, v: Value)
      requires Visited(visited)
      modifies this
      ensures Visited(visited + [v])
      ensures notPreservedValuesBeforeWidening == old(notPreservedValuesBeforeWidening)
    {
      PreservedAppend(visited, v);
      OnlyAppend(visited, v);
      var onlyBool, onlyNumeric, onlyString := containsOnlyBool, containsOnlyNumericValues, containsOnlyString;
      var preserved := preservedValues;
      if IsPreserved(v) {
        preserved := preserved + [v];
      } else if IsBooleanKind(v) {
        onlyNumeric, onlyString := false, false;
      } else if IsStringKind(v) {
        onlyNumeric, onlyBool := false, false;
      } else if v.IsNumeric() {
        onlyBool, onlyString := false, false;
      } else {
        onlyBool, onlyString, onlyNumeric := false, false, false;
      }
      containsOnlyBool, containsOnlyNumericValues, containsOnlyString := onlyBool, onlyNumeric, onlyString;
      preservedValues := preserved;
    }

    /** `Widen` followed by `GetResult`. */
    method Widen(previous: seq<Value>, current: seq<Value>) returns (r: seq<Value>)
      requires Initial()
      modifies this
      ensures r == Widened(previous, current)
    {
      preservedValues := [];
      notPreservedValuesBeforeWidening := current;
      assert current[..0] == [];
      var k := 0;
      while k < |current|
        invariant 0 <= k <= |current|
        invariant Visited(current[..k])
        invariant notPreservedValuesBeforeWidening == current
      {
        Accept(current[..k], current[k]);
        assert current[..k] + [current[k]] == current[..k + 1];
        k := k + 1;
      }
      assert current[..k] == current;
      r := GetResult(previous, current);
    }

    method GetResult(previous: seq<Value>, current: seq<Value>) returns (r: seq<Value>)
      requires Visited(current) && notPreservedValuesBeforeWidening == current
      modifies this
      ensures r == Widened(previous, current)
    {
      var preserved := preservedValues;
      var notPreserved := RemoveAll(notPreservedValuesBeforeWidening, preserved);
      assert preserved == Preserved(current);
      RemainderIsNotPreserved(current, notPreserved);
      var allNotPreservedInOriginal := AllIn(notPreserved, previous);
      assert allNotPreservedInOriginal <==> Stable(previous, current);
      if allNotPreservedInOriginal {
        r := preserved;
      } else {
        assert preserved == Preserved(current);
        var widened;
        if containsOnlyBool {
          widened := AnyBool;
        } else if containsOnlyNumericValues {
          widened := AnyFloat;
        } else if containsOnlyString {
          widened := AnyString;
        } else {
          widened := AnyValue;
        }
        assert widened == WidenedKind(current);
        r := preserved + [widened];
      }
      notPreservedValuesBeforeWidening := notPreserved;
    }
  }

  /** The loop of `GetResult` that removes one occurrence of each preserved value from the values. */
  method RemoveAll(values: seq<Value>, removed: seq<Value>) returns (rest: seq<Value>)
    ensures multiset(rest) == multiset(values) - multiset(removed)
  {
    rest := values;
    ghost var gone: multiset<Value> := multiset{};
    for j := 0 to |removed|
      invariant gone == multiset(removed[..j])
      invariant multiset(rest) == multiset(values) - gone
    {
      RemovedPrefixGrows(removed, j);
      SubtractOneMore(multiset(values), gone, removed[j]);
      rest := RemoveFirst(rest, removed[j]);
      gone := gone + multiset{removed[j]};
    }
    assert removed[..|removed|] == removed;
  }

  lemma RemovedPrefixGrows(removed: seq<Value>, j: nat)
    requires j < |removed|
    ensures multiset(removed[..j + 1]) == multiset(removed[..j]) + multiset{removed[j]}
  {
    assert removed[..j + 1] == removed[..j] + [removed[j]];
  }

  /** The loop of `GetResult` that looks for a value missing from the previous iteration. */
  method AllIn(values: seq<Value>, previous: seq<Value>) returns (all: bool)
    ensures all <==> forall v | v in values :: v in previous
  {
    var i := 0;
    while i < |values|
      invariant 0 <= i <= |values|
      invariant forall m | 0 <= m < i :: values[m] in previous
    {
      if values[i] !in previous {
        return false;
      }
      i := i + 1;
    }
    return true;
  }

  lemma SubtractOneMore(m: multiset<Value>, b: multiset<Value>, x: Value)
    ensures (m - b) - multiset{x} == m - (b + multiset{x})
  {
  }

  /** What is left of the current values once the preserved ones are removed is what is to be widened. */
  lemma RemainderIsNotPreserved(current: seq<Value>, rest: seq<Value>)
    requires multiset(rest) == multiset(current) - multiset(Preserved(current))
    ensures forall v :: v in rest <==> v in current && !IsPreserved(v)
  {
    SplitByPreservation(current);
    var p, n := multiset(Preserved(current)), multiset(NotPreserved(current));
    assert (p + n) - p == n;
    forall v
      ensures v in rest <==> v in NotPreserved(current)
    {
      assert v in rest <==> v in multiset(rest);
      assert v in NotPreserved(current) <==> v in n;
    }
  }

  /** Each flag after one more value: it was set and the value is preserved or of the flag's type. */
  lemma OnlyAppend(values: seq<Value>, v: Value)
    ensures OnlyBooleans(values + [v]) == (OnlyBooleans(values) && (IsPreserved(v) || IsBooleanKind(v)))
    ensures OnlyNumbers(values + [v]) == (OnlyNumbers(values) && (IsPreserved(v) || v.IsNumeric()))
    ensures OnlyStrings(values + [v]) == (OnlyStrings(values) && (IsPreserved(v) || IsStringKind(v)))
  {
    assert forall w :: w in values + [v] <==> w in values || w == v;
  }

  lemma {:induction false} PreservedAppend(values: seq<Value>, v: Value)
    ensures Preserved(values + [v]) == Preserved(values) + (if IsPreserved(v) then [v] else [])
  {
    if |values| > 0 {
      assert (values + [v])[1..] == values[1..] + [v];
      PreservedAppend(values[1..], v);
    } else {
      assert values + [v] == [v];
    }
  }

  /** `MemoryAssistant.Widen`: a fresh widening visitor over the two iterations' values. */
  method Widen(previous: seq<Value>, current: seq<Value>) returns (r: seq<Value>)
    ensures r == Widened(previous, current)
  {
    var visitor := new WideningVisitor();
    r := visitor.Widen(previous, current);
  }
}

/**
  The built-in converters behind the `FlagParser` interface: `BoolParser`,
  `StringParser`, `IntParser`, `UintParser` and their list forms, which fold
  the flag's prior value into a growing list.
 */
module Parsers {
  import opened Wrappers
  import Strconv
  import Text
  import opened FlagValues
  import opened Errors

  /** The zero value of each scalar type, as Go's zero `BasicFlag[T]` holds it. */
  function ZeroScalar(k: Kind): (v: Scalar)
    ensures KindOf(v) == k
  {
    match k
    case BoolKind => BoolValue(false)
    case StringKind => StringValue([])
    case IntKind => IntValue(0)
    case UintKind => UintValue(0)
  }

  /**
    `BoolParser`, `StringParser`, `IntParser` and `UintParser`: convert the
    value text into a `BasicFlag` carrying the invoked name and the text as
    typed. They ignore any prior value.
   */
  function ParseBasic(k: Kind, name: string, value: string): (r: Result<Flag, Error>)
    ensures r.Success? ==> r.value.BasicFlag? && r.value.name == name && r.value.rawValue == value
    ensures r.Success? ==> KindOf(r.value.value) == k && InRange(r.value.value)
    ensures r.Failure? ==> r.error.Conversion?
    ensures k == StringKind ==> r == Success(BasicFlag(name, value, StringValue(value)))
    ensures k == BoolKind && value == [] ==> r == Success(BasicFlag(name, [], BoolValue(true)))
    ensures k == BoolKind && value != [] ==>
      (r.Success? <==> value in Strconv.TrueSpellings || value in Strconv.FalseSpellings)
      && (r.Success? ==> r.value.value == BoolValue(value in Strconv.TrueSpellings))
    ensures k == IntKind ==> (r.Success? <==> Strconv.IsInt64Text(value))
    ensures k == UintKind ==>
      (r.Success? <==> |value| > 0 && Strconv.AllDigits(value) && Strconv.DecimalValue(value) <= Strconv.MaxUint64)
    ensures k == UintKind && r.Success? ==> r.value.value == UintValue(Strconv.DecimalValue(value))
    ensures k == IntKind && r.Success? ==>
      && |value| > 0
      && r.value.value == IntValue(
           if value[0] == '-' then -(Strconv.DecimalValue(Strconv.UnsignedPart(value)) as int)
           else Strconv.DecimalValue(Strconv.UnsignedPart(value)))
    // a failed conversion hands back strconv's own error unchanged
    ensures k == BoolKind && r.Failure? ==> r.error == Conversion(Strconv.NumError("ParseBool", value, Strconv.ErrSyntax))
    ensures k == IntKind && r.Failure? ==>
      r.error == Conversion(Strconv.ParseInt(value).error) && r.error.cause.fn == "ParseInt" && r.error.cause.num == value
    ensures k == UintKind && r.Failure? ==>
      r.error == Conversion(Strconv.ParseUint(value).error) && r.error.cause.fn == "ParseUint" && r.error.cause.num == value
  {
    match k
    case BoolKind =>
      // an empty value means the flag was given without one: it is true
      if value == [] then Success(BasicFlag(name, value, BoolValue(true)))
      else
        (match Strconv.ParseBool(value)
         case Failure(e) => Failure(Conversion(e))
         case Success(b) => Success(BasicFlag(name, value, BoolValue(b))))
    case StringKind =>
      Success(BasicFlag(name, value, StringValue(value)))
    case IntKind =>
      (match Strconv.ParseInt(value)
       case Failure(e) => Failure(Conversion(e))
       case Success(i) => Success(BasicFlag(name, value, IntValue(i))))
    case UintKind =>
      match Strconv.ParseUint(value)
      case Failure(e) => Failure(Conversion(e))
      case Success(u) => Success(BasicFlag(name, value, UintValue(u)))
  }

  /** The list a list converter starts from: empty without a prior, the prior's list with one. */
  function PriorValues(k: Kind, name: string, prior: Option<Flag>): (r: Result<seq<Scalar>, Error>)
    ensures prior.None? ==> r == Success([])
    ensures prior.Some? && prior.value.ListFlag? && prior.value.kind == k ==> r == Success(prior.value.values)
    ensures prior.Some? && !(prior.value.ListFlag? && prior.value.kind == k) ==>
      r == Failure(UnexpectedFlagPriorType(name, ListFlag([], [], k, []), prior.value))
  {
    match prior
    case None => Success([])
    case Some(f) =>
      if f.ListFlag? && f.kind == k then Success(f.values)
      else Failure(UnexpectedFlagPriorType(name, ListFlag([], [], k, []), f))
  }

  /** The raw value of a list flag: every element's canonical rendering, joined by `", "`. */
  function ListRawValue(values: seq<Scalar>): string {
    Text.Join(FormatAll(values), Text.ListSeparator)
  }

  /**
    `BoolListParser`, `StringListParser`, `IntListParser` and
    `UintListParser`: check the prior's type, convert the value with the
    element converter, and append it to the prior list.
   */
  function ParseList(k: Kind, name: string, value: string, prior: Option<Flag>): (r: Result<Flag, Error>)
    ensures prior.Some? && !(prior.value.ListFlag? && prior.value.kind == k) ==>
      r == Failure(UnexpectedFlagPriorType(name, ListFlag([], [], k, []), prior.value))
    ensures (prior.None? || (prior.value.ListFlag? && prior.value.kind == k)) && ParseBasic(k, name, value).Failure? ==>
      r == Failure(ParseBasic(k, name, value).error)
    ensures r.Success? ==>
      && ParseBasic(k, name, value).Success?
      && r.value.ListFlag? && r.value.name == name && r.value.kind == k
      && r.value.values == (if prior.None? then [] else prior.value.values) + [ParseBasic(k, name, value).value.value]
      && r.value.rawValue == ListRawValue(r.value.values)
    ensures (prior.None? || (prior.value.ListFlag? && prior.value.kind == k)) && ParseBasic(k, name, value).Success? ==>
      r.Success?
    ensures r.Failure? ==> !r.error.UnexpectedFlagValueType?
  {
    var list :- PriorValues(k, name, prior);
    var basic :- ParseBasic(k, name, value);
    if !(basic.BasicFlag? && KindOf(basic.value) == k) then
      Failure(UnexpectedFlagValueType(name, BasicFlag([], [], ZeroScalar(k)), basic))
    else
      var values := list + [basic.value];
      Success(ListFlag(name, ListRawValue(values), k, values))
  }

  /** `FlagParser.Parse` for each built-in converter. */
  function Convert(c: Converter, name: string, value: string, prior: Option<Flag>): (r: Result<Flag, Error>)
    ensures r.Success? ==> r.value.name == name && Produces(c, r.value)
    ensures (prior.None? || Produces(c, prior.value)) && r.Failure? ==> r.error.Conversion?
    ensures (prior.None? || WellTyped(prior.value)) && r.Success? ==> WellTyped(r.value)
    ensures r.Failure? ==> !r.error.UnexpectedFlagValueType?
  {
    match c
    case BasicParser(k) => ParseBasic(k, name, value)
    case ListParser(k) => ParseList(k, name, value, prior)
  }

  /** The canonical rendering of any 64-bit value converts back to that value. */
  lemma ParseBasicFormat(v: Scalar, name: string)
    requires InRange(v)
    ensures ParseBasic(KindOf(v), name, Format(v)) == Success(BasicFlag(name, Format(v), v))
  {
    match v
    case BoolValue(b) => Strconv.ParseFormatBool(b);
    case StringValue(_) =>
    case IntValue(i) => Strconv.ParseFormatInt(i);
    case UintValue(u) => Strconv.ParseFormatUint(u);
  }

  /**
    The raw value of a non-empty bool, int or uint list flag determines its
    list: split at `", "`, each piece converts back to the element in that
    position. (String elements may themselves contain `", "`, so a string
    list's raw value is not decodable.)
   */
  lemma ListRawValueReadsBack(f: Flag)
    requires f.ListFlag? && f.kind != StringKind && WellTyped(f) && |f.values| > 0
    requires f.rawValue == ListRawValue(f.values)
    ensures |Text.SplitList(f.rawValue)| == |f.values|
    ensures forall i :: 0 <= i < |f.values| ==>
      ParseBasic(f.kind, f.name, Text.SplitList(f.rawValue)[i])
        == Success(BasicFlag(f.name, Text.SplitList(f.rawValue)[i], f.values[i]))
  {
    var parts := FormatAll(f.values);
    forall i | 0 <= i < |parts|
      ensures ',' !in parts[i]
    {
      match f.values[i]
      case BoolValue(b) => Strconv.FormatsHaveNoComma(0, 0, b);
      case IntValue(n) => Strconv.FormatsHaveNoComma(0, n, false);
      case UintValue(u) => Strconv.FormatsHaveNoComma(u, 0, false);
      case StringValue(_) =>
    }
    Text.SplitJoin(parts);
    forall i | 0 <= i < |f.values|
      ensures ParseBasic(f.kind, f.name, parts[i]) == Success(BasicFlag(f.name, parts[i], f.values[i]))
    {
      ParseBasicFormat(f.values[i], f.name);
    }
  }
}

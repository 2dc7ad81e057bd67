/**
  Runtime flag values and the closed set of converters that produce them
  (the `Flag` and `FlagParser` interfaces with their `BasicFlag`/`ListFlag`
  implementations and the Bool/String/Int/Uint parsers).
 */
module FlagValues {
  import Strconv

  /** The scalar types a built-in converter produces. */
  datatype Kind = BoolKind | StringKind | IntKind | UintKind

  /** One converted value: a Go `bool`, `string`, `int64` or `uint64`. */
  datatype Scalar = BoolValue(b: bool) | StringValue(s: string) | IntValue(i: int) | UintValue(u: nat)

  function KindOf(v: Scalar): Kind {
    match v
    case BoolValue(_) => BoolKind
    case StringValue(_) => StringKind
    case IntValue(_) => IntKind
    case UintValue(_) => UintKind
  }

  /** A scalar that a 64-bit Go value can hold. */
  predicate InRange(v: Scalar) {
    match v
    case IntValue(i) => Strconv.MinInt64 <= i <= Strconv.MaxInt64
    case UintValue(u) => u <= Strconv.MaxUint64
    case _ => true
  }

  /**
    A flag as bound at runtime. `name` is the name it was invoked with and
    `rawValue` the text kept for it. `BasicFlag` is Go's `BasicFlag[T]` and
    `ListFlag` is `ListFlag[T]`; the element type `T`, part of the Go type,
    is the `kind` field here.
   */
  datatype Flag =
    | BasicFlag(name: string, rawValue: string, value: Scalar)
    | ListFlag(name: string, rawValue: string, kind: Kind, values: seq<Scalar>)

  /** The converters: `BoolParser` is `BasicParser(BoolKind)`, `IntListParser` is `ListParser(IntKind)`, and so on. */
  datatype Converter = BasicParser(kind: Kind) | ListParser(kind: Kind)

  /** `FlagParser.FlagType`: the type tag shown in help output. */
  function KindTag(k: Kind): string {
    match k
    case BoolKind => "bool"
    case StringKind => "string"
    case IntKind => "int"
    case UintKind => "uint"
  }

  function FlagType(c: Converter): (tag: string)
    ensures c.ListParser? ==> tag == "[]" + FlagType(BasicParser(c.kind))
    ensures c.BasicParser? ==> '[' !in tag
    decreases if c.ListParser? then 1 else 0
  {
    match c
    case BasicParser(k) => KindTag(k)
    case ListParser(k) => "[]" + KindTag(k)
  }

  /** Distinct converters advertise distinct type tags. */
  lemma FlagTypeInjective(c: Converter, d: Converter)
    ensures FlagType(c) == FlagType(d) ==> c == d
  {
    if c.BasicParser? && d.ListParser? {
      assert FlagType(d)[0] == '[';
    } else if c.ListParser? && d.BasicParser? {
      assert FlagType(c)[0] == '[';
    } else if c.ListParser? && d.ListParser? && FlagType(c) == FlagType(d) {
      assert KindTag(c.kind) == FlagType(c)[2..] == FlagType(d)[2..] == KindTag(d.kind);
    }
  }

  /**
    The canonical rendering of a list element in a list flag's raw value:
    `FormatBool`, `FormatInt`, `FormatUint`, or the string itself.
   */
  function Format(v: Scalar): string {
    match v
    case BoolValue(b) => Strconv.FormatBool(b)
    case StringValue(s) => s
    case IntValue(i) => Strconv.FormatInt(i)
    case UintValue(u) => Strconv.FormatUint(u)
  }

  function FormatAll(vs: seq<Scalar>): (r: seq<string>)
    ensures |r| == |vs|
    ensures forall i :: 0 <= i < |vs| ==> r[i] == Format(vs[i])
  {
    if vs == [] then [] else [Format(vs[0])] + FormatAll(vs[1..])
  }

  /** Whether a flag has the Go type the converter returns. */
  predicate Produces(c: Converter, f: Flag) {
    match c
    case BasicParser(k) => f.BasicFlag? && KindOf(f.value) == k
    case ListParser(k) => f.ListFlag? && f.kind == k
  }

  /** A flag whose every value has its declared type and fits in 64 bits. */
  predicate WellTyped(f: Flag) {
    match f
    case BasicFlag(_, _, v) => InRange(v)
    case ListFlag(_, _, k, vs) => forall i :: 0 <= i < |vs| ==> KindOf(vs[i]) == k && InRange(vs[i])
  }
}

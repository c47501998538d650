/** The converters between native values and JSON (src/rpc/server/blob.rs). A float is its 64 bits,
    laid out as IEEE 754 says. */
module NativeJson {
  import opened Numbers
  import opened Wrappers

  const I64_MAX: int := 0x7FFF_FFFF_FFFF_FFFF
  const FRACTION: int := 0x10_0000_0000_0000

  type I64 = i: int | -I64_MAX - 1 <= i <= I64_MAX
  type U64 = n: int | 0 <= n < U64_SPAN
  type F64 = bits: int | 0 <= bits < U64_SPAN

  predicate IsFinite(f: F64) { f / FRACTION % 0x800 != 0x7FF }

  datatype Native =
    | Null
    | Bool(b: bool)
    | Int(i: I64)
    | Float(f: F64)
    | String(text: string)
    | List(items: seq<Native>)
    | Dict(entries: map<string, Native>)

  /** serde_json's number: PosInt holds what is not negative, and Float is always finite. */
  datatype Number = PosInt(n: U64) | NegInt(i: I64) | Real(f: F64)

  datatype Json =
    | JsonNull
    | JsonBool(b: bool)
    | JsonNumber(number: Number)
    | JsonString(text: string)
    | JsonArray(items: seq<Json>)
    | JsonObject(members: map<string, Json>)

  function IntToNumber(i: I64): Number { if i >= 0 then PosInt(i) else NegInt(i) }

  function ToJson(value: Native): Json {
    match value
    case Null => JsonNull
    case Bool(b) => JsonBool(b)
    case Int(i) => JsonNumber(IntToNumber(i))
    case Float(f) => if IsFinite(f) then JsonNumber(Real(f)) else JsonNull
    case String(text) => JsonString(text)
    case List(items) => JsonArray(seq(|items|, i requires 0 <= i < |items| => ToJson(items[i])))
    case Dict(entries) => JsonObject(map key | key in entries :: ToJson(entries[key]))
  }

  /** The double nearest to an integer from 2^63 up to 2^64, ties to even: such doubles are 2^11
      apart, and their bits count up with them. */
  function NearestF64(n: U64): F64
    requires n > I64_MAX
  {
    var steps, rest := n / 0x800, n % 0x800;
    var rounded := if rest > 0x400 || (rest == 0x400 && steps % 2 == 1) then steps + 1 else steps;
    0x43E * FRACTION + (rounded - FRACTION)
  }

  /** A number is read as a signed integer when it is one, else as a double. */
  function FromJson(json: Json): Native {
    match json
    case JsonNull => Null
    case JsonBool(b) => Bool(b)
    case JsonNumber(number) =>
      (match number
       case PosInt(n) => if n <= I64_MAX then Int(n) else Float(NearestF64(n))
       case NegInt(i) => Int(i)
       case Real(f) => Float(f))
    case JsonString(text) => String(text)
    case JsonArray(items) => List(seq(|items|, i requires 0 <= i < |items| => FromJson(items[i])))
    case JsonObject(members) => Dict(map key | key in members :: FromJson(members[key]))
  }

  /** The tree with every non-finite float made Null. */
  function Cleaned(value: Native): Native {
    match value
    case Float(f) => if IsFinite(f) then value else Null
    case List(items) => List(seq(|items|, i requires 0 <= i < |items| => Cleaned(items[i])))
    case Dict(entries) => Dict(map key | key in entries :: Cleaned(entries[key]))
    case other => other
  }

  predicate AllFinite(value: Native) {
    match value
    case Float(f) => IsFinite(f)
    case List(items) => forall i :: 0 <= i < |items| ==> AllFinite(items[i])
    case Dict(entries) => forall key :: key in entries ==> AllFinite(entries[key])
    case _ => true
  }

  function NativeMapToJson(entries: map<string, Native>): Json { ToJson(Dict(entries)) }

  function JsonToNativeMap(json: Json): Result<map<string, Native>, string> {
    if json.JsonObject? then Ok(FromJson(json).entries) else Err("expected blob ref JSON object")
  }

  // ------------------------------------------------------------ what the JSON says

  /** The number on the wire is that integer. */
  predicate NumberIs(number: Number, i: int) {
    match number
    case PosInt(n) => n == i
    case NegInt(j) => j == i && i < 0
    case Real(_) => false
  }

  /** The JSON says what the value is, place by place. */
  ghost predicate Mirrors(json: Json, value: Native) {
    match json
    case JsonNull => value.Null? || (value.Float? && !IsFinite(value.f))
    case JsonBool(b) => value == Bool(b)
    case JsonNumber(number) =>
      || (value.Int? && NumberIs(number, value.i))
      || (number.Real? && value == Float(number.f) && IsFinite(number.f))
    case JsonString(text) => value == String(text)
    case JsonArray(items) =>
      && value.List? && |value.items| == |items|
      && forall i :: 0 <= i < |items| ==> Mirrors(items[i], value.items[i])
    case JsonObject(members) =>
      && value.Dict? && value.entries.Keys == members.Keys
      && forall key :: key in members ==> Mirrors(members[key], value.entries[key])
  }

  lemma {:induction false} ToJsonMirrors(value: Native)
    ensures Mirrors(ToJson(value), value)
  {
    match value {
      case List(items) =>
        forall i | 0 <= i < |items| ensures Mirrors(ToJson(items[i]), items[i]) { ToJsonMirrors(items[i]); }
      case Dict(entries) =>
        forall key | key in entries ensures Mirrors(ToJson(entries[key]), entries[key]) {
          ToJsonMirrors(entries[key]);
        }
      case _ =>
    }
  }

  // ------------------------------------------------------------ native to JSON and back

  /** On any tree the round trip changes nothing but non-finite floats, which become Null. */
  lemma {:induction false} RoundTripCleans(value: Native)
    ensures FromJson(ToJson(value)) == Cleaned(value)
  {
    match value {
      case List(items) =>
        forall i | 0 <= i < |items| ensures FromJson(ToJson(items[i])) == Cleaned(items[i]) {
          RoundTripCleans(items[i]);
        }
      case Dict(entries) =>
        forall key | key in entries ensures FromJson(ToJson(entries[key])) == Cleaned(entries[key]) {
          RoundTripCleans(entries[key]);
        }
      case _ =>
    }
  }

  lemma {:induction false} CleanIff(value: Native)
    ensures Cleaned(value) == value <==> AllFinite(value)
  {
    match value {
      case List(items) =>
        forall i | 0 <= i < |items| ensures Cleaned(items[i]) == items[i] <==> AllFinite(items[i]) {
          CleanIff(items[i]);
        }
        if Cleaned(value) == value {
          forall i | 0 <= i < |items| ensures Cleaned(items[i]) == items[i] {
            assert Cleaned(value).items[i] == items[i];
          }
        }
      case Dict(entries) =>
        forall key | key in entries ensures Cleaned(entries[key]) == entries[key] <==> AllFinite(entries[key]) {
          CleanIff(entries[key]);
        }
        if Cleaned(value) == value {
          forall key | key in entries ensures Cleaned(entries[key]) == entries[key] {
            assert Cleaned(value).entries[key] == entries[key];
          }
        }
      case _ =>
    }
  }

  /** The round trip is the identity exactly on the trees whose floats are all finite. */
  lemma {:induction false} RoundTripIff(value: Native)
    ensures FromJson(ToJson(value)) == value <==> AllFinite(value)
  {
    RoundTripCleans(value);
    CleanIff(value);
  }

  /** The same for the maps that blob refs travel as. */
  lemma RefRoundTripIff(entries: map<string, Native>)
    ensures JsonToNativeMap(NativeMapToJson(entries)) == Ok(entries) <==> AllFinite(Dict(entries))
  {
    RoundTripIff(Dict(entries));
  }

  lemma OnlyObjectsAreRefs(json: Json)
    ensures JsonToNativeMap(json).Ok? <==> json.JsonObject?
    ensures json.JsonObject? ==> JsonToNativeMap(json).value.Keys == json.members.Keys
  {}

  // ------------------------------------------------------------ JSON to native and back

  /** The numbers serde_json builds. */
  predicate IsNormal(json: Json) {
    match json
    case JsonNumber(NegInt(i)) => i < 0
    case JsonNumber(Real(f)) => IsFinite(f)
    case JsonArray(items) => forall i :: 0 <= i < |items| ==> IsNormal(items[i])
    case JsonObject(members) => forall key :: key in members ==> IsNormal(members[key])
    case _ => true
  }

  /** No integer beyond 64 signed bits. */
  predicate NoLargeIntegers(json: Json) {
    match json
    case JsonNumber(PosInt(n)) => n <= I64_MAX
    case JsonArray(items) => forall i :: 0 <= i < |items| ==> NoLargeIntegers(items[i])
    case JsonObject(members) => forall key :: key in members ==> NoLargeIntegers(members[key])
    case _ => true
  }

  /** The value of a double from 2^63 up to 2^64. */
  function TopValue(f: F64): int { (FRACTION + f % FRACTION) * (if f / FRACTION == 0x43E then 0x800 else 0x1000) }

  /** A large integer becomes a finite double no further than half a step from it; of two equally near
      ones the even one. */
  lemma LargeIntegerIsRounded(n: U64)
    requires n > I64_MAX
    ensures IsFinite(NearestF64(n))
    ensures NearestF64(n) / FRACTION == 0x43E || NearestF64(n) == 0x43F * FRACTION
    ensures -0x400 <= TopValue(NearestF64(n)) - n <= 0x400
    ensures TopValue(NearestF64(n)) - n in {-0x400, 0x400} ==> NearestF64(n) % 2 == 0
  {
    var steps, rest := n / 0x800, n % 0x800;
    var rounded := if rest > 0x400 || (rest == 0x400 && steps % 2 == 1) then steps + 1 else steps;
    assert FRACTION <= rounded <= 2 * FRACTION;
  }

  lemma {:induction false} JsonRoundTripIff(json: Json)
    requires IsNormal(json)
    ensures ToJson(FromJson(json)) == json <==> NoLargeIntegers(json)
  {
    hide NearestF64;
    match json {
      case JsonNumber(PosInt(n)) =>
        if n > I64_MAX { LargeIntegerIsRounded(n); }
      case JsonArray(items) =>
        forall i | 0 <= i < |items| ensures ToJson(FromJson(items[i])) == items[i] <==> NoLargeIntegers(items[i]) {
          JsonRoundTripIff(items[i]);
        }
        if ToJson(FromJson(json)) == json {
          forall i | 0 <= i < |items| ensures ToJson(FromJson(items[i])) == items[i] {
            assert ToJson(FromJson(json)).items[i] == items[i];
          }
        }
      case JsonObject(members) =>
        forall key | key in members
          ensures ToJson(FromJson(members[key])) == members[key] <==> NoLargeIntegers(members[key])
        {
          JsonRoundTripIff(members[key]);
        }
        if ToJson(FromJson(json)) == json {
          forall key | key in members ensures ToJson(FromJson(members[key])) == members[key] {
            assert ToJson(FromJson(json)).members[key] == members[key];
          }
        }
      case _ =>
    }
  }
}

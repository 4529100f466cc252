/** The schema catalog: what a payload type is made of. */
module Catalogs {
  import opened Text
  import J = JsonText

  const PAYLOAD_BYTES := 1024 * 1024
  const MAX_DEPTH := 32

  /** A type name. The names the codec treats by themselves have constructors of their own. */
  datatype Type =
    | U8 | I8 | U16 | I16 | U32 | I32 | U64 | I64 | F32 | F64
    | Boolean
    | Characters
    | Interface
    | Ip4
    | Ip6
    | Mac
    | Address
    | Prefix
    | Ip4Prefix
    | Ip6Prefix
    | AddressUnion
    | FibPath
    | FibPathNh
    | Named(name: Text)

  datatype Field = Field(name: Text, type_: Type, length: Option<nat>, count: Option<Text>,
                         default_: Option<J.Json>, discriminator: Option<Text>, case_: Option<J.Json>)

  datatype Definition =
    | Alias(base: Type, length: Option<nat>)
    | Enumeration(base: Type, values: map<Text, int>, flags: bool)
    | Struct(fields: seq<Field>)
    | Union(fields: seq<Field>)

  type Catalog = map<Type, Definition>

  /** Why a conversion stops; the texts of the messages are not kept. */
  datatype Refusal = InvalidParams | InvalidReply | TooLarge | NotFound | Unsupported | UnknownEnum

  datatype Coded<+T> = Good(value: T) | Bad(why: Refusal)

  /** What the codec runs on: the interface resolvers, the address routines of the C
      library, and the floating-point conversions. */
  datatype Host = Host(indexOf: Text -> Option<nat>, nameOf: nat -> Option<Text>,
                       ip4: Text -> Option<Text>, ip4Text: Text -> Option<Text>,
                       ip6: Text -> Option<Text>, ip6Text: Text -> Option<Text>,
                       f32: J.Json -> Option<Text>, f32Value: Text -> Option<J.Json>,
                       f64: J.Json -> Option<Text>, f64Value: Text -> Option<J.Json>)

  datatype Env = Env(catalog: Catalog, host: Host)

  const ALL := Ascii("@all")
  const AF := Ascii("af")
  const UN := Ascii("un")
  const IP4 := Ascii("ip4")
  const IP6 := Ascii("ip6")
  const ADDRESS := Ascii("address")
  const LEN := Ascii("len")
  const NH := Ascii("nh")
  const PROTO := Ascii("proto")
  const ADDRESS_IP4 := Ascii("ADDRESS_IP4")
  const ADDRESS_IP6 := Ascii("ADDRESS_IP6")
  const PROTO_IP4 := Ascii("FIB_API_PATH_NH_PROTO_IP4")
  const PROTO_IP6 := Ascii("FIB_API_PATH_NH_PROTO_IP6")

  predicate IsPrefix(t: Type) { t == Prefix || t == Ip4Prefix || t == Ip6Prefix }

  // ---- Static analyses ----

  /** The bytes of a basic type; 0 for any other. Of a text these are the bytes of its length. */
  function Width(t: Type): nat {
    match t
    case Boolean | U8 | I8 => 1
    case U16 | I16 => 2
    case U32 | I32 | F32 | Characters => 4
    case U64 | I64 | F64 => 8
    case _ => 0
  }

  /** The bytes a type takes in a native message, less what varies; -1 if that is unknown. */
  function FixedSize(c: Catalog, t: Type, depth: nat): (size: int)
    ensures size >= -1
    decreases MAX_DEPTH + 1 - depth, 2, 0
  {
    if depth > MAX_DEPTH then -1
    else if Width(t) > 0 then Width(t)
    else if t !in c then -1
    else DefinedSize(c, c[t], depth)
  }

  function DefinedSize(c: Catalog, d: Definition, depth: nat): (size: int)
    requires depth <= MAX_DEPTH
    ensures size >= -1
    decreases MAX_DEPTH + 1 - depth, 1, 0
  {
    match d
    case Alias(base, length) => var size := FixedSize(c, base, depth + 1); if size < 0 then -1 else Times(size, length)
    case Enumeration(base, _, _) => FixedSize(c, base, depth + 1)
    case Struct(fields) => FieldSizes(c, fields, |fields|, false, depth)
    case Union(fields) => FieldSizes(c, fields, |fields|, true, depth)
  }

  /** So many elements, or one value if there is no length. */
  function Times(size: int, length: Option<nat>): (total: int)
    ensures size >= 0 ==> total >= 0
  {
    if length.Some? then size * length.value else size
  }

  function FieldSize(c: Catalog, f: Field, depth: nat): int
    requires depth <= MAX_DEPTH
    decreases MAX_DEPTH + 1 - depth, 0, 0
  {
    if f.type_ == Characters then (if f.length.Some? && f.length.value != 0 then f.length.value else 4)
    else Times(FixedSize(c, f.type_, depth + 1), f.length)
  }

  /** The first `n` fields: their sum, or for a union the largest. */
  function FieldSizes(c: Catalog, fields: seq<Field>, n: nat, union_: bool, depth: nat): (size: int)
    requires n <= |fields| && depth <= MAX_DEPTH
    ensures size >= -1
    decreases MAX_DEPTH + 1 - depth, 0, n + 1
  {
    if n == 0 then 0
    else
      var before := FieldSizes(c, fields, n - 1, union_, depth);
      var part := FieldSize(c, fields[n - 1], depth);
      if before < 0 || part < 0 || part > PAYLOAD_BYTES then -1
      else if union_ then (if before < part then part else before)
      else before + part
  }

  /** Whether the size of a value depends on more than its type. */
  predicate Variable(c: Catalog, t: Type, depth: nat)
    decreases MAX_DEPTH + 1 - depth, 1
  {
    if depth > MAX_DEPTH || t == Characters then true
    else if t !in c then false
    else
      match c[t]
      case Alias(base, _) => Variable(c, base, depth + 1)
      case Enumeration(_, _, _) => false
      case Struct(fields) => exists i :: 0 <= i < |fields| && VariableField(c, fields[i], depth)
      case Union(fields) => exists i :: 0 <= i < |fields| && VariableField(c, fields[i], depth)
  }

  predicate FixedText(f: Field) { f.type_ == Characters && f.length.Some? && f.length.value > 0 }

  predicate VariableField(c: Catalog, f: Field, depth: nat)
    requires depth <= MAX_DEPTH
    decreases MAX_DEPTH + 1 - depth, 0
  {
    !FixedText(f) && (f.length == Some(0) || Variable(c, f.type_, depth + 1))
  }

  // ---- They do not depend on where the type occurs ----

  lemma {:induction false} SizeAnywhere(c: Catalog, t: Type, depth: nat, shallow: nat)
    requires shallow <= depth && FixedSize(c, t, depth) >= 0
    ensures FixedSize(c, t, shallow) == FixedSize(c, t, depth)
    decreases MAX_DEPTH + 1 - depth, 2, 0
  {
    hide Width, DefinedSize;
    if Width(t) == 0 {
      DefinedAnywhere(c, c[t], depth, shallow);
    }
  }

  lemma {:induction false} DefinedAnywhere(c: Catalog, d: Definition, depth: nat, shallow: nat)
    requires shallow <= depth <= MAX_DEPTH && DefinedSize(c, d, depth) >= 0
    ensures DefinedSize(c, d, shallow) == DefinedSize(c, d, depth)
    decreases MAX_DEPTH + 1 - depth, 1, 0
  {
    hide FieldSizes, Times, FixedSize;
    match d
    case Alias(base, _) => SizeAnywhere(c, base, depth + 1, shallow + 1);
    case Enumeration(base, _, _) => SizeAnywhere(c, base, depth + 1, shallow + 1);
    case Struct(fields) => SizesAnywhere(c, fields, |fields|, false, depth, shallow);
    case Union(fields) => SizesAnywhere(c, fields, |fields|, true, depth, shallow);
  }

  /** An array of no elements has a size even if its elements have none. */
  lemma NoElements(size: int, other: int, length: Option<nat>)
    requires size == -1 && Times(size, length) >= 0
    ensures Times(other, length) == Times(size, length)
  {
    if length.Some? {
      assert length.value == 0;
    }
  }

  lemma {:induction false} SizesAnywhere(c: Catalog, fields: seq<Field>, n: nat, union_: bool, depth: nat, shallow: nat)
    requires n <= |fields| && shallow <= depth <= MAX_DEPTH && FieldSizes(c, fields, n, union_, depth) >= 0
    ensures FieldSizes(c, fields, n, union_, shallow) == FieldSizes(c, fields, n, union_, depth)
    ensures forall i :: 0 <= i < n ==> FieldSize(c, fields[i], shallow) == FieldSize(c, fields[i], depth)
    decreases MAX_DEPTH + 1 - depth, 0, n + 1
  {
    hide FixedSize, Times;
    if n > 0 {
      SizesAnywhere(c, fields, n - 1, union_, depth, shallow);
      var f := fields[n - 1];
      if f.type_ != Characters {
        if FixedSize(c, f.type_, depth + 1) >= 0 {
          SizeAnywhere(c, f.type_, depth + 1, shallow + 1);
        } else {
          NoElements(FixedSize(c, f.type_, depth + 1), FixedSize(c, f.type_, shallow + 1), f.length);
        }
      }
    }
  }

  lemma {:induction false} FixedAnywhere(c: Catalog, t: Type, depth: nat, shallow: nat)
    requires shallow <= depth && !Variable(c, t, depth)
    ensures !Variable(c, t, shallow)
    decreases MAX_DEPTH + 1 - depth
  {
    if t in c {
      match c[t]
      case Alias(base, _) => FixedAnywhere(c, base, depth + 1, shallow + 1);
      case Enumeration(_, _, _) =>
      case Struct(fields) =>
        forall i | 0 <= i < |fields| ensures !VariableField(c, fields[i], shallow) {
          assert !VariableField(c, fields[i], depth);
          if !FixedText(fields[i]) {
            FixedAnywhere(c, fields[i].type_, depth + 1, shallow + 1);
          }
        }
      case Union(fields) =>
        forall i | 0 <= i < |fields| ensures !VariableField(c, fields[i], shallow) {
          assert !VariableField(c, fields[i], depth);
          if !FixedText(fields[i]) {
            FixedAnywhere(c, fields[i].type_, depth + 1, shallow + 1);
          }
        }
    }
  }

  /** The parts of a known sum are known, and no larger than the payload limit. */
  lemma {:induction false} PartSizes(c: Catalog, fields: seq<Field>, n: nat, union_: bool, depth: nat, i: nat)
    requires i < n <= |fields| && depth <= MAX_DEPTH && FieldSizes(c, fields, n, union_, depth) >= 0
    ensures 0 <= FieldSize(c, fields[i], depth) <= PAYLOAD_BYTES
    ensures union_ ==> FieldSize(c, fields[i], depth) <= FieldSizes(c, fields, n, union_, depth)
    decreases n
  {
    if i < n - 1 {
      PartSizes(c, fields, n - 1, union_, depth, i);
    }
  }
}

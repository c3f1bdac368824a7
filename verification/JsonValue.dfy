/** The values that a cJSON tree denotes (cjson.h, struct cJSON). */
module JsonValue {
  import opened Bytes

  const NESTING_LIMIT: nat := 1000

  /** Integers below this magnitude print with %1.15g as plain decimals and are exact doubles. */
  const EXACT_LIMIT: int := 1_000_000_000_000_000

  type ExactInt = n: int | -EXACT_LIMIT < n < EXACT_LIMIT

  datatype Member = Member(key: Text, value: Value)

  /** Float stands for every other double, by a number token: fractions, exponents, "-0" and integers of 16 digits and more. */
  datatype Value =
    | Null
    | Bool(b: bool)
    | Num(n: ExactInt)
    | Float(token: Text)
    | Str(s: Text)
    | Arr(elems: seq<Value>)
    | Obj(members: seq<Member>)

  function Max(a: nat, b: nat): nat {
    if a < b then b else a
  }

  /** How many arrays and objects enclose the innermost point of v. */
  function Height(v: Value): nat
    decreases v, 1
  {
    match v
    case Arr(vs) => 1 + ElemsHeight(vs)
    case Obj(ms) => 1 + MembersHeight(ms)
    case _ => 0
  }

  function ElemsHeight(vs: seq<Value>): nat
    decreases vs, 0
  {
    if vs == [] then 0 else Max(Height(vs[0]), ElemsHeight(vs[1..]))
  }

  function MembersHeight(ms: seq<Member>): nat
    decreases ms, 0
  {
    if ms == [] then 0 else Max(Height(ms[0].value), MembersHeight(ms[1..]))
  }
}

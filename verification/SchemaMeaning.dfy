/** What a schema means, and what the validator's bookkeeping makes of it (schema.go).
  *
  * `Sat` is the declarative meaning of the supported keywords, with a bound on how deeply references nest:
  * `Standard`, or read as the code reads boolean schemas under `properties`.
  * `JudgeNode` is the validator without its expansion budget: a verdict, the number of references followed,
  * and whether a reference was refused for depth or re-entry. `JudgeIsSat` connects the two.
  */
module SchemaMeaning {
  import opened Common
  import opened Json
  import opened JsonPointer

  const MAX_REF_DEPTH: nat := 32
  const MAX_EXPANSIONS: nat := 256
  const MAX_PATTERN_LEN: nat := 512

  /** A float64 limit: strings may parse to the special values. */
  datatype Limit = Finite(r: real) | PosInf | NegInf | NaN

  /** The root document of references, and the library functions. */
  datatype World = World(
    root: Json,
    parseFloat: string -> Option<Limit>,
    compiles: string -> bool,
    matches: (string, string) -> bool,
    formatOk: (string, string) -> bool)

  predicate Below(x: real, l: Limit) {
    l == PosInf || (l.Finite? && x < l.r)
  }

  predicate Above(x: real, l: Limit) {
    l == NegInf || (l.Finite? && x > l.r)
  }

  predicate At(x: real, l: Limit) {
    l.Finite? && x == l.r
  }

  type Fields = map<string, Json>

  function AsFloat(w: World, m: Fields, key: string): Option<Limit> {
    if key !in m then None
    else
      match m[key]
      case JNum(r) => Some(Finite(r))
      case JStr(s) => w.parseFloat(s)
      case _ => None
  }

  function ListAt(m: Fields, key: string): seq<Json> {
    if key in m && m[key].JArr? then m[key].elems else []
  }

  function StringAt(m: Fields, key: string): string {
    if key in m && m[key].JStr? then m[key].s else ""
  }

  // ----- keywords without subschemas -----

  const INT64_MIN: real := -9223372036854775808.0
  const INT64_LIMIT: real := 9223372036854775808.0

  predicate IsInteger(x: real) {
    INT64_MIN <= x < INT64_LIMIT && x == x.Floor as real
  }

  predicate TypeIs(v: Json, name: string) {
    match name
    case "object" => v.JObj?
    case "array" => v.JArr?
    case "string" => v.JStr?
    case "number" => v.JNum?
    case "integer" => v.JNum? && IsInteger(v.r)
    case "boolean" => v.JBool?
    case "null" => v.JNull?
    case _ => true
  }

  predicate CheckType(v: Json, t: Json) {
    match t
    case JStr(name) => TypeIs(v, name)
    case JArr(elems) => exists i :: 0 <= i < |elems| && CheckType(v, elems[i])
    case _ => true
  }

  predicate CheckEnum(v: Json, e: Json) {
    e.JArr? ==> v in e.elems
  }

  predicate AtLeast(w: World, m: Fields, key: string, x: real) {
    var l := AsFloat(w, m, key);
    l.Some? ==> !Below(x, l.value)
  }

  predicate AtMost(w: World, m: Fields, key: string, x: real) {
    var l := AsFloat(w, m, key);
    l.Some? ==> !Above(x, l.value)
  }

  predicate PatternOk(w: World, m: Fields, s: string) {
    var pat := StringAt(m, "pattern");
    pat != "" ==> |pat| <= MAX_PATTERN_LEN && w.compiles(pat) && w.matches(pat, s)
  }

  predicate FormatOk(w: World, m: Fields, s: string) {
    var name := StringAt(m, "format");
    name != "" ==> w.formatOk(name, s)
  }

  predicate StringOk(w: World, m: Fields, s: string) {
    && AtLeast(w, m, "minLength", |s| as real) && AtMost(w, m, "maxLength", |s| as real)
    && PatternOk(w, m, s) && FormatOk(w, m, s)
  }

  /** The limit an exclusive keyword sets: its own number, or with the draft-04 boolean that of the plain keyword. */
  function ExclusiveLimit(w: World, m: Fields, exclusive: string, plain: string): Option<Limit> {
    if exclusive in m && m[exclusive].JBool? then (if m[exclusive].b then AsFloat(w, m, plain) else None)
    else AsFloat(w, m, exclusive)
  }

  predicate AboveExclusive(w: World, m: Fields, x: real) {
    var l := ExclusiveLimit(w, m, "exclusiveMinimum", "minimum");
    l.Some? ==> !Below(x, l.value) && !At(x, l.value)
  }

  predicate BelowExclusive(w: World, m: Fields, x: real) {
    var l := ExclusiveLimit(w, m, "exclusiveMaximum", "maximum");
    l.Some? ==> !Above(x, l.value) && !At(x, l.value)
  }

  predicate NumberOk(w: World, m: Fields, x: real) {
    AtLeast(w, m, "minimum", x) && AtMost(w, m, "maximum", x) && AboveExclusive(w, m, x) && BelowExclusive(w, m, x)
  }

  function Props(m: Fields): Fields {
    if "properties" in m && m["properties"].JObj? then m["properties"].fields else map[]
  }

  predicate RequiredOk(m: Fields, obj: Fields) {
    var req := ListAt(m, "required");
    forall i :: 0 <= i < |req| && req[i].JStr? ==> req[i].s in obj
  }

  predicate ClosedOk(m: Fields, obj: Fields) {
    "additionalProperties" in m && m["additionalProperties"] == JBool(false) ==> forall k :: k in obj ==> k in Props(m)
  }

  predicate ObjectOk(w: World, m: Fields, obj: Fields) {
    && AtLeast(w, m, "minProperties", |obj| as real) && AtMost(w, m, "maxProperties", |obj| as real)
    && RequiredOk(m, obj) && ClosedOk(m, obj)
  }

  predicate Unique(arr: seq<Json>) {
    forall i, j :: 0 <= i < j < |arr| ==> arr[i] != arr[j]
  }

  predicate ArrayOk(w: World, m: Fields, arr: seq<Json>) {
    && AtLeast(w, m, "minItems", |arr| as real) && AtMost(w, m, "maxItems", |arr| as real)
    && ("uniqueItems" in m && m["uniqueItems"] == JBool(true) ==> Unique(arr))
  }

  predicate TypeOk(v: Json, m: Fields) {
    "type" in m ==> CheckType(v, m["type"])
  }

  predicate PlainOk(w: World, v: Json, m: Fields) {
    && ("enum" in m ==> CheckEnum(v, m["enum"]))
    && ("const" in m ==> v == m["const"])
    && (v.JStr? ==> StringOk(w, m, v.s))
    && (v.JNum? ==> NumberOk(w, m, v.r))
  }

  // ----- the meaning of a schema -----

  predicate IsProp(m: Fields, obj: Fields, k: string) {
    k in Props(m) && Props(m)[k].JObj? && k in obj
  }

  predicate IsExtra(m: Fields, obj: Fields, k: string) {
    k in obj && k !in Props(m) && "additionalProperties" in m && m["additionalProperties"].JObj?
  }

  /** JSON Schema applies every schema under `properties`; the code passes over those that are no objects. In all
      else, such as limits written as strings, boolean exclusive bounds and lengths in bytes, both read as the code does. */
  datatype Reading = Standard | AsCoded

  predicate Applies(how: Reading, m: Fields, obj: Fields, k: string) {
    k in Props(m) && k in obj && (how.AsCoded? ==> Props(m)[k].JObj?)
  }

  /** v satisfies s as read, references nesting at most fuel deep. */
  ghost predicate Sat(how: Reading, w: World, v: Json, s: Json, fuel: nat)
    decreases fuel, s, 5
  {
    match s
    case JBool(b) => b
    case JObj(m) => ("$ref" in m ==> SatRef(how, w, v, m, fuel)) && SatKeywords(how, w, v, m, fuel)
    case _ => true
  }

  ghost predicate SatRef(how: Reading, w: World, v: Json, m: Fields, fuel: nat)
    requires "$ref" in m
    decreases fuel, JObj(m), 4
  {
    && m["$ref"].JStr? && Resolve(w.root, m["$ref"].s).Found?
    && fuel > 0 && Sat(how, w, v, Resolve(w.root, m["$ref"].s).node, fuel - 1)
  }

  ghost predicate SatKeywords(how: Reading, w: World, v: Json, m: Fields, fuel: nat)
    decreases fuel, JObj(m), 3
  {
    && ("if" in m ==>
          if Sat(how, w, v, m["if"], fuel) then "then" in m ==> Sat(how, w, v, m["then"], fuel)
          else "else" in m ==> Sat(how, w, v, m["else"], fuel))
    && ("not" in m ==> !Sat(how, w, v, m["not"], fuel))
    && SatLists(how, w, v, m, fuel)
    && TypeOk(v, m) && PlainOk(w, v, m)
    && (v.JObj? ==> ObjectOk(w, m, v.fields) && SatObject(how, w, v.fields, m, fuel))
    && (v.JArr? ==> ArrayOk(w, m, v.elems) && ("items" in m ==> forall i :: 0 <= i < |v.elems| ==> Sat(how, w, v.elems[i], m["items"], fuel)))
  }

  ghost predicate SatLists(how: Reading, w: World, v: Json, m: Fields, fuel: nat)
    decreases fuel, JObj(m), 1
  {
    && SatAll(how, w, v, m, fuel)
    && (ListAt(m, "anyOf") != [] ==> SatAny(how, w, v, m, fuel))
    && (ListAt(m, "oneOf") != [] ==> SatOne(how, w, v, m, fuel))
  }

  ghost predicate SatAll(how: Reading, w: World, v: Json, m: Fields, fuel: nat)
    decreases fuel, JObj(m), 0
  {
    var all := ListAt(m, "allOf");
    forall i :: 0 <= i < |all| ==> Sat(how, w, v, all[i], fuel)
  }

  ghost predicate SatAny(how: Reading, w: World, v: Json, m: Fields, fuel: nat)
    decreases fuel, JObj(m), 0
  {
    var any := ListAt(m, "anyOf");
    exists i :: 0 <= i < |any| && Sat(how, w, v, any[i], fuel)
  }

  /** Exactly one alternative matches. */
  ghost predicate SatOne(how: Reading, w: World, v: Json, m: Fields, fuel: nat)
    decreases fuel, JObj(m), 0
  {
    var one := ListAt(m, "oneOf");
    exists i :: 0 <= i < |one| && Sat(how, w, v, one[i], fuel) && forall j :: 0 <= j < |one| && Sat(how, w, v, one[j], fuel) ==> j == i
  }

  ghost predicate SatObject(how: Reading, w: World, obj: Fields, m: Fields, fuel: nat)
    decreases fuel, JObj(m), 0
  {
    && (forall k :: Applies(how, m, obj, k) ==> Sat(how, w, obj[k], Props(m)[k], fuel))
    && (forall k :: IsExtra(m, obj, k) ==> Sat(how, w, obj[k], m["additionalProperties"], fuel))
  }

  // ----- what the validator computes -----

  /** ok: no error. cost: references followed. limited: some reference was refused for depth or re-entry. */
  datatype Judgement = Judgement(ok: bool, cost: nat, limited: bool)

  const PASS := Judgement(true, 0, false)
  const FAIL := Judgement(false, 0, false)

  function And(a: Judgement, b: Judgement): Judgement {
    Judgement(a.ok && b.ok, a.cost + b.cost, a.limited || b.limited)
  }

  function Not(a: Judgement): Judgement {
    a.(ok := !a.ok)
  }

  function Plain(ok: bool): Judgement {
    Judgement(ok, 0, false)
  }

  function AllOf(js: seq<Judgement>): Judgement {
    if js == [] then PASS else And(AllOf(js[..|js| - 1]), js[|js| - 1])
  }

  /** anyOf stops at the first match. */
  function AnyOf(js: seq<Judgement>): Judgement {
    if js == [] then FAIL
    else
      var before := AnyOf(js[..|js| - 1]);
      if before.ok then before else Judgement(js[|js| - 1].ok, before.cost + js[|js| - 1].cost, before.limited || js[|js| - 1].limited)
  }

  function Count(js: seq<Judgement>): nat {
    if js == [] then 0 else Count(js[..|js| - 1]) + if js[|js| - 1].ok then 1 else 0
  }

  function OneOf(js: seq<Judgement>): Judgement {
    Judgement(Count(js) == 1, AllOf(js).cost, AllOf(js).limited)
  }

  ghost function Sum(js: map<string, Judgement>): nat {
    if js == map[] then 0 else var k :| k in js; js[k].cost + Sum(js - {k})
  }

  ghost function AllIn(js: map<string, Judgement>): Judgement {
    Judgement(forall k :: k in js ==> js[k].ok, Sum(js), exists k :: k in js && js[k].limited)
  }

  ghost function JudgeNode(w: World, v: Json, s: Json, stack: seq<string>): Judgement
    requires |stack| <= MAX_REF_DEPTH
    decreases MAX_REF_DEPTH - |stack|, s, 5
  {
    match s
    case JBool(b) => Plain(b)
    case JObj(m) => if "$ref" in m then JudgeRef(w, v, m, stack) else JudgeKeywords(w, v, m, stack)
    case _ => PASS
  }

  ghost function JudgeRef(w: World, v: Json, m: Fields, stack: seq<string>): Judgement
    requires |stack| <= MAX_REF_DEPTH && "$ref" in m
    decreases MAX_REF_DEPTH - |stack|, JObj(m), 4
  {
    if !m["$ref"].JStr? then FAIL
    else
      var r := Resolve(w.root, m["$ref"].s);
      if !r.Found? then FAIL
      else if |stack| == MAX_REF_DEPTH || r.ptr in stack then Judgement(false, 0, true)
      else
        And(And(Judgement(true, 1, false), JudgeNode(w, v, r.node, stack + [r.ptr])), JudgeKeywords(w, v, m, stack))
  }

  ghost function JudgeKeywords(w: World, v: Json, m: Fields, stack: seq<string>): Judgement
    requires |stack| <= MAX_REF_DEPTH
    decreases MAX_REF_DEPTH - |stack|, JObj(m), 3
  {
    var first := And(And(JudgeIf(w, v, m, stack), JudgeNot(w, v, m, stack)), JudgeLists(w, v, m, stack));
    if !TypeOk(v, m) then And(first, FAIL)
    else And(And(first, Plain(PlainOk(w, v, m))), JudgeParts(w, v, m, stack))
  }

  ghost function JudgeIf(w: World, v: Json, m: Fields, stack: seq<string>): Judgement
    requires |stack| <= MAX_REF_DEPTH
    decreases MAX_REF_DEPTH - |stack|, JObj(m), 1
  {
    if "if" !in m then PASS
    else
      var c := JudgeNode(w, v, m["if"], stack);
      if c.ok then And(c, if "then" in m then JudgeNode(w, v, m["then"], stack) else PASS)
      else And(Not(c), if "else" in m then JudgeNode(w, v, m["else"], stack) else PASS)
  }

  ghost function JudgeNot(w: World, v: Json, m: Fields, stack: seq<string>): Judgement
    requires |stack| <= MAX_REF_DEPTH
    decreases MAX_REF_DEPTH - |stack|, JObj(m), 1
  {
    if "not" in m then Not(JudgeNode(w, v, m["not"], stack)) else PASS
  }

  ghost function JudgeEach(w: World, v: Json, m: Fields, key: string, stack: seq<string>): (js: seq<Judgement>)
    requires |stack| <= MAX_REF_DEPTH
    ensures |js| == |ListAt(m, key)| && forall i :: 0 <= i < |js| ==> js[i] == JudgeNode(w, v, ListAt(m, key)[i], stack)
    decreases MAX_REF_DEPTH - |stack|, JObj(m), 1
  {
    var list := ListAt(m, key);
    seq(|list|, i requires 0 <= i < |list| => JudgeNode(w, v, list[i], stack))
  }

  ghost function JudgeLists(w: World, v: Json, m: Fields, stack: seq<string>): Judgement
    requires |stack| <= MAX_REF_DEPTH
    decreases MAX_REF_DEPTH - |stack|, JObj(m), 2
  {
    And(And(AllOf(JudgeEach(w, v, m, "allOf", stack)),
            if ListAt(m, "anyOf") == [] then PASS else AnyOf(JudgeEach(w, v, m, "anyOf", stack))),
        if ListAt(m, "oneOf") == [] then PASS else OneOf(JudgeEach(w, v, m, "oneOf", stack)))
  }

  ghost function JudgeProps(w: World, obj: Fields, m: Fields, stack: seq<string>): (js: map<string, Judgement>)
    requires |stack| <= MAX_REF_DEPTH
    ensures forall k :: k in js <==> IsProp(m, obj, k)
    ensures forall k :: k in js ==> IsProp(m, obj, k) && js[k] == JudgeNode(w, obj[k], Props(m)[k], stack)
    decreases MAX_REF_DEPTH - |stack|, JObj(m), 1
  {
    map k | k in obj && IsProp(m, obj, k) :: JudgeNode(w, obj[k], Props(m)[k], stack)
  }

  ghost function JudgeExtras(w: World, obj: Fields, m: Fields, stack: seq<string>): (js: map<string, Judgement>)
    requires |stack| <= MAX_REF_DEPTH
    ensures forall k :: k in js <==> IsExtra(m, obj, k)
    ensures forall k :: k in js ==> IsExtra(m, obj, k) && js[k] == JudgeNode(w, obj[k], m["additionalProperties"], stack)
    decreases MAX_REF_DEPTH - |stack|, JObj(m), 1
  {
    map k | k in obj && IsExtra(m, obj, k) :: JudgeNode(w, obj[k], m["additionalProperties"], stack)
  }

  ghost function JudgeItems(w: World, arr: seq<Json>, m: Fields, stack: seq<string>): (js: seq<Judgement>)
    requires |stack| <= MAX_REF_DEPTH
    ensures |js| == (if "items" in m then |arr| else 0) && forall i :: 0 <= i < |js| ==> js[i] == JudgeNode(w, arr[i], m["items"], stack)
    decreases MAX_REF_DEPTH - |stack|, JObj(m), 1
  {
    if "items" !in m then []
    else seq(|arr|, i requires 0 <= i < |arr| => JudgeNode(w, arr[i], m["items"], stack))
  }

  ghost function JudgeParts(w: World, v: Json, m: Fields, stack: seq<string>): Judgement
    requires |stack| <= MAX_REF_DEPTH
    decreases MAX_REF_DEPTH - |stack|, JObj(m), 2
  {
    match v
    case JObj(obj) =>
      And(And(Plain(ObjectOk(w, m, obj)), AllIn(JudgeProps(w, obj, m, stack))), AllIn(JudgeExtras(w, obj, m, stack)))
    case JArr(arr) => And(Plain(ArrayOk(w, m, arr)), AllOf(JudgeItems(w, arr, m, stack)))
    case _ => PASS
  }
}

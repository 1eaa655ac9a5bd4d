/** What each keyword asks of a value (schema.go), in terms of the value itself: comparisons of reals and lengths, the
  * constructors of JSON values, membership.
  */
module SchemaKeywords {
  import opened Common
  import opened Json
  import opened JsonPointer
  import opened SchemaMeaning
  import opened SchemaSound

  // ----- limits -----

  /** The limit a keyword's value sets: a number, or a string that reads as one. */
  function LimitOf(w: World, x: Json): Option<Limit> {
    match x
    case JNum(n) => Some(Finite(n))
    case JStr(s) => w.parseFloat(s)
    case _ => None
  }

  predicate NotLess(x: real, l: Option<Limit>) {
    match l
    case Some(Finite(r)) => x >= r
    case Some(PosInf) => false
    case _ => true
  }

  predicate NotMore(x: real, l: Option<Limit>) {
    match l
    case Some(Finite(r)) => x <= r
    case Some(NegInf) => false
    case _ => true
  }

  predicate More(x: real, l: Option<Limit>) {
    match l
    case Some(Finite(r)) => x > r
    case Some(PosInf) => false
    case _ => true
  }

  predicate Less(x: real, l: Option<Limit>) {
    match l
    case Some(Finite(r)) => x < r
    case Some(NegInf) => false
    case _ => true
  }

  function LimitAt(w: World, m: Fields, key: string): Option<Limit> {
    if key in m then LimitOf(w, m[key]) else None
  }

  /** The draft-04 form: a boolean that turns the plain limit into an exclusive one. */
  predicate Draft04(m: Fields, key: string) {
    key in m && m[key] == JBool(true)
  }

  predicate MeetsNumber(w: World, m: Fields, x: real) {
    && NotLess(x, LimitAt(w, m, "minimum")) && NotMore(x, LimitAt(w, m, "maximum"))
    && More(x, LimitAt(w, m, "exclusiveMinimum")) && Less(x, LimitAt(w, m, "exclusiveMaximum"))
    && (Draft04(m, "exclusiveMinimum") ==> More(x, LimitAt(w, m, "minimum")))
    && (Draft04(m, "exclusiveMaximum") ==> Less(x, LimitAt(w, m, "maximum")))
  }

  predicate Sized(w: World, m: Fields, least: string, most: string, n: nat) {
    NotLess(n as real, LimitAt(w, m, least)) && NotMore(n as real, LimitAt(w, m, most))
  }

  // ----- the other keywords -----

  predicate HasType(v: Json, name: string) {
    || (name == "object" && v.JObj?) || (name == "array" && v.JArr?) || (name == "string" && v.JStr?)
    || (name == "boolean" && v.JBool?) || (name == "null" && v.JNull?) || (name == "number" && v.JNum?)
    || (name == "integer" && v.JNum? && v.r == v.r.Floor as real && -9223372036854775808.0 <= v.r < 9223372036854775808.0)
    || name !in {"object", "array", "string", "boolean", "null", "number", "integer"}
  }

  predicate MeetsType(v: Json, t: Json) {
    match t
    case JStr(name) => HasType(v, name)
    case JArr(names) => exists i :: 0 <= i < |names| && MeetsType(v, names[i])
    case _ => true
  }

  predicate MeetsString(w: World, m: Fields, s: string) {
    && Sized(w, m, "minLength", "maxLength", |s|)
    && ("pattern" in m && m["pattern"].JStr? && m["pattern"].s != "" ==>
          |m["pattern"].s| <= 512 && w.compiles(m["pattern"].s) && w.matches(m["pattern"].s, s))
    && ("format" in m && m["format"].JStr? && m["format"].s != "" ==> w.formatOk(m["format"].s, s))
  }

  ghost predicate MeetsObject(w: World, m: Fields, obj: Fields) {
    && Sized(w, m, "minProperties", "maxProperties", |obj|)
    && ("required" in m && m["required"].JArr? ==> forall name :: JStr(name) in m["required"].elems ==> name in obj)
    && ("additionalProperties" in m && m["additionalProperties"] == JBool(false) ==>
          forall k :: k in obj ==> "properties" in m && m["properties"].JObj? && k in m["properties"].fields)
  }

  predicate MeetsArray(w: World, m: Fields, elems: seq<Json>) {
    && Sized(w, m, "minItems", "maxItems", |elems|)
    && ("uniqueItems" in m && m["uniqueItems"] == JBool(true) ==>
          forall i, j :: 0 <= i < |elems| && 0 <= j < |elems| && i != j ==> elems[i] != elems[j])
  }

  /** The keywords without subschemas, all of them. */
  ghost predicate Meets(w: World, v: Json, m: Fields) {
    && ("type" in m ==> MeetsType(v, m["type"]))
    && ("enum" in m && m["enum"].JArr? ==> exists i :: 0 <= i < |m["enum"].elems| && m["enum"].elems[i] == v)
    && ("const" in m ==> m["const"] == v)
    && (v.JStr? ==> MeetsString(w, m, v.s)) && (v.JNum? ==> MeetsNumber(w, m, v.r))
    && (v.JObj? ==> MeetsObject(w, m, v.fields)) && (v.JArr? ==> MeetsArray(w, m, v.elems))
  }

  // ----- the checks are these -----

  ghost predicate Checks(w: World, v: Json, m: Fields) {
    TypeOk(v, m) && PlainOk(w, v, m) && (v.JObj? ==> ObjectOk(w, m, v.fields)) && (v.JArr? ==> ArrayOk(w, m, v.elems))
  }

  lemma LimitIs(w: World, m: Fields, key: string, x: real)
    ensures AsFloat(w, m, key) == LimitAt(w, m, key)
    ensures AtLeast(w, m, key, x) <==> NotLess(x, LimitAt(w, m, key))
    ensures AtMost(w, m, key, x) <==> NotMore(x, LimitAt(w, m, key))
  {
  }

  lemma SizedIs(w: World, m: Fields, least: string, most: string, n: nat)
    ensures AtLeast(w, m, least, n as real) && AtMost(w, m, most, n as real) <==> Sized(w, m, least, most, n)
  {
    LimitIs(w, m, least, n as real);
    LimitIs(w, m, most, n as real);
    hide AtLeast, AtMost, NotLess, NotMore, LimitAt;
  }

  lemma NumberIs(w: World, m: Fields, x: real)
    ensures NumberOk(w, m, x) <==> MeetsNumber(w, m, x)
  {
    LimitIs(w, m, "minimum", x);
    LimitIs(w, m, "maximum", x);
    LimitIs(w, m, "exclusiveMinimum", x);
    LimitIs(w, m, "exclusiveMaximum", x);
    ExclusiveIs(w, m, "exclusiveMinimum", "minimum");
    ExclusiveIs(w, m, "exclusiveMaximum", "maximum");
    hide AtLeast, AtMost, AsFloat, LimitAt, ExclusiveLimit, Draft04, NotLess, NotMore;
  }

  lemma ExclusiveIs(w: World, m: Fields, key: string, plain: string)
    ensures ExclusiveLimit(w, m, key, plain) == if Draft04(m, key) then LimitAt(w, m, plain) else LimitAt(w, m, key)
    ensures Draft04(m, key) ==> LimitAt(w, m, key) == None
  {
    LimitIs(w, m, key, 0.0);
    LimitIs(w, m, plain, 0.0);
  }

  lemma HasTypeIs(v: Json, name: string)
    ensures TypeIs(v, name) <==> HasType(v, name)
  {
  }

  lemma {:induction false} TypeIsMet(v: Json, t: Json)
    ensures CheckType(v, t) <==> MeetsType(v, t)
  {
    match t {
      case JStr(name) => HasTypeIs(v, name);
      case JArr(names) =>
        forall i | 0 <= i < |names| ensures CheckType(v, names[i]) <==> MeetsType(v, names[i]) {
          TypeIsMet(v, names[i]);
        }
      case _ =>
    }
  }

  lemma StringIs(w: World, m: Fields, s: string)
    ensures StringOk(w, m, s) <==> MeetsString(w, m, s)
  {
    SizedIs(w, m, "minLength", "maxLength", |s|);
    hide AtLeast, AtMost, Sized;
  }

  lemma ObjectIs(w: World, m: Fields, obj: Fields)
    ensures ObjectOk(w, m, obj) <==> MeetsObject(w, m, obj)
  {
    SizedIs(w, m, "minProperties", "maxProperties", |obj|);
    RequiredIs(m, obj);
    hide AtLeast, AtMost, Sized, RequiredOk;
  }

  lemma RequiredIs(m: Fields, obj: Fields)
    ensures RequiredOk(m, obj) <==>
              ("required" in m && m["required"].JArr? ==> forall name :: JStr(name) in m["required"].elems ==> name in obj)
  {
    var req := ListAt(m, "required");
    if RequiredOk(m, obj) {
      forall name | JStr(name) in req ensures name in obj {
        var i :| 0 <= i < |req| && req[i] == JStr(name);
      }
    }
    if forall name :: JStr(name) in req ==> name in obj {
      forall i | 0 <= i < |req| && req[i].JStr? ensures req[i].s in obj {
        assert req[i] == JStr(req[i].s) && req[i] in req;
      }
    }
  }

  lemma ArrayIs(w: World, m: Fields, elems: seq<Json>)
    ensures ArrayOk(w, m, elems) <==> MeetsArray(w, m, elems)
  {
    SizedIs(w, m, "minItems", "maxItems", |elems|);
    hide AtLeast, AtMost, Sized;
  }

  /** A value passes the checks exactly when it meets every keyword. */
  lemma ChecksAre(w: World, v: Json, m: Fields)
    ensures Checks(w, v, m) <==> Meets(w, v, m)
  {
    if "type" in m {
      TypeIsMet(v, m["type"]);
    }
    if v.JStr? {
      StringIs(w, m, v.s);
    }
    if v.JNum? {
      NumberIs(w, m, v.r);
    }
    if v.JObj? {
      ObjectIs(w, m, v.fields);
    }
    if v.JArr? {
      ArrayIs(w, m, v.elems);
    }
    hide StringOk, NumberOk, ObjectOk, ArrayOk, MeetsString, MeetsNumber, MeetsObject, MeetsArray, CheckType, MeetsType;
  }

  // ----- the verdict on a schema without subschemas -----

  const SUBSCHEMAS := {"$ref", "if", "not", "allOf", "anyOf", "oneOf", "items", "properties"}

  /** No reference and no subschema. */
  ghost predicate Simple(m: Fields) {
    && (forall key :: key in SUBSCHEMAS ==> key !in m)
    && ("additionalProperties" in m ==> !m["additionalProperties"].JObj?)
  }

  lemma SimpleAbsent(m: Fields)
    requires Simple(m)
    ensures "$ref" !in m && "if" !in m && "not" !in m && "allOf" !in m && "anyOf" !in m && "oneOf" !in m
    ensures "items" !in m && Props(m) == map[] && forall obj, k :: !IsExtra(m, obj, k)
  {
  }

  /** The validator's verdict and the meaning of the schema are one and the same: ok. */
  ghost predicate Decides(w: World, v: Json, s: Json, ok: bool) {
    && (forall stack: seq<string> :: |stack| <= MAX_REF_DEPTH ==> JudgeNode(w, v, s, stack) == Judgement(ok, 0, false))
    && forall how: Reading, fuel: nat :: Sat(how, w, v, s, fuel) <==> ok
  }

  lemma NothingExtra(w: World, obj: Fields, m: Fields, stack: seq<string>)
    requires |stack| <= MAX_REF_DEPTH && Simple(m)
    ensures AllIn(JudgeProps(w, obj, m, stack)) == PASS && AllIn(JudgeExtras(w, obj, m, stack)) == PASS
  {
    SimpleAbsent(m);
    hide JudgeNode, Simple;
    assert JudgeProps(w, obj, m, stack) == map[] && JudgeExtras(w, obj, m, stack) == map[];
    AllInNone();
  }

  lemma SimpleParts(w: World, v: Json, m: Fields, stack: seq<string>)
    requires |stack| <= MAX_REF_DEPTH && Simple(m)
    ensures JudgeParts(w, v, m, stack) == Judgement((v.JObj? ==> ObjectOk(w, m, v.fields)) && (v.JArr? ==> ArrayOk(w, m, v.elems)), 0, false)
  {
    SimpleAbsent(m);
    if v.JObj? {
      NothingExtra(w, v.fields, m, stack);
    }
    hide JudgeNode, ObjectOk, ArrayOk, JudgeProps, JudgeExtras, AllIn, Simple;
    if v.JArr? {
      assert JudgeItems(w, v.elems, m, stack) == [];
    }
  }

  lemma KeywordsSteps(w: World, v: Json, m: Fields, stack: seq<string>)
    requires |stack| <= MAX_REF_DEPTH
    ensures var a, b, c := JudgeIf(w, v, m, stack), JudgeNot(w, v, m, stack), JudgeLists(w, v, m, stack);
            var j, parts := JudgeKeywords(w, v, m, stack), JudgeParts(w, v, m, stack);
            && (j.ok <==> a.ok && b.ok && c.ok && TypeOk(v, m) && PlainOk(w, v, m) && parts.ok)
            && j.cost == a.cost + b.cost + c.cost + (if TypeOk(v, m) then parts.cost else 0)
            && (j.limited <==> a.limited || b.limited || c.limited || (TypeOk(v, m) && parts.limited))
  {
    hide JudgeNode, JudgeIf, JudgeNot, JudgeLists, JudgeParts, TypeOk, PlainOk;
  }

  ghost predicate QuietParts(w: World, v: Json, m: Fields, stack: seq<string>)
    requires |stack| <= MAX_REF_DEPTH
  {
    && JudgeIf(w, v, m, stack) == PASS && JudgeNot(w, v, m, stack) == PASS && JudgeLists(w, v, m, stack) == PASS
    && JudgeNode(w, v, JObj(m), stack) == JudgeKeywords(w, v, m, stack)
  }

  lemma SimpleQuiet(w: World, v: Json, m: Fields, stack: seq<string>)
    requires |stack| <= MAX_REF_DEPTH && Simple(m)
    ensures QuietParts(w, v, m, stack)
  {
    hide JudgeNode, JudgeRef, JudgeKeywords, JudgeIf, JudgeNot, JudgeLists, Simple, Props, IsExtra;
    SimpleAbsent(m);
    BranchesAbsent(w, v, m, stack);
    ListsAbsent(w, v, m, stack);
    JudgeObject(w, v, m, stack);
  }

  lemma QuietJudged(w: World, v: Json, m: Fields, stack: seq<string>)
    requires |stack| <= MAX_REF_DEPTH && QuietParts(w, v, m, stack)
    requires JudgeParts(w, v, m, stack).cost == 0 && !JudgeParts(w, v, m, stack).limited
    ensures JudgeNode(w, v, JObj(m), stack) == Judgement(TypeOk(v, m) && PlainOk(w, v, m) && JudgeParts(w, v, m, stack).ok, 0, false)
  {
    hide JudgeNode, JudgeRef, JudgeKeywords, JudgeIf, JudgeNot, JudgeLists, JudgeParts, TypeOk, PlainOk, And;
    KeywordsSteps(w, v, m, stack);
  }

  lemma SimpleJudged(w: World, v: Json, m: Fields, stack: seq<string>)
    requires |stack| <= MAX_REF_DEPTH && Simple(m)
    ensures JudgeNode(w, v, JObj(m), stack) == Judgement(Checks(w, v, m), 0, false)
  {
    hide JudgeNode, QuietParts, JudgeParts, Simple, TypeOk, PlainOk, ObjectOk, ArrayOk;
    SimpleQuiet(w, v, m, stack);
    SimpleParts(w, v, m, stack);
    QuietJudged(w, v, m, stack);
  }

  lemma SimpleSat(how: Reading, w: World, v: Json, m: Fields, fuel: nat)
    requires Simple(m)
    ensures Sat(how, w, v, JObj(m), fuel) <==> Checks(w, v, m)
  {
    SimpleAbsent(m);
    SatIs(how, w, v, m, fuel);
    hide Simple, TypeOk, PlainOk, ObjectOk, ArrayOk, Sat;
    assert ListAt(m, "allOf") == [] && ListAt(m, "anyOf") == [] && ListAt(m, "oneOf") == [];
    assert SatLists(how, w, v, m, fuel);
    assert v.JObj? ==> SatObject(how, w, v.fields, m, fuel);
  }

  /** A schema without references and subschemas is judged, and means, that the value meets its keywords. */
  lemma SimpleDecides(w: World, v: Json, m: Fields)
    requires Simple(m)
    ensures Decides(w, v, JObj(m), Meets(w, v, m))
  {
    ChecksAre(w, v, m);
    hide Simple, Checks, Meets;
    forall stack: seq<string> | |stack| <= MAX_REF_DEPTH ensures JudgeNode(w, v, JObj(m), stack) == Judgement(Meets(w, v, m), 0, false) {
      SimpleJudged(w, v, m, stack);
    }
    forall how: Reading, fuel: nat ensures Sat(how, w, v, JObj(m), fuel) <==> Meets(w, v, m) {
      SimpleSat(how, w, v, m, fuel);
    }
  }

  // ----- one keyword at a time -----

  /** Of the keywords, at most `key` is present. */
  ghost predicate Only(m: Fields, key: string) {
    Simple(m) && forall k :: k in KEYWORDS && k != key ==> k !in m
  }

  lemma OnlyOne(key: string, x: Json)
    requires key in KEYWORDS && key !in SUBSCHEMAS && (key == "additionalProperties" ==> !x.JObj?)
    ensures Only(map[key := x], key) && map[key := x][key] == x
  {
  }

  /** {"minimum": x}, and so on for every keyword below. */
  function One(key: string, x: Json): Json {
    JObj(map[key := x])
  }

  lemma OneDecides(w: World, v: Json, key: string, x: Json)
    requires key in KEYWORDS && key !in SUBSCHEMAS && (key == "additionalProperties" ==> !x.JObj?)
    ensures Only(map[key := x], key) && map[key := x][key] == x
    ensures Decides(w, v, One(key, x), Meets(w, v, map[key := x]))
  {
    OnlyOne(key, x);
    hide Only, Meets, Decides;
    assert Simple(map[key := x]) by {
      OnlySimple(map[key := x], key);
    }
    SimpleDecides(w, v, map[key := x]);
  }

  lemma OnlySimple(m: Fields, key: string)
    requires Only(m, key)
    ensures Simple(m)
  {
  }

  // What is left of Meets when the one keyword is about numbers, strings, objects, arrays, or any value.

  lemma LimitAbsent(w: World, m: Fields, key: string)
    requires key !in m
    ensures LimitAt(w, m, key) == None && !Draft04(m, key)
  {
  }

  lemma NumberAbsent(w: World, m: Fields, x: real)
    requires forall k :: k in {"minimum", "maximum", "exclusiveMinimum", "exclusiveMaximum"} ==> k !in m
    ensures MeetsNumber(w, m, x)
  {
  }

  lemma SizedAbsent(w: World, m: Fields, least: string, most: string, n: nat)
    requires least !in m && most !in m
    ensures Sized(w, m, least, most, n)
  {
  }

  lemma StringAbsent(w: World, m: Fields, s: string)
    requires forall k :: k in {"minLength", "maxLength", "pattern", "format"} ==> k !in m
    ensures MeetsString(w, m, s)
  {
    SizedAbsent(w, m, "minLength", "maxLength", |s|);
    hide Sized;
  }

  lemma ObjectAbsent(w: World, m: Fields, obj: Fields)
    requires forall k :: k in {"minProperties", "maxProperties", "required", "additionalProperties"} ==> k !in m
    ensures MeetsObject(w, m, obj)
  {
    SizedAbsent(w, m, "minProperties", "maxProperties", |obj|);
    hide Sized;
  }

  lemma ArrayAbsent(w: World, m: Fields, elems: seq<Json>)
    requires forall k :: k in {"minItems", "maxItems", "uniqueItems"} ==> k !in m
    ensures MeetsArray(w, m, elems)
  {
    SizedAbsent(w, m, "minItems", "maxItems", |elems|);
    hide Sized;
  }

  lemma AnyAbsent(v: Json, m: Fields)
    requires forall k :: k in {"type", "enum", "const"} ==> k !in m
    ensures "type" !in m && "enum" !in m && "const" !in m
  {
  }

  const NUMBER_KEYS := {"minimum", "maximum", "exclusiveMinimum", "exclusiveMaximum"}
  const STRING_KEYS := {"minLength", "maxLength", "pattern", "format"}
  const OBJECT_KEYS := {"minProperties", "maxProperties", "required", "additionalProperties"}
  const ARRAY_KEYS := {"minItems", "maxItems", "uniqueItems"}

  lemma OnlyKey(w: World, v: Json, m: Fields, key: string)
    requires Only(m, key)
    ensures key !in NUMBER_KEYS ==> forall x :: MeetsNumber(w, m, x)
    ensures key !in STRING_KEYS ==> forall s :: MeetsString(w, m, s)
    ensures key !in OBJECT_KEYS ==> forall obj :: MeetsObject(w, m, obj)
    ensures key !in ARRAY_KEYS ==> forall elems :: MeetsArray(w, m, elems)
    ensures key !in {"type", "enum", "const"} ==> "type" !in m && "enum" !in m && "const" !in m
  {
    hide MeetsNumber, MeetsString, MeetsObject, MeetsArray, Simple;
    if key !in NUMBER_KEYS {
      forall x ensures MeetsNumber(w, m, x) { NumberAbsent(w, m, x); }
    }
    if key !in STRING_KEYS {
      forall s ensures MeetsString(w, m, s) { StringAbsent(w, m, s); }
    }
    if key !in OBJECT_KEYS {
      forall obj ensures MeetsObject(w, m, obj) { ObjectAbsent(w, m, obj); }
    }
    if key !in ARRAY_KEYS {
      forall elems ensures MeetsArray(w, m, elems) { ArrayAbsent(w, m, elems); }
    }
  }

  lemma OneNumber(w: World, v: Json, key: string, x: Json)
    requires key in NUMBER_KEYS
    ensures Decides(w, v, One(key, x), v.JNum? ==> MeetsNumber(w, map[key := x], v.r))
  {
    hide MeetsNumber, MeetsString, MeetsObject, MeetsArray, Simple, Decides, Only, MeetsType;
    OneDecides(w, v, key, x);
    OnlyKey(w, v, map[key := x], key);
  }

  lemma OneString(w: World, v: Json, key: string, x: Json)
    requires key in STRING_KEYS
    ensures Decides(w, v, One(key, x), v.JStr? ==> MeetsString(w, map[key := x], v.s))
  {
    hide MeetsNumber, MeetsString, MeetsObject, MeetsArray, Simple, Decides, Only, MeetsType;
    OneDecides(w, v, key, x);
    OnlyKey(w, v, map[key := x], key);
  }

  lemma OneObject(w: World, v: Json, key: string, x: Json)
    requires key in OBJECT_KEYS && (key == "additionalProperties" ==> !x.JObj?)
    ensures Decides(w, v, One(key, x), v.JObj? ==> MeetsObject(w, map[key := x], v.fields))
  {
    hide MeetsNumber, MeetsString, MeetsObject, MeetsArray, Simple, Decides, Only, MeetsType;
    OneDecides(w, v, key, x);
    OnlyKey(w, v, map[key := x], key);
  }

  lemma OneArray(w: World, v: Json, key: string, x: Json)
    requires key in ARRAY_KEYS
    ensures Decides(w, v, One(key, x), v.JArr? ==> MeetsArray(w, map[key := x], v.elems))
  {
    hide MeetsNumber, MeetsString, MeetsObject, MeetsArray, Simple, Decides, Only, MeetsType;
    OneDecides(w, v, key, x);
    OnlyKey(w, v, map[key := x], key);
  }

  /** A number is not below the minimum, and not above the maximum; other values pass. */
  lemma Bounds(w: World, v: Json, n: real)
    ensures Decides(w, v, One("minimum", JNum(n)), v.JNum? ==> v.r >= n)
    ensures Decides(w, v, One("maximum", JNum(n)), v.JNum? ==> v.r <= n)
  {
    hide Decides;
    OneNumber(w, v, "minimum", JNum(n));
    OneNumber(w, v, "maximum", JNum(n));
  }

  /** It is strictly inside the exclusive ones. */
  lemma ExclusiveBounds(w: World, v: Json, n: real)
    ensures Decides(w, v, One("exclusiveMinimum", JNum(n)), v.JNum? ==> v.r > n)
    ensures Decides(w, v, One("exclusiveMaximum", JNum(n)), v.JNum? ==> v.r < n)
  {
    hide Decides;
    OneNumber(w, v, "exclusiveMinimum", JNum(n));
    OneNumber(w, v, "exclusiveMaximum", JNum(n));
  }

  /** The length of a string, the number of fields of an object and of elements of an array are within theirs. */
  lemma Lengths(w: World, v: Json, n: real)
    ensures Decides(w, v, One("minLength", JNum(n)), v.JStr? ==> |v.s| as real >= n)
    ensures Decides(w, v, One("maxLength", JNum(n)), v.JStr? ==> |v.s| as real <= n)
  {
    hide Decides;
    OneString(w, v, "minLength", JNum(n));
    OneString(w, v, "maxLength", JNum(n));
  }

  lemma FieldCounts(w: World, v: Json, n: real)
    ensures Decides(w, v, One("minProperties", JNum(n)), v.JObj? ==> |v.fields| as real >= n)
    ensures Decides(w, v, One("maxProperties", JNum(n)), v.JObj? ==> |v.fields| as real <= n)
  {
    hide Decides;
    OneObject(w, v, "minProperties", JNum(n));
    OneObject(w, v, "maxProperties", JNum(n));
  }

  lemma ElementCounts(w: World, v: Json, n: real)
    ensures Decides(w, v, One("minItems", JNum(n)), v.JArr? ==> |v.elems| as real >= n)
    ensures Decides(w, v, One("maxItems", JNum(n)), v.JArr? ==> |v.elems| as real <= n)
  {
    hide Decides;
    OneArray(w, v, "minItems", JNum(n));
    OneArray(w, v, "maxItems", JNum(n));
  }

  /** Every required name is a field; without properties and with additionalProperties false there is none. */
  lemma Fieldwise(w: World, v: Json, names: seq<Json>)
    ensures Decides(w, v, One("required", JArr(names)), v.JObj? ==> forall name :: JStr(name) in names ==> name in v.fields)
    ensures Decides(w, v, One("additionalProperties", JBool(false)), v.JObj? ==> v.fields == map[])
  {
    hide Decides;
    OneObject(w, v, "required", JArr(names));
    OneObject(w, v, "additionalProperties", JBool(false));
  }

  lemma Uniqueness(w: World, v: Json)
    ensures Decides(w, v, One("uniqueItems", JBool(true)),
                    v.JArr? ==> forall i, j :: 0 <= i < |v.elems| && 0 <= j < |v.elems| && i != j ==> v.elems[i] != v.elems[j])
  {
    hide Decides;
    OneArray(w, v, "uniqueItems", JBool(true));
  }

  /** A pattern of at most 512 bytes that compiles matches the string, and the format accepts it. */
  lemma Texts(w: World, v: Json, name: string)
    requires name != ""
    ensures Decides(w, v, One("pattern", JStr(name)), v.JStr? ==> |name| <= 512 && w.compiles(name) && w.matches(name, v.s))
    ensures Decides(w, v, One("format", JStr(name)), v.JStr? ==> w.formatOk(name, v.s))
  {
    hide Decides;
    OneString(w, v, "pattern", JStr(name));
    OneString(w, v, "format", JStr(name));
  }

  lemma OneAny(w: World, v: Json, key: string, x: Json)
    requires key in {"type", "enum", "const"}
    ensures Decides(w, v, One(key, x), AnyMet(v, map[key := x]))
  {
    hide MeetsNumber, MeetsString, MeetsObject, MeetsArray, Simple, Decides, Only, MeetsType;
    OneDecides(w, v, key, x);
    OnlyKey(w, v, map[key := x], key);
  }

  predicate AnyMet(v: Json, m: Fields) {
    && ("type" in m ==> MeetsType(v, m["type"]))
    && ("enum" in m && m["enum"].JArr? ==> exists i :: 0 <= i < |m["enum"].elems| && m["enum"].elems[i] == v)
    && ("const" in m ==> m["const"] == v)
  }

  /** The value is one of the listed ones, or the constant. */
  lemma Listed(w: World, v: Json, values: seq<Json>, c: Json)
    ensures Decides(w, v, One("enum", JArr(values)), v in values)
    ensures Decides(w, v, One("const", c), v == c)
  {
    hide Decides, MeetsType;
    OneAny(w, v, "enum", JArr(values));
    OneAny(w, v, "const", c);
  }

  /** Every type name asks for its constructor of JSON values, `integer` for a whole number in the int64 range. */
  lemma Types(w: World, v: Json)
    ensures Decides(w, v, One("type", JStr("object")), v.JObj?) && Decides(w, v, One("type", JStr("array")), v.JArr?)
    ensures Decides(w, v, One("type", JStr("string")), v.JStr?) && Decides(w, v, One("type", JStr("number")), v.JNum?)
    ensures Decides(w, v, One("type", JStr("boolean")), v.JBool?) && Decides(w, v, One("type", JStr("null")), v.JNull?)
    ensures Decides(w, v, One("type", JStr("integer")),
                    v.JNum? && v.r == v.r.Floor as real && -9223372036854775808.0 <= v.r < 9223372036854775808.0)
  {
    hide Decides;
    OneType(w, v, JStr("object"));
    OneType(w, v, JStr("array"));
    OneType(w, v, JStr("string"));
    OneType(w, v, JStr("number"));
    OneType(w, v, JStr("boolean"));
    OneType(w, v, JStr("null"));
    OneType(w, v, JStr("integer"));
  }

  lemma OneType(w: World, v: Json, t: Json)
    ensures Decides(w, v, One("type", t), MeetsType(v, t))
  {
    hide Decides, MeetsType;
    OneAny(w, v, "type", t);
  }

  /** A list of names asks for one of them. */
  lemma TypeLists(w: World, v: Json, names: seq<string>)
    ensures Decides(w, v, One("type", JArr(Strings(names))), exists i :: 0 <= i < |names| && HasType(v, names[i]))
  {
    hide Decides, HasType;
    OneType(w, v, JArr(Strings(names)));
    assert MeetsType(v, JArr(Strings(names))) <==> exists i :: 0 <= i < |names| && HasType(v, names[i]);
  }

  function Strings(names: seq<string>): (elems: seq<Json>)
    ensures |elems| == |names| && forall i :: 0 <= i < |names| ==> elems[i] == JStr(names[i])
  {
    seq(|names|, i requires 0 <= i < |names| => JStr(names[i]))
  }

  // ----- the keywords with subschemas -----

  const PLAIN_KEYS := NUMBER_KEYS + STRING_KEYS + ARRAY_KEYS + {"minProperties", "maxProperties", "required", "type", "enum", "const"}

  lemma PlainAbsent(w: World, v: Json, m: Fields)
    requires forall k :: k in PLAIN_KEYS ==> k !in m
    requires "additionalProperties" in m ==> m["additionalProperties"] != JBool(false)
    ensures Checks(w, v, m)
  {
    ChecksAre(w, v, m);
    AnyAbsent(v, m);
    forall x ensures MeetsNumber(w, m, x) { NumberAbsent(w, m, x); }
    forall s ensures MeetsString(w, m, s) { StringAbsent(w, m, s); }
    forall elems ensures MeetsArray(w, m, elems) { ArrayAbsent(w, m, elems); }
    forall obj ensures MeetsObject(w, m, obj) {
      SizedAbsent(w, m, "minProperties", "maxProperties", |obj|);
    }
    hide Checks, MeetsNumber, MeetsString, MeetsArray, MeetsObject;
  }

  const SUB_KEYS := {"$ref", "if", "then", "else", "not", "allOf", "anyOf", "oneOf", "items", "properties", "additionalProperties"}

  ghost predicate NoPlain(m: Fields) {
    forall k :: k in PLAIN_KEYS ==> k !in m
  }

  lemma KeysApart()
    ensures SUB_KEYS !! PLAIN_KEYS
  {
  }

  lemma OnlySubs(m: Fields)
    requires m.Keys <= SUB_KEYS
    ensures NoPlain(m)
  {
    KeysApart();
  }

  /** The parts of the meaning that subschemas decide. */
  lemma SubSat(how: Reading, w: World, v: Json, m: Fields, fuel: nat)
    requires NoPlain(m) && "$ref" !in m
    requires "additionalProperties" in m ==> m["additionalProperties"] != JBool(false)
    ensures Sat(how, w, v, JObj(m), fuel) <==>
              && ("if" in m ==> if Sat(how, w, v, m["if"], fuel) then "then" in m ==> Sat(how, w, v, m["then"], fuel)
                                else "else" in m ==> Sat(how, w, v, m["else"], fuel))
              && ("not" in m ==> !Sat(how, w, v, m["not"], fuel))
              && SatLists(how, w, v, m, fuel)
              && (v.JObj? ==> SatObject(how, w, v.fields, m, fuel))
              && (v.JArr? && "items" in m ==> forall i :: 0 <= i < |v.elems| ==> Sat(how, w, v.elems[i], m["items"], fuel))
  {
    PlainAbsent(w, v, m);
    SatIs(how, w, v, m, fuel);
    hide TypeOk, PlainOk, ObjectOk, ArrayOk, Sat, SatLists, SatObject;
  }

  lemma NoLists(how: Reading, w: World, v: Json, m: Fields, fuel: nat)
    requires "allOf" !in m && "anyOf" !in m && "oneOf" !in m
    ensures SatLists(how, w, v, m, fuel)
  {
    hide Sat;
  }

  lemma NoFields(how: Reading, w: World, obj: Fields, m: Fields, fuel: nat)
    requires "properties" !in m && "additionalProperties" !in m
    ensures SatObject(how, w, obj, m, fuel)
  {
    hide Sat;
  }

  /** allOf, anyOf and oneOf: every alternative, some alternative (or an empty list), exactly one (or an empty list). */
  lemma AllOfMeans(how: Reading, w: World, v: Json, ss: seq<Json>, fuel: nat)
    ensures Sat(how, w, v, One("allOf", JArr(ss)), fuel) <==> forall i :: 0 <= i < |ss| ==> Sat(how, w, v, ss[i], fuel)
  {
    var m: Fields := map["allOf" := JArr(ss)];
    OnlySubs(m);
    hide NoPlain;
    SubSat(how, w, v, m, fuel);
    if v.JObj? {
      NoFields(how, w, v.fields, m, fuel);
    }
    hide Sat, SatObject;
    assert ListAt(m, "allOf") == ss && ListAt(m, "anyOf") == [] && ListAt(m, "oneOf") == [];
  }

  lemma AnyOfMeans(how: Reading, w: World, v: Json, ss: seq<Json>, fuel: nat)
    ensures Sat(how, w, v, One("anyOf", JArr(ss)), fuel) <==> ss == [] || exists i :: 0 <= i < |ss| && Sat(how, w, v, ss[i], fuel)
  {
    var m: Fields := map["anyOf" := JArr(ss)];
    OnlySubs(m);
    hide NoPlain;
    SubSat(how, w, v, m, fuel);
    if v.JObj? {
      NoFields(how, w, v.fields, m, fuel);
    }
    hide Sat, SatObject;
    assert ListAt(m, "anyOf") == ss && ListAt(m, "allOf") == [] && ListAt(m, "oneOf") == [];
  }

  lemma OneOfMeans(how: Reading, w: World, v: Json, ss: seq<Json>, fuel: nat)
    ensures Sat(how, w, v, One("oneOf", JArr(ss)), fuel) <==>
              ss == [] || exists i :: 0 <= i < |ss| && OnlyMatch(how, w, v, ss, i, fuel)
  {
    var m: Fields := map["oneOf" := JArr(ss)];
    OnlySubs(m);
    hide NoPlain;
    SubSat(how, w, v, m, fuel);
    if v.JObj? {
      NoFields(how, w, v.fields, m, fuel);
    }
    hide Sat, SatObject, OnlyMatch;
    assert ListAt(m, "oneOf") == ss && ListAt(m, "allOf") == [] && ListAt(m, "anyOf") == [];
    OneMatch(how, w, v, m, fuel);
    hide SatOne;
  }

  lemma OneMatch(how: Reading, w: World, v: Json, m: Fields, fuel: nat)
    ensures var ss := ListAt(m, "oneOf");
            SatOne(how, w, v, m, fuel) <==> exists i :: 0 <= i < |ss| && OnlyMatch(how, w, v, ss, i, fuel)
  {
    hide Sat;
    var ss := ListAt(m, "oneOf");
    if SatOne(how, w, v, m, fuel) {
      var i :| 0 <= i < |ss| && Sat(how, w, v, ss[i], fuel) && forall j :: 0 <= j < |ss| && Sat(how, w, v, ss[j], fuel) ==> j == i;
      assert OnlyMatch(how, w, v, ss, i, fuel);
    }
    if i :| 0 <= i < |ss| && OnlyMatch(how, w, v, ss, i, fuel) {
      assert Sat(how, w, v, ss[i], fuel) && forall j :: 0 <= j < |ss| && Sat(how, w, v, ss[j], fuel) ==> j == i;
      assert SatOne(how, w, v, m, fuel);
    }
  }

  /** The i-th alternative matches and no other does. */
  ghost predicate OnlyMatch(how: Reading, w: World, v: Json, ss: seq<Json>, i: nat, fuel: nat)
    requires i < |ss|
  {
    forall j :: 0 <= j < |ss| ==> (Sat(how, w, v, ss[j], fuel) <==> j == i)
  }

  lemma NotMeans(how: Reading, w: World, v: Json, s: Json, fuel: nat)
    ensures Sat(how, w, v, One("not", s), fuel) <==> !Sat(how, w, v, s, fuel)
  {
    var m: Fields := map["not" := s];
    OnlySubs(m);
    hide NoPlain;
    SubSat(how, w, v, m, fuel);
    NoLists(how, w, v, m, fuel);
    if v.JObj? {
      NoFields(how, w, v.fields, m, fuel);
    }
    hide Sat, SatObject, SatLists;
  }

  lemma BranchesMean(how: Reading, w: World, v: Json, a: Json, b: Json, c: Json, fuel: nat)
    ensures Sat(how, w, v, JObj(map["if" := a, "then" := b, "else" := c]), fuel) <==>
              if Sat(how, w, v, a, fuel) then Sat(how, w, v, b, fuel) else Sat(how, w, v, c, fuel)
  {
    var m: Fields := map["if" := a, "then" := b, "else" := c];
    BranchKeys(a, b, c);
    hide Sat;
    BranchesOf(how, w, v, m, fuel);
  }

  lemma BranchKeys(a: Json, b: Json, c: Json)
    ensures var m: Fields := map["if" := a, "then" := b, "else" := c];
            m.Keys == {"if", "then", "else"} && m["if"] == a && m["then"] == b && m["else"] == c
  {
    assert "then" != "else" && "if" != "then" && "if" != "else";
  }

  lemma BranchesOf(how: Reading, w: World, v: Json, m: Fields, fuel: nat)
    requires m.Keys == {"if", "then", "else"}
    ensures Sat(how, w, v, JObj(m), fuel) <==>
              if Sat(how, w, v, m["if"], fuel) then Sat(how, w, v, m["then"], fuel) else Sat(how, w, v, m["else"], fuel)
  {
    hide NoPlain, Sat, SatObject, SatLists;
    OnlySubs(m);
    BranchAbsent(m);
    SubSat(how, w, v, m, fuel);
    NoLists(how, w, v, m, fuel);
    if v.JObj? {
      NoFields(how, w, v.fields, m, fuel);
    }
  }

  lemma BranchAbsent(m: Fields)
    requires m.Keys == {"if", "then", "else"}
    ensures "$ref" !in m && "not" !in m && "allOf" !in m && "anyOf" !in m && "oneOf" !in m && "items" !in m
    ensures "properties" !in m && "additionalProperties" !in m
  {
    forall k | k in {"$ref", "not", "allOf", "anyOf", "oneOf", "items", "properties", "additionalProperties"} ensures k !in m {
      assert k !in {"if", "then", "else"};
    }
  }

  /** Every element satisfies the schema of items. */
  lemma ItemsMean(how: Reading, w: World, v: Json, s: Json, fuel: nat)
    ensures Sat(how, w, v, One("items", s), fuel) <==> (v.JArr? ==> forall i :: 0 <= i < |v.elems| ==> Sat(how, w, v.elems[i], s, fuel))
  {
    var m: Fields := map["items" := s];
    OnlySubs(m);
    hide NoPlain;
    SubSat(how, w, v, m, fuel);
    NoLists(how, w, v, m, fuel);
    if v.JObj? {
      NoFields(how, w, v.fields, m, fuel);
    }
    hide Sat, SatObject, SatLists;
  }

  /** Each field satisfies the schema listed for it, every other field that of additionalProperties. The code
      passes over the listed schemas that are no objects. */
  lemma FieldsMean(how: Reading, w: World, v: Json, props: Fields, s: Json, fuel: nat)
    requires s != JBool(false)
    ensures Sat(how, w, v, JObj(map["properties" := JObj(props), "additionalProperties" := s]), fuel) <==>
              (v.JObj? ==>
                 forall k :: k in v.fields ==>
                   if k !in props then Sat(how, w, v.fields[k], s, fuel)
                   else (how.AsCoded? && !props[k].JObj?) || Sat(how, w, v.fields[k], props[k], fuel))
  {
    var m: Fields := map["properties" := JObj(props), "additionalProperties" := s];
    FieldKeys(props, s);
    hide Sat;
    FieldsOf(how, w, v, m, fuel);
  }

  lemma FieldKeys(props: Fields, s: Json)
    ensures var m: Fields := map["properties" := JObj(props), "additionalProperties" := s];
            m.Keys == {"properties", "additionalProperties"} && Props(m) == props && m["additionalProperties"] == s
  {
    assert "properties" != "additionalProperties";
  }

  lemma FieldsOf(how: Reading, w: World, v: Json, m: Fields, fuel: nat)
    requires m.Keys == {"properties", "additionalProperties"} && m["additionalProperties"] != JBool(false)
    ensures Sat(how, w, v, JObj(m), fuel) <==>
              (v.JObj? ==>
                 forall k :: k in v.fields ==>
                   if k !in Props(m) then Sat(how, w, v.fields[k], m["additionalProperties"], fuel)
                   else (how.AsCoded? && !Props(m)[k].JObj?) || Sat(how, w, v.fields[k], Props(m)[k], fuel))
  {
    hide NoPlain, Sat, SatObject, SatLists, Props;
    OnlySubs(m);
    FieldsAbsent(m);
    SubSat(how, w, v, m, fuel);
    NoLists(how, w, v, m, fuel);
    if v.JObj? {
      FieldsSat(how, w, v.fields, m, fuel);
    }
  }

  lemma FieldsAbsent(m: Fields)
    requires m.Keys == {"properties", "additionalProperties"}
    ensures "$ref" !in m && "if" !in m && "not" !in m && "allOf" !in m && "anyOf" !in m && "oneOf" !in m && "items" !in m
  {
    forall k | k in {"$ref", "if", "not", "allOf", "anyOf", "oneOf", "items"} ensures k !in m {
      assert k !in {"properties", "additionalProperties"};
    }
  }

  lemma FieldsSat(how: Reading, w: World, obj: Fields, m: Fields, fuel: nat)
    requires "additionalProperties" in m && m["additionalProperties"] != JBool(false)
    ensures SatObject(how, w, obj, m, fuel) <==>
              forall k :: k in obj ==>
                if k !in Props(m) then Sat(how, w, obj[k], m["additionalProperties"], fuel)
                else (how.AsCoded? && !Props(m)[k].JObj?) || Sat(how, w, obj[k], Props(m)[k], fuel)
  {
    forall v ensures !m["additionalProperties"].JObj? ==> Sat(how, w, v, m["additionalProperties"], fuel) {
    }
    hide Sat;
    if SatObject(how, w, obj, m, fuel) {
      forall k | k in obj
        ensures if k !in Props(m) then Sat(how, w, obj[k], m["additionalProperties"], fuel)
                else (how.AsCoded? && !Props(m)[k].JObj?) || Sat(how, w, obj[k], Props(m)[k], fuel) {
        if k in Props(m) {
          assert how.AsCoded? ==> Props(m)[k].JObj? ==> Applies(how, m, obj, k);
        } else {
          assert m["additionalProperties"].JObj? ==> IsExtra(m, obj, k);
        }
      }
    }
  }
}

/** The JSON Schema validator and its reference bookkeeping (schema.go).
  *
  * Maps are walked in an arbitrary order: every loop over a map picks any key not yet visited. The contracts
  * fix the verdict and the expansion count all the same.
  */
module SchemaValidator {
  import opened Common
  import opened Json
  import opened JsonPointer
  import opened SchemaMeaning
  import opened SchemaSound
  import opened SchemaReading

  datatype Problem =
    | SchemaIsFalse | RefInvalid | RefNotFound | RefCycle | RefDepth
    | MatchesNot | NoAnyOf | NotOneOf | WrongType | NotInEnum | NotConst
    | TooShort | TooLong | PatternTooLong | PatternInvalid | PatternMismatch | BadFormat
    | TooSmall | TooLarge | NotAbove | NotBelow
    | TooFewProperties | TooManyProperties | MissingField(key: string) | ExtraField(key: string)
    | TooFewItems | TooManyItems | NotUnique

  type Errors = seq<Problem>

  /** From e0 to e1 expansions the validator did what j says: if that fits the budget, or, as the caller can
      see, if the budget was not used up. */
  ghost predicate Judged(j: Judgement, e0: nat, e1: nat, clean: bool) {
    e0 <= e1 && (e0 + j.cost <= MAX_EXPANSIONS || e1 < MAX_EXPANSIONS ==> e1 == e0 + j.cost && (clean <==> j.ok))
  }

  lemma JudgedBoth(a: Judgement, b: Judgement, e0: nat, e1: nat, e2: nat, c1: bool, c2: bool)
    requires Judged(a, e0, e1, c1) && Judged(b, e1, e2, c2)
    ensures Judged(And(a, b), e0, e2, c1 && c2)
  {
  }

  // ----- sums over a map do not depend on the order -----

  lemma {:induction false} SumAny(js: map<string, Judgement>, k: string)
    requires k in js
    ensures Sum(js) == js[k].cost + Sum(js - {k})
    decreases |js|
  {
    var first :| first in js && Sum(js) == js[first].cost + Sum(js - {first});
    if first != k {
      SumAny(js - {first}, k);
      SumAny(js - {k}, first);
      assert js - {first} - {k} == js - {k} - {first};
    }
  }

  lemma AllInStep(js: map<string, Judgement>, k: string, j: Judgement)
    requires k !in js
    ensures AllIn(js[k := j]) == And(AllIn(js), j)
  {
    var more := js[k := j];
    SumAny(more, k);
    assert more - {k} == js;
    forall x | x in js ensures x in more && more[x] == js[x] {
    }
    if AllIn(more).limited {
      var x :| x in more && more[x].limited;
    }
  }

  lemma AllOfStep(js: seq<Judgement>, k: nat)
    requires k < |js|
    ensures AllOf(js[..k + 1]) == And(AllOf(js[..k]), js[k])
  {
    assert js[..k + 1][..k] == js[..k];
  }

  /** Once anyOf has matched, the rest is not looked at. */
  lemma {:induction false} AnyOfStops(js: seq<Judgement>, k: nat)
    requires k <= |js| && AnyOf(js[..k]).ok
    ensures AnyOf(js) == AnyOf(js[..k])
    decreases |js| - k
  {
    if k == |js| {
      assert js[..k] == js;
    } else {
      assert js[..k + 1][..k] == js[..k];
      AnyOfStops(js, k + 1);
    }
  }

  lemma {:induction false} AnyOfGrows(js: seq<Judgement>, k: nat)
    requires k <= |js|
    ensures AnyOf(js).cost >= AnyOf(js[..k]).cost
    decreases |js| - k
  {
    if k == |js| {
      assert js[..k] == js;
    } else {
      assert js[..k + 1][..k] == js[..k];
      AnyOfGrows(js, k + 1);
    }
  }

  lemma AnyOfEnds(js: seq<Judgement>, k: nat)
    requires k <= |js|
    ensures AnyOf(js).cost >= AnyOf(js[..k]).cost
    ensures AnyOf(js[..k]).ok ==> AnyOf(js) == AnyOf(js[..k])
  {
    AnyOfGrows(js, k);
    if AnyOf(js[..k]).ok {
      AnyOfStops(js, k);
    }
  }

  lemma CountStep(js: seq<Judgement>, k: nat)
    requires k < |js|
    ensures Count(js[..k + 1]) == Count(js[..k]) + if js[k].ok then 1 else 0
  {
    assert js[..k + 1][..k] == js[..k];
  }

  // ----- sibling keywords of a reference -----

  function Siblings(m: Fields): Fields {
    m - {"$ref"}
  }

  lemma SiblingKey(w: World, m: Fields, key: string)
    requires key != "$ref"
    ensures var n := Siblings(m);
            && (key in n <==> key in m) && (key in m ==> n[key] == m[key])
            && ListAt(n, key) == ListAt(m, key) && StringAt(n, key) == StringAt(m, key) && AsFloat(w, n, key) == AsFloat(w, m, key)
  {
  }

  lemma SiblingsString(w: World, m: Fields, s: string)
    ensures StringOk(w, Siblings(m), s) == StringOk(w, m, s)
  {
    forall key | key in {"minLength", "maxLength"} ensures AsFloat(w, Siblings(m), key) == AsFloat(w, m, key) {
      SiblingKey(w, m, key);
    }
    forall key | key in {"pattern", "format"} ensures StringAt(Siblings(m), key) == StringAt(m, key) {
      SiblingKey(w, m, key);
    }
    hide Siblings, AsFloat, StringAt;
  }

  lemma SiblingsNumber(w: World, m: Fields, x: real)
    ensures NumberOk(w, Siblings(m), x) == NumberOk(w, m, x)
  {
    forall key | key in {"minimum", "maximum", "exclusiveMinimum", "exclusiveMaximum"}
      ensures AsFloat(w, Siblings(m), key) == AsFloat(w, m, key)
      ensures (key in Siblings(m) <==> key in m) && (key in m ==> Siblings(m)[key] == m[key]) {
      SiblingKey(w, m, key);
    }
    hide Siblings, AsFloat;
  }

  lemma SiblingsProps(m: Fields)
    ensures Props(Siblings(m)) == Props(m)
  {
  }

  lemma SiblingsClosed(m: Fields, obj: Fields)
    ensures ClosedOk(Siblings(m), obj) == ClosedOk(m, obj) && RequiredOk(Siblings(m), obj) == RequiredOk(m, obj)
  {
    SiblingsProps(m);
    assert ListAt(Siblings(m), "required") == ListAt(m, "required");
    hide ListAt, Props;
  }

  lemma SiblingsObject(w: World, m: Fields, obj: Fields)
    ensures ObjectOk(w, Siblings(m), obj) == ObjectOk(w, m, obj)
  {
    hide RequiredOk, ClosedOk, Siblings, AsFloat, Below, Above;
    SiblingKey(w, m, "minProperties");
    SiblingKey(w, m, "maxProperties");
    SiblingsClosed(m, obj);
  }

  lemma SiblingsArray(w: World, m: Fields, arr: seq<Json>)
    ensures ArrayOk(w, Siblings(m), arr) == ArrayOk(w, m, arr)
  {
    forall key | key in {"minItems", "maxItems", "uniqueItems"}
      ensures AsFloat(w, Siblings(m), key) == AsFloat(w, m, key)
      ensures (key in Siblings(m) <==> key in m) && (key in m ==> Siblings(m)[key] == m[key]) {
      SiblingKey(w, m, key);
    }
    hide Siblings, AsFloat, Unique;
  }

  lemma SiblingsPlain(w: World, v: Json, m: Fields)
    ensures TypeOk(v, Siblings(m)) == TypeOk(v, m) && PlainOk(w, v, Siblings(m)) == PlainOk(w, v, m)
  {
    if v.JStr? {
      SiblingsString(w, m, v.s);
    }
    if v.JNum? {
      SiblingsNumber(w, m, v.r);
    }
    hide StringOk, NumberOk, CheckType, CheckEnum;
  }

  lemma SiblingsParts(w: World, v: Json, m: Fields, stack: seq<string>)
    requires |stack| <= MAX_REF_DEPTH
    ensures JudgeParts(w, v, Siblings(m), stack) == JudgeParts(w, v, m, stack)
  {
    var n := Siblings(m);
    hide JudgeNode, ObjectOk, ArrayOk, AllIn, AllOf;
    match v {
      case JObj(obj) =>
        SiblingsObject(w, m, obj);
        SiblingsProps(m);
        assert JudgeProps(w, obj, n, stack) == JudgeProps(w, obj, m, stack) by {
          assert forall k :: IsProp(n, obj, k) == IsProp(m, obj, k);
        }
        assert JudgeExtras(w, obj, n, stack) == JudgeExtras(w, obj, m, stack) by {
          assert forall k :: IsExtra(n, obj, k) == IsExtra(m, obj, k);
        }
      case JArr(arr) =>
        SiblingsArray(w, m, arr);
        assert JudgeItems(w, arr, n, stack) == JudgeItems(w, arr, m, stack);
      case _ =>
    }
  }

  lemma SiblingsLists(w: World, v: Json, m: Fields, stack: seq<string>)
    requires |stack| <= MAX_REF_DEPTH
    ensures JudgeLists(w, v, Siblings(m), stack) == JudgeLists(w, v, m, stack)
  {
    forall key | key in {"allOf", "anyOf", "oneOf"}
      ensures ListAt(Siblings(m), key) == ListAt(m, key) && JudgeEach(w, v, Siblings(m), key, stack) == JudgeEach(w, v, m, key, stack) {
      SiblingKey(w, m, key);
      hide JudgeNode, ListAt, Siblings;
      assert JudgeEach(w, v, Siblings(m), key, stack) == JudgeEach(w, v, m, key, stack);
    }
    hide JudgeEach, ListAt, Siblings, AllOf, AnyOf, OneOf;
  }

  /** The keywords beside a reference are judged as if it were not there. */
  lemma SiblingsSame(w: World, v: Json, m: Fields, stack: seq<string>)
    requires |stack| <= MAX_REF_DEPTH
    ensures JudgeKeywords(w, v, Siblings(m), stack) == JudgeKeywords(w, v, m, stack)
  {
    hide JudgeNode, PlainOk, TypeOk, JudgeLists, JudgeParts;
    SiblingsPlain(w, v, m);
    SiblingsLists(w, v, m, stack);
    SiblingsParts(w, v, m, stack);
    assert JudgeIf(w, v, Siblings(m), stack) == JudgeIf(w, v, m, stack);
    assert JudgeNot(w, v, Siblings(m), stack) == JudgeNot(w, v, m, stack);
  }

  lemma NoKeywords(w: World, v: Json, stack: seq<string>)
    requires |stack| <= MAX_REF_DEPTH
    ensures JudgeKeywords(w, v, map[], stack) == PASS
  {
    hide JudgeKeywords, JudgeNode, AllIn;
    var m: Fields := map[];
    OnlyPropertiesJudged(w, v, m, stack);
    AllInNone();
    if v.JObj? {
      assert JudgeProps(w, v.fields, m, stack) == map[];
    }
  }

  // ----- the keywords without subschemas -----

  /** Problems are only ever appended. */
  ghost predicate Extends(errs: Errors, more: Errors) {
    |errs| <= |more| && more[..|errs|] == errs
  }

  lemma ExtendsTrans(a: Errors, b: Errors, c: Errors)
    requires Extends(a, b) && Extends(b, c)
    ensures Extends(a, c)
  {
    assert c[..|a|] == c[..|b|][..|a|];
  }

  method ValidateString(w: World, s: string, m: Fields, errs: Errors) returns (errs': Errors)
    ensures Extends(errs, errs') && (errs' == errs <==> StringOk(w, m, s))
  {
    errs' := errs;
    var l := AsFloat(w, m, "minLength");
    if l.Some? && Below(|s| as real, l.value) {
      errs' := errs' + [TooShort];
    }
    l := AsFloat(w, m, "maxLength");
    if l.Some? && Above(|s| as real, l.value) {
      errs' := errs' + [TooLong];
    }
    var pat := StringAt(m, "pattern");
    if pat != "" {
      if |pat| > MAX_PATTERN_LEN {
        errs' := errs' + [PatternTooLong];
        return;
      }
      if !w.compiles(pat) {
        errs' := errs' + [PatternInvalid];
        return;
      }
      if !w.matches(pat, s) {
        errs' := errs' + [PatternMismatch];
      }
    }
    var name := StringAt(m, "format");
    if name != "" && !w.formatOk(name, s) {
      errs' := errs' + [BadFormat];
    }
  }

  method ValidateNumber(w: World, f: real, m: Fields, errs: Errors) returns (errs': Errors)
    ensures Extends(errs, errs') && (errs' == errs <==> NumberOk(w, m, f))
  {
    hide AsFloat, Below, Above, At;
    errs' := errs;
    var l := AsFloat(w, m, "minimum");
    if l.Some? && Below(f, l.value) {
      errs' := errs' + [TooSmall];
    }
    l := AsFloat(w, m, "maximum");
    if l.Some? && Above(f, l.value) {
      errs' := errs' + [TooLarge];
    }
    assert Extends(errs, errs') && (errs' == errs <==> AtLeast(w, m, "minimum", f) && AtMost(w, m, "maximum", f));
    hide AtLeast, AtMost;
    if "exclusiveMinimum" in m {
      if m["exclusiveMinimum"].JBool? {
        if m["exclusiveMinimum"].b {
          var min := AsFloat(w, m, "minimum");
          if min.Some? && (Below(f, min.value) || At(f, min.value)) {
            errs' := errs' + [NotAbove];
          }
        }
      } else {
        var v := AsFloat(w, m, "exclusiveMinimum");
        if v.Some? && (Below(f, v.value) || At(f, v.value)) {
          errs' := errs' + [NotAbove];
        }
      }
    }
    NoExclusive(w, m, f);
    assert Extends(errs, errs') && (errs' == errs <==> AtLeast(w, m, "minimum", f) && AtMost(w, m, "maximum", f) && AboveExclusive(w, m, f));
    hide AboveExclusive;
    if "exclusiveMaximum" in m {
      if m["exclusiveMaximum"].JBool? {
        if m["exclusiveMaximum"].b {
          var max := AsFloat(w, m, "maximum");
          if max.Some? && (Above(f, max.value) || At(f, max.value)) {
            errs' := errs' + [NotBelow];
          }
        }
      } else {
        var v := AsFloat(w, m, "exclusiveMaximum");
        if v.Some? && (Above(f, v.value) || At(f, v.value)) {
          errs' := errs' + [NotBelow];
        }
      }
    }
  }

  lemma NoExclusive(w: World, m: Fields, f: real)
    ensures "exclusiveMinimum" !in m ==> AboveExclusive(w, m, f)
    ensures "exclusiveMaximum" !in m ==> BelowExclusive(w, m, f)
  {
  }

  /** The sizes and the required fields of an object. */
  method ValidateFields(w: World, obj: Fields, m: Fields, errs: Errors) returns (errs': Errors)
    ensures Extends(errs, errs')
    ensures errs' == errs <==> AtLeast(w, m, "minProperties", |obj| as real) && AtMost(w, m, "maxProperties", |obj| as real) && RequiredOk(m, obj)
  {
    errs' := errs;
    var l := AsFloat(w, m, "minProperties");
    if l.Some? && Below(|obj| as real, l.value) {
      errs' := errs' + [TooFewProperties];
    }
    l := AsFloat(w, m, "maxProperties");
    if l.Some? && Above(|obj| as real, l.value) {
      errs' := errs' + [TooManyProperties];
    }
    var req := ListAt(m, "required");
    ghost var before := errs';
    for k := 0 to |req|
      invariant Extends(errs, errs') && Extends(before, errs')
      invariant errs' == before <==> forall i :: 0 <= i < k && req[i].JStr? ==> req[i].s in obj
    {
      if req[k].JStr? && req[k].s !in obj {
        errs' := errs' + [MissingField(req[k].s)];
      }
    }
  }

  method ValidateItems(w: World, arr: seq<Json>, m: Fields, errs: Errors) returns (errs': Errors)
    ensures Extends(errs, errs') && (errs' == errs <==> ArrayOk(w, m, arr))
  {
    errs' := errs;
    var l := AsFloat(w, m, "minItems");
    if l.Some? && Below(|arr| as real, l.value) {
      errs' := errs' + [TooFewItems];
    }
    l := AsFloat(w, m, "maxItems");
    if l.Some? && Above(|arr| as real, l.value) {
      errs' := errs' + [TooManyItems];
    }
    if "uniqueItems" in m && m["uniqueItems"] == JBool(true) {
      errs' := ValidateUnique(arr, errs');
    }
  }

  method ValidateUnique(arr: seq<Json>, errs: Errors) returns (errs': Errors)
    ensures Extends(errs, errs') && (errs' == errs <==> Unique(arr))
  {
    errs' := errs;
    for i := 0 to |arr|
      invariant Extends(errs, errs')
      invariant errs' == errs <==> forall a, b :: 0 <= a < i && a < b < |arr| ==> arr[a] != arr[b]
    {
      var j := i + 1;
      while j < |arr|
        invariant i < j <= |arr|
        invariant forall b :: i < b < j ==> arr[i] != arr[b]
      {
        if arr[i] == arr[j] {
          errs' := errs' + [NotUnique];
          break;
        }
        j := j + 1;
      }
    }
  }

  // ----- the validator -----

  class SchemaValidation {
    const w: World
    var refDepth: nat
    var expansions: nat
    var stack: seq<string>

    /** The depth is the stack's, within its bound; the budget is not exceeded; nothing is being resolved twice. */
    ghost predicate Valid()
      reads this
    {
      && refDepth == |stack| <= MAX_REF_DEPTH
      && expansions <= MAX_EXPANSIONS
      && forall i, j :: 0 <= i < j < |stack| ==> stack[i] != stack[j]
    }

    constructor (w: World)
      ensures this.w == w && Valid() && stack == [] && expansions == 0
    {
      this.w, refDepth, expansions, stack := w, 0, 0, [];
    }

    method PushRef(ptr: string) returns (err: Option<Problem>)
      requires Valid()
      modifies this
      ensures Valid()
      ensures err.None? <==> old(expansions) < MAX_EXPANSIONS && |old(stack)| < MAX_REF_DEPTH && ptr !in old(stack)
      ensures err.None? ==> stack == old(stack) + [ptr] && expansions == old(expansions) + 1
      ensures err.Some? ==> stack == old(stack) && expansions == old(expansions)
    {
      if expansions >= MAX_EXPANSIONS {
        return Some(RefDepth);
      }
      if refDepth >= MAX_REF_DEPTH {
        return Some(RefDepth);
      }
      for k := 0 to |stack|
        invariant ptr !in stack[..k]
        invariant Valid() && stack == old(stack) && expansions == old(expansions)
      {
        if stack[k] == ptr {
          return Some(RefCycle);
        }
        assert stack[..k + 1] == stack[..k] + [stack[k]];
      }
      assert stack[..|stack|] == stack;
      stack := stack + [ptr];
      refDepth := refDepth + 1;
      expansions := expansions + 1;
      err := None;
    }

    method PopRef()
      requires Valid()
      modifies this
      ensures Valid() && expansions == old(expansions)
      ensures stack == if |old(stack)| == 0 then [] else old(stack)[..|old(stack)| - 1]
    {
      if |stack| == 0 {
        return;
      }
      stack := stack[..|stack| - 1];
      if refDepth > 0 {
        refDepth := refDepth - 1;
      }
    }

    method ValidateNode(value: Json, schema: Json, errs: Errors) returns (errs': Errors)
      requires Valid()
      modifies this
      ensures Valid() && stack == old(stack) && expansions >= old(expansions) && Extends(errs, errs')
      ensures Judged(JudgeNode(w, value, schema, old(stack)), old(expansions), expansions, errs' == errs)
      decreases MAX_EXPANSIONS - expansions, schema, 5
    {
      hide Judged, JudgeKeywords, Extends;
      match schema {
        case JBool(b) =>
          if !b {
            errs' := errs + [SchemaIsFalse];
          } else {
            errs' := errs;
          }
          PlainJudged(b, expansions, errs, SchemaIsFalse);
        case JObj(m) =>
          if "$ref" in m {
            errs' := ValidateRef(value, m, errs);
          } else {
            errs' := ValidateNodeKeywords(value, m, errs);
          }
        case _ =>
          errs' := errs;
          PlainJudged(true, expansions, errs, SchemaIsFalse);
      }
    }

    /** The $ref part of validateNode, siblings included. */
    method ValidateRef(value: Json, m: Fields, errs: Errors) returns (errs': Errors)
      requires Valid() && "$ref" in m
      modifies this
      ensures Valid() && stack == old(stack) && expansions >= old(expansions) && Extends(errs, errs')
      ensures Judged(JudgeRef(w, value, m, old(stack)), old(expansions), expansions, errs' == errs)
      decreases MAX_EXPANSIONS - expansions, JObj(m), 4
    {
      hide JudgeNode, JudgeKeywords, Resolve;
      ghost var e0 := expansions;
      if !m["$ref"].JStr? {
        PlainJudged(false, e0, errs, RefInvalid);
        return errs + [RefInvalid];
      }
      var r := ResolveLocalRef(w.root, m["$ref"].s);
      if !r.Found? {
        PlainJudged(false, e0, errs, if r.NotFound? then RefNotFound else RefInvalid);
        return errs + [if r.NotFound? then RefNotFound else RefInvalid];
      }
      var err := PushRef(r.ptr);
      if err.Some? {
        PlainJudged(false, e0, errs, err.value);
        return errs + [err.value];
      }
      errs' := ValidateNode(value, r.node, errs);
      ghost var e1, errs1 := expansions, errs';
      PopRef();
      assert stack == old(stack);
      var siblings := Siblings(m);
      SiblingsSame(w, value, m, stack);
      if |siblings| > 0 {
        errs' := ValidateNodeKeywords(value, siblings, errs');
        ExtendsTrans(errs, errs1, errs');
      } else {
        assert siblings == map[];
        NoKeywords(w, value, stack);
      }
    }

    method ValidateNodeKeywords(value: Json, m: Fields, errs: Errors) returns (errs': Errors)
      requires Valid()
      modifies this
      ensures Valid() && stack == old(stack) && expansions >= old(expansions) && Extends(errs, errs')
      ensures Judged(JudgeKeywords(w, value, m, old(stack)), old(expansions), expansions, errs' == errs)
      decreases MAX_EXPANSIONS - expansions, JObj(m), 3
    {
      hide Judged, JudgeIf, JudgeNot, JudgeLists, JudgeParts, TypeOk, PlainOk, Extends;
      ghost var e0 := expansions;
      var errs1 := ApplyIf(value, m, errs);
      ghost var e1 := expansions;
      var errs2 := ApplyNot(value, m, errs1);
      ghost var e2 := expansions;
      var errs3 := ApplyLists(value, m, errs2);
      ghost var e3 := expansions;
      ghost var a, b, c := JudgeIf(w, value, m, stack), JudgeNot(w, value, m, stack), JudgeLists(w, value, m, stack);
      Chain(a, b, e0, e1, e2, errs, errs1, errs2);
      Chain(And(a, b), c, e0, e2, e3, errs, errs2, errs3);
      if "type" in m && !CheckType(value, m["type"]) {
        errs' := errs3 + [WrongType];
        assert !TypeOk(value, m) by {
          TypeChecked(value, m);
        }
        PlainJudged(false, e3, errs3, WrongType);
        Chain(And(And(a, b), c), FAIL, e0, e3, e3, errs, errs3, errs');
        return;
      }
      assert TypeOk(value, m) by {
        TypeChecked(value, m);
      }
      var errs4 := ApplyPlain(value, m, errs3);
      Chain(And(And(a, b), c), Plain(PlainOk(w, value, m)), e0, e3, e3, errs, errs3, errs4);
      errs' := ApplyParts(value, m, errs4);
      Chain(And(And(And(a, b), c), Plain(PlainOk(w, value, m))), JudgeParts(w, value, m, stack), e0, e3, expansions, errs, errs4, errs');
    }

    /** if / then / else */
    method ApplyIf(value: Json, m: Fields, errs: Errors) returns (errs': Errors)
      requires Valid()
      modifies this
      ensures Valid() && stack == old(stack) && expansions >= old(expansions) && Extends(errs, errs')
      ensures Judged(JudgeIf(w, value, m, old(stack)), old(expansions), expansions, errs' == errs)
      decreases MAX_EXPANSIONS - expansions, JObj(m), 1
    {
      hide JudgeNode;
      errs' := errs;
      if "if" in m {
        ghost var c := JudgeNode(w, value, m["if"], stack);
        var ifErrs := ValidateNode(value, m["if"], []);
        if |ifErrs| == 0 {
          if "then" in m {
            errs' := ValidateNode(value, m["then"], errs);
          }
        } else if "else" in m {
          errs' := ValidateNode(value, m["else"], errs);
        }
      }
    }

    method ApplyNot(value: Json, m: Fields, errs: Errors) returns (errs': Errors)
      requires Valid()
      modifies this
      ensures Valid() && stack == old(stack) && expansions >= old(expansions) && Extends(errs, errs')
      ensures Judged(JudgeNot(w, value, m, old(stack)), old(expansions), expansions, errs' == errs)
      decreases MAX_EXPANSIONS - expansions, JObj(m), 1
    {
      hide JudgeNode;
      errs' := errs;
      if "not" in m {
        var notErrs := ValidateNode(value, m["not"], []);
        if |notErrs| == 0 {
          errs' := errs' + [MatchesNot];
        }
      }
    }

    /** allOf, anyOf, oneOf */
    method ApplyLists(value: Json, m: Fields, errs: Errors) returns (errs': Errors)
      requires Valid()
      modifies this
      ensures Valid() && stack == old(stack) && expansions >= old(expansions) && Extends(errs, errs')
      ensures Judged(JudgeLists(w, value, m, old(stack)), old(expansions), expansions, errs' == errs)
      decreases MAX_EXPANSIONS - expansions, JObj(m), 2
    {
      hide Judged, JudgeEach, AllOf, AnyOf, OneOf, Extends, ListAt;
      ghost var e0 := expansions;
      var errs1 := ApplyAllOf(value, m, errs);
      ghost var e1 := expansions;
      ghost var a := AllOf(JudgeEach(w, value, m, "allOf", stack));
      var anyOf, oneOf := ListAt(m, "anyOf"), ListAt(m, "oneOf");
      var errs2 := errs1;
      ghost var b := if anyOf == [] then PASS else AnyOf(JudgeEach(w, value, m, "anyOf", stack));
      PlainJudged(true, e1, errs1, NoAnyOf);
      if |anyOf| > 0 {
        var some := MatchOneOfAnyOf(value, anyOf, false, m, "anyOf");
        if !some {
          errs2 := errs1 + [NoAnyOf];
        }
        MatchReported(b, e1, expansions, errs1, errs2, some, NoAnyOf);
      }
      ghost var e2 := expansions;
      Chain(a, b, e0, e1, e2, errs, errs1, errs2);
      errs' := errs2;
      ghost var c := if oneOf == [] then PASS else OneOf(JudgeEach(w, value, m, "oneOf", stack));
      PlainJudged(true, e2, errs2, NotOneOf);
      if |oneOf| > 0 {
        var one := MatchOneOfAnyOf(value, oneOf, true, m, "oneOf");
        if !one {
          errs' := errs2 + [NotOneOf];
        }
        MatchReported(c, e2, expansions, errs2, errs', one, NotOneOf);
      }
      Chain(And(a, b), c, e0, e2, expansions, errs, errs2, errs');
    }

    method ApplyAllOf(value: Json, m: Fields, errs: Errors) returns (errs': Errors)
      requires Valid()
      modifies this
      ensures Valid() && stack == old(stack) && expansions >= old(expansions) && Extends(errs, errs')
      ensures Judged(AllOf(JudgeEach(w, value, m, "allOf", old(stack))), old(expansions), expansions, errs' == errs)
      decreases MAX_EXPANSIONS - expansions, JObj(m), 1
    {
      hide Judged, JudgeNode, Extends;
      errs' := errs;
      var allOf := ListAt(m, "allOf");
      ghost var js := JudgeEach(w, value, m, "allOf", stack);
      PlainJudged(true, expansions, errs, NoAnyOf);
      for k := 0 to |allOf|
        invariant Valid() && stack == old(stack) && expansions >= old(expansions) && Extends(errs, errs')
        invariant Judged(AllOf(js[..k]), old(expansions), expansions, errs' == errs)
      {
        ghost var e1, errs1 := expansions, errs';
        errs' := ValidateNode(value, allOf[k], errs');
        AllOfStep(js, k);
        Chain(AllOf(js[..k]), js[k], old(expansions), e1, expansions, errs, errs1, errs');
      }
      assert js[..|allOf|] == js;
    }

    method MatchOneOfAnyOf(value: Json, alts: seq<Json>, exactlyOne: bool, ghost m: Fields, ghost key: string)
      returns (matched: bool)
      requires Valid() && alts == ListAt(m, key)
      modifies this
      ensures Valid() && stack == old(stack) && expansions >= old(expansions)
      ensures var js := JudgeEach(w, value, m, key, old(stack));
              Judged(if exactlyOne then OneOf(js) else AnyOf(js), old(expansions), expansions, matched)
      decreases MAX_EXPANSIONS - expansions, JObj(m), 1
    {
      hide JudgeNode, Judged, Tallied, AnyOf, OneOf;
      ghost var js := JudgeEach(w, value, m, key, stack);
      var matches := 0;
      assert js[..0] == [];
      TallyNone(exactlyOne, expansions);
      for k := 0 to |alts|
        invariant Valid() && stack == old(stack) && expansions >= old(expansions)
        invariant !exactlyOne ==> matches == 0
        invariant Tallied(js[..k], exactlyOne, old(expansions), expansions, matches)
      {
        ghost var e1, matches1 := expansions, matches;
        var subErrs := ValidateNode(value, alts[k], []);
        if |subErrs| == 0 {
          matches := matches + 1;
        }
        TallyStep(js, k, exactlyOne, old(expansions), e1, expansions, matches1, |subErrs| == 0);
        if |subErrs| == 0 && !exactlyOne && matches >= 1 {
          TallyStops(js, k + 1, old(expansions), expansions, matches);
          return true;
        }
      }
      assert js[..|alts|] == js;
      TallyEnds(js, exactlyOne, old(expansions), expansions, matches);
      if exactlyOne {
        return matches == 1;
      }
      return matches >= 1;
    }

    /** enum, const, and the string and number keywords */
    method ApplyPlain(value: Json, m: Fields, errs: Errors) returns (errs': Errors)
      ensures Extends(errs, errs')
      ensures Judged(Plain(PlainOk(w, value, m)), expansions, expansions, errs' == errs)
    {
      errs' := errs;
      if "enum" in m && !CheckEnum(value, m["enum"]) {
        errs' := errs' + [NotInEnum];
      }
      if "const" in m && value != m["const"] {
        errs' := errs' + [NotConst];
      }
      if value.JStr? {
        errs' := ValidateString(w, value.s, m, errs');
      }
      if value.JNum? {
        errs' := ValidateNumber(w, value.r, m, errs');
      }
    }

    method ApplyParts(value: Json, m: Fields, errs: Errors) returns (errs': Errors)
      requires Valid()
      modifies this
      ensures Valid() && stack == old(stack) && expansions >= old(expansions) && Extends(errs, errs')
      ensures Judged(JudgeParts(w, value, m, old(stack)), old(expansions), expansions, errs' == errs)
      decreases MAX_EXPANSIONS - expansions, JObj(m), 2, 1
    {
      hide Judged, ObjectOk, ArrayOk, AllIn, AllOf, JudgeProps, JudgeExtras, JudgeItems, Extends;
      match value {
        case JObj(obj) => errs' := ValidateObject(obj, m, errs);
        case JArr(arr) => errs' := ValidateArray(arr, m, errs);
        case _ =>
          errs' := errs;
          PlainJudged(true, expansions, errs, NotUnique);
      }
    }

    method ValidateObject(obj: Fields, m: Fields, errs: Errors) returns (errs': Errors)
      requires Valid()
      modifies this
      ensures Valid() && stack == old(stack) && expansions >= old(expansions) && Extends(errs, errs')
      ensures Judged(JudgeParts(w, JObj(obj), m, old(stack)), old(expansions), expansions, errs' == errs)
      decreases MAX_EXPANSIONS - expansions, JObj(m), 2, 0
    {
      hide JudgeNode, AllIn, AtLeast, AtMost, RequiredOk, JudgeProps, JudgeExtras, ClosedOk, Extends;
      ghost var e0 := expansions;
      var errs1 := ValidateFields(w, obj, m, errs);
      var errs2 := ValidateProps(obj, m, errs1);
      ghost var e1 := expansions;
      errs' := ValidateExtras(obj, m, errs2);
      ExtendsTrans(errs, errs1, errs2);
      ExtendsTrans(errs, errs2, errs');
      ExtendsBack(errs, errs1, errs2);
      ExtendsBack(errs, errs2, errs');
    }

    method ValidateProps(obj: Fields, m: Fields, errs: Errors) returns (errs': Errors)
      requires Valid()
      modifies this
      ensures Valid() && stack == old(stack) && expansions >= old(expansions) && Extends(errs, errs')
      ensures Judged(AllIn(JudgeProps(w, obj, m, old(stack))), old(expansions), expansions, errs' == errs)
      decreases MAX_EXPANSIONS - expansions, JObj(m), 1
    {
      hide Judged, JudgeNode, AllIn, Extends;
      errs' := errs;
      var props := Props(m);
      ghost var js := JudgeProps(w, obj, m, stack);
      ghost var done: map<string, Judgement> := map[];
      var left := props.Keys;
      AllInNone();
      PlainJudged(true, expansions, errs, NotUnique);
      while left != {}
        invariant Valid() && stack == old(stack) && expansions >= old(expansions) && Extends(errs, errs')
        invariant left <= props.Keys
        invariant forall k :: k in done <==> k in js && k !in left
        invariant forall k :: k in done ==> k in js && done[k] == js[k]
        invariant Judged(AllIn(done), old(expansions), expansions, errs' == errs)
        decreases |left|
      {
        var key :| key in left;
        left := left - {key};
        if !props[key].JObj? || key !in obj {
          assert key !in js;
          continue;
        }
        assert IsProp(m, obj, key) && key in js;
        ghost var e1, errs1 := expansions, errs';
        errs' := ValidateNode(obj[key], props[key], errs');
        AllInStep(done, key, js[key]);
        Chain(AllIn(done), js[key], old(expansions), e1, expansions, errs, errs1, errs');
        done := done[key := js[key]];
      }
      assert done == js;
    }

    /** additionalProperties: closed, or a schema for the keys that are no property */
    method ValidateExtras(obj: Fields, m: Fields, errs: Errors) returns (errs': Errors)
      requires Valid()
      modifies this
      ensures Valid() && stack == old(stack) && expansions >= old(expansions) && Extends(errs, errs')
      ensures var j := AllIn(JudgeExtras(w, obj, m, old(stack)));
              Judged(And(Plain(ClosedOk(m, obj)), j), old(expansions), expansions, errs' == errs)
      decreases MAX_EXPANSIONS - expansions, JObj(m), 1, 1
    {
      hide JudgeNode, AllIn, Extends;
      errs' := errs;
      ghost var js := JudgeExtras(w, obj, m, stack);
      AllInNone();
      PlainJudged(true, expansions, errs, NotUnique);
      if "additionalProperties" in m && m["additionalProperties"] == JBool(false) {
        errs' := RejectExtras(obj, Props(m), errs);
        assert js == map[];
      } else if "additionalProperties" in m && m["additionalProperties"].JObj? {
        errs' := ValidateExtraValues(obj, m, errs);
      } else {
        assert js == map[];
      }
    }

    method ValidateExtraValues(obj: Fields, m: Fields, errs: Errors) returns (errs': Errors)
      requires Valid() && "additionalProperties" in m && m["additionalProperties"].JObj?
      modifies this
      ensures Valid() && stack == old(stack) && expansions >= old(expansions) && Extends(errs, errs')
      ensures Judged(AllIn(JudgeExtras(w, obj, m, old(stack))), old(expansions), expansions, errs' == errs)
      decreases MAX_EXPANSIONS - expansions, JObj(m), 1, 0
    {
      hide Judged, JudgeNode, AllIn, Extends;
      errs' := errs;
      var props := Props(m);
      ghost var js := JudgeExtras(w, obj, m, stack);
      ghost var done: map<string, Judgement> := map[];
      AllInNone();
      PlainJudged(true, expansions, errs, NotUnique);
      var left := obj.Keys;
      while left != {}
        invariant Valid() && stack == old(stack) && expansions >= old(expansions) && Extends(errs, errs')
        invariant left <= obj.Keys
        invariant forall k :: k in done <==> k in js && k !in left
        invariant forall k :: k in done ==> k in js && done[k] == js[k]
        invariant Judged(AllIn(done), old(expansions), expansions, errs' == errs)
        decreases |left|
      {
        var key :| key in left;
        left := left - {key};
        if key in props {
          assert key !in js;
          continue;
        }
        assert IsExtra(m, obj, key) && key in js;
        ghost var e1, errs1 := expansions, errs';
        errs' := ValidateNode(obj[key], m["additionalProperties"], errs');
        AllInStep(done, key, js[key]);
        Chain(AllIn(done), js[key], old(expansions), e1, expansions, errs, errs1, errs');
        done := done[key := js[key]];
      }
      assert done == js;
    }

    static method RejectExtras(obj: Fields, props: Fields, errs: Errors) returns (errs': Errors)
      ensures Extends(errs, errs')
      ensures errs' == errs <==> forall k :: k in obj ==> k in props
    {
      errs' := errs;
      var left := obj.Keys;
      while left != {}
        invariant Extends(errs, errs') && left <= obj.Keys
        invariant errs' == errs <==> forall k :: k in obj && k !in left ==> k in props
        decreases |left|
      {
        var key :| key in left;
        left := left - {key};
        if key !in props {
          errs' := errs' + [ExtraField(key)];
        }
      }
    }

    method ValidateArray(arr: seq<Json>, m: Fields, errs: Errors) returns (errs': Errors)
      requires Valid()
      modifies this
      ensures Valid() && stack == old(stack) && expansions >= old(expansions) && Extends(errs, errs')
      ensures Judged(JudgeParts(w, JArr(arr), m, old(stack)), old(expansions), expansions, errs' == errs)
      decreases MAX_EXPANSIONS - expansions, JObj(m), 2, 0
    {
      hide JudgeParts, JudgeNode, ArrayOk, Extends, JudgeItems, AllOf, Judged;
      ghost var e0 := expansions;
      var errs1 := ValidateItems(w, arr, m, errs);
      SizesJudged(ArrayOk(w, m, arr), e0, errs, errs1);
      errs' := ValidateElements(arr, m, errs1);
      ArrayParts(w, arr, m, stack);
      Chain(Plain(ArrayOk(w, m, arr)), AllOf(JudgeItems(w, arr, m, stack)), e0, e0, expansions, errs, errs1, errs');
    }

    method ValidateElements(arr: seq<Json>, m: Fields, errs: Errors) returns (errs': Errors)
      requires Valid()
      modifies this
      ensures Valid() && stack == old(stack) && expansions >= old(expansions) && Extends(errs, errs')
      ensures Judged(AllOf(JudgeItems(w, arr, m, old(stack))), old(expansions), expansions, errs' == errs)
      decreases MAX_EXPANSIONS - expansions, JObj(m), 1
    {
      hide Judged, JudgeNode, Extends;
      errs' := errs;
      ghost var js := JudgeItems(w, arr, m, stack);
      PlainJudged(true, expansions, errs, NotUnique);
      if "items" in m {
        for k := 0 to |arr|
          invariant Valid() && stack == old(stack) && expansions >= old(expansions) && Extends(errs, errs')
          invariant Judged(AllOf(js[..k]), old(expansions), expansions, errs' == errs)
        {
          ghost var e1, errs1 := expansions, errs';
          errs' := ValidateNode(arr[k], m["items"], errs');
          AllOfStep(js, k);
          Chain(AllOf(js[..k]), js[k], old(expansions), e1, expansions, errs, errs1, errs');
        }
        assert js[..|arr|] == js;
      }
    }
  }

  /** One call: a fresh bookkeeping, the schema being its own reference root. The validator ends whatever the
      references. If it followed fewer than 256, as its count shows, the count and the verdict are the
      judgement's; the verdict is then the schema's meaning as coded if no reference was refused, and its
      standard meaning if no false property is in reach. References nesting at most 32 deep are never refused. */
  method ValidateSchema(w: World, doc: Json) returns (errs: Errors, expansions: nat)
    ensures expansions <= MAX_EXPANSIONS
    ensures var j := JudgeNode(w, doc, w.root, []);
            (j.cost <= MAX_EXPANSIONS || expansions < MAX_EXPANSIONS) ==>
              && expansions == j.cost && (errs == [] <==> j.ok)
              && (!j.limited || RefsWithin(w.root, w.root, MAX_REF_DEPTH) ==>
                    && (errs == [] <==> Sat(AsCoded, w, doc, w.root, MAX_REF_DEPTH))
                    && (NoFalseProperty(w.root, w.root, MAX_REF_DEPTH) ==>
                          (errs == [] <==> Sat(Standard, w, doc, w.root, MAX_REF_DEPTH))))
  {
    hide JudgeNode, Sat, RefsWithin, NoFalseProperty;
    var vc := new SchemaValidation(w);
    errs := vc.ValidateNode(doc, w.root, []);
    expansions := vc.expansions;
    if RefsWithin(w.root, w.root, MAX_REF_DEPTH) {
      WithinNeverLimited(w, doc, w.root, [], MAX_REF_DEPTH);
    }
    if !JudgeNode(w, doc, w.root, []).limited {
      JudgeIsSat(w, doc, w.root, [], MAX_REF_DEPTH);
      if NoFalseProperty(w.root, w.root, MAX_REF_DEPTH) {
        ReadingsAgree(w, doc, w.root, MAX_REF_DEPTH);
      }
    }
  }

  /** Two steps of the validator, one after the other. */
  lemma Chain(a: Judgement, b: Judgement, e0: nat, e1: nat, e2: nat, errs: Errors, errs1: Errors, errs2: Errors)
    requires Judged(a, e0, e1, errs1 == errs) && Judged(b, e1, e2, errs2 == errs1)
    requires Extends(errs, errs1) && Extends(errs1, errs2)
    ensures Judged(And(a, b), e0, e2, errs2 == errs) && Extends(errs, errs2)
  {
    ExtendsTrans(errs, errs1, errs2);
    ExtendsBack(errs, errs1, errs2);
    JudgedBoth(a, b, e0, e1, e2, errs1 == errs, errs2 == errs1);
  }

  lemma ExtendsBack(errs: Errors, errs1: Errors, errs2: Errors)
    requires Extends(errs, errs1) && Extends(errs1, errs2)
    ensures errs2 == errs <==> errs1 == errs && errs2 == errs1
  {
    if |errs2| == |errs| {
      assert errs1[..|errs|] == errs1 && errs2[..|errs1|] == errs2;
    }
  }

  lemma MatchReported(j: Judgement, e0: nat, e1: nat, errs: Errors, errs': Errors, matched: bool, problem: Problem)
    requires Judged(j, e0, e1, matched) && errs' == if matched then errs else errs + [problem]
    ensures Judged(j, e0, e1, errs' == errs) && Extends(errs, errs')
  {
  }

  lemma SizesJudged(ok: bool, e: nat, errs: Errors, errs': Errors)
    requires errs' == errs <==> ok
    ensures Judged(Plain(ok), e, e, errs' == errs)
  {
  }

  lemma ArrayParts(w: World, arr: seq<Json>, m: Fields, stack: seq<string>)
    requires |stack| <= MAX_REF_DEPTH
    ensures JudgeParts(w, JArr(arr), m, stack) == And(Plain(ArrayOk(w, m, arr)), AllOf(JudgeItems(w, arr, m, stack)))
  {
    hide JudgeNode, ArrayOk, JudgeItems, AllOf;
  }

  lemma TypeChecked(value: Json, m: Fields)
    ensures TypeOk(value, m) <==> !("type" in m && !CheckType(value, m["type"]))
  {
  }

  /** The alternatives seen so far; without exactlyOne none has matched. */
  ghost predicate Tallied(js: seq<Judgement>, exactlyOne: bool, e0: nat, e1: nat, matches: int) {
    && e0 <= e1
    && (exactlyOne && (e0 + AllOf(js).cost <= MAX_EXPANSIONS || e1 < MAX_EXPANSIONS) ==> e1 == e0 + AllOf(js).cost && matches == Count(js))
    && (!exactlyOne && (e0 + AnyOf(js).cost <= MAX_EXPANSIONS || e1 < MAX_EXPANSIONS) ==> e1 == e0 + AnyOf(js).cost && (matches > 0 <==> AnyOf(js).ok))
  }

  lemma TallyNone(exactlyOne: bool, e: nat)
    ensures Tallied([], exactlyOne, e, e, 0)
  {
  }

  lemma TallyEnds(js: seq<Judgement>, exactlyOne: bool, e0: nat, e1: nat, matches: int)
    requires Tallied(js, exactlyOne, e0, e1, matches)
    ensures Judged(if exactlyOne then OneOf(js) else AnyOf(js), e0, e1, if exactlyOne then matches == 1 else matches >= 1)
  {
  }

  /** anyOf stops at its first match. */
  lemma TallyStops(js: seq<Judgement>, k: nat, e0: nat, e1: nat, matches: int)
    requires k <= |js| && Tallied(js[..k], false, e0, e1, matches) && matches >= 1
    ensures Judged(AnyOf(js), e0, e1, true)
  {
    AnyOfEnds(js, k);
  }

  lemma TallyStep(js: seq<Judgement>, k: nat, exactlyOne: bool, e0: nat, e1: nat, e2: nat, matches: int, matched: bool)
    requires k < |js| && Tallied(js[..k], exactlyOne, e0, e1, matches) && Judged(js[k], e1, e2, matched)
    requires !exactlyOne ==> matches == 0
    ensures Tallied(js[..k + 1], exactlyOne, e0, e2, if matched then matches + 1 else matches)
  {
    AllOfStep(js, k);
    CountStep(js, k);
    assert js[..k + 1][..k] == js[..k];
  }

  lemma PlainJudged(ok: bool, e: nat, errs: Errors, problem: Problem)
    ensures Judged(Plain(ok), e, e, (if ok then errs else errs + [problem]) == errs)
    ensures Extends(errs, errs) && Extends(errs, errs + [problem])
  {
  }
}

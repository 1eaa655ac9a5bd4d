/** The validator's verdict is the declarative meaning, whenever no reference is refused (schema.go). */
module SchemaSound {
  import opened Common
  import opened Json
  import opened JsonPointer
  import opened SchemaMeaning

  lemma {:induction false} AllOfMeans(js: seq<Judgement>)
    ensures AllOf(js).ok <==> forall i :: 0 <= i < |js| ==> js[i].ok
    ensures AllOf(js).limited <==> exists i :: 0 <= i < |js| && js[i].limited
  {
    if js != [] {
      var front := js[..|js| - 1];
      AllOfMeans(front);
      assert forall i :: 0 <= i < |front| ==> front[i] == js[i];
      if AllOf(front).limited {
        var i :| 0 <= i < |front| && front[i].limited;
        assert js[i].limited;
      }
    }
  }

  /** anyOf matches at its first match, and looks no further. */
  lemma {:induction false} AnyOfMeans(js: seq<Judgement>) returns (i: nat)
    ensures AnyOf(js).ok ==> i < |js| && js[i].ok && (!AnyOf(js).limited ==> !js[i].limited)
    ensures !AnyOf(js).ok ==> forall k :: 0 <= k < |js| ==> !js[k].ok && (js[k].limited ==> AnyOf(js).limited)
  {
    i := 0;
    if js != [] {
      i := AnyOfMeans(js[..|js| - 1]);
      if !AnyOf(js[..|js| - 1]).ok {
        i := |js| - 1;
        forall k | 0 <= k < |js| - 1 ensures !js[k].ok && (js[k].limited ==> AnyOf(js).limited) {
          assert js[..|js| - 1][k] == js[k];
        }
      }
    }
  }

  predicate OnlyMatch(js: seq<Judgement>, i: int) {
    0 <= i < |js| && js[i].ok && forall j :: 0 <= j < |js| && js[j].ok ==> j == i
  }

  lemma {:induction false} CountMeans(js: seq<Judgement>)
    ensures Count(js) == 0 <==> forall i :: 0 <= i < |js| ==> !js[i].ok
    ensures Count(js) == 1 <==> exists i :: OnlyMatch(js, i)
  {
    if js != [] {
      var front, n := js[..|js| - 1], |js| - 1;
      CountMeans(front);
      assert forall i :: 0 <= i < n ==> front[i] == js[i];
      if Count(front) == 1 && !js[n].ok {
        var i :| OnlyMatch(front, i);
        assert OnlyMatch(js, i);
      }
      if Count(front) == 0 && js[n].ok {
        assert OnlyMatch(js, n);
      }
      if i :| OnlyMatch(js, i) {
        if i < n {
          assert OnlyMatch(front, i);
        }
      }
    }
  }

  /** The verdict is the meaning. */
  lemma {:induction false} JudgeIsSat(w: World, v: Json, s: Json, stack: seq<string>, fuel: nat)
    requires |stack| <= MAX_REF_DEPTH && fuel >= MAX_REF_DEPTH - |stack|
    requires !JudgeNode(w, v, s, stack).limited
    ensures JudgeNode(w, v, s, stack).ok <==> Sat(AsCoded, w, v, s, fuel)
    decreases MAX_REF_DEPTH - |stack|, s, 5
  {
    hide JudgeKeywords, SatKeywords;
    if s.JObj? {
      var m := s.fields;
      if "$ref" in m {
        var ref := m["$ref"];
        if ref.JStr? && Resolve(w.root, ref.s).Found? {
          var r := Resolve(w.root, ref.s);
          JudgeIsSat(w, v, r.node, stack + [r.ptr], fuel - 1);
          KeywordsIsSat(w, v, m, stack, fuel);
        }
      } else {
        KeywordsIsSat(w, v, m, stack, fuel);
      }
    }
  }

  lemma {:induction false} KeywordsIsSat(w: World, v: Json, m: Fields, stack: seq<string>, fuel: nat)
    requires |stack| <= MAX_REF_DEPTH && fuel >= MAX_REF_DEPTH - |stack|
    requires !JudgeKeywords(w, v, m, stack).limited
    ensures JudgeKeywords(w, v, m, stack).ok <==> SatKeywords(AsCoded, w, v, m, fuel)
    decreases MAX_REF_DEPTH - |stack|, JObj(m), 3
  {
    hide JudgeIf, JudgeNot, JudgeLists, JudgeParts, JudgeNode, PlainOk, TypeOk, Sat, SatLists, ObjectOk, ArrayOk, SatObject;
    IfIsSat(w, v, m, stack, fuel);
    NotIsSat(w, v, m, stack, fuel);
    ListsIsSat(w, v, m, stack, fuel);
    if TypeOk(v, m) {
      PartsIsSat(w, v, m, stack, fuel);
    }
  }

  lemma {:induction false} IfIsSat(w: World, v: Json, m: Fields, stack: seq<string>, fuel: nat)
    requires |stack| <= MAX_REF_DEPTH && fuel >= MAX_REF_DEPTH - |stack| && !JudgeIf(w, v, m, stack).limited
    ensures JudgeIf(w, v, m, stack).ok <==>
            ("if" in m ==> if Sat(AsCoded, w, v, m["if"], fuel) then "then" in m ==> Sat(AsCoded, w, v, m["then"], fuel)
                           else "else" in m ==> Sat(AsCoded, w, v, m["else"], fuel))
    decreases MAX_REF_DEPTH - |stack|, JObj(m), 1
  {
    hide JudgeNode, Sat;
    if "if" in m {
      JudgeIsSat(w, v, m["if"], stack, fuel);
      if JudgeNode(w, v, m["if"], stack).ok {
        if "then" in m {
          JudgeIsSat(w, v, m["then"], stack, fuel);
        }
      } else if "else" in m {
        JudgeIsSat(w, v, m["else"], stack, fuel);
      }
    }
  }

  lemma {:induction false} NotIsSat(w: World, v: Json, m: Fields, stack: seq<string>, fuel: nat)
    requires |stack| <= MAX_REF_DEPTH && fuel >= MAX_REF_DEPTH - |stack| && !JudgeNot(w, v, m, stack).limited
    ensures JudgeNot(w, v, m, stack).ok <==> ("not" in m ==> !Sat(AsCoded, w, v, m["not"], fuel))
    decreases MAX_REF_DEPTH - |stack|, JObj(m), 1
  {
    hide JudgeNode, Sat;
    if "not" in m {
      JudgeIsSat(w, v, m["not"], stack, fuel);
    }
  }

  lemma {:induction false} ListsIsSat(w: World, v: Json, m: Fields, stack: seq<string>, fuel: nat)
    requires |stack| <= MAX_REF_DEPTH && fuel >= MAX_REF_DEPTH - |stack| && !JudgeLists(w, v, m, stack).limited
    ensures JudgeLists(w, v, m, stack).ok <==> SatLists(AsCoded, w, v, m, fuel)
    decreases MAX_REF_DEPTH - |stack|, JObj(m), 2
  {
    hide JudgeNode, Sat, JudgeEach, ListAt, SatAll, SatAny, SatOne, AllOf, AnyOf, OneOf;
    AllOfIsSat(w, v, m, stack, fuel);
    if ListAt(m, "anyOf") != [] {
      AnyOfIsSat(w, v, m, stack, fuel);
    }
    if ListAt(m, "oneOf") != [] {
      OneOfIsSat(w, v, m, stack, fuel);
    }
  }

  lemma {:induction false} AllOfIsSat(w: World, v: Json, m: Fields, stack: seq<string>, fuel: nat)
    requires |stack| <= MAX_REF_DEPTH && fuel >= MAX_REF_DEPTH - |stack| && !AllOf(JudgeEach(w, v, m, "allOf", stack)).limited
    ensures AllOf(JudgeEach(w, v, m, "allOf", stack)).ok <==> SatAll(AsCoded, w, v, m, fuel)
    decreases MAX_REF_DEPTH - |stack|, JObj(m), 1
  {
    hide JudgeNode, Sat, AllOf;
    var all, js := ListAt(m, "allOf"), JudgeEach(w, v, m, "allOf", stack);
    AllOfMeans(js);
    forall i | 0 <= i < |all| ensures js[i].ok <==> Sat(AsCoded, w, v, all[i], fuel) {
      JudgeIsSat(w, v, all[i], stack, fuel);
    }
  }

  lemma {:induction false} AnyOfIsSat(w: World, v: Json, m: Fields, stack: seq<string>, fuel: nat)
    requires |stack| <= MAX_REF_DEPTH && fuel >= MAX_REF_DEPTH - |stack| && !AnyOf(JudgeEach(w, v, m, "anyOf", stack)).limited
    ensures AnyOf(JudgeEach(w, v, m, "anyOf", stack)).ok <==> SatAny(AsCoded, w, v, m, fuel)
    decreases MAX_REF_DEPTH - |stack|, JObj(m), 1
  {
    hide JudgeNode, Sat, AnyOf;
    var any, js := ListAt(m, "anyOf"), JudgeEach(w, v, m, "anyOf", stack);
    var k := AnyOfMeans(js);
    if AnyOf(js).ok {
      JudgeIsSat(w, v, any[k], stack, fuel);
    } else {
      forall i | 0 <= i < |any| ensures !Sat(AsCoded, w, v, any[i], fuel) {
        JudgeIsSat(w, v, any[i], stack, fuel);
      }
    }
  }

  lemma {:induction false} OneOfIsSat(w: World, v: Json, m: Fields, stack: seq<string>, fuel: nat)
    requires |stack| <= MAX_REF_DEPTH && fuel >= MAX_REF_DEPTH - |stack| && !OneOf(JudgeEach(w, v, m, "oneOf", stack)).limited
    ensures OneOf(JudgeEach(w, v, m, "oneOf", stack)).ok <==> SatOne(AsCoded, w, v, m, fuel)
    decreases MAX_REF_DEPTH - |stack|, JObj(m), 1
  {
    hide JudgeNode, Sat, AllOf, Count;
    var one, js := ListAt(m, "oneOf"), JudgeEach(w, v, m, "oneOf", stack);
    AllOfMeans(js);
    CountMeans(js);
    forall i | 0 <= i < |one| ensures js[i].ok <==> Sat(AsCoded, w, v, one[i], fuel) {
      JudgeIsSat(w, v, one[i], stack, fuel);
    }
    if i :| OnlyMatch(js, i) {
      assert Sat(AsCoded, w, v, one[i], fuel);
    }
    if i :| 0 <= i < |one| && Sat(AsCoded, w, v, one[i], fuel) && forall j :: 0 <= j < |one| && Sat(AsCoded, w, v, one[j], fuel) ==> j == i {
      assert OnlyMatch(js, i);
    }
  }

  lemma {:induction false} PartsIsSat(w: World, v: Json, m: Fields, stack: seq<string>, fuel: nat)
    requires |stack| <= MAX_REF_DEPTH && fuel >= MAX_REF_DEPTH - |stack| && !JudgeParts(w, v, m, stack).limited
    ensures JudgeParts(w, v, m, stack).ok <==>
            && (v.JObj? ==> ObjectOk(w, m, v.fields) && SatObject(AsCoded, w, v.fields, m, fuel))
            && (v.JArr? ==> ArrayOk(w, m, v.elems) && ("items" in m ==> forall i :: 0 <= i < |v.elems| ==> Sat(AsCoded, w, v.elems[i], m["items"], fuel)))
    decreases MAX_REF_DEPTH - |stack|, JObj(m), 2
  {
    hide JudgeNode, Sat, ObjectOk, ArrayOk, AllOf, AllIn, SatObject;
    match v {
      case JObj(obj) => ObjectIsSat(w, obj, m, stack, fuel);
      case JArr(arr) =>
        var js := JudgeItems(w, arr, m, stack);
        AllOfMeans(js);
        forall i | 0 <= i < |js| ensures js[i].ok <==> Sat(AsCoded, w, arr[i], m["items"], fuel) {
          JudgeIsSat(w, arr[i], m["items"], stack, fuel);
        }
      case _ =>
    }
  }

  lemma {:induction false} ObjectIsSat(w: World, obj: Fields, m: Fields, stack: seq<string>, fuel: nat)
    requires |stack| <= MAX_REF_DEPTH && fuel >= MAX_REF_DEPTH - |stack|
    requires !AllIn(JudgeProps(w, obj, m, stack)).limited && !AllIn(JudgeExtras(w, obj, m, stack)).limited
    ensures AllIn(JudgeProps(w, obj, m, stack)).ok && AllIn(JudgeExtras(w, obj, m, stack)).ok <==> SatObject(AsCoded, w, obj, m, fuel)
    decreases MAX_REF_DEPTH - |stack|, JObj(m), 1
  {
    hide JudgeNode, Sat, Sum;
    var props, extras := JudgeProps(w, obj, m, stack), JudgeExtras(w, obj, m, stack);
    forall k | IsProp(m, obj, k) ensures props[k].ok <==> Sat(AsCoded, w, obj[k], Props(m)[k], fuel) {
      assert k in props;
      JudgeIsSat(w, obj[k], Props(m)[k], stack, fuel);
    }
    forall k | IsExtra(m, obj, k) ensures extras[k].ok <==> Sat(AsCoded, w, obj[k], m["additionalProperties"], fuel) {
      assert k in extras;
      JudgeIsSat(w, obj[k], m["additionalProperties"], stack, fuel);
    }
  }

  // ----- schemas whose references can never be refused -----

  /** c is a subschema of an object schema. */
  ghost predicate Child(m: Fields, c: Json) {
    || (exists key :: key in {"if", "then", "else", "not", "items", "additionalProperties"} && key in m && c == m[key])
    || (exists key :: key in {"allOf", "anyOf", "oneOf"} && c in ListAt(m, key))
    || (exists k :: k in Props(m) && Props(m)[k].JObj? && c == Props(m)[k])
  }

  /** Whatever the document, at most d references nest below s. */
  ghost predicate RefsWithin(root: Json, s: Json, d: nat)
    decreases d, s
  {
    s.JObj? ==>
      && ("$ref" in s.fields && s.fields["$ref"].JStr? && Resolve(root, s.fields["$ref"].s).Found? ==>
            d > 0 && RefsWithin(root, Resolve(root, s.fields["$ref"].s).node, d - 1))
      && forall c :: Child(s.fields, c) ==> RefsWithin(root, c, d)
  }

  lemma {:induction false} RefsWithinMore(root: Json, s: Json, d: nat, e: nat)
    requires RefsWithin(root, s, d) && d <= e
    ensures RefsWithin(root, s, e)
    decreases d, s
  {
    hide Child, Resolve;
    if s.JObj? {
      var m := s.fields;
      if "$ref" in m && m["$ref"].JStr? && Resolve(root, m["$ref"].s).Found? {
        RefsWithinMore(root, Resolve(root, m["$ref"].s).node, d - 1, e - 1);
      }
      forall c | Child(m, c) ensures RefsWithin(root, c, e) {
        ChildSmaller(m, c);
        assert RefsWithin(root, c, d);
        RefsWithinMore(root, c, d, e);
      }
    }
  }

  lemma ChildSmaller(m: Fields, c: Json)
    requires Child(m, c)
    ensures JObj(m) decreases to c
  {
  }

  /** The least bound. */
  lemma {:induction false} LeastWithin(root: Json, s: Json, d: nat) returns (e: nat)
    requires RefsWithin(root, s, d)
    ensures e <= d && RefsWithin(root, s, e) && (e > 0 ==> !RefsWithin(root, s, e - 1))
  {
    if d > 0 && RefsWithin(root, s, d - 1) {
      e := LeastWithin(root, s, d - 1);
    } else {
      e := d;
    }
  }

  /** Every reference being resolved needs more room than is left. */
  ghost predicate AllDeeper(root: Json, stack: seq<string>, e: nat) {
    forall p :: p in stack ==> Deeper(root, p, e)
  }

  ghost predicate Deeper(root: Json, p: string, e: nat) {
    Resolve(root, p).Found? && (e > 0 ==> !RefsWithin(root, Resolve(root, p).node, e - 1))
  }

  ghost predicate Quiet(w: World, m: Fields, stack: seq<string>)
    requires |stack| <= MAX_REF_DEPTH
  {
    forall c, v :: Child(m, c) ==> !JudgeNode(w, v, c, stack).limited
  }

  lemma {:induction false} AnyOfQuiet(js: seq<Judgement>)
    requires forall i :: 0 <= i < |js| ==> !js[i].limited
    ensures !AnyOf(js).limited
  {
    if js != [] {
      AnyOfQuiet(js[..|js| - 1]);
    }
  }

  lemma EachQuiet(w: World, v: Json, m: Fields, key: string, stack: seq<string>)
    requires |stack| <= MAX_REF_DEPTH && Quiet(w, m, stack) && key in {"allOf", "anyOf", "oneOf"}
    ensures forall j :: j in JudgeEach(w, v, m, key, stack) ==> !j.limited
  {
    hide JudgeNode;
    var list := ListAt(m, key);
    forall i | 0 <= i < |list| ensures !JudgeNode(w, v, list[i], stack).limited {
      assert list[i] in list && Child(m, list[i]);
    }
  }

  lemma ListsQuiet(w: World, v: Json, m: Fields, stack: seq<string>)
    requires |stack| <= MAX_REF_DEPTH && Quiet(w, m, stack)
    ensures !JudgeLists(w, v, m, stack).limited
  {
    hide JudgeNode, Quiet, Count;
    EachQuiet(w, v, m, "allOf", stack);
    EachQuiet(w, v, m, "anyOf", stack);
    EachQuiet(w, v, m, "oneOf", stack);
    AllOfMeans(JudgeEach(w, v, m, "allOf", stack));
    AnyOfQuiet(JudgeEach(w, v, m, "anyOf", stack));
    AllOfMeans(JudgeEach(w, v, m, "oneOf", stack));
  }

  lemma KeyQuiet(w: World, v: Json, m: Fields, key: string, stack: seq<string>)
    requires |stack| <= MAX_REF_DEPTH && Quiet(w, m, stack)
    requires key in {"if", "then", "else", "not", "items", "additionalProperties"} && key in m
    ensures !JudgeNode(w, v, m[key], stack).limited
  {
    assert Child(m, m[key]);
  }

  lemma KeywordsQuiet(w: World, v: Json, m: Fields, stack: seq<string>)
    requires |stack| <= MAX_REF_DEPTH && Quiet(w, m, stack)
    ensures !JudgeKeywords(w, v, m, stack).limited
  {
    hide JudgeNode, Quiet, JudgeLists, PlainOk, TypeOk, JudgeParts;
    forall key | key in {"if", "then", "else", "not"} && key in m ensures !JudgeNode(w, v, m[key], stack).limited {
      KeyQuiet(w, v, m, key, stack);
    }
    ListsQuiet(w, v, m, stack);
    PartsQuiet(w, v, m, stack);
  }

  lemma PartsQuiet(w: World, v: Json, m: Fields, stack: seq<string>)
    requires |stack| <= MAX_REF_DEPTH && Quiet(w, m, stack)
    ensures !JudgeParts(w, v, m, stack).limited
  {
    hide JudgeNode, Quiet, ObjectOk, ArrayOk, Sum, AllOf, Child;
    match v {
      case JObj(obj) =>
        forall k | IsProp(m, obj, k) ensures !JudgeNode(w, obj[k], Props(m)[k], stack).limited {
          PropQuiet(w, obj, m, k, stack);
        }
        forall k | IsExtra(m, obj, k) ensures !JudgeNode(w, obj[k], m["additionalProperties"], stack).limited {
          KeyQuiet(w, obj[k], m, "additionalProperties", stack);
        }
      case JArr(arr) =>
        var js := JudgeItems(w, arr, m, stack);
        forall i | 0 <= i < |js| ensures !js[i].limited {
          KeyQuiet(w, arr[i], m, "items", stack);
        }
        AllOfMeans(js);
      case _ =>
    }
  }

  lemma PropQuiet(w: World, obj: Fields, m: Fields, k: string, stack: seq<string>)
    requires |stack| <= MAX_REF_DEPTH && Quiet(w, m, stack) && IsProp(m, obj, k)
    ensures !JudgeNode(w, obj[k], Props(m)[k], stack).limited
  {
    assert Child(m, Props(m)[k]);
  }

  lemma QuietIntro(w: World, m: Fields, stack: seq<string>)
    requires |stack| <= MAX_REF_DEPTH && forall c, v :: Child(m, c) ==> !JudgeNode(w, v, c, stack).limited
    ensures Quiet(w, m, stack)
  {
  }

  lemma ResolvesToItself(root: Json, ref: string)
    requires Resolve(root, ref).Found?
    ensures Resolve(root, ref).ptr == ref
  {
  }

  /** A reference within the bound is not being resolved already, and what it leads to needs less room. */
  lemma RefDeeper(root: Json, ref: string, stack: seq<string>, e: nat) returns (d: nat)
    requires Resolve(root, ref).Found? && e > 0 && RefsWithin(root, Resolve(root, ref).node, e - 1) && AllDeeper(root, stack, e)
    ensures ref !in stack && d < e && RefsWithin(root, Resolve(root, ref).node, d) && AllDeeper(root, stack + [ref], d)
  {
    hide RefsWithin, Resolve;
    assert ref in stack ==> Deeper(root, ref, e);
    d := LeastWithin(root, Resolve(root, ref).node, e - 1);
    forall p | p in stack ensures Deeper(root, p, d) {
      assert Deeper(root, p, e);
      if d > 0 && RefsWithin(root, Resolve(root, p).node, d - 1) {
        RefsWithinMore(root, Resolve(root, p).node, d - 1, e - 1);
      }
    }
    assert Deeper(root, ref, d);
  }

  /** Within the bound no reference is refused: neither for depth nor as a cycle. */
  lemma {:induction false} WithinNeverLimited(w: World, v: Json, s: Json, stack: seq<string>, e: nat)
    requires |stack| + e <= MAX_REF_DEPTH && RefsWithin(w.root, s, e) && AllDeeper(w.root, stack, e)
    ensures !JudgeNode(w, v, s, stack).limited
    decreases e, s
  {
    hide Child, JudgeKeywords, AllDeeper, Quiet, Resolve;
    if s.JObj? {
      var m := s.fields;
      forall c, v' | Child(m, c) ensures !JudgeNode(w, v', c, stack).limited {
        ChildSmaller(m, c);
        WithinNeverLimited(w, v', c, stack, e);
      }
      QuietIntro(w, m, stack);
      KeywordsQuiet(w, v, m, stack);
      if "$ref" in m && m["$ref"].JStr? && Resolve(w.root, m["$ref"].s).Found? {
        var ref := m["$ref"].s;
        ResolvesToItself(w.root, ref);
        var d := RefDeeper(w.root, ref, stack, e);
        WithinNeverLimited(w, v, Resolve(w.root, ref).node, stack + [ref], d);
      }
    }
  }

  // ----- schemas with few keywords -----

  const KEYWORDS := {"if", "then", "else", "not", "allOf", "anyOf", "oneOf", "type", "enum", "const", "minLength", "maxLength",
                     "pattern", "format", "minimum", "maximum", "exclusiveMinimum", "exclusiveMaximum", "minProperties",
                     "maxProperties", "required", "additionalProperties", "minItems", "maxItems", "uniqueItems", "items"}

  /** Of the keywords, only `properties` may be present. */
  ghost predicate OnlyProperties(m: Fields) {
    forall key :: key in KEYWORDS ==> key !in m
  }

  lemma OnlyPropertiesPlain(w: World, v: Json, m: Fields)
    requires OnlyProperties(m)
    ensures TypeOk(v, m) && PlainOk(w, v, m)
    ensures v.JObj? ==> ObjectOk(w, m, v.fields)
    ensures v.JArr? ==> ArrayOk(w, m, v.elems)
  {
    forall key | key in KEYWORDS ensures AsFloat(w, m, key) == None && ListAt(m, key) == [] && StringAt(m, key) == "" {
    }
  }

  lemma AllInNone()
    ensures AllIn(map[]) == PASS
  {
  }

  lemma BranchesAbsent(w: World, v: Json, m: Fields, stack: seq<string>)
    requires |stack| <= MAX_REF_DEPTH
    ensures "if" !in m ==> JudgeIf(w, v, m, stack) == PASS
    ensures "not" !in m ==> JudgeNot(w, v, m, stack) == PASS
  {
    hide JudgeNode;
  }

  lemma ListsAbsent(w: World, v: Json, m: Fields, stack: seq<string>)
    requires |stack| <= MAX_REF_DEPTH && "allOf" !in m && "anyOf" !in m && "oneOf" !in m
    ensures JudgeLists(w, v, m, stack) == PASS
  {
    hide JudgeNode;
    assert ListAt(m, "anyOf") == [] && ListAt(m, "oneOf") == [];
    assert JudgeEach(w, v, m, "allOf", stack) == [];
  }

  lemma ExtrasAbsent(w: World, obj: Fields, m: Fields, stack: seq<string>)
    requires |stack| <= MAX_REF_DEPTH && "additionalProperties" !in m
    ensures AllIn(JudgeExtras(w, obj, m, stack)) == PASS
  {
    hide JudgeNode;
    assert JudgeExtras(w, obj, m, stack) == map[];
    AllInNone();
  }

  /** Without additionalProperties and items, only the properties are left. */
  lemma PartsAbsent(w: World, v: Json, m: Fields, stack: seq<string>)
    requires |stack| <= MAX_REF_DEPTH && "additionalProperties" !in m && "items" !in m
    requires (v.JObj? ==> ObjectOk(w, m, v.fields)) && (v.JArr? ==> ArrayOk(w, m, v.elems))
    ensures JudgeParts(w, v, m, stack) == if v.JObj? then AllIn(JudgeProps(w, v.fields, m, stack)) else PASS
  {
    hide JudgeNode, ObjectOk, ArrayOk, JudgeProps, JudgeExtras, AllIn;
    if v.JObj? {
      ExtrasAbsent(w, v.fields, m, stack);
    }
  }

  lemma OnlyPropertiesAbsent(m: Fields)
    requires OnlyProperties(m)
    ensures "if" !in m && "not" !in m && "allOf" !in m && "anyOf" !in m && "oneOf" !in m
    ensures "additionalProperties" !in m && "items" !in m
  {
  }

  lemma AndPass(j: Judgement)
    ensures And(PASS, j) == j && And(j, PASS) == j
  {
  }

  lemma KeywordsAre(w: World, v: Json, m: Fields, stack: seq<string>, branches: Judgement, parts: Judgement)
    requires |stack| <= MAX_REF_DEPTH && TypeOk(v, m) && PlainOk(w, v, m)
    requires And(JudgeIf(w, v, m, stack), JudgeNot(w, v, m, stack)) == branches
    requires JudgeLists(w, v, m, stack) == PASS && JudgeParts(w, v, m, stack) == parts
    ensures JudgeKeywords(w, v, m, stack) == And(branches, parts)
  {
    hide JudgeIf, JudgeNot, JudgeLists, JudgeParts, TypeOk, PlainOk;
  }

  lemma OnlyPropertiesJudged(w: World, v: Json, m: Fields, stack: seq<string>)
    requires |stack| <= MAX_REF_DEPTH && OnlyProperties(m)
    ensures JudgeKeywords(w, v, m, stack) == if v.JObj? then AllIn(JudgeProps(w, v.fields, m, stack)) else PASS
  {
    hide OnlyProperties, PlainOk, TypeOk, ObjectOk, ArrayOk, AllIn, JudgeProps;
    hide JudgeNode, JudgeKeywords, JudgeIf, JudgeNot, JudgeLists, JudgeParts;
    OnlyPropertiesPlain(w, v, m);
    OnlyPropertiesAbsent(m);
    BranchesAbsent(w, v, m, stack);
    ListsAbsent(w, v, m, stack);
    PartsAbsent(w, v, m, stack);
    KeywordsAre(w, v, m, stack, PASS, JudgeParts(w, v, m, stack));
    AndPass(JudgeParts(w, v, m, stack));
    assert JudgeKeywords(w, v, m, stack) == JudgeParts(w, v, m, stack);
  }

  lemma OnlyPropertiesSat(how: Reading, w: World, v: Json, m: Fields, fuel: nat)
    requires OnlyProperties(m)
    ensures SatKeywords(how, w, v, m, fuel) <==> (v.JObj? ==> forall k :: Applies(how, m, v.fields, k) ==> Sat(how, w, v.fields[k], Props(m)[k], fuel))
  {
    OnlyPropertiesPlain(w, v, m);
    hide PlainOk, TypeOk, ObjectOk, ArrayOk, Sat;
    forall key | key in KEYWORDS ensures key !in m && ListAt(m, key) == [] {
    }
    assert SatLists(how, w, v, m, fuel);
    assert v.JObj? ==> (SatObject(how, w, v.fields, m, fuel) <==>
                        forall k :: Applies(how, m, v.fields, k) ==> Sat(how, w, v.fields[k], Props(m)[k], fuel));
  }

  lemma JudgeObject(w: World, v: Json, m: Fields, stack: seq<string>)
    requires |stack| <= MAX_REF_DEPTH
    ensures JudgeNode(w, v, JObj(m), stack) == if "$ref" in m then JudgeRef(w, v, m, stack) else JudgeKeywords(w, v, m, stack)
  {
    hide JudgeRef, JudgeKeywords;
  }

  lemma SatIs(how: Reading, w: World, v: Json, m: Fields, fuel: nat)
    ensures Sat(how, w, v, JObj(m), fuel) <==> ("$ref" in m ==> SatRef(how, w, v, m, fuel)) && SatKeywords(how, w, v, m, fuel)
  {
    hide SatRef, SatKeywords;
  }
}

/** Recursive schemas (schema.go): the reference stays on the stack while child values are checked, so nested
  * documents have it refused. */
module SchemaRecursion {
  import opened Common
  import opened Json
  import opened JsonPointer
  import opened SchemaMeaning
  import opened SchemaSound

  const SELF := "#/$defs/t"

  /** {"$ref": "#/$defs/t"} */
  function SelfRef(): Json {
    JObj(map["$ref" := JStr(SELF)])
  }

  /** {"properties": {"next": next}} */
  function Cell(next: Json): Json {
    JObj(map["properties" := JObj(map["next" := next])])
  }

  /** {"$ref": "#/$defs/t", "$defs": {"t": Cell(next)}} */
  function Recursive(next: Json): Json {
    JObj(map["$ref" := JStr(SELF), "$defs" := JObj(map["t" := Cell(next)])])
  }

  /** {"not": {"$ref": "#/$defs/t"}} */
  function NotSelf(): Json {
    JObj(map["not" := SelfRef()])
  }

  predicate HasNext(v: Json) {
    v.JObj? && "next" in v.fields
  }

  // ----- what the reference resolves to -----

  lemma SelfResolves(next: Json)
    ensures Resolve(Recursive(next), SELF) == Found(Cell(next), SELF)
  {
    var keys := ["$defs", "t"];
    SelfPath(next);
    assert !UrlLike(keys);
    hide Resolve, Cell, Recursive, UrlLike, NodeAt, PathExists;
    PointerRoundTrip(Recursive(next), keys);
  }

  lemma SelfPath(next: Json)
    ensures PathExists(Recursive(next), ["$defs", "t"]) && NodeAt(Recursive(next), ["$defs", "t"]) == Cell(next)
    ensures Pointer(["$defs", "t"]) == SELF
  {
    var keys := ["$defs", "t"];
    EscapesPlain();
    hide Escape;
    assert keys[1..] == ["t"] && keys[1..][1..] == [];
    var root, defs := Recursive(next), JObj(map["t" := Cell(next)]);
    assert root.fields["$defs"] == defs;
    assert PathExists(defs, ["t"]) && NodeAt(defs, ["t"]) == Cell(next) by {
      assert ["t"][1..] == [];
    }
    assert keys[..1] == ["$defs"] && keys[..1][..0] == [];
    assert Text(keys[..1][..0]) == "";
    assert Text(keys[..1]) == "/$defs";
  }

  lemma EscapesPlain()
    ensures Escape("$defs") == "$defs" && Escape("t") == "t"
  {
    assert "t"[1..] == "";
    EscapePlainFirst('s', "");
    EscapePlainFirst('f', "s");
    EscapePlainFirst('e', "fs");
    EscapePlainFirst('d', "efs");
    EscapePlainFirst('$', "defs");
  }

  lemma EscapePlainFirst(c: char, rest: string)
    requires c != '~' && c != '/'
    ensures Escape([c] + rest) == [c] + Escape(rest)
  {
    assert ([c] + rest)[1..] == rest;
  }

  lemma RecursiveFields(next: Json)
    ensures var m := Recursive(next).fields;
            Recursive(next) == JObj(m) && OnlyProperties(m) && Props(m) == map[] && "$ref" in m && m["$ref"] == JStr(SELF)
    ensures var m := Cell(next).fields;
            Cell(next) == JObj(m) && OnlyProperties(m) && Props(m) == map["next" := next] && "$ref" !in m
  {
  }

  lemma SelfFields()
    ensures var m := SelfRef().fields;
            SelfRef() == JObj(m) && OnlyProperties(m) && Props(m) == map[] && "$ref" in m && m["$ref"] == JStr(SELF)
  {
  }

  // ----- judging -----

  lemma RefRefused(w: World, v: Json, m: Fields, ref: string, stack: seq<string>)
    requires |stack| < MAX_REF_DEPTH && "$ref" in m && m["$ref"] == JStr(ref)
    requires Resolve(w.root, ref).Found? && Resolve(w.root, ref).ptr in stack
    ensures JudgeNode(w, v, JObj(m), stack) == Judgement(false, 0, true)
  {
    JudgeObject(w, v, m, stack);
    hide Resolve, JudgeKeywords, JudgeNode;
  }

  /** Under `not` a refused reference lets every value pass. */
  lemma NotRefused(w: World, v: Json, ref: string, stack: seq<string>)
    requires |stack| < MAX_REF_DEPTH && Resolve(w.root, ref).Found? && Resolve(w.root, ref).ptr in stack
    ensures var j := JudgeNode(w, v, JObj(map["not" := JObj(map["$ref" := JStr(ref)])]), stack);
            j.ok && j.cost == 0
  {
    hide JudgeKeywords, JudgeNode, Resolve;
    var m: Fields := map["not" := JObj(map["$ref" := JStr(ref)])];
    JudgeObject(w, v, m, stack);
    RefRefused(w, v, map["$ref" := JStr(ref)], ref, stack);
    OnlyNotJudged(w, v, m, stack);
    assert JudgeNot(w, v, m, stack) == Not(JudgeNode(w, v, m["not"], stack));
  }

  /** Of the keywords, only `not` is present. */
  ghost predicate OnlyNot(m: Fields) {
    Props(m) == map[] && "not" in m && forall key :: key in KEYWORDS && key != "not" ==> key !in m
  }

  lemma OnlyNotPlain(w: World, v: Json, m: Fields)
    requires OnlyNot(m)
    ensures TypeOk(v, m) && PlainOk(w, v, m)
    ensures v.JObj? ==> ObjectOk(w, m, v.fields)
    ensures v.JArr? ==> ArrayOk(w, m, v.elems)
  {
    forall key | key in KEYWORDS && key != "not"
      ensures AsFloat(w, m, key) == None && ListAt(m, key) == [] && StringAt(m, key) == "" {
    }
  }

  lemma OnlyNotAbsent(m: Fields)
    requires OnlyNot(m)
    ensures "if" !in m && "allOf" !in m && "anyOf" !in m && "oneOf" !in m
    ensures "additionalProperties" !in m && "items" !in m
  {
  }

  lemma OnlyNotJudged(w: World, v: Json, m: Fields, stack: seq<string>)
    requires |stack| <= MAX_REF_DEPTH && OnlyNot(m)
    ensures JudgeKeywords(w, v, m, stack) == JudgeNot(w, v, m, stack)
  {
    hide PlainOk, TypeOk, ObjectOk, ArrayOk, AllIn, JudgeProps, Props;
    hide JudgeNode, JudgeKeywords, JudgeIf, JudgeNot, JudgeLists, JudgeParts;
    OnlyNotPlain(w, v, m);
    OnlyNotAbsent(m);
    if v.JObj? {
      PropsNone(w, v.fields, m, stack);
    }
    hide OnlyNot;
    BranchesAbsent(w, v, m, stack);
    ListsAbsent(w, v, m, stack);
    PartsAbsent(w, v, m, stack);
    KeywordsAre(w, v, m, stack, JudgeNot(w, v, m, stack), PASS);
    AndPass(JudgeNot(w, v, m, stack));
    assert JudgeKeywords(w, v, m, stack) == JudgeNot(w, v, m, stack);
  }

  lemma OnlyNotSat(how: Reading, w: World, v: Json, m: Fields, fuel: nat)
    requires OnlyNot(m)
    ensures SatKeywords(how, w, v, m, fuel) <==> !Sat(how, w, v, m["not"], fuel)
  {
    OnlyNotPlain(w, v, m);
    hide PlainOk, TypeOk, ObjectOk, ArrayOk, Sat;
    forall key | key in KEYWORDS && key != "not" ensures key !in m && ListAt(m, key) == [] {
    }
    assert SatLists(how, w, v, m, fuel);
    assert v.JObj? ==> SatObject(how, w, v.fields, m, fuel);
  }

  lemma {:induction false} SumNothing(js: map<string, Judgement>)
    requires forall k :: k in js ==> js[k].cost == 0
    ensures Sum(js) == 0
    decreases |js|
  {
    if js != map[] {
      var k :| k in js && Sum(js) == js[k].cost + Sum(js - {k});
      SumNothing(js - {k});
    }
  }

  lemma PropsNone(w: World, obj: Fields, m: Fields, stack: seq<string>)
    requires |stack| <= MAX_REF_DEPTH && Props(m) == map[]
    ensures AllIn(JudgeProps(w, obj, m, stack)) == PASS
  {
    hide JudgeNode;
    assert JudgeProps(w, obj, m, stack) == map[];
    AllInNone();
  }

  lemma PropsNext(w: World, obj: Fields, m: Fields, next: Json, stack: seq<string>, ok: bool)
    requires |stack| <= MAX_REF_DEPTH && Props(m) == map["next" := next] && next.JObj?
    requires forall u :: JudgeNode(w, u, next, stack).ok == ok && JudgeNode(w, u, next, stack).cost == 0
    ensures var j := AllIn(JudgeProps(w, obj, m, stack));
            j.cost == 0 && (j.ok <==> ok || "next" !in obj)
  {
    hide JudgeNode, Sum, Props;
    var js := JudgeProps(w, obj, m, stack);
    forall k | k in js ensures k == "next" && js[k].ok == ok && js[k].cost == 0 {
      assert IsProp(m, obj, k);
      assert js[k] == JudgeNode(w, obj["next"], next, stack);
    }
    SumNothing(js);
    assert "next" in js <==> IsProp(m, obj, "next");
  }

  lemma RefAlone(w: World, v: Json, m: Fields, ref: string, target: Json)
    requires "$ref" in m && m["$ref"] == JStr(ref) && Resolve(w.root, ref) == Found(target, ref)
    requires OnlyProperties(m) && Props(m) == map[]
    ensures var j := JudgeNode(w, v, target, [ref]);
            JudgeNode(w, v, JObj(m), []).ok == j.ok && JudgeNode(w, v, JObj(m), []).cost == j.cost + 1
  {
    hide Resolve, OnlyProperties, JudgeNode, JudgeKeywords, JudgeProps, AllIn, JudgeRef, Props;
    OnlyPropertiesJudged(w, v, m, []);
    if v.JObj? {
      PropsNone(w, v.fields, m, []);
    }
    JudgeObject(w, v, m, []);
    RefFollowed(w, v, m, ref, target, []);
    assert [] + [ref] == [ref];
  }

  lemma RefFollowed(w: World, v: Json, m: Fields, ref: string, target: Json, stack: seq<string>)
    requires |stack| < MAX_REF_DEPTH && "$ref" in m && m["$ref"] == JStr(ref)
    requires Resolve(w.root, ref) == Found(target, ref) && ref !in stack
    ensures var j, k := JudgeNode(w, v, target, stack + [ref]), JudgeKeywords(w, v, m, stack);
            JudgeRef(w, v, m, stack).ok == (j.ok && k.ok) && JudgeRef(w, v, m, stack).cost == 1 + j.cost + k.cost
  {
    hide Resolve, JudgeKeywords, JudgeNode;
  }

  lemma NextAlone(w: World, v: Json, m: Fields, next: Json, stack: seq<string>, ok: bool)
    requires |stack| <= MAX_REF_DEPTH && "$ref" !in m && OnlyProperties(m) && Props(m) == map["next" := next] && next.JObj?
    requires forall u :: JudgeNode(w, u, next, stack).ok == ok && JudgeNode(w, u, next, stack).cost == 0
    ensures var j := JudgeNode(w, v, JObj(m), stack);
            j.cost == 0 && (j.ok <==> ok || !HasNext(v))
  {
    OnlyPropertiesJudged(w, v, m, stack);
    if v.JObj? {
      PropsNext(w, v.fields, m, next, stack, ok);
    }
    JudgeObject(w, v, m, stack);
    hide JudgeKeywords, OnlyProperties, JudgeNode, AllIn, JudgeProps;
  }

  /** A cell whose next schema is judged the same for every value. */
  lemma RecursiveJudged(w: World, v: Json, next: Json, ok: bool)
    requires w.root == Recursive(next) && next.JObj?
    requires forall u :: JudgeNode(w, u, next, [SELF]).ok == ok && JudgeNode(w, u, next, [SELF]).cost == 0
    ensures var j := JudgeNode(w, v, Recursive(next), []);
            j.cost == 1 && (j.ok <==> ok || !HasNext(v))
  {
    SelfResolves(next);
    RecursiveFields(next);
    var schema, cell := Recursive(next), Cell(next);
    assert schema == JObj(schema.fields) && cell == JObj(cell.fields);
    hide Resolve, Cell, Recursive, OnlyProperties, JudgeNode;
    RefAlone(w, v, schema.fields, SELF, cell);
    NextAlone(w, v, cell.fields, next, [SELF], ok);
  }

  /** The linked list: a schema without any constraint, yet the code rejects every list of two or more cells. */
  lemma ListRejected(w: World, v: Json)
    requires w.root == Recursive(SelfRef())
    ensures var j := JudgeNode(w, v, w.root, []);
            j.cost == 1 && (j.ok <==> !HasNext(v))
  {
    SelfResolves(SelfRef());
    SelfFields();
    var next := SelfRef();
    assert next == JObj(next.fields);
    hide Resolve, Cell, Recursive, OnlyProperties, JudgeNode, SelfRef;
    forall u: Json ensures JudgeNode(w, u, next, [SELF]) == Judgement(false, 0, true) {
      RefRefused(w, u, next.fields, SELF, [SELF]);
    }
    RecursiveJudged(w, v, next, false);
  }

  /** With the reference under `not`, the refusal becomes a pass: the code accepts every document. */
  lemma NotListAccepted(w: World, v: Json)
    requires w.root == Recursive(NotSelf())
    ensures var j := JudgeNode(w, v, w.root, []);
            j.cost == 1 && j.ok
  {
    SelfResolves(NotSelf());
    var next := NotSelf();
    assert next.JObj? && next == JObj(map["not" := JObj(map["$ref" := JStr(SELF)])]);
    hide Resolve, Cell, Recursive, OnlyProperties, JudgeNode, NotSelf;
    forall u: Json ensures JudgeNode(w, u, next, [SELF]).ok && JudgeNode(w, u, next, [SELF]).cost == 0 {
      NotRefused(w, u, SELF, [SELF]);
    }
    RecursiveJudged(w, v, next, true);
  }

  // ----- meaning -----

  /** The cells of the list after the first. */
  function Cells(v: Json): nat {
    if HasNext(v) then 1 + Cells(v.fields["next"]) else 0
  }

  lemma CellSat(how: Reading, w: World, v: Json, next: Json, fuel: nat)
    requires next.JObj?
    ensures Sat(how, w, v, Cell(next), fuel) <==> (HasNext(v) ==> Sat(how, w, v.fields["next"], next, fuel))
  {
    RecursiveFields(next);
    var m := Cell(next).fields;
    assert Cell(next) == JObj(m);
    OnlyPropertiesSat(how, w, v, m, fuel);
    SatIs(how, w, v, m, fuel);
    hide SatKeywords, OnlyProperties, Sat, Cell;
    if HasNext(v) {
      assert Applies(how, m, v.fields, "next");
    }
  }

  lemma SelfSat(how: Reading, w: World, v: Json, m: Fields, target: Json, fuel: nat)
    requires "$ref" in m && m["$ref"] == JStr(SELF) && Resolve(w.root, SELF) == Found(target, SELF)
    requires OnlyProperties(m) && Props(m) == map[]
    ensures Sat(how, w, v, JObj(m), fuel) <==> fuel > 0 && Sat(how, w, v, target, fuel - 1)
  {
    OnlyPropertiesSat(how, w, v, m, fuel);
    SatIs(how, w, v, m, fuel);
    hide SatKeywords, OnlyProperties, Sat, Resolve;
  }

  /** Both the schema and a reference to it mean the cell, one reference deeper. */
  lemma RecursiveSat(how: Reading, w: World, v: Json, next: Json, fuel: nat)
    requires w.root == Recursive(next) && next.JObj?
    ensures Sat(how, w, v, Recursive(next), fuel) <==> fuel > 0 && (HasNext(v) ==> Sat(how, w, v.fields["next"], next, fuel - 1))
    ensures Sat(how, w, v, SelfRef(), fuel) <==> Sat(how, w, v, Recursive(next), fuel)
  {
    hide Resolve, OnlyProperties, Cell, Recursive, SelfRef, Sat, Props;
    SelfResolves(next);
    RecursiveFields(next);
    SelfFields();
    var schema, self := Recursive(next), SelfRef();
    SelfSat(how, w, v, schema.fields, Cell(next), fuel);
    SelfSat(how, w, v, self.fields, Cell(next), fuel);
    if fuel > 0 {
      CellSat(how, w, v, next, fuel - 1);
    }
  }

  /** The linked list's meaning admits every document. */
  lemma {:induction false} ListSat(how: Reading, w: World, v: Json, fuel: nat)
    requires w.root == Recursive(SelfRef()) && fuel > Cells(v)
    ensures Sat(how, w, v, w.root, fuel)
    decreases v
  {
    hide Recursive, Sat;
    RecursiveSat(how, w, v, SelfRef(), fuel);
    if HasNext(v) {
      ListSat(how, w, v.fields["next"], fuel - 1);
      RecursiveSat(how, w, v.fields["next"], SelfRef(), fuel - 1);
    }
  }

  /** With `not`, it admits the documents with no next cell, or whose next cell it does not admit. */
  predicate Alternates(v: Json) {
    HasNext(v) ==> !Alternates(v.fields["next"])
  }

  lemma {:induction false} NotListSat(how: Reading, w: World, v: Json, fuel: nat)
    requires w.root == Recursive(NotSelf()) && fuel > Cells(v)
    ensures Sat(how, w, v, w.root, fuel) <==> Alternates(v)
    decreases v
  {
    hide Recursive, Sat, NotSelf;
    NotSelfSat(how, w);
    RecursiveSat(how, w, v, NotSelf(), fuel);
    if HasNext(v) {
      var u := v.fields["next"];
      NotListSat(how, w, u, fuel - 1);
      RecursiveSat(how, w, u, NotSelf(), fuel - 1);
    }
  }

  lemma NotSelfSat(how: Reading, w: World)
    ensures NotSelf().JObj?
    ensures forall v, fuel: nat :: Sat(how, w, v, NotSelf(), fuel) <==> !Sat(how, w, v, SelfRef(), fuel)
  {
    var m := NotSelf().fields;
    assert NotSelf() == JObj(m) && OnlyNot(m) && "$ref" !in m && m["not"] == SelfRef();
    hide SelfRef, NotSelf, OnlyNot;
    forall v, fuel: nat ensures Sat(how, w, v, JObj(m), fuel) <==> !Sat(how, w, v, m["not"], fuel) {
      OnlyNotSat(how, w, v, m, fuel);
      SatIs(how, w, v, m, fuel);
      hide Sat, SatKeywords;
    }
  }

  /** So the code accepts a document against its meaning exactly when it does not alternate, {"next": {}} for one. */
  lemma NotListUnsound(w: World, v: Json, fuel: nat)
    requires w.root == Recursive(NotSelf()) && fuel > Cells(v)
    ensures JudgeNode(w, v, w.root, []).ok && !Sat(Standard, w, v, w.root, fuel) <==> !Alternates(v)
    ensures !Alternates(JObj(map["next" := JObj(map[])]))
  {
    hide JudgeNode, Sat, Recursive;
    NotListAccepted(w, v);
    NotListSat(Standard, w, v, fuel);
    assert Alternates(JObj(map[]));
  }

  // ----- the static bound shuts both out -----

  lemma SelfIsChild(next: Json)
    requires next == SelfRef() || next == NotSelf()
    ensures Child(Cell(next).fields, next)
    ensures next == NotSelf() ==> next.JObj? && Child(next.fields, SelfRef())
  {
    assert Props(Cell(next).fields)["next"] == next;
    if next == NotSelf() {
      assert next.fields["not"] == SelfRef();
    }
  }

  /** Neither schema is within any bound on nested references. */
  lemma {:induction false} NeverWithin(next: Json, d: nat)
    requires next == SelfRef() || next == NotSelf()
    ensures !RefsWithin(Recursive(next), Cell(next), d) && !RefsWithin(Recursive(next), Recursive(next), d)
  {
    hide Resolve, Child, Recursive, Cell, NotSelf, SelfRef, OnlyProperties;
    var root := Recursive(next);
    SelfResolves(next);
    RecursiveFields(next);
    SelfFields();
    SelfIsChild(next);
    if d > 0 {
      NeverWithin(next, d - 1);
    }
    assert !RefsWithin(root, SelfRef(), d);
    assert !RefsWithin(root, next, d);
    assert !RefsWithin(root, Cell(next), d);
  }
}

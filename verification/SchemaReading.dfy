/** Where the validator's reading parts from the standard one (schema.go): boolean schemas under `properties`. */
module SchemaReading {
  import opened Json
  import opened JsonPointer
  import opened SchemaMeaning
  import opened SchemaSound

  // ----- false under properties -----

  /** The standard reading of `properties` is the code's, and no present field whose schema is false. */
  lemma PropertiesExact(how: Reading, w: World, obj: Fields, m: Fields, fuel: nat)
    ensures (forall k :: Applies(Standard, m, obj, k) ==> Sat(how, w, obj[k], Props(m)[k], fuel)) <==>
              && (forall k :: Applies(AsCoded, m, obj, k) ==> Sat(how, w, obj[k], Props(m)[k], fuel))
              && forall k :: k in Props(m) && k in obj ==> Props(m)[k] != JBool(false)
  {
    hide SatKeywords, SatRef;
    forall k | k in Props(m) && k in obj && !Props(m)[k].JObj?
      ensures Sat(how, w, obj[k], Props(m)[k], fuel) <==> Props(m)[k] != JBool(false) {
    }
    hide Sat;
    if forall k :: Applies(Standard, m, obj, k) ==> Sat(how, w, obj[k], Props(m)[k], fuel) {
      forall k | k in Props(m) && k in obj ensures Props(m)[k] != JBool(false) {
        assert Applies(Standard, m, obj, k);
      }
      forall k | Applies(AsCoded, m, obj, k) ensures Sat(how, w, obj[k], Props(m)[k], fuel) {
        assert Applies(Standard, m, obj, k);
      }
    }
    if (forall k :: Applies(AsCoded, m, obj, k) ==> Sat(how, w, obj[k], Props(m)[k], fuel))
       && forall k :: k in Props(m) && k in obj ==> Props(m)[k] != JBool(false) {
      forall k | Applies(Standard, m, obj, k) ensures Sat(how, w, obj[k], Props(m)[k], fuel) {
        if Props(m)[k].JObj? {
          assert Applies(AsCoded, m, obj, k);
        }
      }
    }
  }

  /** In s, and wherever its references lead within d of them, no schema under `properties` is false. */
  ghost predicate NoFalseProperty(root: Json, s: Json, d: nat)
    decreases d, s
  {
    s.JObj? ==>
      && (forall k :: k in Props(s.fields) ==> Props(s.fields)[k] != JBool(false))
      && ("$ref" in s.fields && s.fields["$ref"].JStr? && Resolve(root, s.fields["$ref"].s).Found? && d > 0 ==>
            NoFalseProperty(root, Resolve(root, s.fields["$ref"].s).node, d - 1))
      && forall c :: Child(s.fields, c) ==> NoFalseProperty(root, c, d)
  }

  ghost predicate Agree(w: World, v: Json, s: Json, fuel: nat) {
    Sat(Standard, w, v, s, fuel) <==> Sat(AsCoded, w, v, s, fuel)
  }

  ghost predicate ChildrenAgree(w: World, m: Fields, fuel: nat) {
    forall c, v :: Child(m, c) ==> Agree(w, v, c, fuel)
  }

  lemma ChildrenAgreeIntro(w: World, m: Fields, fuel: nat)
    requires forall c, v :: Child(m, c) ==> Agree(w, v, c, fuel)
    ensures ChildrenAgree(w, m, fuel)
  {
  }

  lemma KeyAgrees(w: World, v: Json, m: Fields, key: string, fuel: nat)
    requires ChildrenAgree(w, m, fuel) && key in {"if", "then", "else", "not", "items", "additionalProperties"} && key in m
    ensures Agree(w, v, m[key], fuel)
  {
    assert Child(m, m[key]);
  }

  lemma ElementAgrees(w: World, v: Json, m: Fields, key: string, i: nat, fuel: nat)
    requires ChildrenAgree(w, m, fuel) && key in {"allOf", "anyOf", "oneOf"} && i < |ListAt(m, key)|
    ensures Agree(w, v, ListAt(m, key)[i], fuel)
  {
    assert ListAt(m, key)[i] in ListAt(m, key);
    assert Child(m, ListAt(m, key)[i]);
  }

  lemma PropertyAgrees(w: World, v: Json, m: Fields, k: string, fuel: nat)
    requires ChildrenAgree(w, m, fuel) && k in Props(m)
    ensures Agree(w, v, Props(m)[k], fuel)
  {
    if Props(m)[k].JObj? {
      assert Child(m, Props(m)[k]);
    }
  }

  lemma ListsAgree(w: World, v: Json, m: Fields, fuel: nat)
    requires ChildrenAgree(w, m, fuel)
    ensures SatLists(Standard, w, v, m, fuel) <==> SatLists(AsCoded, w, v, m, fuel)
  {
    hide Sat, Child, ChildrenAgree;
    forall key, i: nat {:trigger ListAt(m, key)[i]} | key in {"allOf", "anyOf", "oneOf"} && i < |ListAt(m, key)|
      ensures Sat(Standard, w, v, ListAt(m, key)[i], fuel) <==> Sat(AsCoded, w, v, ListAt(m, key)[i], fuel) {
      ElementAgrees(w, v, m, key, i, fuel);
    }
    hide ListAt;
  }

  lemma ObjectAgrees(w: World, obj: Fields, m: Fields, fuel: nat)
    requires ChildrenAgree(w, m, fuel) && forall k :: k in Props(m) ==> Props(m)[k] != JBool(false)
    ensures SatObject(Standard, w, obj, m, fuel) <==> SatObject(AsCoded, w, obj, m, fuel)
  {
    PropertiesExact(AsCoded, w, obj, m, fuel);
    forall k | k in Props(m) && k in obj
      ensures Sat(Standard, w, obj[k], Props(m)[k], fuel) <==> Sat(AsCoded, w, obj[k], Props(m)[k], fuel) {
      PropertyAgrees(w, obj[k], m, k, fuel);
    }
    forall k | IsExtra(m, obj, k)
      ensures Sat(Standard, w, obj[k], m["additionalProperties"], fuel) <==> Sat(AsCoded, w, obj[k], m["additionalProperties"], fuel) {
      KeyAgrees(w, obj[k], m, "additionalProperties", fuel);
    }
    hide Sat, Child, ChildrenAgree, Props;
  }

  lemma KeywordsAgree(w: World, v: Json, m: Fields, fuel: nat)
    requires ChildrenAgree(w, m, fuel) && forall k :: k in Props(m) ==> Props(m)[k] != JBool(false)
    ensures SatKeywords(Standard, w, v, m, fuel) <==> SatKeywords(AsCoded, w, v, m, fuel)
  {
    hide Sat, Child, ChildrenAgree, SatLists, SatObject, PlainOk, TypeOk, ObjectOk, ArrayOk;
    forall key | key in {"if", "then", "else", "not"} && key in m
      ensures Sat(Standard, w, v, m[key], fuel) <==> Sat(AsCoded, w, v, m[key], fuel) {
      KeyAgrees(w, v, m, key, fuel);
    }
    ListsAgree(w, v, m, fuel);
    if v.JObj? {
      ObjectAgrees(w, v.fields, m, fuel);
    }
    if v.JArr? && "items" in m {
      forall i | 0 <= i < |v.elems|
        ensures Sat(Standard, w, v.elems[i], m["items"], fuel) <==> Sat(AsCoded, w, v.elems[i], m["items"], fuel) {
        KeyAgrees(w, v.elems[i], m, "items", fuel);
      }
    }
  }

  /** Without a false property the two readings are one. */
  lemma {:induction false} ReadingsAgree(w: World, v: Json, s: Json, fuel: nat)
    requires NoFalseProperty(w.root, s, fuel)
    ensures Agree(w, v, s, fuel)
    decreases fuel, s
  {
    hide Child, SatKeywords, ChildrenAgree, Resolve;
    if s.JObj? {
      var m := s.fields;
      forall c, v' | Child(m, c) ensures Agree(w, v', c, fuel) {
        ChildSmaller(m, c);
        ReadingsAgree(w, v', c, fuel);
      }
      ChildrenAgreeIntro(w, m, fuel);
      KeywordsAgree(w, v, m, fuel);
      SatIs(Standard, w, v, m, fuel);
      SatIs(AsCoded, w, v, m, fuel);
      if "$ref" in m && m["$ref"].JStr? && Resolve(w.root, m["$ref"].s).Found? && fuel > 0 {
        ReadingsAgree(w, v, Resolve(w.root, m["$ref"].s).node, fuel - 1);
      }
    }
  }

  // ----- the property {"properties": {k: false}} -----

  function FalseSchema(k: string): Json {
    JObj(map["properties" := JObj(map[k := JBool(false)])])
  }

  lemma FalseFields(k: string)
    ensures var m := FalseSchema(k).fields;
            FalseSchema(k) == JObj(m) && OnlyProperties(m) && "$ref" !in m && Props(m) == map[k := JBool(false)]
  {
  }

  /** The code accepts every document; the standard admits those without the field. */
  lemma FalseProperty(w: World, v: Json, k: string, fuel: nat)
    ensures JudgeNode(w, v, FalseSchema(k), []).ok
    ensures Sat(Standard, w, v, FalseSchema(k), fuel) <==> !(v.JObj? && k in v.fields)
  {
    FalseFields(k);
    FalseJudged(w, v, FalseSchema(k).fields, k);
    FalseSat(w, v, FalseSchema(k).fields, k, fuel);
    hide JudgeNode, Sat, FalseSchema;
  }

  lemma FalseJudged(w: World, v: Json, m: Fields, k: string)
    requires OnlyProperties(m) && "$ref" !in m && Props(m) == map[k := JBool(false)]
    ensures JudgeNode(w, v, JObj(m), []).ok
  {
    hide JudgeKeywords, JudgeNode, OnlyProperties, Sum, Props;
    OnlyPropertiesJudged(w, v, m, []);
    JudgeObject(w, v, m, []);
    if v.JObj? {
      assert forall x :: !IsProp(m, v.fields, x);
    }
  }

  lemma FalseSat(w: World, v: Json, m: Fields, k: string, fuel: nat)
    requires OnlyProperties(m) && "$ref" !in m && Props(m) == map[k := JBool(false)]
    ensures Sat(Standard, w, v, JObj(m), fuel) <==> !(v.JObj? && k in v.fields)
  {
    OnlyPropertiesSat(Standard, w, v, m, fuel);
    SatIs(Standard, w, v, m, fuel);
    hide SatKeywords, OnlyProperties, Props;
    assert v.JObj? && k in v.fields ==> Applies(Standard, m, v.fields, k);
    assert forall u :: !Sat(Standard, w, u, JBool(false), fuel);
    hide Sat;
  }
}

/** Local references (schema.go: resolveLocalRef) and RFC 6901 JSON Pointers. */
module JsonPointer {
  import opened Json
  import opened Strings
  import opened Decimals

  datatype Resolution = Found(node: Json, ptr: string) | Invalid | NotFound

  // ----- the library functions -----

  /** strings.Split on one character */
  function Split(s: string, c: char): (parts: seq<string>)
    ensures |parts| > 0
  {
    if s == "" then [""]
    else
      var before := Split(s[..|s| - 1], c);
      var last := s[|s| - 1];
      if last == c then before + [""] else before[..|before| - 1] + [before[|before| - 1] + [last]]
  }

  /** strings.ReplaceAll of the two characters ~d by r */
  function ReplaceAll(s: string, d: char, r: char): string {
    if |s| >= 2 && s[0] == '~' && s[1] == d then [r] + ReplaceAll(s[2..], d, r)
    else if s == "" then "" else [s[0]] + ReplaceAll(s[1..], d, r)
  }

  predicate Digits(s: string) {
    |s| > 0 && forall k :: 0 <= k < |s| ==> '0' <= s[k] <= '9'
  }

  function Decimal(s: string): (n: nat)
    requires Digits(s)
  {
    (if |s| == 1 then 0 else 10 * Decimal(s[..|s| - 1])) + (s[|s| - 1] as int - '0' as int)
  }

  const INT_MAX: nat := 9223372036854775807

  /** strconv.Atoi, -1 for an error; so is a negative number, since the caller treats both alike. */
  function Atoi(s: string): (n: int)
    ensures -1 <= n <= INT_MAX
  {
    var digits := if |s| > 1 && (s[0] == '+' || s[0] == '-') then s[1..] else s;
    if !Digits(digits) || Decimal(digits) > INT_MAX then -1
    else if |s| > 1 && s[0] == '-' && Decimal(digits) > 0 then -1
    else Decimal(digits)
  }

  // ----- resolveLocalRef -----

  function Unescape(part: string): string {
    ReplaceAll(ReplaceAll(part, '1', '/'), '0', '~')
  }

  /** Through every token in turn; None is ErrSchemaRefNotFound. */
  function Descend(node: Json, tokens: seq<string>): Resolution {
    if tokens == [] then Found(node, "")
    else if node.JObj? && tokens[0] in node.fields then Descend(node.fields[tokens[0]], tokens[1..])
    else if node.JArr? && 0 <= Atoi(tokens[0]) < |node.elems| then Descend(node.elems[Atoi(tokens[0])], tokens[1..])
    else NotFound
  }

  function Tokens(ptr: string): seq<string> {
    var parts := Split(ptr, '/')[1..];
    seq(|parts|, k requires 0 <= k < |parts| => Unescape(parts[k]))
  }

  function Resolve(root: Json, ref: string): Resolution {
    if Contains(ref, "://") || ref == "" || ref[0] != '#' || (|ref| > 1 && ref[1] != '/') then Invalid
    else if ref == "#" then Found(root, "#")
    else
      var found := Descend(root, Tokens(ref[1..]));
      if found.Found? then Found(found.node, ref) else found
  }

  method ResolveLocalRef(root: Json, ref: string) returns (r: Resolution)
    ensures r == Resolve(root, ref)
  {
    hide Descend, Split, Unescape;
    if ref == "" {
      return Invalid;
    }
    var remote := Contains(ref, "://");
    if remote || ref[0] != '#' {
      return Invalid;
    }
    var ptr := ref[1..];
    if ptr == "" {
      assert ref == "#";
      return Found(root, "#");
    }
    if ptr[0] != '/' {
      return Invalid;
    }
    assert ref == "#" + ptr && ref != "#";
    var node := root;
    var parts := Split(ptr, '/')[1..];
    ghost var tokens := Tokens(ptr);
    assert tokens[0..] == tokens;
    for k := 0 to |parts|
      invariant Descend(root, tokens) == Descend(node, tokens[k..])
    {
      var part := ReplaceAll(parts[k], '1', '/');
      part := ReplaceAll(part, '0', '~');
      assert part == tokens[k] by {
        UnescapeIs(parts[k]);
      }
      DescendStep(node, tokens[k..]);
      assert tokens[k..][0] == tokens[k] && tokens[k..][1..] == tokens[k + 1..];
      match node {
        case JObj(fields) =>
          if part !in fields {
            return NotFound;
          }
          node := fields[part];
        case JArr(elems) =>
          var idx := Atoi(part);
          if idx < 0 || idx >= |elems| {
            return NotFound;
          }
          node := elems[idx];
        case _ =>
          return NotFound;
      }
    }
    DescendEnd(node);
    assert tokens[|parts|..] == [];
    r := Found(node, "#" + ptr);
  }

  lemma UnescapeIs(part: string)
    ensures Unescape(part) == ReplaceAll(ReplaceAll(part, '1', '/'), '0', '~')
  {
  }

  lemma DescendEnd(node: Json)
    ensures Descend(node, []) == Found(node, "")
  {
  }

  lemma DescendStep(node: Json, tokens: seq<string>)
    requires tokens != []
    ensures Descend(node, tokens) ==
            if node.JObj? && tokens[0] in node.fields then Descend(node.fields[tokens[0]], tokens[1..])
            else if node.JArr? && 0 <= Atoi(tokens[0]) < |node.elems| then Descend(node.elems[Atoi(tokens[0])], tokens[1..])
            else NotFound
  {
  }

  // ----- the pointer to a path of keys -----

  /** RFC 6901, section 3: ~ is written ~0 and / is written ~1. */
  function EscapeChar(c: char): string {
    if c == '~' then "~0" else if c == '/' then "~1" else [c]
  }

  function Escape(key: string): string {
    if key == "" then "" else EscapeChar(key[0]) + Escape(key[1..])
  }

  function Text(keys: seq<string>): string {
    if keys == [] then "" else Text(keys[..|keys| - 1]) + "/" + Escape(keys[|keys| - 1])
  }

  /** The reference to the node under a path of keys. */
  function Pointer(keys: seq<string>): string {
    "#" + Text(keys)
  }

  predicate PathExists(node: Json, keys: seq<string>) {
    keys == [] || (node.JObj? && keys[0] in node.fields && PathExists(node.fields[keys[0]], keys[1..]))
  }

  /** The node under a path of keys through nested objects. */
  function NodeAt(node: Json, keys: seq<string>): Json
    requires PathExists(node, keys)
  {
    if keys == [] then node else NodeAt(node.fields[keys[0]], keys[1..])
  }

  // ----- unescaping undoes escaping -----

  /** What is left to do after ~1 has become /. */
  function HalfEscape(key: string): string {
    if key == "" then "" else (if key[0] == '~' then "~0" else [key[0]]) + HalfEscape(key[1..])
  }

  lemma ReplacePlain(c: char, rest: string, d: char, r: char)
    requires c != '~'
    ensures ReplaceAll([c] + rest, d, r) == [c] + ReplaceAll(rest, d, r)
  {
    assert ([c] + rest)[1..] == rest;
  }

  lemma ReplacePair(c: char, rest: string, d: char, r: char)
    requires c != '~'
    ensures ReplaceAll(['~', c] + rest, d, r) == if c == d then [r] + ReplaceAll(rest, d, r) else ['~', c] + ReplaceAll(rest, d, r)
  {
    var s := ['~', c] + rest;
    assert s[2..] == rest && s[1..] == [c] + rest;
    if c != d {
      ReplacePlain(c, rest, d, r);
      assert ['~'] + ([c] + ReplaceAll(rest, d, r)) == ['~', c] + ReplaceAll(rest, d, r);
    }
  }

  lemma {:induction false} FirstPass(key: string)
    ensures ReplaceAll(Escape(key), '1', '/') == HalfEscape(key)
  {
    if key != "" {
      var rest := Escape(key[1..]);
      FirstPass(key[1..]);
      if key[0] == '~' {
        ReplacePair('0', rest, '1', '/');
      } else if key[0] == '/' {
        ReplacePair('1', rest, '1', '/');
      } else {
        ReplacePlain(key[0], rest, '1', '/');
      }
      hide ReplaceAll;
    }
  }

  lemma {:induction false} SecondPass(key: string)
    ensures ReplaceAll(HalfEscape(key), '0', '~') == key
  {
    if key != "" {
      var e, rest := if key[0] == '~' then "~0" else [key[0]], HalfEscape(key[1..]);
      SecondPass(key[1..]);
      assert (e + rest)[|e|..] == rest;
      assert key == [key[0]] + key[1..];
    }
  }

  lemma UnescapeEscape(key: string)
    ensures Unescape(Escape(key)) == key
  {
    FirstPass(key);
    SecondPass(key);
  }

  lemma {:induction false} NoSlash(key: string)
    ensures '/' !in Escape(key)
  {
    if key != "" {
      NoSlash(key[1..]);
    }
  }

  lemma {:induction false} SplitAppend(s: string, part: string)
    requires '/' !in part
    ensures Split(s + "/" + part, '/') == Split(s, '/') + [part]
  {
    var all := s + "/" + part;
    if part == "" {
      assert all[..|all| - 1] == s;
    } else {
      var front, last := part[..|part| - 1], part[|part| - 1];
      assert last in part && forall c :: c in front ==> c in part;
      SplitAppend(s, front);
      assert all[..|all| - 1] == s + "/" + front && all[|all| - 1] == last;
      assert front + [last] == part;
    }
  }

  function Escapes(keys: seq<string>): (parts: seq<string>)
    ensures |parts| == |keys| && forall k :: 0 <= k < |keys| ==> parts[k] == Escape(keys[k])
  {
    seq(|keys|, k requires 0 <= k < |keys| => Escape(keys[k]))
  }

  lemma {:induction false} SplitText(keys: seq<string>)
    ensures Split(Text(keys), '/') == [""] + Escapes(keys)
  {
    hide Escape;
    if keys != [] {
      var front, last := keys[..|keys| - 1], keys[|keys| - 1];
      SplitText(front);
      NoSlash(last);
      SplitAppend(Text(front), Escape(last));
      assert Escapes(keys) == Escapes(front) + [Escape(last)];
    }
  }

  lemma TokensText(keys: seq<string>)
    ensures Tokens(Text(keys)) == keys
  {
    hide Unescape, Escape, Split;
    SplitText(keys);
    var tokens := Tokens(Text(keys));
    forall k | 0 <= k < |keys| ensures tokens[k] == keys[k] {
      UnescapeEscape(keys[k]);
    }
  }

  lemma {:induction false} DescendKeys(node: Json, keys: seq<string>)
    requires PathExists(node, keys)
    ensures Descend(node, keys) == Found(NodeAt(node, keys), "")
  {
    if keys != [] {
      DescendKeys(node.fields[keys[0]], keys[1..]);
    }
  }

  // ----- when a pointer looks like a URL -----

  predicate EndsIn(s: string, c: char) {
    s != "" && s[|s| - 1] == c
  }

  /** A key ending in a colon, then an empty key, then another key. */
  predicate UrlLike(keys: seq<string>) {
    exists j: nat :: j + 2 < |keys| && UrlLikeAt(keys, j)
  }

  predicate UrlLikeAt(keys: seq<string>, j: nat)
    requires j + 2 < |keys|
  {
    EndsIn(keys[j], ':') && keys[j + 1] == ""
  }

  lemma {:induction false} EscapeEnd(key: string)
    ensures Escape(key) == "" <==> key == ""
    ensures EndsIn(Escape(key), ':') <==> EndsIn(key, ':')
  {
    if |key| > 1 {
      EscapeEnd(key[1..]);
    } else if |key| == 1 {
      assert Escape(key) == EscapeChar(key[0]) + Escape(key[1..]) && Escape(key[1..]) == "";
    }
  }

  lemma ContainsLeft(s: string, t: string, more: string)
    requires Contains(s, t)
    ensures Contains(s + more, t)
  {
    var k: nat :| k <= |s| && ContainsAt(s, t, k);
    assert (s + more)[k..k + |t|] == s[k..k + |t|];
    assert ContainsAt(s + more, t, k);
  }

  lemma ContainsAcross(s: string, part: string)
    requires |s| >= 2 && s[|s| - 2..] == ":/"
    ensures Contains(s + "/" + part, "://")
  {
    var k := |s| - 2;
    assert (s + "/" + part)[k..k + 3] == s[k..] + "/";
    assert ContainsAt(s + "/" + part, "://", k);
  }

  /** An occurrence ends at a slash, so not in a part without one. */
  lemma ContainsWhere(s: string, part: string, k: nat)
    requires '/' !in part && ContainsAt(s + "/" + part, "://", k)
    ensures Contains(s, "://") || (|s| >= 2 && s[|s| - 2..] == ":/")
  {
    var all := s + "/" + part;
    var hit := all[k..k + 3];
    assert hit[0] == all[k] == ':' && hit[1] == all[k + 1] == '/' && hit[2] == all[k + 2] == '/';
    forall j | |s| < j < |all| ensures all[j] != '/' {
      assert all[j] == part[j - |s| - 1] && part[j - |s| - 1] in part;
    }
    if k + 2 < |s| {
      assert s[k..k + 3] == hit;
      assert ContainsAt(s, "://", k);
    } else {
      assert s[|s| - 2..] == [all[k], all[k + 1]];
    }
  }

  /** Appending a slash and a part without one adds an occurrence only across the new slash. */
  lemma ContainsAppend(s: string, part: string)
    requires '/' !in part
    ensures Contains(s + "/" + part, "://") <==> Contains(s, "://") || (|s| >= 2 && s[|s| - 2..] == ":/")
  {
    var all := s + "/" + part;
    if Contains(all, "://") {
      var k: nat :| k <= |all| && ContainsAt(all, "://", k);
      ContainsWhere(s, part, k);
    }
    hide ContainsAt;
    if Contains(s, "://") {
      ContainsLeft(s, "://", "/" + part);
      assert s + ("/" + part) == all;
    }
    if |s| >= 2 && s[|s| - 2..] == ":/" {
      ContainsAcross(s, part);
    }
  }

  lemma ColonSlash(s: string, part: string)
    requires '/' !in part
    ensures var all := s + "/" + part;
            |all| >= 2 && all[|all| - 2..] == ":/" <==> part == "" && EndsIn(s, ':')
  {
    var all := s + "/" + part;
    if part == "" {
      if s != "" {
        assert all[|all| - 2..] == [s[|s| - 1], '/'];
      }
    } else {
      assert all[|all| - 1] == part[|part| - 1] && part[|part| - 1] in part;
      if |all| >= 2 {
        assert all[|all| - 2..][1] == all[|all| - 1];
      }
    }
  }

  lemma ColonEnd(s: string, part: string)
    ensures EndsIn(s + "/" + part, ':') <==> EndsIn(part, ':')
  {
  }

  lemma PointerStep(keys: seq<string>)
    requires keys != []
    ensures Pointer(keys) == Pointer(keys[..|keys| - 1]) + "/" + Escape(keys[|keys| - 1])
  {
  }

  lemma EndsColonSlash(keys: seq<string>)
    ensures var s := Pointer(keys);
            |s| >= 2 && s[|s| - 2..] == ":/" <==> |keys| >= 2 && keys[|keys| - 1] == "" && EndsIn(keys[|keys| - 2], ':')
  {
    if keys == [] {
      assert Pointer(keys) == "#";
    } else {
      hide Escape, EndsIn, Pointer;
      var front, last := keys[..|keys| - 1], keys[|keys| - 1];
      NoSlash(last);
      EscapeEnd(last);
      PointerStep(keys);
      ColonSlash(Pointer(front), Escape(last));
      PointerColon(front);
      assert |keys| >= 2 ==> front[|front| - 1] == keys[|keys| - 2];
    }
  }

  lemma PointerColon(keys: seq<string>)
    ensures EndsIn(Pointer(keys), ':') <==> keys != [] && EndsIn(keys[|keys| - 1], ':')
  {
    if keys == [] {
      assert Pointer(keys) == "#";
    } else {
      hide Escape, EndsIn, Pointer;
      var front, last := keys[..|keys| - 1], keys[|keys| - 1];
      EscapeEnd(last);
      PointerStep(keys);
      ColonEnd(Pointer(front), Escape(last));
    }
  }

  lemma ContainsHash()
    ensures !Contains("#", "://")
  {
    forall k: nat ensures !ContainsAt("#", "://", k) {
    }
  }

  lemma {:induction false} ContainsText(keys: seq<string>)
    ensures Contains(Pointer(keys), "://") <==> UrlLike(keys)
  {
    hide Escape, UrlLike, Contains, EndsIn;
    if keys == [] {
      assert Pointer(keys) == "#";
      ContainsHash();
      NoKeys();
    } else {
      var front, last := keys[..|keys| - 1], keys[|keys| - 1];
      ContainsText(front);
      NoSlash(last);
      ContainsAppend(Pointer(front), Escape(last));
      EndsColonSlash(front);
      assert Pointer(keys) == Pointer(front) + "/" + Escape(last);
      UrlLikeFront(keys);
    }
  }

  lemma NoKeys()
    ensures !UrlLike([])
  {
  }

  lemma UrlLikeFront(keys: seq<string>)
    requires keys != []
    ensures var front := keys[..|keys| - 1];
            UrlLike(keys) <==> UrlLike(front) || (|front| >= 2 && front[|front| - 1] == "" && EndsIn(front[|front| - 2], ':'))
  {
    var front := keys[..|keys| - 1];
    if UrlLike(front) {
      var j: nat :| j + 2 < |front| && UrlLikeAt(front, j);
      assert UrlLikeAt(keys, j);
    }
    if |front| >= 2 && front[|front| - 1] == "" && EndsIn(front[|front| - 2], ':') {
      assert UrlLikeAt(keys, |front| - 2);
    }
    if UrlLike(keys) {
      var j: nat :| j + 2 < |keys| && UrlLikeAt(keys, j);
      if j + 2 < |front| {
        assert UrlLikeAt(front, j);
      }
    }
  }

  // ----- the round trip -----

  /** Resolving the pointer to a path finds the node at that path, unless the text looks like a URL. */
  lemma PointerRoundTrip(root: Json, keys: seq<string>)
    requires PathExists(root, keys)
    ensures Resolve(root, Pointer(keys)) == if UrlLike(keys) then Invalid else Found(NodeAt(root, keys), Pointer(keys))
  {
    var ref := Pointer(keys);
    ContainsText(keys);
    TokensText(keys);
    DescendKeys(root, keys);
    hide Contains, Tokens, Descend, NodeAt, UrlLike;
    if keys == [] {
      EmptyPath(root);
    } else {
      assert ref[1..] == Text(keys);
      var front := Text(keys[..|keys| - 1]);
      TextSlash(keys);
    }
  }

  lemma EmptyPath(root: Json)
    ensures NodeAt(root, []) == root && !UrlLike([]) && Pointer([]) == "#"
  {
  }

  lemma {:induction false} TextSlash(keys: seq<string>)
    requires keys != []
    ensures Text(keys) != "" && Text(keys)[0] == '/'
  {
    if |keys| > 1 {
      TextSlash(keys[..|keys| - 1]);
    } else {
      assert Text(keys[..0]) == "";
    }
  }

  // ----- paths through objects and arrays -----

  datatype Step = Key(key: string) | Item(k: nat)

  /** The token of a step: the key, or the index in decimal. */
  function TokenOf(step: Step): string {
    match step
    case Key(key) => key
    case Item(k) => DecimalText(k)
  }

  function TokensOf(steps: seq<Step>): (tokens: seq<string>)
    ensures |tokens| == |steps| && forall n :: 0 <= n < |steps| ==> tokens[n] == TokenOf(steps[n])
  {
    seq(|steps|, n requires 0 <= n < |steps| => TokenOf(steps[n]))
  }

  /** The steps lead from node through its objects and arrays. */
  predicate Leads(node: Json, steps: seq<Step>) {
    steps == [] ||
    match steps[0]
    case Key(key) => node.JObj? && key in node.fields && Leads(node.fields[key], steps[1..])
    case Item(k) => node.JArr? && k < |node.elems| && k <= INT_MAX && Leads(node.elems[k], steps[1..])
  }

  function Reached(node: Json, steps: seq<Step>): Json
    requires Leads(node, steps)
  {
    if steps == [] then node
    else
      match steps[0]
      case Key(key) => Reached(node.fields[key], steps[1..])
      case Item(k) => Reached(node.elems[k], steps[1..])
  }

  lemma {:induction false} DecimalFixedText(n: nat, k: nat)
    requires k > 0 && n < Power10(k)
    ensures Digits(FixedText(n, k)) && Decimal(FixedText(n, k)) == n
  {
    var s := FixedText(n, k);
    if k > 1 {
      DecimalFixedText(n / 10, k - 1);
      assert s[..|s| - 1] == FixedText(n / 10, k - 1) && s[|s| - 1] == DigitChar(n % 10);
    } else {
      assert FixedText(n / 10, 0) == "" && Power10(1) == 10 * Power10(0);
    }
  }

  /** Atoi reads what strconv.Itoa writes. */
  lemma AtoiDecimal(n: nat)
    requires n <= INT_MAX
    ensures Atoi(DecimalText(n)) == n
  {
    var s := DecimalText(n);
    DecimalFixed(n);
    DecimalFixedText(n, |s|);
    assert '0' <= s[0] <= '9';
    hide Digits, Decimal, DecimalText;
  }

  lemma {:induction false} DescendSteps(node: Json, steps: seq<Step>)
    requires Leads(node, steps)
    ensures Descend(node, TokensOf(steps)) == Found(Reached(node, steps), "")
  {
    hide Atoi, DecimalText;
    if steps != [] {
      var tokens := TokensOf(steps);
      assert tokens[1..] == TokensOf(steps[1..]);
      match steps[0] {
        case Key(key) => DescendSteps(node.fields[key], steps[1..]);
        case Item(k) =>
          AtoiDecimal(k);
          DescendSteps(node.elems[k], steps[1..]);
      }
    }
  }

  /** Resolving the pointer to a path through objects and arrays finds the node there, unless it looks like a URL. */
  lemma PathRoundTrip(root: Json, steps: seq<Step>)
    requires Leads(root, steps)
    ensures var ref := Pointer(TokensOf(steps));
            Resolve(root, ref) == if UrlLike(TokensOf(steps)) then Invalid else Found(Reached(root, steps), ref)
  {
    var keys := TokensOf(steps);
    var ref := Pointer(keys);
    ContainsText(keys);
    TokensText(keys);
    DescendSteps(root, steps);
    hide Contains, Tokens, Descend, Reached, UrlLike, TokenOf;
    if keys == [] {
      assert !UrlLike([]) && Pointer([]) == "#" by {
        EmptyPath(JNull);
      }
      assert Descend(root, keys) == Found(Reached(root, steps), "");
      assert steps == [];
      HereReached(root);
    } else {
      assert ref[1..] == Text(keys);
      TextSlash(keys);
    }
  }

  lemma HereReached(root: Json)
    ensures Reached(root, []) == root
  {
  }

  // ----- array indexes RFC 6901 does not have -----

  /** RFC 6901, section 4: 0, or digits without a leading zero. */
  predicate RfcIndex(token: string) {
    token == "0" || (Digits(token) && token[0] != '0')
  }

  /** A token the code takes for an index although it is none: a sign or a leading zero. */
  predicate OddIndex(token: string) {
    Atoi(token) >= 0 && !RfcIndex(token)
  }

  /** The walk that takes an array step only on an index of RFC 6901; no array has more than INT_MAX elements. */
  function RfcDescend(node: Json, tokens: seq<string>): Resolution {
    if tokens == [] then Found(node, "")
    else if node.JObj? && tokens[0] in node.fields then RfcDescend(node.fields[tokens[0]], tokens[1..])
    else if node.JArr? && RfcIndex(tokens[0]) && 0 <= Atoi(tokens[0]) < |node.elems| then
      RfcDescend(node.elems[Atoi(tokens[0])], tokens[1..])
    else NotFound
  }

  /** The code's walk takes an array step on an odd index. */
  predicate OddStep(node: Json, tokens: seq<string>) {
    if tokens == [] then false
    else if node.JObj? && tokens[0] in node.fields then OddStep(node.fields[tokens[0]], tokens[1..])
    else if node.JArr? && 0 <= Atoi(tokens[0]) < |node.elems| then
      OddIndex(tokens[0]) || OddStep(node.elems[Atoi(tokens[0])], tokens[1..])
    else false
  }

  /** On a given document the walks differ exactly when the code finds a node by an odd index. */
  lemma {:induction false} OddStepExact(node: Json, tokens: seq<string>)
    ensures Descend(node, tokens) == RfcDescend(node, tokens) <==> !(Descend(node, tokens).Found? && OddStep(node, tokens))
  {
    FoundNode(node, tokens);
    if tokens != [] {
      if node.JObj? && tokens[0] in node.fields {
        OddStepExact(node.fields[tokens[0]], tokens[1..]);
      } else if node.JArr? && 0 <= Atoi(tokens[0]) < |node.elems| {
        OddStepExact(node.elems[Atoi(tokens[0])], tokens[1..]);
      }
    }
  }

  /** A document through which the tokens lead, by array steps wherever they can be indexes. */
  ghost function Along(tokens: seq<string>): Json {
    if tokens == [] then JNull
    else if Atoi(tokens[0]) >= 0 then JArr(seq(Atoi(tokens[0]) + 1, _ => Along(tokens[1..])))
    else JObj(map[tokens[0] := Along(tokens[1..])])
  }

  lemma AlongStep(tokens: seq<string>)
    requires tokens != []
    ensures Descend(Along(tokens), tokens) == Descend(Along(tokens[1..]), tokens[1..])
    ensures OddStep(Along(tokens), tokens) <==> OddIndex(tokens[0]) || OddStep(Along(tokens[1..]), tokens[1..])
  {
    hide RfcIndex;
  }

  ghost predicate SomeOdd(tokens: seq<string>) {
    exists k :: 0 <= k < |tokens| && OddIndex(tokens[k])
  }

  lemma SomeOddStep(tokens: seq<string>)
    requires tokens != []
    ensures SomeOdd(tokens) <==> OddIndex(tokens[0]) || SomeOdd(tokens[1..])
  {
    hide OddIndex;
    assert forall k :: 0 < k < |tokens| ==> tokens[k] == tokens[1..][k - 1];
    if SomeOdd(tokens[1..]) {
      var k :| 0 <= k < |tokens[1..]| && OddIndex(tokens[1..][k]);
      assert OddIndex(tokens[k + 1]);
    }
  }

  lemma {:induction false} AlongFound(tokens: seq<string>)
    ensures Descend(Along(tokens), tokens).Found?
    ensures OddStep(Along(tokens), tokens) <==> SomeOdd(tokens)
  {
    if tokens != [] {
      hide OddIndex, SomeOdd, Along;
      AlongFound(tokens[1..]);
      AlongStep(tokens);
      SomeOddStep(tokens);
    }
  }

  lemma {:induction false} OddStepToken(node: Json, tokens: seq<string>)
    requires OddStep(node, tokens)
    ensures SomeOdd(tokens)
  {
    hide OddIndex, SomeOdd;
    SomeOddStep(tokens);
    if !OddIndex(tokens[0]) {
      if node.JObj? && tokens[0] in node.fields {
        OddStepToken(node.fields[tokens[0]], tokens[1..]);
      } else {
        OddStepToken(node.elems[Atoi(tokens[0])], tokens[1..]);
      }
    }
  }

  // ----- RFC 6901 resolution -----

  /** RFC 6901, section 3: every ~ is followed by 0 or 1. */
  predicate WellEscaped(ptr: string) {
    forall k :: 0 <= k < |ptr| && ptr[k] == '~' ==> k + 1 < |ptr| && (ptr[k + 1] == '0' || ptr[k + 1] == '1')
  }

  /** The reference is # and a pointer that is not empty. */
  predicate HasPointer(ref: string) {
    |ref| > 1 && ref[0] == '#' && ref[1] == '/'
  }

  /** Resolution of # and a pointer by RFC 6901: the syntax of section 3, the steps of section 4. */
  function RfcResolve(root: Json, ref: string): Resolution {
    if ref == "#" then Found(root, "#")
    else if !HasPointer(ref) || !WellEscaped(ref[1..]) then Invalid
    else
      var found := RfcDescend(root, Tokens(ref[1..]));
      if found.Found? then Found(found.node, ref) else found
  }

  /** Neither resolution finds a node, or both find the same one. */
  predicate Alike(root: Json, ref: string) {
    var a, b := Resolve(root, ref), RfcResolve(root, ref);
    a.Found? || b.Found? ==> a == b
  }

  lemma ResolveCases(root: Json, ref: string)
    ensures Resolve(root, ref).Found? ==> ref == "#" || (HasPointer(ref) && !Contains(ref, "://"))
    ensures HasPointer(ref) && !Contains(ref, "://") ==>
              var found := Descend(root, Tokens(ref[1..]));
              Resolve(root, ref) == if found.Found? then Found(found.node, ref) else found
    ensures ref == "#" ==> Resolve(root, ref) == Found(root, "#")
  {
    if ref == "#" {
      ContainsHash();
    }
    hide Contains, Tokens, Descend;
  }

  /** On a given document the code resolves a reference as RFC 6901 does, unless it refuses a pointer for its text,
      lets a bad escape pass, or takes an odd index. */
  lemma RfcResolvesOn(root: Json, ref: string)
    ensures Alike(root, ref) <==>
              (HasPointer(ref) ==>
                 var tokens := Tokens(ref[1..]);
                 if Contains(ref, "://") then !(WellEscaped(ref[1..]) && RfcDescend(root, tokens).Found?)
                 else !(Descend(root, tokens).Found? && (!WellEscaped(ref[1..]) || OddStep(root, tokens))))
  {
    ResolveCases(root, ref);
    if HasPointer(ref) {
      var tokens := Tokens(ref[1..]);
      OddStepExact(root, tokens);
      FoundNode(root, tokens);
      if RfcDescend(root, tokens).Found? {
        RfcFewer(root, tokens);
      }
      hide Tokens;
    }
    hide Resolve, Contains, WellEscaped, Descend, RfcDescend, OddStep;
  }

  /** What RFC 6901's walk finds, the code's walk finds. */
  lemma {:induction false} RfcFewer(node: Json, tokens: seq<string>)
    requires RfcDescend(node, tokens).Found?
    ensures Descend(node, tokens) == RfcDescend(node, tokens)
  {
    if tokens != [] {
      if node.JObj? && tokens[0] in node.fields {
        RfcFewer(node.fields[tokens[0]], tokens[1..]);
      } else {
        RfcFewer(node.elems[Atoi(tokens[0])], tokens[1..]);
      }
    }
  }

  /** A document of objects through which the tokens lead. */
  ghost function Nested(tokens: seq<string>): Json {
    if tokens == [] then JNull else JObj(map[tokens[0] := Nested(tokens[1..])])
  }

  lemma {:induction false} NestedFound(tokens: seq<string>)
    ensures RfcDescend(Nested(tokens), tokens).Found?
  {
    if tokens != [] {
      NestedFound(tokens[1..]);
    }
  }

  /** The code resolves a reference as RFC 6901 does, on every document, exactly when the reference has no pointer,
      or a well escaped one without an odd index and without the text ://, or an ill escaped one with that text. */
  lemma RfcResolvesAlike(ref: string)
    ensures (forall root :: Alike(root, ref)) <==>
              (HasPointer(ref) ==>
                 if Contains(ref, "://") then !WellEscaped(ref[1..])
                 else WellEscaped(ref[1..]) && !SomeOdd(Tokens(ref[1..])))
  {
    hide Contains, Tokens, SomeOdd, Descend, RfcDescend, OddStep, Alike, WellEscaped;
    if HasPointer(ref) {
      var tokens := Tokens(ref[1..]);
      AlongFound(tokens);
      RfcResolvesOn(Along(tokens), ref);
      NestedFound(tokens);
      RfcResolvesOn(Nested(tokens), ref);
    }
    forall root ensures HasPointer(ref) && OddStep(root, Tokens(ref[1..])) ==> SomeOdd(Tokens(ref[1..])) {
      if HasPointer(ref) && OddStep(root, Tokens(ref[1..])) {
        OddStepToken(root, Tokens(ref[1..]));
      }
    }
    if !HasPointer(ref) || (if Contains(ref, "://") then !WellEscaped(ref[1..])
                            else WellEscaped(ref[1..]) && !SomeOdd(Tokens(ref[1..]))) {
      forall root ensures Alike(root, ref) {
        RfcResolvesOn(root, ref);
      }
    }
  }

  // ----- the pointer to a path, by RFC 6901 -----

  lemma {:induction false} EscapeWell(key: string)
    ensures WellEscaped(Escape(key))
  {
    if key != "" {
      var e, rest := EscapeChar(key[0]), Escape(key[1..]);
      EscapeWell(key[1..]);
      WellAppend(e, rest);
    }
  }

  lemma WellAppend(a: string, b: string)
    requires WellEscaped(a) && WellEscaped(b)
    ensures WellEscaped(a + b)
  {
    forall k | 0 <= k < |a + b| && (a + b)[k] == '~'
      ensures k + 1 < |a + b| && ((a + b)[k + 1] == '0' || (a + b)[k + 1] == '1') {
      if k < |a| {
        assert a[k] == '~';
      } else {
        assert b[k - |a|] == '~';
      }
    }
  }

  lemma {:induction false} TextWell(keys: seq<string>)
    ensures WellEscaped(Text(keys))
  {
    if keys != [] {
      hide Escape;
      var last := Escape(keys[|keys| - 1]);
      TextWell(keys[..|keys| - 1]);
      EscapeWell(keys[|keys| - 1]);
      WellAppend("/", last);
      WellAppend(Text(keys[..|keys| - 1]), "/" + last);
      assert Text(keys) == Text(keys[..|keys| - 1]) + ("/" + last);
    }
  }

  lemma {:induction false} RfcDescendKeys(node: Json, keys: seq<string>)
    requires PathExists(node, keys)
    ensures RfcDescend(node, keys) == Found(NodeAt(node, keys), "")
  {
    if keys != [] {
      RfcDescendKeys(node.fields[keys[0]], keys[1..]);
    }
  }

  /** By RFC 6901 the pointer to a path finds the node there, whatever its text. */
  lemma RfcRoundTrip(root: Json, keys: seq<string>)
    requires PathExists(root, keys)
    ensures RfcResolve(root, Pointer(keys)) == Found(NodeAt(root, keys), Pointer(keys))
  {
    TokensText(keys);
    TextWell(keys);
    RfcDescendKeys(root, keys);
    hide Tokens, RfcDescend, NodeAt, WellEscaped;
    if keys == [] {
      EmptyPath(root);
    } else {
      assert Pointer(keys)[1..] == Text(keys);
      TextSlash(keys);
    }
  }

  /** ~ is followed by 0 or 1 in RFC 6901; the code lets ~2 stand for itself. */
  lemma BadEscape(b: Json)
    ensures var root := JObj(map["~2" := b]);
            Resolve(root, "#/~2") == Found(b, "#/~2") && RfcResolve(root, "#/~2") == Invalid
  {
    var root := JObj(map["~2" := b]);
    NoColon("#/~2");
    BadEscapeToken();
    assert "#/~2"[1..] == "/~2" && "/~2"[1] == '~' && "/~2"[2] == '2';
    assert !WellEscaped("/~2");
    hide Contains, Tokens, Descend, WellEscaped, RfcDescend;
    DescendStep(root, ["~2"]);
    assert ["~2"][1..] == [];
    DescendEnd(b);
  }

  lemma BadEscapeToken()
    ensures Tokens("/~2") == ["~2"]
  {
    assert "/~2" == "" + "/" + "~2";
    SplitAppend("", "~2");
    EmptySplit();
    hide Split;
    assert Split("/~2", '/')[1..] == ["~2"];
    assert "~2"[1..] == "2" && "2"[1..] == "";
    assert Unescape("~2") == "~2";
  }

  lemma NoColon(ref: string)
    requires forall k :: 0 <= k < |ref| ==> ref[k] != ':'
    ensures !Contains(ref, "://")
  {
    forall k: nat | k <= |ref| ensures !ContainsAt(ref, "://", k) {
      if k + 3 <= |ref| {
        assert ref[k..k + 3][0] == ref[k];
      }
    }
  }

  /** A walk finds a node or does not; either way it reports no pointer. */
  lemma {:induction false} FoundNode(node: Json, tokens: seq<string>)
    ensures Descend(node, tokens).Found? ==> Descend(node, tokens).ptr == ""
    ensures RfcDescend(node, tokens).Found? ==> RfcDescend(node, tokens).ptr == ""
    ensures !Descend(node, tokens).Invalid? && !RfcDescend(node, tokens).Invalid?
  {
    if tokens != [] {
      if node.JObj? && tokens[0] in node.fields {
        FoundNode(node.fields[tokens[0]], tokens[1..]);
      } else if node.JArr? && 0 <= Atoi(tokens[0]) < |node.elems| {
        FoundNode(node.elems[Atoi(tokens[0])], tokens[1..]);
      }
    }
  }

  /** Leading zeros and signs are odd; 0 itself is not. */
  lemma OddIndexes()
    ensures OddIndex("01") && OddIndex("00") && OddIndex("+1") && OddIndex("-0")
    ensures !OddIndex("0") && !OddIndex("10") && !OddIndex("-1")
  {
    assert "01"[..1] == "0" && "00"[..1] == "0" && "10"[..1] == "1";
    assert "+1"[1..] == "1" && "-0"[1..] == "0" && "-1"[1..] == "1";
    assert Digits("01") && Digits("00") && Digits("10") && Digits("1") && Digits("0");
    assert Decimal("1") == 1 && Decimal("0") == 0;
  }

  /** RFC 6901, section 4 allows an array index no leading zero; the code reads 01 as 1. */
  lemma LeadingZero(a: Json, b: Json)
    ensures Resolve(JArr([a, b]), "#/01") == Found(b, "#/01")
  {
    var ref := "#/01";
    NoColon(ref);
    assert ref[1..] == "/01" && HasPointer(ref);
    hide Contains, Tokens, Descend, Resolve;
    LeadingZeroToken();
    LeadingZeroStep(a, b);
    ResolveCases(JArr([a, b]), ref);
  }

  lemma LeadingZeroStep(a: Json, b: Json)
    requires Atoi("01") == 1
    ensures Descend(JArr([a, b]), ["01"]) == Found(b, "")
  {
    hide Descend, Atoi;
    DescendStep(JArr([a, b]), ["01"]);
    assert ["01"][1..] == [];
    DescendEnd(b);
  }

  lemma LeadingZeroToken()
    ensures Tokens("/01") == ["01"] && Atoi("01") == 1
  {
    assert "/01" == "" + "/" + "01";
    SplitAppend("", "01");
    EmptySplit();
    hide Split;
    assert Split("/01", '/')[1..] == ["01"];
    EscapePlain();
    UnescapeEscape("01");
    hide Unescape;
    assert "01"[..1] == "0" && Digits("01");
  }

  lemma EmptySplit()
    ensures Split("", '/') == [""]
  {
  }

  lemma EscapePlain()
    ensures Escape("01") == "01"
  {
    assert "01"[1..] == "1" && "1"[1..] == "";
  }
}

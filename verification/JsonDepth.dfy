/** The nesting-depth scanner for tool arguments (toolcall.go: jsonDepth) against JSON text (RFC 8259). */
module JsonDepth {
  import opened Json

  // ----- the scanner -----

  function Max(a: int, b: int): int {
    if a < b then b else a
  }

  /** What the scanner returns on s, from this depth, maximum and string state. */
  function Scan(s: string, depth: int, max: int, inString: bool): int
    decreases |s|
  {
    if s == "" then max
    else if inString then
      if s[0] == '\\' && |s| > 1 then Scan(s[2..], depth, max, true)
      else Scan(s[1..], depth, max, s[0] != '"')
    else if s[0] == '"' then Scan(s[1..], depth, max, true)
    else if s[0] == '{' || s[0] == '[' then Scan(s[1..], depth + 1, Max(max, depth + 1), false)
    else if s[0] == '}' || s[0] == ']' then Scan(s[1..], depth - 1, max, false)
    else Scan(s[1..], depth, max, false)
  }

  method Depth(data: string) returns (max: int)
    ensures max == Scan(data, 0, 0, false)
  {
    max := 0;
    var depth, inString, i := 0, false, 0;
    assert data[0..] == data;
    while i < |data|
      invariant 0 <= i <= |data|
      invariant Scan(data, 0, 0, false) == Scan(data[i..], depth, max, inString)
    {
      var b := data[i];
      assert data[i..][1..] == data[i + 1..];
      if inString {
        if b == '\\' && i + 1 < |data| {
          assert data[i..][2..] == data[i + 2..];
          i := i + 1;
        } else if b == '"' {
          inString := false;
        }
        i := i + 1;
        continue;
      }
      if b == '"' {
        inString := true;
      } else if b == '{' || b == '[' {
        depth := depth + 1;
        if depth > max {
          max := depth;
        }
      } else if b == '}' || b == ']' {
        depth := depth - 1;
      }
      i := i + 1;
    }
    assert data[i..] == "";
  }

  // ----- JSON text -----

  /** A character of a string: itself, or escaped (the digits of a \u escape are then plain characters). */
  datatype Unit = Char(c: char) | Escaped(c: char)

  /** The text of a value: a number or literal, a string, an array or an object; Gap is white space, a comma
      or a colon between values. */
  datatype Node = Gap(text: string) | Atom(text: string) | Quoted(body: seq<Unit>) | Nest(braces: bool, inner: seq<Node>)

  predicate Bare(text: string) {
    forall k :: 0 <= k < |text| ==> text[k] !in {'"', '{', '[', '}', ']'}
  }

  predicate WellFormed(n: Node) {
    match n
    case Gap(text) => Bare(text)
    case Atom(text) => Bare(text)
    case Quoted(body) => forall k :: 0 <= k < |body| && body[k].Char? ==> body[k].c != '"' && body[k].c != '\\'
    case Nest(_, inner) => forall k :: 0 <= k < |inner| ==> WellFormed(inner[k])
  }

  function ShowBody(body: seq<Unit>): string {
    if body == [] then "" else (if body[0].Char? then [body[0].c] else ['\\', body[0].c]) + ShowBody(body[1..])
  }

  function Show(n: Node): string
    decreases n, 0
  {
    match n
    case Gap(text) => text
    case Atom(text) => text
    case Quoted(body) => "\"" + ShowBody(body) + "\""
    case Nest(braces, inner) => (if braces then "{" else "[") + ShowAll(inner) + (if braces then "}" else "]")
  }

  function ShowAll(ns: seq<Node>): string
    decreases ns
  {
    if ns == [] then "" else Show(ns[0]) + ShowAll(ns[1..])
  }

  function NodeDepth(n: Node): (d: nat)
    decreases n, 0
  {
    if n.Nest? then 1 + Deepest(n.inner) else 0
  }

  function Deepest(ns: seq<Node>): (d: nat)
    decreases ns
  {
    if ns == [] then 0 else Max(NodeDepth(ns[0]), Deepest(ns[1..]))
  }

  // ----- the scanner measures the text -----

  lemma {:induction false} ScanBare(text: string, rest: string, depth: int, max: int)
    requires Bare(text)
    ensures Scan(text + rest, depth, max, false) == Scan(rest, depth, max, false)
  {
    if text == "" {
      assert text + rest == rest;
    } else {
      assert text[0] !in {'"', '{', '[', '}', ']'};
      assert (text + rest)[1..] == text[1..] + rest;
      ScanBare(text[1..], rest, depth, max);
    }
  }

  lemma {:induction false} ScanBody(body: seq<Unit>, rest: string, depth: int, max: int)
    requires WellFormed(Quoted(body))
    ensures Scan(ShowBody(body) + "\"" + rest, depth, max, true) == Scan(rest, depth, max, false)
  {
    var all := ShowBody(body) + "\"" + rest;
    if body == [] {
      assert all == "\"" + rest && all[1..] == rest;
    } else {
      var tail := ShowBody(body[1..]) + "\"" + rest;
      assert body[0].Char? ==> body[0].c != '"' && body[0].c != '\\';
      ScanBody(body[1..], rest, depth, max);
      if body[0].Char? {
        assert all == [body[0].c] + tail && all[1..] == tail;
      } else {
        assert all == ['\\', body[0].c] + tail && all[2..] == tail;
      }
    }
  }

  /** Scanning a well-formed value leaves the depth as it was and has seen the value's own depth. */
  lemma {:induction false} ScanNode(n: Node, rest: string, depth: nat, max: int)
    requires WellFormed(n) && depth <= max
    ensures Scan(Show(n) + rest, depth, max, false) == Scan(rest, depth, Max(max, depth + NodeDepth(n)), false)
    decreases n, 0
  {
    match n {
      case Gap(text) => ScanBare(text, rest, depth, max);
      case Atom(text) => ScanBare(text, rest, depth, max);
      case Quoted(body) =>
        ScanBody(body, rest, depth, max);
        assert (Show(n) + rest)[1..] == ShowBody(body) + "\"" + rest;
      case Nest(braces, inner) => ScanNest(braces, inner, rest, depth, max);
    }
  }

  lemma {:induction false} ScanNest(braces: bool, inner: seq<Node>, rest: string, depth: nat, max: int)
    requires WellFormed(Nest(braces, inner)) && depth <= max
    ensures Scan(Show(Nest(braces, inner)) + rest, depth, max, false) ==
            Scan(rest, depth, Max(max, depth + 1 + Deepest(inner)), false)
    decreases inner, 1
  {
    var close := if braces then "}" else "]";
    var all := Show(Nest(braces, inner)) + rest;
    assert all[1..] == ShowAll(inner) + (close + rest);
    ScanAll(inner, close + rest, depth + 1, Max(max, depth + 1));
    hide Show, ShowAll;
    assert (close + rest)[1..] == rest;
  }

  lemma {:induction false} ScanAll(ns: seq<Node>, rest: string, depth: nat, max: int)
    requires (forall k :: 0 <= k < |ns| ==> WellFormed(ns[k])) && depth <= max
    ensures Scan(ShowAll(ns) + rest, depth, max, false) == Scan(rest, depth, Max(max, depth + Deepest(ns)), false)
    decreases ns, 0
  {
    if ns == [] {
      assert ShowAll(ns) + rest == rest;
    } else {
      assert ShowAll(ns) + rest == Show(ns[0]) + (ShowAll(ns[1..]) + rest);
      ScanNode(ns[0], ShowAll(ns[1..]) + rest, depth, max);
      hide Show, Scan;
      ScanAll(ns[1..], rest, depth, Max(max, depth + NodeDepth(ns[0])));
    }
  }

  // ----- the depth of a value -----

  /** Arrays and objects nest at most d deep in v. */
  ghost predicate NestsWithin(v: Json, d: nat)
    decreases v
  {
    match v
    case JArr(elems) => d > 0 && forall i :: 0 <= i < |elems| ==> NestsWithin(elems[i], d - 1)
    case JObj(fields) => d > 0 && forall k :: k in fields ==> NestsWithin(fields[k], d - 1)
    case _ => true
  }

  function Values(ns: seq<Node>): (r: seq<Node>)
    ensures forall x :: x in r ==> x in ns && !x.Gap?
  {
    if ns == [] then []
    else if ns[|ns| - 1].Gap? then Values(ns[..|ns| - 1])
    else Values(ns[..|ns| - 1]) + [ns[|ns| - 1]]
  }

  /** n is a text of v: an array lists its elements in order, an object its fields in any order, each after its
      name. */
  ghost predicate Renders(v: Json, n: Node)
    decreases v, 1
  {
    match v
    case JStr(_) => n.Quoted?
    case JArr(elems) =>
      n.Nest? && (var vs := Values(n.inner); |vs| == |elems| && forall i :: 0 <= i < |elems| ==> Renders(elems[i], vs[i]))
    case JObj(fields) => n.Nest? && exists names: seq<string> :: Members(fields, names, Values(n.inner))
    case _ => n.Atom?
  }

  ghost predicate Members(fields: map<string, Json>, names: seq<string>, vs: seq<Node>)
    decreases JObj(fields), 0
  {
    && |vs| == 2 * |names|
    && (forall k :: k in fields <==> k in names)
    && forall i: nat :: i < |names| ==> names[i] in fields && vs[2 * i].Quoted? && Renders(fields[names[i]], vs[2 * i + 1])
  }

  lemma {:induction false} DeepestLast(ns: seq<Node>)
    requires ns != []
    ensures Deepest(ns) == Max(Deepest(ns[..|ns| - 1]), NodeDepth(ns[|ns| - 1]))
  {
    if |ns| > 1 {
      DeepestLast(ns[1..]);
      assert ns[1..][..|ns| - 2] == ns[..|ns| - 1][1..];
    }
  }

  lemma GapFlat(ns: seq<Node>, last: Node)
    requires ns != [] && last == ns[|ns| - 1] && last.Gap? && Deepest(ns) == Max(Deepest(ns[..|ns| - 1]), NodeDepth(last))
    ensures Deepest(ns) == Deepest(ns[..|ns| - 1])
  {
    assert NodeDepth(last) == 0;
  }

  lemma {:induction false} DeepestValues(ns: seq<Node>, d: nat)
    ensures Deepest(ns) <= d <==> forall i :: 0 <= i < |Values(ns)| ==> NodeDepth(Values(ns)[i]) <= d
  {
    if ns != [] {
      var front, last := ns[..|ns| - 1], ns[|ns| - 1];
      DeepestLast(ns);
      DeepestValues(front, d);
      hide NodeDepth, Deepest;
      var vs, before := Values(ns), Values(front);
      if last.Gap? {
        GapFlat(ns, last);
        assert Values(ns) == Values(front);
      } else {
        assert vs == before + [last];
        assert forall i :: 0 <= i < |before| ==> vs[i] == before[i];
        assert vs[|before|] == last;
      }
    }
  }

  /** The depth of any text of a value is the value's depth. */
  lemma {:induction false} RenderedDepth(v: Json, n: Node, d: nat)
    requires Renders(v, n)
    ensures NodeDepth(n) <= d <==> NestsWithin(v, d)
    decreases v
  {
    match v {
      case JArr(elems) =>
        if d > 0 {
          ElementsDepth(elems, n.inner, d - 1);
        }
      case JObj(fields) =>
        var names: seq<string> :| Members(fields, names, Values(n.inner));
        if d > 0 {
          FieldsDepth(fields, names, n.inner, d - 1);
        }
      case _ =>
    }
  }

  lemma {:induction false} ElementsDepth(elems: seq<Json>, inner: seq<Node>, d: nat)
    requires |Values(inner)| == |elems| && forall i :: 0 <= i < |elems| ==> Renders(elems[i], Values(inner)[i])
    ensures Deepest(inner) <= d <==> forall i :: 0 <= i < |elems| ==> NestsWithin(elems[i], d)
    decreases elems, 0
  {
    var vs := Values(inner);
    DeepestValues(inner, d);
    forall i | 0 <= i < |elems| ensures NodeDepth(vs[i]) <= d <==> NestsWithin(elems[i], d) {
      RenderedDepth(elems[i], vs[i], d);
    }
    hide Renders, NestsWithin, NodeDepth, Values;
    assert forall i :: 0 <= i < |vs| ==> (NodeDepth(vs[i]) <= d <==> NestsWithin(elems[i], d));
  }

  lemma {:induction false} FieldsDepth(fields: map<string, Json>, names: seq<string>, inner: seq<Node>, d: nat)
    requires Members(fields, names, Values(inner))
    ensures Deepest(inner) <= d <==> forall k :: k in fields ==> NestsWithin(fields[k], d)
    decreases JObj(fields), 0
  {
    var vs := Values(inner);
    DeepestValues(inner, d);
    forall i: nat | i < |names| ensures NodeDepth(vs[2 * i]) == 0 && (NodeDepth(vs[2 * i + 1]) <= d <==> NestsWithin(fields[names[i]], d)) {
      RenderedDepth(fields[names[i]], vs[2 * i + 1], d);
    }
    hide Members, Renders, NestsWithin;
    if forall k :: k in fields ==> NestsWithin(fields[k], d) {
      forall j | 0 <= j < |vs| ensures NodeDepth(vs[j]) <= d {
        assert names[j / 2] in names;
        assert j == 2 * (j / 2) || j == 2 * (j / 2) + 1;
      }
    }
    if forall j :: 0 <= j < |vs| ==> NodeDepth(vs[j]) <= d {
      forall k | k in fields ensures NestsWithin(fields[k], d) {
        var i: nat :| i < |names| && names[i] == k;
        assert NodeDepth(vs[2 * i + 1]) <= d;
      }
    }
  }

  /** The scanner's result on any text of a value, white space around it included, is the value's depth. */
  lemma ScanMeasures(v: Json, n: Node, before: string, after: string, d: nat)
    requires Renders(v, n) && WellFormed(n) && Bare(before) && Bare(after)
    ensures Scan(before + Show(n) + after, 0, 0, false) <= d <==> NestsWithin(v, d)
  {
    hide Show, Renders, NestsWithin;
    ScanBare(before, Show(n) + after, 0, 0);
    assert before + Show(n) + after == before + (Show(n) + after);
    ScanNode(n, after, 0, 0);
    assert after + "" == after;
    ScanBare(after, "", 0, NodeDepth(n));
    RenderedDepth(v, n, d);
  }

  // ----- validateToolArgs -----

  const MAX_ARGS_BYTES: nat := 1048576
  const MAX_ARGS_DEPTH: nat := 100

  method ValidateToolArgs(args: string) returns (ok: bool)
    ensures ok <==> ArgsOk(args)
  {
    if |args| > MAX_ARGS_BYTES {
      return false;
    }
    var depth := Depth(args);
    if depth > MAX_ARGS_DEPTH {
      return false;
    }
    return true;
  }

  predicate ArgsOk(args: string) {
    |args| <= MAX_ARGS_BYTES && Scan(args, 0, 0, false) <= MAX_ARGS_DEPTH
  }

  /** Rendered arguments pass exactly when short enough and nested at most 100 deep. */
  lemma ArgsAccepted(v: Json, n: Node, before: string, after: string)
    requires Renders(v, n) && WellFormed(n) && Bare(before) && Bare(after)
    ensures var args := before + Show(n) + after;
            ArgsOk(args) <==> |args| <= MAX_ARGS_BYTES && NestsWithin(v, MAX_ARGS_DEPTH)
  {
    ScanMeasures(v, n, before, after, MAX_ARGS_DEPTH);
  }
}

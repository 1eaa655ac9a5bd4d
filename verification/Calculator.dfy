/** The calculator tool (tools/calculator.go): its grammar, its parser and why they agree.
  *
  * Input is a sequence of bytes (chars below 256); numbers are rationals, so rounding and
  * overflow of float64 are not modelled.
  */
module Calculator {
  import opened Common
  import opened Decimals

  // ----- lexical classes -----

  /** unicode.IsSpace on a byte. */
  predicate IsSpace(c: char) {
    (9 <= c as int <= 13) || c == ' ' || c as int == 0x85 || c as int == 0xA0
  }

  predicate IsNumeral(c: char) {
    '0' <= c <= '9' || c == '.'
  }

  predicate AllSpace(s: string) {
    forall i :: 0 <= i < |s| ==> IsSpace(s[i])
  }

  predicate AllNumeral(s: string) {
    forall i :: 0 <= i < |s| ==> IsNumeral(s[i])
  }

  predicate StartsNumeral(s: string) {
    s != [] && IsNumeral(s[0])
  }

  /** How many spaces s starts with. */
  function Spaces(s: string): (n: nat)
    ensures n <= |s|
  {
    if s != [] && IsSpace(s[0]) then 1 + Spaces(s[1..]) else 0
  }

  /** How many digits and points s starts with. */
  function Numerals(s: string): (n: nat)
    ensures n <= |s|
  {
    if StartsNumeral(s) then 1 + Numerals(s[1..]) else 0
  }

  function DropSpaces(s: string): (t: string)
    ensures |t| <= |s|
  {
    s[Spaces(s)..]
  }

  lemma {:induction false} SpacesLeading(s: string)
    ensures AllSpace(s[..Spaces(s)]) && s == s[..Spaces(s)] + DropSpaces(s)
    ensures DropSpaces(s) != [] ==> !IsSpace(DropSpaces(s)[0])
  {
    if s != [] && IsSpace(s[0]) {
      SpacesLeading(s[1..]);
      assert s[..Spaces(s)] == [s[0]] + s[1..][..Spaces(s[1..])];
    }
  }

  lemma {:induction false} SpacesPrefix(a: string, b: string)
    requires AllSpace(a) && (b == [] || !IsSpace(b[0]))
    ensures Spaces(a + b) == |a| && (a + b)[..|a|] == a && DropSpaces(a + b) == b
  {
    if a == [] {
      assert a + b == b;
    } else {
      SpacesPrefix(a[1..], b);
      assert (a + b)[1..] == a[1..] + b;
    }
  }

  lemma DropSpacesTwice(s: string)
    ensures DropSpaces(DropSpaces(s)) == DropSpaces(s)
  {
    SpacesLeading(s);
  }

  lemma {:induction false} NumeralsLeading(s: string)
    ensures AllNumeral(s[..Numerals(s)]) && s == s[..Numerals(s)] + s[Numerals(s)..]
  {
    if StartsNumeral(s) {
      NumeralsLeading(s[1..]);
      assert s[..Numerals(s)] == [s[0]] + s[1..][..Numerals(s[1..])];
    }
  }

  lemma {:induction false} NumeralsPrefix(a: string, b: string)
    requires AllNumeral(a) && !StartsNumeral(b)
    ensures Numerals(a + b) == |a| && (a + b)[..|a|] == a && (a + b)[|a|..] == b
  {
    if a == [] {
      assert a + b == b;
    } else {
      NumeralsPrefix(a[1..], b);
      assert (a + b)[1..] == a[1..] + b;
    }
  }

  // ----- numerals (strconv.ParseFloat on digits and points) -----

  function Points(s: string): nat {
    if s == [] then 0 else Points(s[..|s| - 1]) + if s[|s| - 1] == '.' then 1 else 0
  }

  /** The digits read as one decimal integer, points skipped. */
  function Digits(s: string): nat
    requires AllNumeral(s)
  {
    if s == [] then 0
    else
      var c := s[|s| - 1];
      if c == '.' then Digits(s[..|s| - 1]) else 10 * Digits(s[..|s| - 1]) + (c as int - '0' as int)
  }

  /** Ten to the number of digits after the last point; 1 without a point. */
  function Scale(s: string): (n: nat)
    ensures n > 0
  {
    if s == [] || '.' !in s || s[|s| - 1] == '.' then 1 else 10 * Scale(s[..|s| - 1])
  }

  function ParseFloat(s: string): Option<real> {
    if AllNumeral(s) && Points(s) <= 1 && |s| > Points(s) then Some(Digits(s) as real / Scale(s) as real) else None
  }

  // ----- what a numeral stands for -----

  /** Digits written after others shift them by a power of ten. */
  lemma {:induction false} DigitsAppend(a: string, b: string)
    requires AllNumeral(a) && AllNumeral(b) && '.' !in b
    ensures AllNumeral(a + b) && Digits(a + b) == Digits(a) * Power10(|b|) + Digits(b)
  {
    if b == "" {
      assert a + b == a;
    } else {
      var front, c := b[..|b| - 1], b[|b| - 1];
      DigitsAppend(a, front);
      assert (a + b)[..|a + b| - 1] == a + front && (a + b)[|a + b| - 1] == c;
      assert c in b;
      ShiftAgain(Digits(a), Power10(|front|), Digits(front));
    }
  }

  lemma ShiftAgain(a: nat, p: nat, b: nat)
    ensures 10 * (a * p + b) == a * (10 * p) + 10 * b
  {
  }

  lemma {:induction false} DigitsFixed(n: nat, k: nat)
    requires n < Power10(k)
    ensures var s := FixedText(n, k);
            AllNumeral(s) && '.' !in s && Points(s) == 0 && Digits(s) == n
  {
    var s := FixedText(n, k);
    if k > 0 {
      DigitsFixed(n / 10, k - 1);
      assert s[..|s| - 1] == FixedText(n / 10, k - 1) && s[|s| - 1] == DigitChar(n % 10);
    }
  }

  lemma {:induction false} PointsAppend(a: string, b: string)
    ensures Points(a + b) == Points(a) + Points(b)
  {
    if b == "" {
      assert a + b == a;
    } else {
      PointsAppend(a, b[..|b| - 1]);
      assert (a + b)[..|a + b| - 1] == a + b[..|b| - 1];
    }
  }

  /** After the last point every digit divides by ten. */
  lemma {:induction false} ScaleAppend(a: string, b: string)
    requires '.' !in b
    ensures Scale(a + "." + b) == Power10(|b|)
  {
    var s := a + "." + b;
    if b != "" {
      var front := b[..|b| - 1];
      ScaleAppend(a, front);
      assert s[..|s| - 1] == a + "." + front && s[|s| - 1] == b[|b| - 1] && s[|a|] == '.';
      assert b[|b| - 1] in b;
    }
  }

  lemma {:induction false} NoScale(s: string)
    requires '.' !in s
    ensures Scale(s) == 1
  {
  }

  lemma Fraction(m: nat, f: nat, p: nat)
    requires p > 0
    ensures (m * p + f) as real / p as real == m as real + f as real / p as real
  {
    var x, q := f as real / p as real, p as real;
    assert (m * p + f) as real == m as real * q + f as real;
    assert x * q == f as real;
    assert m as real * q + x * q == (m as real + x) * q;
    assert ((m as real + x) * q) / q == m as real + x;
  }

  function Joined(a: nat, k: nat, b: nat): nat {
    a * Power10(k) + b
  }

  /** A point between two strings of digits. */
  lemma PointAfter(a: string)
    requires AllNumeral(a)
    ensures AllNumeral(a + ".") && Digits(a + ".") == Digits(a) && Points(a + ".") == Points(a) + 1
  {
    var s := a + ".";
    assert s[..|s| - 1] == a && s[|s| - 1] == '.';
    assert AllNumeral(s);
  }

  lemma PointBetween(a: string, b: string)
    requires AllNumeral(a) && AllNumeral(b) && '.' !in a && '.' !in b && Points(a) == 0 && Points(b) == 0
    ensures var s := a + "." + b;
            AllNumeral(s) && Points(s) == 1 && Scale(s) == Power10(|b|) && Digits(s) == Joined(Digits(a), |b|, Digits(b))
  {
    hide Digits, Points, Scale, Power10, AllNumeral;
    PointAfter(a);
    ScaleAppend(a, b);
    DigitsAppend(a + ".", b);
    PointsAppend(a + ".", b);
    assert Digits(a + "." + b) == Joined(Digits(a), |b|, Digits(b)) && AllNumeral(a + "." + b);
  }

  lemma WholeValue(m: nat, j: nat)
    requires m < Power10(j) && j > 0
    ensures ParseFloat(FixedText(m, j)) == Some(m as real)
  {
    DigitsFixed(m, j);
    NoScale(FixedText(m, j));
    hide Digits, Points, Scale, FixedText, Power10;
  }

  /** m and f parts in 10 to the k. */
  function Tenths(m: nat, f: nat, k: nat): real {
    m as real + f as real / Power10(k) as real
  }

  lemma ScaledValue(s: string, m: nat, f: nat, k: nat)
    requires AllNumeral(s) && Points(s) == 1 && |s| > 1 && Scale(s) == Power10(k) && Digits(s) == Joined(m, k, f)
    ensures ParseFloat(s) == Some(Tenths(m, f, k))
  {
    Fraction(m, f, Power10(k));
    hide Digits, Points, Scale, AllNumeral, Power10;
  }

  /** Digits stand for the number they write in base ten, and with a point for it and so many tenths. */
  lemma NumeralValue(m: nat, j: nat, f: nat, k: nat)
    requires m < Power10(j) && f < Power10(k) && j + k > 0
    ensures j > 0 ==> ParseFloat(FixedText(m, j)) == Some(m as real)
    ensures ParseFloat(FixedText(m, j) + "." + FixedText(f, k)) == Some(Tenths(m, f, k))
  {
    hide ParseFloat, FixedText, Power10;
    if j > 0 {
      WholeValue(m, j);
    }
    PointValue(m, j, f, k);
  }

  lemma PointValue(m: nat, j: nat, f: nat, k: nat)
    requires m < Power10(j) && f < Power10(k) && j + k > 0
    ensures ParseFloat(FixedText(m, j) + "." + FixedText(f, k)) == Some(Tenths(m, f, k))
  {
    DigitsFixed(m, j);
    DigitsFixed(f, k);
    hide Digits, Points, Scale, FixedText, ParseFloat, Power10, Tenths, Joined;
    PointBetween(FixedText(m, j), FixedText(f, k));
    ScaledValue(FixedText(m, j) + "." + FixedText(f, k), m, f, k);
  }

  /** Nothing else is a numeral: two points, or none of its characters a digit. */
  lemma NumeralOnly(s: string)
    requires ParseFloat(s).Some?
    ensures exists m: nat, j: nat, f: nat, k: nat :: IsNumeralOf(s, m, j, f, k)
  {
    if '.' in s {
      var i: nat :| i < |s| && s[i] == '.';
      var a, b := s[..i], s[i + 1..];
      assert s == a + "." + b && s == (a + ".") + b;
      PointsAppend(a + ".", b);
      PointsAppend(a, ".");
      assert Points(".") == 1 by {
        assert "."[..0] == "";
      }
      PointFree(a);
      PointFree(b);
      var m := FixedEvery(a);
      var f := FixedEvery(b);
      assert IsNumeralOf(s, m, |a|, f, |b|);
    } else {
      PointFree(s);
      NoPoints(s);
      var m := FixedEvery(s);
      assert IsNumeralOf(s, m, |s|, 0, 0);
    }
  }

  predicate IsNumeralOf(s: string, m: nat, j: nat, f: nat, k: nat) {
    m < Power10(j) && f < Power10(k) && j + k > 0 && (s == FixedText(m, j) || s == FixedText(m, j) + "." + FixedText(f, k))
  }

  lemma {:induction false} PointFree(s: string)
    requires AllNumeral(s)
    ensures Points(s) == 0 ==> forall i :: 0 <= i < |s| ==> '0' <= s[i] <= '9'
  {
    if s != "" {
      PointFree(s[..|s| - 1]);
    }
  }

  lemma {:induction false} NoPoints(s: string)
    requires '.' !in s
    ensures Points(s) == 0
  {
    if s != "" {
      assert s[|s| - 1] in s;
      NoPoints(s[..|s| - 1]);
    }
  }

  predicate MulOp(c: char) { c == '*' || c == '/' }
  predicate AddOp(c: char) { c == '+' || c == '-' }

  // ----- the grammar: derivation trees carry the spaces before each token -----

  datatype Factor =
    | Number(space: string, text: string)
    | Signed(space: string, minus: bool, operand: Factor)
    | Paren(space: string, inner: Expression, close: string)

  datatype Term =
    | Single(factor: Factor)
    | TermOp(left: Term, space: string, divide: bool, right: Factor)

  datatype Expression =
    | One(term: Term)
    | ExprOp(left: Expression, space: string, subtract: bool, right: Term)

  predicate FactorOk(f: Factor) {
    AllSpace(f.space) && match f
    case Number(_, text) => text != [] && AllNumeral(text)
    case Signed(_, _, g) => FactorOk(g)
    case Paren(_, e, close) => ExpressionOk(e) && AllSpace(close)
  }

  predicate TermOk(t: Term) {
    match t
    case Single(f) => FactorOk(f)
    case TermOp(l, space, _, r) => TermOk(l) && AllSpace(space) && FactorOk(r)
  }

  predicate ExpressionOk(e: Expression) {
    match e
    case One(t) => TermOk(t)
    case ExprOp(l, space, _, r) => ExpressionOk(l) && AllSpace(space) && TermOk(r)
  }

  function FactorText(f: Factor): string {
    match f
    case Number(space, text) => space + text
    case Signed(space, minus, g) => space + [if minus then '-' else '+'] + FactorText(g)
    case Paren(space, e, close) => space + ['('] + ExpressionText(e) + close + [')']
  }

  function TermText(t: Term): string {
    match t
    case Single(f) => FactorText(f)
    case TermOp(l, space, divide, r) => TermText(l) + space + [if divide then '/' else '*'] + FactorText(r)
  }

  function ExpressionText(e: Expression): string {
    match e
    case One(t) => TermText(t)
    case ExprOp(l, space, subtract, r) => ExpressionText(l) + space + [if subtract then '-' else '+'] + TermText(r)
  }

  /** s is the text of e, with any spaces after it. */
  ghost predicate Derives(s: string, e: Expression) {
    && ExpressionOk(e)
    && ExpressionText(e) <= s && AllSpace(s[|ExpressionText(e)|..])
  }

  // ----- the value of a derivation; None for a bad numeral or a zero divisor -----

  function Times(x: real, y: real): real { x * y }

  function Over(x: real, y: real): real
    requires y != 0.0
  {
    x / y
  }

  function Negate(a: Option<real>): Option<real> {
    if a.Some? then Some(-a.value) else None
  }

  function Sum(a: Option<real>, b: Option<real>): Option<real> {
    if a.Some? && b.Some? then Some(a.value + b.value) else None
  }

  function Difference(a: Option<real>, b: Option<real>): Option<real> {
    if a.Some? && b.Some? then Some(a.value - b.value) else None
  }

  function Product(a: Option<real>, b: Option<real>): Option<real> {
    if a.Some? && b.Some? then Some(Times(a.value, b.value)) else None
  }

  function Quotient(a: Option<real>, b: Option<real>): Option<real> {
    if a.Some? && b.Some? && b.value != 0.0 then Some(Over(a.value, b.value)) else None
  }

  function FactorValue(f: Factor): Option<real> {
    match f
    case Number(_, text) => ParseFloat(text)
    case Signed(_, minus, g) => if minus then Negate(FactorValue(g)) else FactorValue(g)
    case Paren(_, e, _) => ExpressionValue(e)
  }

  function TermValue(t: Term): Option<real> {
    match t
    case Single(f) => FactorValue(f)
    case TermOp(l, _, divide, r) =>
      if divide then Quotient(TermValue(l), FactorValue(r)) else Product(TermValue(l), FactorValue(r))
  }

  function ExpressionValue(e: Expression): Option<real> {
    match e
    case One(t) => TermValue(t)
    case ExprOp(l, _, subtract, r) =>
      if subtract then Difference(ExpressionValue(l), TermValue(r)) else Sum(ExpressionValue(l), TermValue(r))
  }

  // ----- reading a derivation off the input -----

  datatype Parsed<+T> = Fail | Parsed(tree: T, rest: string)

  function ReadFactor(s: string): (r: Parsed<Factor>)
    ensures r.Parsed? ==> |r.rest| < |s|
    decreases |s|, 0
  {
    var space, t := s[..Spaces(s)], DropSpaces(s);
    if t == [] then Fail
    else if t[0] == '+' || t[0] == '-' then
      var r := ReadFactor(t[1..]);
      if r.Fail? then Fail else Parsed(Signed(space, t[0] == '-', r.tree), r.rest)
    else if t[0] == '(' then
      var r := ReadExpression(t[1..]);
      if r.Fail? then Fail else CloseParen(space, r.tree, r.rest)
    else
      var n := Numerals(t);
      if n == 0 then Fail else Parsed(Number(space, t[..n]), t[n..])
  }

  function CloseParen(space: string, e: Expression, s: string): (r: Parsed<Factor>)
    ensures r.Parsed? ==> |r.rest| < |s|
  {
    var close, u := s[..Spaces(s)], DropSpaces(s);
    if u == [] || u[0] != ')' then Fail else Parsed(Paren(space, e, close), u[1..])
  }

  function ReadTerm(s: string): (r: Parsed<Term>)
    ensures r.Parsed? ==> |r.rest| < |s|
    decreases |s|, 2
  {
    var r := ReadFactor(s);
    if r.Fail? then Fail else TermTail(Single(r.tree), r.rest)
  }

  function TermTail(left: Term, s: string): (r: Parsed<Term>)
    ensures r.Parsed? ==> |r.rest| <= |s|
    decreases |s|, 1
  {
    var t := DropSpaces(s);
    if t == [] || !MulOp(t[0]) then Parsed(left, s)
    else
      var r := ReadFactor(t[1..]);
      if r.Fail? then Fail else TermTail(TermOp(left, s[..Spaces(s)], t[0] == '/', r.tree), r.rest)
  }

  function ReadExpression(s: string): (r: Parsed<Expression>)
    ensures r.Parsed? ==> |r.rest| < |s|
    decreases |s|, 4
  {
    var r := ReadTerm(s);
    if r.Fail? then Fail else ExpressionTail(One(r.tree), r.rest)
  }

  function ExpressionTail(left: Expression, s: string): (r: Parsed<Expression>)
    ensures r.Parsed? ==> |r.rest| <= |s|
    decreases |s|, 3
  {
    var t := DropSpaces(s);
    if t == [] || !AddOp(t[0]) then Parsed(left, s)
    else
      var r := ReadTerm(t[1..]);
      if r.Fail? then Fail else ExpressionTail(ExprOp(left, s[..Spaces(s)], t[0] == '-', r.tree), r.rest)
  }

  // ----- what is read is a derivation of what was consumed -----

  ghost predicate FactorFrom(r: Parsed<Factor>, s: string) {
    r.Parsed? ==> FactorOk(r.tree) && s == FactorText(r.tree) + r.rest
  }

  ghost predicate TermFrom(r: Parsed<Term>, s: string) {
    r.Parsed? ==> TermOk(r.tree) && s == TermText(r.tree) + r.rest
  }

  ghost predicate ExpressionFrom(r: Parsed<Expression>, s: string) {
    r.Parsed? ==> ExpressionOk(r.tree) && s == ExpressionText(r.tree) + r.rest
  }

  lemma Regroup(x: string, space: string, op: string, y: string, rest: string)
    ensures x + space + op + y + rest == x + (space + (op + (y + rest)))
  {
  }

  lemma {:induction false} FactorSound(s: string)
    ensures FactorFrom(ReadFactor(s), s)
    decreases |s|, 0
  {
    hide Spaces, DropSpaces, ReadExpression, CloseParen, ExpressionText;
    SpacesLeading(s);
    var space, t := s[..Spaces(s)], DropSpaces(s);
    if t != [] {
      assert t == [t[0]] + t[1..];
      if t[0] == '+' || t[0] == '-' {
        FactorSound(t[1..]);
        var r := ReadFactor(t[1..]);
        if r.Parsed? {
          Regroup("", space, [t[0]], FactorText(r.tree), r.rest);
          assert s == space + [t[0]] + FactorText(r.tree) + r.rest;
        }
      } else if t[0] == '(' {
        ExpressionSound(t[1..]);
        var r := ReadExpression(t[1..]);
        if r.Parsed? {
          CloseSound(space, r.tree, r.rest);
          Regroup("", space, ['('], ExpressionText(r.tree), r.rest);
          assert s == space + ['('] + ExpressionText(r.tree) + r.rest;
        }
      } else {
        if Numerals(t) > 0 {
          NumberSound(space, t);
        }
      }
    }
  }

  lemma NumberSound(space: string, t: string)
    requires AllSpace(space) && Numerals(t) > 0
    ensures var n := Numerals(t); FactorFrom(Parsed(Number(space, t[..n]), t[n..]), space + t)
  {
    NumeralsLeading(t);
  }

  lemma CloseSound(space: string, e: Expression, s: string)
    requires AllSpace(space) && ExpressionOk(e)
    ensures FactorFrom(CloseParen(space, e, s), space + ['('] + ExpressionText(e) + s)
  {
    SpacesLeading(s);
    var u := DropSpaces(s);
    if u != [] {
      assert u == [u[0]] + u[1..];
    }
  }

  lemma {:induction false} TermSound(s: string)
    ensures TermFrom(ReadTerm(s), s)
    decreases |s|, 2
  {
    FactorSound(s);
    var r := ReadFactor(s);
    if r.Parsed? {
      TermTailSound(Single(r.tree), r.rest);
    }
  }

  lemma {:induction false} TermTailSound(left: Term, s: string)
    requires TermOk(left)
    ensures TermFrom(TermTail(left, s), TermText(left) + s)
    decreases |s|, 1
  {
    hide Spaces, DropSpaces, ReadFactor, FactorText;
    SpacesLeading(s);
    var t := DropSpaces(s);
    if t != [] && MulOp(t[0]) {
      assert t == [t[0]] + t[1..];
      FactorSound(t[1..]);
      var r := ReadFactor(t[1..]);
      if r.Parsed? {
        var left' := TermOp(left, s[..Spaces(s)], t[0] == '/', r.tree);
        Regroup(TermText(left), s[..Spaces(s)], [t[0]], FactorText(r.tree), r.rest);
        assert TermText(left') + r.rest == TermText(left) + s;
        TermTailSound(left', r.rest);
      }
    }
  }

  lemma {:induction false} ExpressionSound(s: string)
    ensures ExpressionFrom(ReadExpression(s), s)
    decreases |s|, 4
  {
    TermSound(s);
    var r := ReadTerm(s);
    if r.Parsed? {
      ExpressionTailSound(One(r.tree), r.rest);
    }
  }

  lemma {:induction false} ExpressionTailSound(left: Expression, s: string)
    requires ExpressionOk(left)
    ensures ExpressionFrom(ExpressionTail(left, s), ExpressionText(left) + s)
    decreases |s|, 3
  {
    hide Spaces, DropSpaces, ReadTerm, TermText;
    SpacesLeading(s);
    var t := DropSpaces(s);
    if t != [] && AddOp(t[0]) {
      assert t == [t[0]] + t[1..];
      TermSound(t[1..]);
      var r := ReadTerm(t[1..]);
      if r.Parsed? {
        var left' := ExprOp(left, s[..Spaces(s)], t[0] == '-', r.tree);
        Regroup(ExpressionText(left), s[..Spaces(s)], [t[0]], TermText(r.tree), r.rest);
        assert ExpressionText(left') + r.rest == ExpressionText(left) + s;
        ExpressionTailSound(left', r.rest);
      }
    }
  }

  // ----- the grammar is unambiguous: reading a text finds the tree it came from -----

  lemma NumberRead(space: string, text: string, rest: string)
    requires AllSpace(space) && text != [] && AllNumeral(text) && !StartsNumeral(rest)
    ensures ReadFactor(space + text + rest) == Parsed(Number(space, text), rest)
  {
    hide ReadExpression, CloseParen, Spaces, DropSpaces, Numerals;
    assert space + text + rest == space + (text + rest);
    SpacesPrefix(space, text + rest);
    NumeralsPrefix(text, rest);
    assert (text + rest)[0] == text[0];
  }

  lemma {:induction false} FactorRead(f: Factor, rest: string)
    requires FactorOk(f) && !StartsNumeral(rest)
    ensures ReadFactor(FactorText(f) + rest) == Parsed(f, rest)
    decreases f
  {
    hide ReadExpression, ExpressionTail, ExpressionText, Spaces, DropSpaces, Numerals;
    var s := FactorText(f) + rest;
    match f {
      case Number(space, text) =>
        NumberRead(space, text, rest);
      case Signed(space, minus, g) =>
        var t := [if minus then '-' else '+'] + (FactorText(g) + rest);
        assert s == space + t;
        SpacesPrefix(space, t);
        assert t[1..] == FactorText(g) + rest;
        FactorRead(g, rest);
      case Paren(space, e, close) =>
        var after := close + ([')'] + rest);
        var t := ['('] + (ExpressionText(e) + after);
        assert s == space + t;
        SpacesPrefix(space, t);
        assert t[1..] == ExpressionText(e) + after;
        SpacesPrefix(close, [')'] + rest);
        ExpressionRead(e, after);
        ExpressionStops(e, after);
        assert ([')'] + rest)[1..] == rest;
    }
  }

  lemma TermStops(t: Term, rest: string)
    requires DropSpaces(rest) == [] || !MulOp(DropSpaces(rest)[0])
    ensures TermTail(t, rest) == Parsed(t, rest)
  {
  }

  lemma ExpressionStops(e: Expression, rest: string)
    requires DropSpaces(rest) == [] || !AddOp(DropSpaces(rest)[0])
    ensures ExpressionTail(e, rest) == Parsed(e, rest)
  {
  }

  lemma {:induction false} TermRead(t: Term, rest: string)
    requires TermOk(t) && !StartsNumeral(rest)
    ensures ReadTerm(TermText(t) + rest) == TermTail(t, rest)
    decreases t
  {
    hide ReadFactor, FactorText, Spaces, DropSpaces;
    match t {
      case Single(f) =>
        FactorRead(f, rest);
      case TermOp(l, space, divide, r) =>
        var u := [if divide then '/' else '*'] + (FactorText(r) + rest);
        assert TermText(t) + rest == TermText(l) + (space + u);
        TermRead(l, space + u);
        SpacesPrefix(space, u);
        FactorRead(r, rest);
        assert u[1..] == FactorText(r) + rest;
    }
  }

  lemma {:induction false} ExpressionRead(e: Expression, rest: string)
    requires ExpressionOk(e) && !StartsNumeral(rest) && (DropSpaces(rest) == [] || !MulOp(DropSpaces(rest)[0]))
    ensures ReadExpression(ExpressionText(e) + rest) == ExpressionTail(e, rest)
    decreases e
  {
    hide ReadTerm, TermText, Spaces, DropSpaces;
    match e {
      case One(t) =>
        TermRead(t, rest);
        TermStops(t, rest);
      case ExprOp(l, space, subtract, r) =>
        var u := [if subtract then '-' else '+'] + (TermText(r) + rest);
        assert ExpressionText(e) + rest == ExpressionText(l) + (space + u);
        SpacesPrefix(space, u);
        ExpressionRead(l, space + u);
        TermRead(r, rest);
        TermStops(r, rest);
        assert u[1..] == TermText(r) + rest;
    }
  }

  /** The derivation of the whole input, if it has one. */
  function Derivation(s: string): Option<Expression> {
    var r := ReadExpression(s);
    if r.Parsed? && DropSpaces(r.rest) == [] then Some(r.tree) else None
  }

  lemma DerivationSound(s: string)
    ensures Derivation(s).Some? ==> Derives(s, Derivation(s).value)
  {
    ExpressionSound(s);
    var r := ReadExpression(s);
    if r.Parsed? {
      SpacesLeading(r.rest);
      assert s[|ExpressionText(r.tree)|..] == r.rest;
      assert r.rest[..|r.rest|] == r.rest;
    }
  }

  lemma DerivationComplete(s: string, e: Expression)
    requires Derives(s, e)
    ensures Derivation(s) == Some(e)
  {
    var rest := s[|ExpressionText(e)|..];
    assert s == ExpressionText(e) + rest;
    SpacesPrefix(rest, []);
    assert rest + [] == rest;
    ExpressionRead(e, rest);
  }

  /** Every input has at most one derivation, and `Derivation` finds it. */
  lemma Unambiguous(s: string, d: Expression, e: Expression)
    requires Derives(s, d) && Derives(s, e)
    ensures d == e
  {
    DerivationComplete(s, d);
    DerivationComplete(s, e);
  }

  // ----- the parser -----

  datatype Error = UnexpectedEnd | ExpectedNumber | ExpectedParen | BadNumeral | DivisionByZero | TrailingInput
  datatype Result = Ok(value: real) | Err(error: Error)

  function ToOption(r: Result): Option<real> {
    if r.Ok? then Some(r.value) else None
  }

  class Parser {
    const src: string
    var pos: nat

    ghost predicate Valid()
      reads this
    {
      pos <= |src|
    }

    constructor (s: string)
      ensures Valid() && src == s && pos == 0
    {
      src, pos := s, 0;
    }

    method SkipSpaces()
      requires Valid()
      modifies this
      ensures Valid() && src[pos..] == DropSpaces(src[old(pos)..])
    {
      while pos < |src| && IsSpace(src[pos])
        invariant Valid() && old(pos) <= pos
        invariant DropSpaces(src[pos..]) == DropSpaces(src[old(pos)..])
      {
        assert src[pos..][1..] == src[pos + 1..];
        pos := pos + 1;
      }
    }

    method ParseExpression() returns (r: Result)
      requires Valid()
      modifies this
      ensures Valid() && pos >= old(pos)
      ensures var read := ReadExpression(src[old(pos)..]);
              read.Fail? ==> r.Err?
      ensures var read := ReadExpression(src[old(pos)..]);
              read.Parsed? ==> ToOption(r) == ExpressionValue(read.tree)
      ensures var read := ReadExpression(src[old(pos)..]);
              read.Parsed? && r.Ok? ==> src[pos..] == DropSpaces(read.rest)
      decreases |src| - pos, 4
    {
      hide ReadTerm, TermValue, Spaces, DropSpaces;
      ghost var whole := ReadExpression(src[pos..]);
      r := ParseTerm();
      if r.Err? {
        ghost var t := ReadTerm(src[old(pos)..]);
        if t.Parsed? {
          ExpressionTailFails(One(t.tree), t.rest);
        }
        return;
      }
      var v := r.value;
      ghost var t := ReadTerm(src[old(pos)..]);
      ghost var left, rest := One(t.tree), t.rest;
      DropSpacesTwice(rest);
      while true
        invariant Valid() && pos > old(pos)
        invariant ExpressionValue(left) == Some(v)
        invariant DropSpaces(src[pos..]) == DropSpaces(rest)
        invariant ExpressionTail(left, rest) == whole
        decreases |src| - pos
      {
        SkipSpaces();
        if pos >= |src| {
          return Ok(v);
        }
        var op := src[pos];
        if op != '+' && op != '-' {
          return Ok(v);
        }
        ghost var t := DropSpaces(rest);
        assert t[1..] == src[pos + 1..];
        pos := pos + 1;
        ghost var read := ReadTerm(src[pos..]);
        var rhs := ParseTerm();
        ghost var space := rest[..Spaces(rest)];
        if rhs.Err? {
          if read.Parsed? {
            ExpressionTailFails(ExprOp(left, space, op == '-', read.tree), read.rest);
          }
          return rhs;
        }
        left, rest := ExprOp(left, space, op == '-', read.tree), read.rest;
        DropSpacesTwice(rest);
        if op == '+' {
          v := v + rhs.value;
        } else {
          v := v - rhs.value;
        }
      }
    }

    method ParseTerm() returns (r: Result)
      requires Valid()
      modifies this
      ensures Valid() && pos >= old(pos) && (r.Ok? ==> pos > old(pos))
      ensures var read := ReadTerm(src[old(pos)..]);
              read.Fail? ==> r.Err?
      ensures var read := ReadTerm(src[old(pos)..]);
              read.Parsed? ==> ToOption(r) == TermValue(read.tree)
      ensures var read := ReadTerm(src[old(pos)..]);
              read.Parsed? && r.Ok? ==> src[pos..] == DropSpaces(read.rest)
      decreases |src| - pos, 2
    {
      hide ReadFactor, FactorValue, Spaces, DropSpaces, Times, Over;
      ghost var whole := ReadTerm(src[pos..]);
      r := ParseFactor();
      if r.Err? {
        ghost var f := ReadFactor(src[old(pos)..]);
        if f.Parsed? {
          TermTailFails(Single(f.tree), f.rest);
        }
        return;
      }
      var v := r.value;
      ghost var f := ReadFactor(src[old(pos)..]);
      ghost var left, rest := Single(f.tree), f.rest;
      while true
        invariant Valid() && pos > old(pos)
        invariant TermValue(left) == Some(v)
        invariant src[pos..] == rest
        invariant TermTail(left, rest) == whole
        decreases |src| - pos
      {
        SkipSpaces();
        if pos >= |src| {
          return Ok(v);
        }
        var op := src[pos];
        if op != '*' && op != '/' {
          return Ok(v);
        }
        ghost var t := DropSpaces(rest);
        assert t[1..] == src[pos + 1..];
        pos := pos + 1;
        ghost var read := ReadFactor(src[pos..]);
        var rhs := ParseFactor();
        ghost var space := rest[..Spaces(rest)];
        if rhs.Err? {
          if read.Parsed? {
            TermTailFails(TermOp(left, space, op == '/', read.tree), read.rest);
          }
          return rhs;
        }
        left, rest := TermOp(left, space, op == '/', read.tree), read.rest;
        if op == '*' {
          v := Times(v, rhs.value);
        } else {
          if rhs.value == 0.0 {
            TermTailFails(left, rest);
            return Err(DivisionByZero);
          }
          v := Over(v, rhs.value);
        }
      }
    }

    method ParseFactor() returns (r: Result)
      requires Valid()
      modifies this
      ensures Valid() && pos >= old(pos) && (r.Ok? ==> pos > old(pos))
      ensures var read := ReadFactor(src[old(pos)..]);
              read.Fail? ==> r.Err?
      ensures var read := ReadFactor(src[old(pos)..]);
              read.Parsed? ==> ToOption(r) == FactorValue(read.tree)
      ensures var read := ReadFactor(src[old(pos)..]);
              read.Parsed? && r.Ok? ==> src[pos..] == read.rest
      decreases |src| - pos, 0
    {
      hide ReadExpression, ExpressionValue, Spaces, DropSpaces, Numerals, ParseFloat;
      DropSpacesTwice(src[pos..]);
      SkipSpaces();
      if pos >= |src| {
        return Err(UnexpectedEnd);
      }
      ghost var t := src[pos..];
      assert t[1..] == src[pos + 1..];
      match src[pos] {
        case '+' =>
          pos := pos + 1;
          r := ParseFactor();
        case '-' =>
          pos := pos + 1;
          r := ParseFactor();
          if r.Ok? {
            r := Ok(-r.value);
          }
        case '(' =>
          pos := pos + 1;
          r := ParseExpression();
          if r.Err? {
            return;
          }
          DropSpacesTwice(ReadExpression(t[1..]).rest);
          SkipSpaces();
          assert src[pos..] != [] ==> src[pos..][1..] == src[pos + 1..];
          if pos >= |src| || src[pos] != ')' {
            return Err(ExpectedParen);
          }
          pos := pos + 1;
        case _ =>
          r := ParseNumber();
      }
    }

    method ParseNumber() returns (r: Result)
      requires Valid()
      modifies this
      ensures Valid() && pos >= old(pos)
      ensures var t := DropSpaces(src[old(pos)..]);
              var n := Numerals(t);
              src[pos..] == t[n..] && (r.Ok? ==> pos > old(pos))
              && ToOption(r) == if n == 0 then None else ParseFloat(t[..n])
    {
      hide ParseFloat, DropSpaces;
      SkipSpaces();
      var start := pos;
      ghost var t := src[pos..];
      while pos < |src| && IsNumeral(src[pos])
        invariant Valid() && start <= pos
        invariant Numerals(t) == pos - start + Numerals(src[pos..])
      {
        assert src[pos..][1..] == src[pos + 1..];
        pos := pos + 1;
      }
      assert src[start..pos] == t[..pos - start] && src[pos..] == t[pos - start..];
      if start == pos {
        return Err(ExpectedNumber);
      }
      var value := ParseFloat(src[start..pos]);
      if value.None? {
        return Err(BadNumeral);
      }
      return Ok(value.value);
    }
  }

  /** Once a left operand has no value, no continuation has one. */
  lemma {:induction false} TermTailFails(left: Term, s: string)
    requires TermValue(left) == None
    ensures var r := TermTail(left, s); r.Parsed? ==> TermValue(r.tree) == None
    decreases |s|
  {
    var t := DropSpaces(s);
    if t != [] && MulOp(t[0]) {
      var r := ReadFactor(t[1..]);
      if r.Parsed? {
        TermTailFails(TermOp(left, s[..Spaces(s)], t[0] == '/', r.tree), r.rest);
      }
    }
  }

  lemma {:induction false} ExpressionTailFails(left: Expression, s: string)
    requires ExpressionValue(left) == None
    ensures var r := ExpressionTail(left, s); r.Parsed? ==> ExpressionValue(r.tree) == None
    decreases |s|
  {
    var t := DropSpaces(s);
    if t != [] && AddOp(t[0]) {
      var r := ReadTerm(t[1..]);
      if r.Parsed? {
        ExpressionTailFails(ExprOp(left, s[..Spaces(s)], t[0] == '-', r.tree), r.rest);
      }
    }
  }

  /** The input evaluates exactly when some derivation of it has a value, and then to that value. */
  method EvalExpr(s: string) returns (r: Result)
    ensures r.Ok? <==> exists e :: Derives(s, e) && ExpressionValue(e).Some?
    ensures forall e :: Derives(s, e) ==> ToOption(r) == ExpressionValue(e)
  {
    hide ReadExpression, ExpressionValue, DropSpaces, Derives;
    var p := new Parser(s);
    assert s[0..] == s;
    r := p.ParseExpression();
    if r.Ok? {
      DropSpacesTwice(ReadExpression(s).rest);
      p.SkipSpaces();
      if p.pos != |p.src| {
        r := Err(TrailingInput);
      }
    }
    DerivationSound(s);
    forall e | Derives(s, e) ensures Derivation(s) == Some(e) {
      DerivationComplete(s, e);
    }
  }

  // ----- printing -----

  /** Arithmetic trees, free of layout. */
  datatype Ast =
    | Literal(text: string)
    | Plus(operand: Ast)
    | Minus(operand: Ast)
    | Binary(op: BinOp, left: Ast, right: Ast)

  datatype BinOp = Add | Sub | Mul | Div

  /** The arithmetic of a tree; none with a bad literal or a division by zero. */
  function AstValue(a: Ast): Option<real> {
    match a
    case Literal(text) => ParseFloat(text)
    case Plus(b) => AstValue(b)
    case Minus(b) => (match AstValue(b) case Some(x) => Some(-x) case None => None)
    case Binary(op, l, r) =>
      match (AstValue(l), AstValue(r))
      case (Some(x), Some(y)) =>
        (match op
         case Add => Some(x + y)
         case Sub => Some(x - y)
         case Mul => Some(x * y)
         case Div => if y == 0.0 then None else Some(x / y))
      case _ => None
  }

  predicate IsSum(a: Ast) { a.Binary? && (a.op.Add? || a.op.Sub?) }
  predicate IsProduct(a: Ast) { a.Binary? && (a.op.Mul? || a.op.Div?) }

  /** The printed form, parenthesised only where the grammar needs it. */
  function PrintExpression(a: Ast): Expression
    decreases a, if a.Binary? then 2 else 3
  {
    if IsSum(a) then ExprOp(PrintExpression(a.left), "", a.op.Sub?, PrintTerm(a.right)) else One(PrintTerm(a))
  }

  function PrintTerm(a: Ast): Term
    decreases a, if IsSum(a) then 4 else if a.Binary? then 1 else 2
  {
    if IsProduct(a) then TermOp(PrintTerm(a.left), "", a.op.Div?, PrintFactor(a.right)) else Single(PrintFactor(a))
  }

  function PrintFactor(a: Ast): Factor
    decreases a, if a.Binary? then 3 else 1
  {
    match a
    case Literal(text) => Number("", text)
    case Plus(b) => Signed("", false, PrintFactor(b))
    case Minus(b) => Signed("", true, PrintFactor(b))
    case Binary(_, _, _) => Paren("", PrintExpression(a), "")
  }

  function EraseFactor(f: Factor): Factor {
    match f
    case Number(_, text) => Number("", text)
    case Signed(_, minus, g) => Signed("", minus, EraseFactor(g))
    case Paren(_, e, _) => Paren("", EraseExpression(e), "")
  }

  function EraseTerm(t: Term): Term {
    match t
    case Single(f) => Single(EraseFactor(f))
    case TermOp(l, _, divide, r) => TermOp(EraseTerm(l), "", divide, EraseFactor(r))
  }

  /** The derivation with every space taken out. */
  function EraseExpression(e: Expression): Expression {
    match e
    case One(t) => One(EraseTerm(t))
    case ExprOp(l, _, subtract, r) => ExprOp(EraseExpression(l), "", subtract, EraseTerm(r))
  }

  lemma {:induction false} EraseFactorValue(f: Factor)
    ensures FactorValue(EraseFactor(f)) == FactorValue(f)
  {
    match f {
      case Number(_, _) =>
      case Signed(_, _, g) => EraseFactorValue(g);
      case Paren(_, e, _) => EraseExpressionValue(e);
    }
  }

  lemma {:induction false} EraseTermValue(t: Term)
    ensures TermValue(EraseTerm(t)) == TermValue(t)
  {
    match t {
      case Single(f) => EraseFactorValue(f);
      case TermOp(l, _, _, r) => EraseTermValue(l); EraseFactorValue(r);
    }
  }

  lemma {:induction false} EraseExpressionValue(e: Expression)
    ensures ExpressionValue(EraseExpression(e)) == ExpressionValue(e)
  {
    match e {
      case One(t) => EraseTermValue(t);
      case ExprOp(l, _, _, r) => EraseExpressionValue(l); EraseTermValue(r);
    }
  }

  predicate Printed(a: Ast) {
    FactorValue(PrintFactor(a)) == TermValue(PrintTerm(a)) == ExpressionValue(PrintExpression(a)) == AstValue(a)
  }

  lemma SumPrinted(a: Ast)
    requires IsSum(a) && Printed(a.left) && Printed(a.right)
    ensures Printed(a)
  {
    hide ParseFloat;
    var l, r := ExpressionValue(PrintExpression(a.left)), TermValue(PrintTerm(a.right));
    assert ExpressionValue(PrintExpression(a)) == if a.op.Sub? then Difference(l, r) else Sum(l, r);
    assert PrintTerm(a) == Single(PrintFactor(a)) && PrintFactor(a) == Paren("", PrintExpression(a), "");
    hide PrintFactor, PrintTerm, PrintExpression;
    assert AstValue(a) == if a.op.Sub? then Difference(l, r) else Sum(l, r);
  }

  lemma ProductPrinted(a: Ast)
    requires IsProduct(a) && Printed(a.left) && Printed(a.right)
    ensures Printed(a)
  {
    hide ParseFloat;
    var l, r := TermValue(PrintTerm(a.left)), FactorValue(PrintFactor(a.right));
    assert TermValue(PrintTerm(a)) == if a.op.Div? then Quotient(l, r) else Product(l, r);
    assert PrintExpression(a) == One(PrintTerm(a)) && PrintFactor(a) == Paren("", PrintExpression(a), "");
    assert TermValue(PrintTerm(a)) == AstValue(a);
    assert ExpressionValue(One(PrintTerm(a))) == TermValue(PrintTerm(a));
    assert FactorValue(Paren("", PrintExpression(a), "")) == ExpressionValue(PrintExpression(a));
    hide PrintExpression, PrintTerm, PrintFactor;
    assert AstValue(a) == if a.op.Div? then Quotient(l, r) else Product(l, r);
  }

  /** A tree printed in the grammar's own terms keeps its arithmetic. */
  lemma {:induction false} PrintValue(a: Ast)
    ensures FactorValue(PrintFactor(a)) == TermValue(PrintTerm(a)) == ExpressionValue(PrintExpression(a)) == AstValue(a)
  {
    match a {
      case Literal(_) =>
      case Plus(b) => PrintValue(b);
      case Minus(b) => PrintValue(b);
      case Binary(op, l, r) =>
        PrintValue(l);
        PrintValue(r);
        hide PrintFactor, PrintTerm, PrintExpression, AstValue, FactorValue, TermValue, ExpressionValue;
        if IsSum(a) {
          SumPrinted(a);
        } else {
          ProductPrinted(a);
        }
    }
  }

  /** Every literal is one the lexer can read as a numeral, well formed or not. */
  predicate LiteralsOk(a: Ast) {
    match a
    case Literal(text) => text != [] && AllNumeral(text)
    case Plus(b) => LiteralsOk(b)
    case Minus(b) => LiteralsOk(b)
    case Binary(_, l, r) => LiteralsOk(l) && LiteralsOk(r)
  }

  lemma {:induction false} PrintOk(a: Ast)
    requires LiteralsOk(a)
    ensures FactorOk(PrintFactor(a)) && TermOk(PrintTerm(a)) && ExpressionOk(PrintExpression(a))
  {
    match a {
      case Literal(_) =>
      case Plus(b) => PrintOk(b);
      case Minus(b) => PrintOk(b);
      case Binary(_, l, r) =>
        PrintOk(l);
        PrintOk(r);
        assert TermOk(PrintTerm(a)) || IsSum(a);
        assert ExpressionOk(PrintExpression(a));
    }
  }

  predicate FactorSpaced(f: Factor) {
    AllSpace(f.space) && match f
    case Number(_, _) => true
    case Signed(_, _, g) => FactorSpaced(g)
    case Paren(_, e, close) => ExpressionSpaced(e) && AllSpace(close)
  }

  predicate TermSpaced(t: Term) {
    match t
    case Single(f) => FactorSpaced(f)
    case TermOp(l, space, _, r) => TermSpaced(l) && AllSpace(space) && FactorSpaced(r)
  }

  /** Whatever stands before the tokens of e is spaces. */
  predicate ExpressionSpaced(e: Expression) {
    match e
    case One(t) => TermSpaced(t)
    case ExprOp(l, space, _, r) => ExpressionSpaced(l) && AllSpace(space) && TermSpaced(r)
  }

  lemma {:induction false} FactorRespaced(f: Factor)
    ensures FactorOk(f) <==> FactorSpaced(f) && FactorOk(EraseFactor(f))
  {
    match f {
      case Number(_, _) =>
      case Signed(_, _, g) => FactorRespaced(g);
      case Paren(_, e, _) => ExpressionRespaced(e);
    }
  }

  lemma {:induction false} TermRespaced(t: Term)
    ensures TermOk(t) <==> TermSpaced(t) && TermOk(EraseTerm(t))
  {
    match t {
      case Single(f) => FactorRespaced(f);
      case TermOp(l, _, _, r) => TermRespaced(l); FactorRespaced(r);
    }
  }

  lemma {:induction false} ExpressionRespaced(e: Expression)
    ensures ExpressionOk(e) <==> ExpressionSpaced(e) && ExpressionOk(EraseExpression(e))
  {
    match e {
      case One(t) => TermRespaced(t);
      case ExprOp(l, _, _, r) => ExpressionRespaced(l); TermRespaced(r);
    }
  }

  /** However a printed tree is spaced out, its text derives as that layout and no other, with the tree's value. */
  lemma PrintRoundTrip(a: Ast, e: Expression, after: string)
    requires LiteralsOk(a) && EraseExpression(e) == PrintExpression(a) && ExpressionSpaced(e) && AllSpace(after)
    ensures Derives(ExpressionText(e) + after, e) && Derivation(ExpressionText(e) + after) == Some(e)
    ensures ExpressionValue(e) == AstValue(a)
  {
    PrintOk(a);
    ExpressionRespaced(e);
    assert (ExpressionText(e) + after)[|ExpressionText(e)|..] == after;
    hide ExpressionOk, AllSpace;
    DerivationComplete(ExpressionText(e) + after, e);
    EraseExpressionValue(e);
    PrintValue(a);
  }

  /** So evaluating it gives the tree's value, or an error if it has none. */
  method EvalPrinted(a: Ast, e: Expression, after: string) returns (r: Result)
    requires LiteralsOk(a) && EraseExpression(e) == PrintExpression(a) && ExpressionSpaced(e) && AllSpace(after)
    ensures ToOption(r) == AstValue(a)
  {
    PrintRoundTrip(a, e, after);
    hide Derives, ExpressionText, AstValue;
    r := EvalExpr(ExpressionText(e) + after);
  }

  lemma PlainLiteral(text: string)
    requires text != [] && AllNumeral(text)
    ensures var e := PrintExpression(Literal(text));
            && ExpressionSpaced(e) && EraseExpression(e) == e && ExpressionText(e) + "" == text
            && LiteralsOk(Literal(text)) && AllSpace("") && AstValue(Literal(text)) == ParseFloat(text)
  {
    assert FactorText(PrintFactor(Literal(text))) == "" + text;
    assert EraseFactor(Number("", text)) == Number("", text);
    assert EraseTerm(Single(Number("", text))) == Single(Number("", text));
  }

  /** A natural number evaluates to itself. */
  method EvalNatural(n: nat) returns (r: Result)
    ensures r == Ok(n as real)
  {
    var text := DecimalText(n);
    DecimalFixed(n);
    DigitsFixed(n, |text|);
    NumeralValue(n, |text|, 0, 0);
    PlainLiteral(text);
    hide ParseFloat, DecimalText, PrintExpression, ExpressionSpaced, EraseExpression, ExpressionText, LiteralsOk, AllSpace, AstValue;
    r := EvalPrinted(Literal(text), PrintExpression(Literal(text)), "");
    assert ToOption(r) == Some(n as real);
    assert r.Ok? && r.value == n as real;
  }

  /** And a decimal fraction to the number it writes. */
  method EvalDecimal(m: nat, j: nat, f: nat, k: nat) returns (r: Result)
    requires m < Power10(j) && f < Power10(k) && j + k > 0
    ensures r == Ok(m as real + f as real / Power10(k) as real)
  {
    var text := FixedText(m, j) + "." + FixedText(f, k);
    NumeralValue(m, j, f, k);
    assert AllNumeral(text);
    PlainLiteral(text);
    hide ParseFloat, FixedText, PrintExpression, ExpressionSpaced, EraseExpression, ExpressionText, LiteralsOk, AllSpace, AstValue, Power10;
    r := EvalPrinted(Literal(text), PrintExpression(Literal(text)), "");
    assert ToOption(r) == Some(m as real + f as real / Power10(k) as real);
  }

  /** The spaces a layout may put before a token. */
  lemma SpacesAre(s: string)
    ensures AllSpace(s) <==> forall c :: c in s ==> c in {' ', '\t', '\n', 11 as char, 12 as char, '\r', 0x85 as char, 0xA0 as char}
  {
    if forall c :: c in s ==> c in {' ', '\t', '\n', 11 as char, 12 as char, '\r', 0x85 as char, 0xA0 as char} {
      forall i | 0 <= i < |s| ensures IsSpace(s[i]) {
        assert s[i] in s;
      }
    }
  }
}

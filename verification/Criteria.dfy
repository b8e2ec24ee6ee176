/** The criteria mini-language of achievements: `<field> <operator> <number>`, recognised by one anchored regular
    expression and evaluated against the numeric fields of a user row. */
module Criteria {
  import opened Wrappers

  datatype Op = Ge | Gt | Le | Lt | Eq2 | Eq3

  datatype Criterion = Criterion(field: string, op: Op, value: nat)

  // Character classes of the expression

  predicate IsDigit(c: char) {
    '0' <= c <= '9'
  }

  predicate IsWord(c: char) {
    'a' <= c <= 'z' || 'A' <= c <= 'Z' || IsDigit(c) || c == '_'
  }

  predicate IsSpace(c: char) {
    c in " \t\n\r" || c in {'\U{0B}', '\U{0C}', '\U{A0}', '\U{1680}', '\U{2028}', '\U{2029}', '\U{202F}', '\U{205F}',
                            '\U{3000}', '\U{FEFF}'} ||
    '\U{2000}' <= c <= '\U{200A}'
  }

  ghost predicate All(p: char -> bool, s: string) {
    forall i :: 0 <= i < |s| ==> p(s[i])
  }

  function OpText(op: Op): (s: string)
    ensures 1 <= |s| <= 3 && !IsWord(s[0]) && !IsSpace(s[0])
  {
    match op
    case Ge => ">="
    case Gt => ">"
    case Le => "<="
    case Lt => "<"
    case Eq2 => "=="
    case Eq3 => "==="
  }

  /** What the regular expression accepts: a cut of the string into its groups and the white space between them. */
  ghost predicate Matches(s: string, field: string, gap1: string, op: Op, gap2: string, digits: string) {
    && s == field + (gap1 + (OpText(op) + (gap2 + digits)))
    && field != [] && All(IsWord, field) && All(IsSpace, gap1) && All(IsSpace, gap2)
    && digits != [] && All(IsDigit, digits)
  }

  // The scanner

  /** The length of the longest prefix of `s` inside the class. */
  function Span(p: char -> bool, s: string): (n: nat)
    ensures n <= |s| && (forall i :: 0 <= i < n ==> p(s[i])) && (n < |s| ==> !p(s[n]))
  {
    if s == [] || !p(s[0]) then 0 else Span(p, s[1..]) + 1
  }

  function StartsWith(s: string, prefix: string): bool {
    |prefix| <= |s| && s[..|prefix|] == prefix
  }

  function ScanOp(s: string): Option<Op> {
    if StartsWith(s, ">=") then Some(Ge)
    else if StartsWith(s, ">") then Some(Gt)
    else if StartsWith(s, "<=") then Some(Le)
    else if StartsWith(s, "<") then Some(Lt)
    else if StartsWith(s, "===") then Some(Eq3)
    else if StartsWith(s, "==") then Some(Eq2)
    else None
  }

  function DigitValue(c: char): nat
    requires IsDigit(c)
  {
    c as int - '0' as int
  }

  function Value(digits: string): nat
    requires forall i :: 0 <= i < |digits| ==> IsDigit(digits[i])
  {
    if digits == [] then 0 else Value(digits[..|digits| - 1]) * 10 + DigitValue(digits[|digits| - 1])
  }

  function SkipSpace(s: string): string {
    s[Span(IsSpace, s)..]
  }

  /** The last part: white space and the number, to the end of the string. */
  function ParseNumber(s: string): Option<nat> {
    var digits := SkipSpace(s);
    if digits == [] || Span(IsDigit, digits) < |digits| then None else Some(Value(digits))
  }

  /** The operator and what follows it. */
  function ParseTail(s: string): Option<(Op, nat)> {
    var op := ScanOp(s);
    if op.None? then None
    else
      var number := ParseNumber(s[|OpText(op.value)|..]);
      if number.None? then None else Some((op.value, number.value))
  }

  function Parse(s: string): Option<Criterion> {
    var f := Span(IsWord, s);
    var tail := ParseTail(SkipSpace(s[f..]));
    if f == 0 || tail.None? then None else Some(Criterion(s[..f], tail.value.0, tail.value.1))
  }

  function Compare(actual: int, op: Op, value: nat): bool {
    match op
    case Ge => actual >= value
    case Gt => actual > value
    case Le => actual <= value
    case Lt => actual < value
    case Eq2 => actual == value
    case Eq3 => actual == value
  }

  /** A criterion that does not parse, or names an unknown field, is not met. */
  function Evaluate(s: string, fields: map<string, int>): bool {
    match Parse(s)
    case None => false
    case Some(c) => c.field in fields && Compare(fields[c.field], c.op, c.value)
  }

  // ---------------------------------------------------------------------------------------------
  // The scanner decides the expression
  // ---------------------------------------------------------------------------------------------

  lemma {:induction false} SpanOfConcat(p: char -> bool, s: string, rest: string)
    requires All(p, s) && (rest == [] || !p(rest[0]))
    ensures Span(p, s + rest) == |s|
  {
    if s == [] {
      assert s + rest == rest;
    } else {
      assert (s + rest)[1..] == s[1..] + rest;
      SpanOfConcat(p, s[1..], rest);
    }
  }

  /** No operator is mistaken for its prefix, because neither white space nor a digit continues one. */
  lemma ScanOpOfConcat(op: Op, rest: string)
    requires rest != [] && (IsSpace(rest[0]) || IsDigit(rest[0]))
    ensures ScanOp(OpText(op) + rest) == Some(op)
  {
    var s := OpText(op) + rest;
    assert s[|OpText(op)|] == rest[0] && rest[0] != '=';
    assert StartsWith(s, OpText(op));
    match op {
      case Ge =>
      case Gt => assert s[1] == rest[0];
      case Le => assert s[0] == '<';
      case Lt => assert s[1] == rest[0]; assert s[0] == '<';
      case Eq2 => assert s[2] == rest[0] && s[0] == '=';
      case Eq3 => assert s[0] == '=';
    }
  }

  lemma SpaceAndDigitDiffer(s: string)
    requires s != []
    ensures !(IsSpace(s[0]) && IsWord(s[0]))
  {
  }

  lemma SkipSpaceOfConcat(gap: string, rest: string)
    requires All(IsSpace, gap) && (rest == [] || !IsSpace(rest[0]))
    ensures SkipSpace(gap + rest) == rest
  {
    SpanOfConcat(IsSpace, gap, rest);
  }

  lemma ParseNumberOfConcat(gap: string, digits: string)
    requires All(IsSpace, gap) && digits != [] && All(IsDigit, digits)
    ensures ParseNumber(gap + digits) == Some(Value(digits))
    ensures IsSpace((gap + digits)[0]) || IsDigit((gap + digits)[0])
  {
    SpaceAndDigitDiffer(digits);
    SkipSpaceOfConcat(gap, digits);
    assert digits + [] == digits;
    SpanOfConcat(IsDigit, digits, []);
    assert (gap + digits)[0] == if gap == [] then digits[0] else gap[0];
  }

  lemma ParseTailOfConcat(op: Op, gap: string, digits: string)
    requires All(IsSpace, gap) && digits != [] && All(IsDigit, digits)
    ensures ParseTail(OpText(op) + (gap + digits)) == Some((op, Value(digits)))
  {
    var number := gap + digits;
    ParseNumberOfConcat(gap, digits);
    ScanOpOfConcat(op, number);
    assert (OpText(op) + number)[|OpText(op)|..] == number;
  }

  /** Completeness: every string the expression accepts is parsed into the groups it was cut into. */
  lemma ParseOfMatch(s: string, field: string, gap1: string, op: Op, gap2: string, digits: string)
    requires Matches(s, field, gap1, op, gap2, digits)
    ensures Parse(s) == Some(Criterion(field, op, Value(digits)))
  {
    var rest := OpText(op) + (gap2 + digits);
    ParseTailOfConcat(op, gap2, digits);
    assert rest[0] == OpText(op)[0];
    var afterField := gap1 + rest;
    SkipSpaceOfConcat(gap1, rest);
    SpaceAndDigitDiffer(afterField);
    assert afterField[0] == if gap1 == [] then rest[0] else gap1[0];
    SpanOfConcat(IsWord, field, afterField);
    assert s[..|field|] == field && s[|field|..] == afterField;
  }

  lemma ScanOpIsPrefix(s: string)
    ensures ScanOp(s).Some? ==> StartsWith(s, OpText(ScanOp(s).value))
  {
  }

  lemma CutAtSpan(p: char -> bool, s: string)
    ensures s == s[..Span(p, s)] + s[Span(p, s)..] && All(p, s[..Span(p, s)])
  {
  }

  lemma TailOfParse(s: string) returns (gap: string, digits: string)
    requires ParseTail(s).Some?
    ensures s == OpText(ParseTail(s).value.0) + (gap + digits)
    ensures All(IsSpace, gap) && digits != [] && All(IsDigit, digits) && ParseTail(s).value.1 == Value(digits)
  {
    var op := ScanOp(s).value;
    ScanOpIsPrefix(s);
    var number := s[|OpText(op)|..];
    gap, digits := number[..Span(IsSpace, number)], SkipSpace(number);
    assert s == s[..|OpText(op)|] + number;
    CutAtSpan(IsSpace, number);
  }

  /** Soundness: whatever is parsed is accepted by the expression. */
  lemma MatchOfParse(s: string) returns (gap1: string, gap2: string, digits: string)
    requires Parse(s).Some?
    ensures Matches(s, Parse(s).value.field, gap1, Parse(s).value.op, gap2, digits)
    ensures Parse(s).value.value == Value(digits)
  {
    var f := Span(IsWord, s);
    var afterField := s[f..];
    var rest := SkipSpace(afterField);
    gap1 := afterField[..Span(IsSpace, afterField)];
    gap2, digits := TailOfParse(rest);
    CutAtSpan(IsWord, s);
    CutAtSpan(IsSpace, afterField);
    assert Parse(s).value == Criterion(s[..f], ParseTail(rest).value.0, ParseTail(rest).value.1);
  }

  /** A string parses exactly when the regular expression accepts it. */
  lemma ParsesIffMatches(s: string)
    ensures Parse(s).Some? <==> exists field, gap1, op, gap2, digits :: Matches(s, field, gap1, op, gap2, digits)
  {
    if Parse(s).Some? {
      var gap1, gap2, digits := MatchOfParse(s);
    } else if exists field, gap1, op, gap2, digits :: Matches(s, field, gap1, op, gap2, digits) {
      var field, gap1, op, gap2, digits :| Matches(s, field, gap1, op, gap2, digits);
      ParseOfMatch(s, field, gap1, op, gap2, digits);
    }
  }

  /** The groups are unique: backtracking cannot find a second reading. */
  lemma MatchIsUnique(s: string, field: string, gap1: string, op: Op, gap2: string, digits: string,
                      field': string, gap1': string, op': Op, gap2': string, digits': string)
    requires Matches(s, field, gap1, op, gap2, digits) && Matches(s, field', gap1', op', gap2', digits')
    ensures field == field' && op == op' && Value(digits) == Value(digits')
  {
    ParseOfMatch(s, field, gap1, op, gap2, digits);
    ParseOfMatch(s, field', gap1', op', gap2', digits');
  }

  // ---------------------------------------------------------------------------------------------
  // Printing and evaluating
  // ---------------------------------------------------------------------------------------------

  function Digits(n: nat): (s: string)
    ensures s != [] && forall i :: 0 <= i < |s| ==> IsDigit(s[i])
  {
    if n < 10 then [('0' as int + n) as char]
    else Digits(n / 10) + [('0' as int + n % 10) as char]
  }

  lemma {:induction false} ValueOfDigits(n: nat)
    ensures Value(Digits(n)) == n
  {
    if n < 10 {
      assert Digits(n)[..0] == [];
    } else {
      ValueOfDigits(n / 10);
      assert Digits(n)[..|Digits(n)| - 1] == Digits(n / 10);
    }
  }

  function Print(c: Criterion, gap1: string, gap2: string): string {
    c.field + (gap1 + (OpText(c.op) + (gap2 + Digits(c.value))))
  }

  /** Round trip: a printed criterion, with any white space, is parsed back and means the comparison it denotes. */
  lemma EvaluateOfPrint(c: Criterion, gap1: string, gap2: string, fields: map<string, int>)
    requires c.field != [] && All(IsWord, c.field) && All(IsSpace, gap1) && All(IsSpace, gap2)
    ensures Parse(Print(c, gap1, gap2)) == Some(c)
    ensures Evaluate(Print(c, gap1, gap2), fields) <==> c.field in fields && Compare(fields[c.field], c.op, c.value)
  {
    ValueOfDigits(c.value);
    ParseOfMatch(Print(c, gap1, gap2), c.field, gap1, c.op, gap2, Digits(c.value));
  }

  /** In particular each operator's text means what it says. */
  lemma OperatorsMean(field: string, gap1: string, gap2: string, n: nat, fields: map<string, int>)
    requires field != [] && All(IsWord, field) && All(IsSpace, gap1) && All(IsSpace, gap2)
    ensures
      var tail := gap2 + Digits(n);
      if field !in fields then
        forall op :: !Evaluate(field + (gap1 + (OpText(op) + tail)), fields)
      else
        && (Evaluate(field + (gap1 + (">=" + tail)), fields) <==> fields[field] >= n)
        && (Evaluate(field + (gap1 + (">" + tail)), fields) <==> fields[field] > n)
        && (Evaluate(field + (gap1 + ("<=" + tail)), fields) <==> fields[field] <= n)
        && (Evaluate(field + (gap1 + ("<" + tail)), fields) <==> fields[field] < n)
        && (Evaluate(field + (gap1 + ("==" + tail)), fields) <==> fields[field] == n)
        && (Evaluate(field + (gap1 + ("===" + tail)), fields) <==> fields[field] == n)
  {
    hide Evaluate, Parse, Digits;
    forall op ensures Evaluate(field + (gap1 + (OpText(op) + (gap2 + Digits(n)))), fields) <==>
        field in fields && Compare(fields[field], op, n)
    {
      EvaluateOfPrint(Criterion(field, op, n), gap1, gap2, fields);
    }
    assert OpText(Ge) == ">=" && OpText(Gt) == ">" && OpText(Le) == "<=" && OpText(Lt) == "<";
    assert OpText(Eq2) == "==" && OpText(Eq3) == "===";
  }

  /** Lower-bound criteria stay met while the field grows, so their badges are never regretted; of the six operators
      only these two have that property. */
  lemma StaysMetIffLowerBound(c: Criterion)
    ensures (c.op.Ge? || c.op.Gt?) <==>
      (forall x: int, y: int :: x <= y && Compare(x, c.op, c.value) ==> Compare(y, c.op, c.value))
  {
    if !(c.op.Ge? || c.op.Gt?) {
      var x := if c.op.Lt? then c.value - 1 else c.value;
      assert Compare(x, c.op, c.value) && !Compare(c.value + 1, c.op, c.value);
    }
  }
}

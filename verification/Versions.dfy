/**
  Python version constraints, from `src/python_requirement.rs`. The PEP 440
  library's specifiers and versions are predicates on a candidate's text.
*/
module Versions {
  import opened Options
  import opened Text
  import G = InlineGrammar

  // ----- Numbers and numeric versions -----

  const U64_LIMIT: nat := 0x1_0000_0000_0000_0000

  predicate IsDigit(c: char) {
    '0' <= c <= '9'
  }

  function DigitsValue(s: string): Option<nat> {
    if s == [] then Some(0)
    else
      var before := DigitsValue(s[..|s| - 1]);
      var last := s[|s| - 1];
      if before.None? || !IsDigit(last) then None else Some(before.value * 10 + (last as int - '0' as int))
  }

  /** Unsigned 64-bit numbers: an optional plus sign, and at least one digit. */
  function ParseNumber(s: string): Option<nat> {
    var digits := if s != [] && s[0] == '+' then s[1..] else s;
    if digits == [] then None
    else
      var value := DigitsValue(digits);
      if value.None? || value.value >= U64_LIMIT then None else value
  }

  function ParseNumbers(parts: seq<string>): Option<seq<nat>> {
    if parts == [] then Some([])
    else
      var first, rest := ParseNumber(parts[0]), ParseNumbers(parts[1..]);
      if first.None? || rest.None? then None else Some([first.value] + rest.value)
  }

  function ParseNumericVersion(s: string): Option<seq<nat>> {
    ParseNumbers(Split(s, '.'))
  }

  // ----- Constraints -----

  datatype Operator = Equal | NotEqual | LessThan | LessThanEqual | GreaterThan | GreaterThanEqual

  datatype Constraint = Constraint(
    operator: Operator,
    numeric: Option<seq<nat>>,
    specifier: Option<string -> bool>,
    exact: Option<string -> bool>,
    text: string)

  /** What the PEP 440 library parses: specifiers, those with a supported operator, and versions to compare with. */
  datatype Pep440 = Pep440(
    specifier: string -> Option<string -> bool>,
    supported: string -> bool,
    version: string -> Option<string -> bool>)

  function Prefix(operator: Operator): string {
    match operator
    case Equal => "=="
    case NotEqual => "!="
    case LessThan => "<"
    case LessThanEqual => "<="
    case GreaterThan => ">"
    case GreaterThanEqual => ">="
  }

  /** The operator, what follows it, and whether it is written. */
  function SplitOperator(s: string): (Operator, string, bool) {
    if ">=" <= s then (GreaterThanEqual, s[2..], true)
    else if "<=" <= s then (LessThanEqual, s[2..], true)
    else if "==" <= s then (Equal, s[2..], true)
    else if "!=" <= s then (NotEqual, s[2..], true)
    else if ">" <= s then (GreaterThan, s[1..], true)
    else if "<" <= s then (LessThan, s[1..], true)
    else (Equal, s, false)
  }

  /** Without any ".*" at the end. */
  function WithoutStars(s: string): string {
    if |s| >= 2 && s[|s| - 2..] == ".*" then WithoutStars(s[..|s| - 2]) else s
  }

  function Parse(p: Pep440, s: string): Constraint {
    var (operator, rest, written) := SplitOperator(s);
    var text := WithoutStars(G.Trim(rest));
    var numeric := ParseNumericVersion(text);
    Constraint(operator, numeric, if written then p.specifier(s) else None,
      if !written && numeric.None? then p.version(text) else None, text)
  }

  // ----- Matching -----

  /** The order of releases: the first difference decides. */
  predicate Less(a: seq<nat>, b: seq<nat>)
    requires |a| == |b|
  {
    a != [] && (a[0] < b[0] || (a[0] == b[0] && Less(a[1..], b[1..])))
  }

  function Padded(v: seq<nat>, n: nat): seq<nat> {
    if |v| < n then v + seq(n - |v|, _ => 0) else v
  }

  /** A candidate with the levels that a constraint leaves open set to zero. */
  function Truncated(c: seq<nat>, levels: nat): seq<nat>
    requires levels < 3 ==> |c| >= 3
  {
    var c2 := if levels < 3 then c[2 := 0] else c;
    if levels < 2 then c2[1 := 0] else c2
  }

  function Max(a: nat, b: nat): nat {
    if a < b then b else a
  }

  /** The two releases that are compared. */
  function Compared(v: seq<nat>, c: seq<nat>): (p: (seq<nat>, seq<nat>))
    requires |v| < 3 ==> |c| >= 3
    ensures |p.0| == |p.1| == Max(Max(|v|, 3), |c|) || (|p.0| == |p.1| == Max(|v|, |c|) && |v| >= 3)
  {
    var version := if |v| < 3 then Padded(v, 3) else v;
    var length := Max(|c|, |version|);
    (Padded(Truncated(c, |v|), length), Padded(version, length))
  }

  predicate Holds(operator: Operator, c: seq<nat>, v: seq<nat>)
    requires |c| == |v|
  {
    match operator
    case Equal => c == v
    case NotEqual => c != v
    case LessThan => Less(c, v)
    case LessThanEqual => !Less(v, c)
    case GreaterThan => Less(v, c)
    case GreaterThanEqual => !Less(c, v)
  }

  /** A numeric constraint on a numeric candidate. */
  predicate MatchesNumeric(operator: Operator, v: seq<nat>, c: seq<nat>)
    requires |v| < 3 ==> |c| >= 3
  {
    var (candidate, version) := Compared(v, c);
    Holds(operator, candidate, version)
  }

  /** What `matches` comes to: it indexes the third component of the candidate, or the second. */
  datatype Match = Panics | Matched(holds: bool)

  function NumericMatch(operator: Operator, v: seq<nat>, c: seq<nat>): Match {
    if |v| < 3 && |c| < 3 then Panics else Matched(MatchesNumeric(operator, v, c))
  }

  function Matches(p: Constraint, text: string): Match {
    var candidate := ParseNumericVersion(text);
    if candidate.None? && p.specifier.Some? then Matched(p.specifier.value(text))
    else if p.exact.Some? then Matched(p.exact.value(text))
    else if p.numeric.None? then Matched(if p.specifier.Some? then p.specifier.value(text) else text == p.text)
    else if candidate.None? then Matched(false)
    else NumericMatch(p.operator, p.numeric.value, candidate.value)
  }

  function Outcomes(p: Pep440, clauses: seq<string>, text: string): seq<Match> {
    seq(|clauses|, i requires 0 <= i < |clauses| => Matches(Parse(p, G.Trim(clauses[i])), text))
  }

  /** The first outcome other than a match decides. */
  function Conjunction(outcomes: seq<Match>): Match {
    if outcomes == [] then Matched(true)
    else if outcomes[0] == Matched(true) then Conjunction(outcomes[1..])
    else outcomes[0]
  }

  /** Whether a version matches all clauses, which are tried in order. */
  function MatchesAll(p: Pep440, clauses: seq<string>, text: string): Match {
    Conjunction(Outcomes(p, clauses, text))
  }

  // ----- The version check of R -----

  function Clauses(constraints: seq<string>): seq<string> {
    if constraints == [] then [] else Split(constraints[0], ',') + Clauses(constraints[1..])
  }

  /** Every clause is a version, or a specifier with a supported operator. */
  predicate IsValid(p: Pep440, constraint: string) {
    && constraint != ""
    && forall i :: 0 <= i < |Split(constraint, ',')| ==>
         var clause := G.Trim(Split(constraint, ',')[i]); p.version(clause).Some? || p.supported(clause)
  }

  /** Constraints that are not valid, and text that is no version, are refused before anything is matched. */
  predicate IsRefused(p: Pep440, constraints: seq<string>, text: string) {
    (exists i :: 0 <= i < |constraints| && !IsValid(p, constraints[i])) || p.version(text).None?
  }

  /** `mcp_console_python_version_matches`, where it does not refuse. */
  datatype Checked = Refused | Answered(outcome: Match)

  function CheckVersion(p: Pep440, constraints: seq<string>, text: string): Checked {
    if IsRefused(p, constraints, text) then Refused else Answered(MatchesAll(p, Clauses(constraints), text))
  }

  // ----- One total order -----

  lemma {:induction false} LessIsTotal(a: seq<nat>, b: seq<nat>)
    requires |a| == |b|
    ensures Less(a, b) || a == b || Less(b, a)
    ensures !(Less(a, b) && Less(b, a)) && !(a == b && Less(a, b))
  {
    if a != [] && a[0] == b[0] {
      LessIsTotal(a[1..], b[1..]);
      assert a == [a[0]] + a[1..] && b == [b[0]] + b[1..];
    }
  }

  lemma {:induction false} LessIsTransitive(a: seq<nat>, b: seq<nat>, c: seq<nat>)
    requires |a| == |b| == |c| && !Less(b, a) && Less(b, c)
    ensures Less(a, c)
  {
    LessIsTotal(a, b);
    if a != b && a[0] == b[0] == c[0] {
      LessIsTotal(a[1..], b[1..]);
      LessIsTransitive(a[1..], b[1..], c[1..]);
    }
  }

  lemma ThreeParts(a: seq<nat>, b: seq<nat>)
    requires |a| == |b| == 3
    ensures Less(a, b) <==> a[0] < b[0] || (a[0] == b[0] && (a[1] < b[1] || (a[1] == b[1] && a[2] < b[2])))
  {
    assert a[1..][1..] == [a[2]] && b[1..][1..] == [b[2]];
    assert Less([a[2]], [b[2]]) <==> a[2] < b[2];
  }

  /** Truncating and padding keep the order of releases, if nothing is truncated in front of further components. */
  lemma ComparedIsMonotone(v: seq<nat>, c: seq<nat>, d: seq<nat>)
    requires |c| == |d| && !Less(d, c) && (|c| == 3 || |v| >= 3)
    ensures var (c1, v1) := Compared(v, c); var (d1, w1) := Compared(v, d);
      |c1| == |d1| && w1 == v1 && !Less(d1, c1)
  {
    var c0, d0 := Truncated(c, |v|), Truncated(d, |v|);
    if |c| == 3 {
      ThreeParts(d, c);
      ThreeParts(d0, c0);
    }
    PaddedKeepsOrder(d0, c0, Max(|c|, if |v| < 3 then 3 else |v|));
  }

  ghost predicate KeepsOrder(v: seq<nat>, c: seq<nat>, d: seq<nat>)
    requires |v| < 3 ==> |c| >= 3 && |d| >= 3
    requires |c| == |d|
  {
    !Less(d, c) ==> !Less(Compared(v, d).0, Compared(v, c).0)
  }

  /** Zeroing the third component reverses the order of two releases that differ in the third and the fourth. */
  lemma Reversed(v: seq<nat>, n: nat) returns (c: seq<nat>, d: seq<nat>)
    requires |v| < 3 && n > 3
    ensures |c| == |d| == n && !KeepsOrder(v, c, d)
  {
    var zeros := seq(n - 4, _ => 0);
    c, d := [0, 0, 0, 1] + zeros, [0, 0, 1, 0] + zeros;
    FirstDiffers(c, d, 2);
    var c1, d1 := Compared(v, c).0, Compared(v, d).0;
    FirstDiffers(d1, c1, 3);
    LessIsTotal(c, d);
  }

  lemma {:induction false} FirstDiffers(a: seq<nat>, b: seq<nat>, k: nat)
    requires |a| == |b| && k < |a| && a[k] < b[k] && forall j :: 0 <= j < k ==> a[j] == b[j]
    ensures Less(a, b)
  {
    if k > 0 {
      FirstDiffers(a[1..], b[1..], k - 1);
    }
  }

  /**
    The exact condition: comparing with a constraint keeps the order of all
    releases of `n` components if and only if it has three levels or they have
    three components.
  */
  lemma OrderKeptExactlyFor(v: seq<nat>, n: nat)
    requires |v| < 3 ==> n >= 3
    ensures (forall c, d | |c| == |d| == n :: KeepsOrder(v, c, d)) <==> n == 3 || |v| >= 3
  {
    if n == 3 || |v| >= 3 {
      forall c, d | |c| == |d| == n
        ensures KeepsOrder(v, c, d)
      {
        if !Less(d, c) {
          ComparedIsMonotone(v, c, d);
        }
      }
    } else {
      var c, d := Reversed(v, n);
    }
  }

  lemma {:induction false} PaddedKeepsOrder(a: seq<nat>, b: seq<nat>, n: nat)
    requires |a| == |b|
    ensures |Padded(a, n)| == |Padded(b, n)|
    ensures Less(Padded(a, n), Padded(b, n)) <==> Less(a, b)
  {
    if a == [] {
      LessIsTotal(Padded(a, n), Padded(a, n));
      assert a == b;
    } else if |a| < n {
      PaddedKeepsOrder(a[1..], b[1..], n - 1);
      assert Padded(a, n)[1..] == Padded(a[1..], n - 1);
      assert Padded(b, n)[1..] == Padded(b[1..], n - 1);
    }
  }

  /** The six operators come from one total order: one of <, ==, > holds, and the others are their complements. */
  lemma OperatorsPartition(v: seq<nat>, c: seq<nat>)
    requires |v| < 3 ==> |c| >= 3
    ensures var less, equal, greater :=
        MatchesNumeric(LessThan, v, c), MatchesNumeric(Equal, v, c), MatchesNumeric(GreaterThan, v, c);
      && (less || equal || greater) && !(less && equal) && !(less && greater) && !(equal && greater)
      && (MatchesNumeric(NotEqual, v, c) <==> !equal)
      && (MatchesNumeric(LessThanEqual, v, c) <==> less || equal)
      && (MatchesNumeric(GreaterThanEqual, v, c) <==> greater || equal)
  {
    var (candidate, version) := Compared(v, c);
    LessIsTotal(candidate, version);
  }

  lemma ClosedOrder(a: seq<nat>, b: seq<nat>, v: seq<nat>)
    requires |a| == |b| == |v| && !Less(b, a)
    ensures Less(b, v) ==> Less(a, v)
    ensures Less(v, a) ==> Less(v, b)
  {
    if Less(b, v) {
      LessIsTransitive(a, b, v);
    }
    if Less(v, a) && !Less(v, b) {
      LessIsTransitive(b, v, a);
    }
  }

  /** What is matched from below stays matched above, and the other way round. */
  lemma OperatorsAreClosed(v: seq<nat>, c: seq<nat>, d: seq<nat>)
    requires |c| == |d| && !Less(d, c) && (|c| == 3 || |v| >= 3)
    ensures MatchesNumeric(GreaterThanEqual, v, c) ==> MatchesNumeric(GreaterThanEqual, v, d)
    ensures MatchesNumeric(GreaterThan, v, c) ==> MatchesNumeric(GreaterThan, v, d)
    ensures MatchesNumeric(LessThanEqual, v, d) ==> MatchesNumeric(LessThanEqual, v, c)
    ensures MatchesNumeric(LessThan, v, d) ==> MatchesNumeric(LessThan, v, c)
  {
    ComparedIsMonotone(v, c, d);
    ClosedOrder(Compared(v, c).0, Compared(v, d).0, Compared(v, c).1);
  }

  function Component(v: seq<nat>, k: nat): nat {
    if k < |v| then v[k] else 0
  }

  /** Equality asks for the same components, but not for those of the first three that the constraint leaves open. */
  lemma EqualMatches(v: seq<nat>, c: seq<nat>)
    requires v != [] && (|v| < 3 ==> |c| >= 3)
    ensures MatchesNumeric(Equal, v, c)
      <==> forall k :: 0 <= k < Max(|v|, |c|) ==> Component(c, k) == Component(v, k) || |v| <= k < 3
  {
    var (candidate, version) := Compared(v, c);
    assert forall k :: 0 <= k < |version| ==> version[k] == Component(v, k);
    assert forall k :: 0 <= k < |version| ==> candidate[k] == if |v| <= k < 3 then 0 else Component(c, k);
  }

  /** For releases of three components these are the ones with the constraint as their prefix. */
  lemma EqualMatchesPrefix(v: seq<nat>, c: seq<nat>)
    requires |c| == 3 && 1 <= |v| <= 3
    ensures MatchesNumeric(Equal, v, c) <==> v <= c
  {
    EqualMatches(v, c);
    assert v <= c <==> forall k :: 0 <= k < |v| ==> Component(c, k) == Component(v, k);
  }

  // ----- Written constraints -----

  function ShowNumber(n: nat): string {
    if n < 10 then [DigitOf(n)] else ShowNumber(n / 10) + [DigitOf(n % 10)]
  }

  function DigitOf(n: nat): char
    requires n < 10
  {
    ('0' as int + n) as char
  }

  function ShowNumbers(v: seq<nat>): seq<string> {
    if v == [] then [] else [ShowNumber(v[0])] + ShowNumbers(v[1..])
  }

  function Stars(n: nat): string {
    if n == 0 then "" else Stars(n - 1) + ".*"
  }

  predicate Digits(s: string) {
    s != [] && forall i :: 0 <= i < |s| ==> IsDigit(s[i])
  }

  lemma {:induction false} NumberIsShown(n: nat)
    ensures Digits(ShowNumber(n)) && DigitsValue(ShowNumber(n)) == Some(n)
  {
    if n < 10 {
      assert [DigitOf(n)][..0] == [];
      assert DigitsValue([]) == Some(0);
    } else {
      NumberIsShown(n / 10);
      var s := ShowNumber(n / 10) + [DigitOf(n % 10)];
      assert s[..|s| - 1] == ShowNumber(n / 10);
    }
  }

  lemma {:induction false} NumbersAreShown(v: seq<nat>)
    requires forall i :: 0 <= i < |v| ==> v[i] < U64_LIMIT
    ensures |ShowNumbers(v)| == |v| && forall i :: 0 <= i < |v| ==> Digits(ShowNumbers(v)[i])
    ensures ParseNumbers(ShowNumbers(v)) == Some(v)
  {
    if v != [] {
      NumberIsShown(v[0]);
      NumbersAreShown(v[1..]);
      assert v == [v[0]] + v[1..];
    }
  }

  lemma {:induction false} JoinedEnds(parts: seq<string>)
    requires parts != [] && forall i :: 0 <= i < |parts| ==> Digits(parts[i])
    ensures var s := Join(parts, '.');
      s != [] && IsDigit(s[0]) && IsDigit(s[|s| - 1])
  {
    if |parts| > 1 {
      JoinedEnds(parts[1..]);
    }
  }

  lemma {:induction false} StarsGo(s: string, n: nat)
    requires s != [] && IsDigit(s[|s| - 1])
    ensures WithoutStars(s + Stars(n)) == s
  {
    if n == 0 {
      assert s + Stars(0) == s;
      assert |s| >= 2 ==> s[|s| - 2..][1] == s[|s| - 1] != ".*"[1];
    } else {
      StarsGo(s, n - 1);
      LastStar(s + Stars(n - 1));
      assert s + Stars(n) == (s + Stars(n - 1)) + ".*";
    }
  }

  lemma LastStar(s: string)
    ensures var t := s + ".*"; t[|t| - 2..] == ".*" && t[..|t| - 2] == s
  {
  }

  lemma StarsEnd(s: string, n: nat)
    requires s != [] && IsDigit(s[|s| - 1])
    ensures var t := s + Stars(n); t[0] == s[0] && !G.IsSpace(t[|t| - 1])
  {
    if n > 0 {
      assert Stars(n)[|Stars(n)| - 1] == '*';
    }
  }

  lemma OperatorIsShown(operator: Operator, rest: string)
    requires rest != [] && (IsDigit(rest[0]) || G.IsSpace(rest[0]))
    ensures SplitOperator(Prefix(operator) + rest) == (operator, rest, true)
  {
    var s := Prefix(operator) + rest;
    assert s[|Prefix(operator)|..] == rest;
    assert s[1] == if |Prefix(operator)| == 1 then rest[0] else '=';
  }

  lemma VersionIsShown(v: seq<nat>)
    requires v != [] && forall i :: 0 <= i < |v| ==> v[i] < U64_LIMIT
    ensures ParseNumericVersion(ShowVersion(v)) == Some(v)
    ensures IsDigit(ShowVersion(v)[0]) && IsDigit(ShowVersion(v)[|ShowVersion(v)| - 1])
  {
    NumbersAreShown(v);
    var parts := ShowNumbers(v);
    JoinedEnds(parts);
    forall i | 0 <= i < |parts|
      ensures '.' !in parts[i]
    {
      assert Digits(parts[i]);
    }
    SplitJoins(parts, '.');
  }

  function ShowVersion(v: seq<nat>): (s: string)
    requires v != []
    ensures s != []
  {
    NumbersAreNotEmpty(v);
    Join(ShowNumbers(v), '.')
  }

  lemma {:induction false} NumbersAreNotEmpty(v: seq<nat>)
    requires v != []
    ensures ShowNumbers(v) != [] && Join(ShowNumbers(v), '.') != []
  {
    assert ShowNumber(v[0]) != [];
    if |v| > 1 {
      NumbersAreNotEmpty(v[1..]);
    }
  }

  /** A constraint as it is written: an operator or none, spaces, components, and any number of ".*". */
  function Written(operator: Option<Operator>, lead: string, v: seq<nat>, stars: nat, tail: string): string
    requires v != []
  {
    (if operator.Some? then Prefix(operator.value) else "") + (lead + (ShowVersion(v) + Stars(stars)) + tail)
  }

  predicate Sized(v: seq<nat>) {
    v != [] && forall i :: 0 <= i < |v| ==> v[i] < U64_LIMIT
  }

  lemma NoOperatorIsShown(rest: string)
    requires rest != [] && (IsDigit(rest[0]) || G.IsSpace(rest[0]))
    ensures SplitOperator(rest) == (Equal, rest, false)
  {
    assert rest[0] !in "<>=!";
  }

  lemma WrittenSplits(operator: Option<Operator>, lead: string, v: seq<nat>, stars: nat, tail: string)
    requires Sized(v) && G.Spaces(lead) && G.Spaces(tail)
    ensures var rest := lead + (ShowVersion(v) + Stars(stars)) + tail;
      && SplitOperator(Written(operator, lead, v, stars, tail))
         == (if operator.Some? then operator.value else Equal, rest, operator.Some?)
      && WithoutStars(G.Trim(rest)) == ShowVersion(v)
  {
    VersionIsShown(v);
    var body := ShowVersion(v);
    StarsGo(body, stars);
    StarsEnd(body, stars);
    var shown := body + Stars(stars);
    var rest := lead + shown + tail;
    assert rest[0] == if lead == [] then body[0] else lead[0];
    if operator.Some? {
      OperatorIsShown(operator.value, rest);
    } else {
      assert "" + rest == rest;
      NoOperatorIsShown(rest);
    }
    G.TrimSkips(lead, shown, tail);
  }

  /** The numeric reading of a written constraint; without an operator it asks for equality. */
  lemma WrittenIsParsed(p: Pep440, operator: Option<Operator>, lead: string, v: seq<nat>, stars: nat, tail: string)
    requires Sized(v) && G.Spaces(lead) && G.Spaces(tail)
    ensures var c := Parse(p, Written(operator, lead, v, stars, tail));
      && c.operator == (if operator.Some? then operator.value else Equal)
      && c.numeric == Some(v) && c.exact.None? && (operator.None? ==> c.specifier.None?)
  {
    WrittenSplits(operator, lead, v, stars, tail);
    VersionIsShown(v);
  }

  /**
    From text to text: a written constraint on a written release compares the
    numbers, and panics exactly when both have fewer than three.
  */
  lemma WrittenMatches(p: Pep440, operator: Option<Operator>, lead: string, v: seq<nat>, stars: nat, tail: string,
                       c: seq<nat>)
    requires Sized(v) && Sized(c) && G.Spaces(lead) && G.Spaces(tail)
    ensures ParseNumericVersion(ShowVersion(c)) == Some(c)
    ensures Matches(Parse(p, Written(operator, lead, v, stars, tail)), ShowVersion(c))
      == NumericMatch(if operator.Some? then operator.value else Equal, v, c)
  {
    WrittenIsParsed(p, operator, lead, v, stars, tail);
    VersionIsShown(c);
  }

  /** Both are numeric and have fewer than three components. */
  predicate BothShort(constraint: string, text: string) {
    var v, c := ParseNumericVersion(WithoutStars(G.Trim(SplitOperator(constraint).1))), ParseNumericVersion(text);
    v.Some? && c.Some? && |v.value| < 3 && |c.value| < 3
  }

  lemma PanicsOnShort(p: Pep440, constraint: string, text: string)
    ensures Matches(Parse(p, constraint), text).Panics? <==> BothShort(constraint, text)
  {
  }

  lemma {:induction false} FirstDecides(outcomes: seq<Match>)
    ensures Conjunction(outcomes).Panics?
      <==> exists i :: 0 <= i < |outcomes| && outcomes[i].Panics? && forall j :: 0 <= j < i ==> outcomes[j] == Matched(true)
    ensures Conjunction(outcomes) == Matched(true) <==> forall i :: 0 <= i < |outcomes| ==> outcomes[i] == Matched(true)
  {
    if outcomes != [] {
      var rest := outcomes[1..];
      FirstDecides(rest);
      assert forall i :: 0 < i < |outcomes| ==> outcomes[i] == rest[i - 1];
      if outcomes[0] == Matched(true) && Conjunction(rest).Panics? {
        var i :| 0 <= i < |rest| && rest[i].Panics? && forall j :: 0 <= j < i ==> rest[j] == Matched(true);
        assert outcomes[i + 1].Panics?;
      }
      if i :| 0 <= i < |outcomes| && outcomes[i].Panics? && forall j :: 0 <= j < i ==> outcomes[j] == Matched(true) {
        assert i > 0 ==> rest[i - 1].Panics?;
      }
    }
  }

  /** The clauses before it match, and this one and the version are short numbers. */
  predicate StopsAtShort(p: Pep440, clauses: seq<string>, text: string, i: nat) {
    && i < |clauses| && BothShort(G.Trim(clauses[i]), text)
    && forall j :: 0 <= j < i ==> Outcomes(p, clauses, text)[j] == Matched(true)
  }

  ghost predicate SomeStopsAtShort(p: Pep440, clauses: seq<string>, text: string) {
    exists i: nat :: StopsAtShort(p, clauses, text, i)
  }

  lemma ClausesPanicOnShort(p: Pep440, clauses: seq<string>, text: string)
    ensures MatchesAll(p, clauses, text).Panics? <==> SomeStopsAtShort(p, clauses, text)
  {
    var outcomes := Outcomes(p, clauses, text);
    FirstDecides(outcomes);
    forall i | 0 <= i < |clauses|
      ensures outcomes[i].Panics? <==> BothShort(G.Trim(clauses[i]), text)
    {
      PanicsOnShort(p, G.Trim(clauses[i]), text);
    }
    if MatchesAll(p, clauses, text).Panics? {
      var i: nat :| i < |outcomes| && outcomes[i].Panics? && forall j :: 0 <= j < i ==> outcomes[j] == Matched(true);
      assert StopsAtShort(p, clauses, text, i);
    }
    forall i: nat | StopsAtShort(p, clauses, text, i)
      ensures outcomes[i].Panics? && forall j :: 0 <= j < i ==> outcomes[j] == Matched(true)
    {
    }
  }

  /**
    The exact condition for any texts: the version check panics if and only if it
    refuses neither, the version is a short number, and so is the first clause
    that it does not match.
  */
  lemma PanicsExactlyOnShort(p: Pep440, constraints: seq<string>, text: string)
    ensures CheckVersion(p, constraints, text) == Answered(Panics)
      <==> !IsRefused(p, constraints, text) && SomeStopsAtShort(p, Clauses(constraints), text)
  {
    ClausesPanicOnShort(p, Clauses(constraints), text);
  }

  lemma ShownExamples()
    ensures ShowVersion([3, 12]) == "3.12" && ShowVersion([3, 11]) == "3.11"
  {
    assert ShowNumber(11) == ShowNumber(1) + "1" && ShowNumber(12) == ShowNumber(1) + "2";
    assert ShowNumbers([11]) == [ShowNumber(11)] && ShowNumbers([12]) == [ShowNumber(12)];
    assert [3, 11][1..] == [11] && [3, 12][1..] == [12];
  }

  lemma OneClause(p: Pep440, constraint: string, text: string)
    requires constraint != "" && ',' !in constraint && G.Trim(constraint) == constraint
    requires p.version(text).Some? && p.supported(constraint)
    ensures CheckVersion(p, [constraint], text) == Answered(Matches(Parse(p, constraint), text))
  {
    assert IndexOf(constraint, ',', 0) == |constraint| && Split(constraint, ',') == [constraint];
    assert [constraint][1..] == [] && Clauses([]) == [];
    assert Clauses([constraint]) == [constraint];
    assert IsValid(p, constraint);
    var outcomes := Outcomes(p, [constraint], text);
    assert outcomes == [Matches(Parse(p, constraint), text)];
    assert Conjunction(outcomes[1..]) == Matched(true);
  }

  lemma ShortMatchPanics(p: Pep440, clause: string)
    requires clause == ">=3.11"
    ensures Matches(Parse(p, clause), "3.12") == Panics
  {
    ShownExamples();
    var operator := Some(GreaterThanEqual);
    assert Written(operator, "", [3, 11], 0, "") == ">=" + ("" + ("3.11" + "") + "") == clause;
    WrittenMatches(p, operator, "", [3, 11], 0, "", [3, 12]);
  }

  /** Text without space around it is its own trimmed form. */
  lemma TrimNothing(s: string)
    requires s != [] && G.Visible(s) && G.EndsVisible(s)
    ensures G.Trim(s) == s
  {
    G.TrimText(s, []);
    assert s + [] == s;
  }

  /** The input that shows it: a release of two components against a constraint of two. */
  lemma ShortReleasePanics(p: Pep440, clause: string)
    requires clause == ">=3.11" && p.version("3.12").Some? && p.supported(clause)
    ensures CheckVersion(p, [clause], "3.12") == Answered(Panics)
  {
    ShortMatchPanics(p, clause);
    TrimNothing(clause);
    OneClause(p, clause, "3.12");
  }

  // ----- The code: two vectors, zeroed and padded in place -----

  method MatchNumeric(operator: Operator, specified: seq<nat>, release: seq<nat>) returns (outcome: Match)
    ensures outcome == NumericMatch(operator, specified, release)
  {
    var candidate, version := release, specified;
    var levels := |version|;
    if levels < 3 {
      version := Padded(version, 3);
      if |candidate| <= 2 {
        return Panics;
      }
      candidate := candidate[2 := 0];
    }
    if levels < 2 {
      candidate := candidate[1 := 0];
    }
    var length := Max(|candidate|, |version|);
    candidate := Padded(candidate, length);
    version := Padded(version, length);
    var order := Compare(candidate, version);
    LessIsTotal(candidate, version);
    match operator {
      case Equal => outcome := Matched(order == 0);
      case NotEqual => outcome := Matched(order != 0);
      case LessThan => outcome := Matched(order == -1);
      case LessThanEqual => outcome := Matched(order != 1);
      case GreaterThan => outcome := Matched(order == 1);
      case GreaterThanEqual => outcome := Matched(order != -1);
    }
  }

  /** The comparison of two vectors: -1, 0 or 1. */
  method Compare(a: seq<nat>, b: seq<nat>) returns (order: int)
    requires |a| == |b|
    ensures order == if Less(a, b) then -1 else if a == b then 0 else 1
  {
    for i := 0 to |a|
      invariant forall j :: 0 <= j < i ==> a[j] == b[j]
      invariant Less(a, b) <==> Less(a[i..], b[i..])
    {
      if a[i] != b[i] {
        return if a[i] < b[i] then -1 else 1;
      }
      assert a[i..][1..] == a[i + 1..] && b[i..][1..] == b[i + 1..];
    }
    assert a == b;
    return 0;
  }
}

/**
  The version check from its texts: how a clause reads, what each kind of clause
  makes of a version, and that every clause of every constraint has its say.
*/
module VersionClauses {
  import opened Options
  import opened Text
  import opened Versions
  import G = InlineGrammar

  // ----- Numbers -----

  function Zeros(n: nat): string {
    if n == 0 then "" else "0" + Zeros(n - 1)
  }

  lemma {:induction false} ZerosEnd(n: nat)
    ensures Zeros(n) + "0" == "0" + Zeros(n)
  {
    if n > 0 {
      ZerosEnd(n - 1);
      assert Zeros(n) + "0" == "0" + (Zeros(n - 1) + "0");
    }
  }

  /** Digits are some zeros in front of a number, and mean that number. */
  lemma {:induction false} DigitsAreShown(s: string) returns (zeros: nat, n: nat)
    requires Digits(s)
    ensures s == Zeros(zeros) + ShowNumber(n) && DigitsValue(s) == Some(n)
  {
    var before, last := s[..|s| - 1], s[|s| - 1];
    var d: nat := last as int - '0' as int;
    assert s == before + [last] && DigitOf(d) == last;
    if before == [] {
      zeros, n := 0, d;
      assert DigitsValue([]) == Some(0);
    } else {
      var z, m := DigitsAreShown(before);
      n := m * 10 + d;
      if m == 0 {
        zeros := z + 1;
        ZerosEnd(z);
        assert ShowNumber(0) == "0" && before == Zeros(zeros);
      } else {
        zeros := z;
        Associative(Zeros(z), ShowNumber(m), [last]);
        assert ShowNumber(n) == ShowNumber(m) + [last];
      }
    }
  }

  lemma {:induction false} OtherDigits(s: string)
    ensures DigitsValue(s).Some? <==> forall i :: 0 <= i < |s| ==> '0' <= s[i] <= '9'
  {
    if s != [] {
      OtherDigits(s[..|s| - 1]);
      assert forall i :: 0 <= i < |s| - 1 ==> s[i] == s[..|s| - 1][i];
    }
  }

  /** A part of a version is digits after an optional plus sign, and its number fits into 64 bits. */
  lemma NumberReads(s: string)
    ensures var digits := if s != [] && s[0] == '+' then s[1..] else s;
      && (ParseNumber(s).Some? <==>
            && digits != [] && (forall i :: 0 <= i < |digits| ==> '0' <= digits[i] <= '9')
            && exists zeros: nat, n: nat :: digits == Zeros(zeros) + ShowNumber(n) && n < 0x1_0000_0000_0000_0000)
      && (ParseNumber(s).Some? ==> exists zeros: nat :: digits == Zeros(zeros) + ShowNumber(ParseNumber(s).value))
  {
    var digits := if s != [] && s[0] == '+' then s[1..] else s;
    OtherDigits(digits);
    if Digits(digits) {
      var zeros, n := DigitsAreShown(digits);
      forall z: nat, m: nat | digits == Zeros(z) + ShowNumber(m)
        ensures m == n
      {
        ZerosValue(z, m);
      }
    }
  }

  lemma Associative(a: string, b: string, c: string)
    ensures (a + b) + c == a + (b + c)
  {
  }

  lemma {:induction false} ZerosValue(zeros: nat, n: nat)
    ensures DigitsValue(Zeros(zeros) + ShowNumber(n)) == Some(n)
  {
    var shown := ShowNumber(n);
    if zeros == 0 {
      assert Zeros(0) + shown == shown;
      NumberIsShown(n);
    } else {
      var rest := Zeros(zeros - 1) + shown;
      ZerosValue(zeros - 1, n);
      Associative("0", Zeros(zeros - 1), shown);
      ZeroFirst(rest);
    }
  }

  lemma {:induction false} ZeroFirst(s: string)
    ensures DigitsValue("0" + s) == DigitsValue(s)
  {
    if s == [] {
      assert "0" + s == "0" && "0"[..0] == [];
    } else {
      assert ("0" + s)[..|s|] == "0" + s[..|s| - 1];
      ZeroFirst(s[..|s| - 1]);
    }
  }

  lemma {:induction false} NumbersRead(parts: seq<string>)
    ensures ParseNumbers(parts).Some? <==> forall i :: 0 <= i < |parts| ==> ParseNumber(parts[i]).Some?
    ensures ParseNumbers(parts).Some? ==>
      && |ParseNumbers(parts).value| == |parts|
      && forall i :: 0 <= i < |parts| ==> ParseNumber(parts[i]) == Some(ParseNumbers(parts).value[i])
  {
    if parts != [] {
      NumbersRead(parts[1..]);
    }
  }

  // ----- A clause -----

  /** All ".*" at the end are dropped, and nothing else. */
  lemma {:induction false} StarsAreDropped(s: string) returns (n: nat)
    ensures s == WithoutStars(s) + Stars(n)
    ensures var t := WithoutStars(s); |t| < 2 || t[|t| - 2..] != ".*"
  {
    if |s| >= 2 && s[|s| - 2..] == ".*" {
      var before := s[..|s| - 2];
      var m := StarsAreDropped(before);
      n := m + 1;
      assert s == before + ".*";
      Associative(WithoutStars(before), Stars(m), ".*");
    } else {
      n := 0;
      assert s == s + "";
    }
  }

  /** A clause begins with a two-character operator, with "<" or ">" before something other than "=", or with none. */
  lemma BeginsWith(q: string, s: string)
    requires 1 <= |q| <= 2
    ensures q <= s <==> |q| <= |s| && s[0] == q[0] && (|q| == 2 ==> s[1] == q[1])
  {
    if |q| <= |s| && s[0] == q[0] && (|q| == 2 ==> s[1] == q[1]) {
      assert s[..|q|] == q;
    }
  }

  lemma OperatorReads(operator: Operator, rest: string)
    requires operator == LessThan || operator == GreaterThan ==> rest == [] || rest[0] != '='
    ensures SplitOperator(Prefix(operator) + rest) == (operator, rest, true)
  {
    var q, s := Prefix(operator), Prefix(operator) + rest;
    assert s[|q|..] == rest && s[0] == q[0];
    assert |s| >= 2 ==> s[1] == if |q| == 2 then q[1] else rest[0];
    BeginsWith(">=", s);
    BeginsWith("<=", s);
    BeginsWith("==", s);
    BeginsWith("!=", s);
    BeginsWith(">", s);
    BeginsWith("<", s);
  }

  lemma NoOperatorReads(s: string)
    requires s == [] || (s[0] != '<' && s[0] != '>' && ((s[0] == '=' || s[0] == '!') && |s| >= 2 ==> s[1] != '='))
    ensures SplitOperator(s) == (Equal, s, false)
  {
  }

  /**
    A clause with an operator asks the specifier that it is, unless both sides are
    numeric; one that is no specifier never matches a version that is not numeric,
    except its own text.
  */
  lemma OperatorClauseDecides(p: Pep440, clause: string, text: string)
    requires SplitOperator(clause).2
    ensures var body := WithoutStars(G.Trim(SplitOperator(clause).1));
      var asked, given := ParseNumericVersion(body), ParseNumericVersion(text);
      var specifier := p.specifier(clause);
      && (asked.Some? && given.Some? ==>
            Matches(Parse(p, clause), text) == NumericMatch(SplitOperator(clause).0, asked.value, given.value))
      && ((asked.None? || given.None?) && specifier.Some? ==>
            Matches(Parse(p, clause), text) == Matched(specifier.value(text)))
      && (asked.Some? && given.None? && specifier.None? ==> Matches(Parse(p, clause), text) == Matched(false))
      && (asked.None? && specifier.None? ==> Matches(Parse(p, clause), text) == Matched(text == body))
  {
  }

  /** A clause without an operator asks for that version: by its numbers, or as the library compares it, or by its text. */
  lemma PlainClauseDecides(p: Pep440, clause: string, text: string)
    requires !SplitOperator(clause).2
    ensures var body := WithoutStars(G.Trim(clause));
      var asked, given := ParseNumericVersion(body), ParseNumericVersion(text);
      && (asked.Some? && given.Some? ==>
            Matches(Parse(p, clause), text) == NumericMatch(Equal, asked.value, given.value))
      && (asked.Some? && given.None? ==> Matches(Parse(p, clause), text) == Matched(false))
      && (asked.None? && p.version(body).Some? ==>
            Matches(Parse(p, clause), text) == Matched(p.version(body).value(text)))
      && (asked.None? && p.version(body).None? ==> Matches(Parse(p, clause), text) == Matched(text == body))
  {
    assert SplitOperator(clause).0 == Equal && SplitOperator(clause).1 == clause;
  }

  // ----- All clauses -----

  /** The clauses of one constraint are its parts between commas, and all constraints contribute theirs, in order. */
  lemma {:induction false} ClausesAre(before: seq<string>, after: seq<string>, constraint: string)
    ensures Clauses([]) == [] && Clauses([constraint]) == Split(constraint, ',')
    ensures Clauses(before + after) == Clauses(before) + Clauses(after)
  {
    assert [constraint][1..] == [] && Split(constraint, ',') + [] == Split(constraint, ',');
    if before == [] {
      assert before + after == after;
    } else {
      ClausesAre(before[1..], after, constraint);
      assert (before + after)[1..] == before[1..] + after;
    }
  }

  predicate Accepts(p: Pep440, clause: string, text: string) {
    Matches(Parse(p, G.Trim(clause)), text) == Matched(true)
  }

  predicate AcceptsAll(p: Pep440, clauses: seq<string>, text: string) {
    forall i :: 0 <= i < |clauses| ==> Accepts(p, clauses[i], text)
  }

  lemma AllMatch(p: Pep440, clauses: seq<string>, text: string)
    ensures MatchesAll(p, clauses, text) == Matched(true) <==> AcceptsAll(p, clauses, text)
  {
    var outcomes := Outcomes(p, clauses, text);
    FirstDecides(outcomes);
    assert forall i :: 0 <= i < |clauses| ==> (outcomes[i] == Matched(true) <==> Accepts(p, clauses[i], text));
  }

  lemma AcceptsBoth(p: Pep440, before: seq<string>, after: seq<string>, text: string)
    ensures AcceptsAll(p, before + after, text) <==> AcceptsAll(p, before, text) && AcceptsAll(p, after, text)
  {
    var all := before + after;
    assert forall i :: 0 <= i < |before| ==> all[i] == before[i];
    assert forall i :: 0 <= i < |after| ==> all[|before| + i] == after[i];
  }

  lemma {:induction false} EveryClause(p: Pep440, constraints: seq<string>, text: string)
    ensures AcceptsAll(p, Clauses(constraints), text)
      <==> forall i :: 0 <= i < |constraints| ==> AcceptsAll(p, Split(constraints[i], ','), text)
  {
    if constraints != [] {
      var rest := constraints[1..];
      EveryClause(p, rest, text);
      AcceptsBoth(p, Split(constraints[0], ','), Clauses(rest), text);
      assert forall i :: 1 <= i < |constraints| ==> constraints[i] == rest[i - 1];
      assert forall i :: 0 <= i < |rest| ==> rest[i] == constraints[i + 1];
    }
  }

  /** Whether a constraint is one that the check takes, and all of its clauses match. */
  lemma ConstraintMeans(p: Pep440, constraint: string, text: string)
    ensures IsValid(p, constraint) && AcceptsAll(p, Split(constraint, ','), text) <==>
      && constraint != ""
      && forall clause :: clause in Split(constraint, ',') ==>
           && (p.version(G.Trim(clause)).Some? || p.supported(G.Trim(clause)))
           && Matches(Parse(p, G.Trim(clause)), text) == Matched(true)
  {
    var clauses := Split(constraint, ',');
    assert forall clause :: clause in clauses <==> exists k :: 0 <= k < |clauses| && clauses[k] == clause;
    assert forall clause :: Accepts(p, clause, text) <==> Matches(Parse(p, G.Trim(clause)), text) == Matched(true);
  }

  /**
    A version is accepted if and only if the library parses it, no constraint is
    empty, each of their clauses is a version or a supported specifier, and each
    matches.
  */
  lemma AcceptsExactlyWhen(p: Pep440, constraints: seq<string>, text: string)
    ensures CheckVersion(p, constraints, text) == Answered(Matched(true)) <==>
      && p.version(text).Some?
      && forall i :: 0 <= i < |constraints| ==>
           && constraints[i] != ""
           && forall clause :: clause in Split(constraints[i], ',') ==>
                && (p.version(G.Trim(clause)).Some? || p.supported(G.Trim(clause)))
                && Matches(Parse(p, G.Trim(clause)), text) == Matched(true)
  {
    AllMatch(p, Clauses(constraints), text);
    EveryClause(p, constraints, text);
    forall i | 0 <= i < |constraints|
      ensures IsValid(p, constraints[i]) && AcceptsAll(p, Split(constraints[i], ','), text) <==>
        && constraints[i] != ""
        && forall clause :: clause in Split(constraints[i], ',') ==>
             && (p.version(G.Trim(clause)).Some? || p.supported(G.Trim(clause)))
             && Matches(Parse(p, G.Trim(clause)), text) == Matched(true)
    {
      ConstraintMeans(p, constraints[i], text);
    }
  }
}

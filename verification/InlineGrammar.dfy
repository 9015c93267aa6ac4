/**
  Inline values of the configuration command line, from `src/config/inline.rs`:
  the parser as functions, and the grammar that it accepts. What a YAML scalar
  or quoted string means is a parameter.
*/
module InlineGrammar {
  import opened Json
  import opened Options

  /** The YAML library's reading of an unquoted and of a quoted token. */
  datatype Yaml = Yaml(scalar: string -> Option<Value>, quoted: string -> Option<Value>)

  datatype Error = NotInline | TextAfterValue | BadScalar | BadKey | NoSeparator | NoEnd | EmptyToken | Unterminated

  datatype Result<T> = Ok(value: T) | Err(error: Error)

  // ----- White space -----

  /** Unicode white space. */
  predicate IsSpace(c: char) {
    || '\t' <= c <= '\r' || c == ' ' || c == '\U{0085}' || c == '\U{00A0}' || c == '\U{1680}'
    || '\U{2000}' <= c <= '\U{200A}' || c == '\U{2028}' || c == '\U{2029}' || c == '\U{202F}'
    || c == '\U{205F}' || c == '\U{3000}'
  }

  predicate Spaces(s: string) {
    forall i :: 0 <= i < |s| ==> IsSpace(s[i])
  }

  function TrimStart(s: string): string {
    if s != [] && IsSpace(s[0]) then TrimStart(s[1..]) else s
  }

  function TrimEnd(s: string): string {
    if s != [] && IsSpace(s[|s| - 1]) then TrimEnd(s[..|s| - 1]) else s
  }

  function Trim(s: string): string {
    TrimEnd(TrimStart(s))
  }

  /** The text is empty or begins with something visible. */
  predicate Visible(s: string) {
    s != [] ==> !IsSpace(s[0])
  }

  predicate EndsVisible(s: string) {
    s != [] ==> !IsSpace(s[|s| - 1])
  }

  lemma {:induction false} TrimStartSplits(s: string)
    ensures var t := TrimStart(s);
      && |t| <= |s| && s[|s| - |t|..] == t && Spaces(s[..|s| - |t|]) && Visible(t)
  {
    if s != [] && IsSpace(s[0]) {
      TrimStartSplits(s[1..]);
      var t := TrimStart(s[1..]);
      assert s == [s[0]] + s[1..];
      assert s[..|s| - |t|] == [s[0]] + s[1..][..|s| - 1 - |t|];
    }
  }

  lemma {:induction false} TrimEndSplits(s: string)
    ensures var t := TrimEnd(s);
      && |t| <= |s| && s[..|t|] == t && Spaces(s[|t|..]) && EndsVisible(t)
  {
    if s != [] && IsSpace(s[|s| - 1]) {
      TrimEndSplits(s[..|s| - 1]);
      var t := TrimEnd(s[..|s| - 1]);
      assert s[|t|..] == s[..|s| - 1][|t|..] + [s[|s| - 1]];
    }
  }

  lemma {:induction false} TrimStartSkips(space: string, s: string)
    requires Spaces(space) && Visible(s)
    ensures TrimStart(space + s) == s
  {
    if space == [] {
      assert space + s == s;
    } else {
      assert (space + s)[1..] == space[1..] + s;
      TrimStartSkips(space[1..], s);
    }
  }

  lemma {:induction false} TrimEndSkips(s: string, space: string)
    requires Spaces(space) && EndsVisible(s)
    ensures TrimEnd(s + space) == s
  {
    if space == [] {
      assert s + space == s;
    } else {
      assert (s + space)[..|s + space| - 1] == s + space[..|space| - 1];
      TrimEndSkips(s, space[..|space| - 1]);
    }
  }

  lemma TrimSkips(lead: string, s: string, tail: string)
    requires Spaces(lead) && Spaces(tail) && s != [] && Visible(s) && EndsVisible(s)
    ensures Trim(lead + s + tail) == s
  {
    assert lead + s + tail == lead + (s + tail);
    TrimStartSkips(lead, s + tail);
    TrimEndSkips(s, tail);
  }

  lemma TrimText(s: string, tail: string)
    requires Spaces(tail) && s != [] && Visible(s) && EndsVisible(s)
    ensures Trim(s + tail) == s
  {
    assert [] + s + tail == s + tail;
    TrimSkips([], s, tail);
  }

  // ----- Tokens -----

  predicate IsQuote(c: char) {
    c == '\'' || c == '"'
  }

  predicate IsDelimiter(c: char, key: bool) {
    c == '{' || c == '}' || c == '[' || c == ']' || c == ',' || (key && (c == ':' || c == '='))
  }

  /** The position after the closing quote, scanning from `i`. */
  function QuoteEnd(s: string, quote: char, i: nat): (end: Option<nat>)
    ensures end.Some? ==> i < end.value <= |s|
    decreases |s| - i
  {
    if i >= |s| then None
    else if quote == '"' && s[i] == '\\' then QuoteEnd(s, quote, i + 2)
    else if s[i] != quote then QuoteEnd(s, quote, i + 1)
    else if quote == '\'' && i + 1 < |s| && s[i + 1] == quote then QuoteEnd(s, quote, i + 2)
    else Some(i + 1)
  }

  /** The first delimiter at or after `i`, or the end. */
  function WordEnd(s: string, key: bool, i: nat): (end: nat)
    requires i <= |s|
    ensures i <= end <= |s|
    ensures end < |s| ==> IsDelimiter(s[end], key)
    ensures forall k :: i <= k < end ==> !IsDelimiter(s[k], key)
    decreases |s| - i
  {
    if i == |s| || IsDelimiter(s[i], key) then i else WordEnd(s, key, i + 1)
  }

  predicate StartsQuoted(s: string) {
    s != [] && IsQuote(s[0])
  }

  function TokenLength(s: string, key: bool): (length: Option<nat>)
    ensures length.Some? ==> length.value <= |s|
  {
    if StartsQuoted(s) then QuoteEnd(s, s[0], 1) else Some(WordEnd(s, key, 0))
  }

  /** `token`: the token without the space around it, and what follows it. */
  function Token(s: string, key: bool): (r: Result<(string, string)>)
    ensures r.Ok? ==> |r.value.1| < |s|
  {
    if TokenLength(s, key).None? then Err(Unterminated)
    else
      var length := TokenLength(s, key).value;
      TrimStartSplits(s[length..]);
      if Trim(s[..length]) == [] then Err(EmptyToken)
      else
        assert length > 0;
        Ok((Trim(s[..length]), TrimStart(s[length..])))
  }

  // ----- The parser -----

  /** `take`: what follows the delimiter, if the text begins with it. */
  function Take(s: string, delimiter: char): (r: Option<string>)
    ensures r.Some? ==> |r.value| < |s|
  {
    if s != [] && s[0] == delimiter then
      TrimStartSplits(s[1..]);
      Some(TrimStart(s[1..]))
    else None
  }

  /** `end`: what follows, and whether the collection is complete. */
  function End(s: string, delimiter: char): (r: Result<(bool, string)>)
    ensures r.Ok? ==> |r.value.1| < |s|
  {
    if Take(s, delimiter).Some? then Ok((true, Take(s, delimiter).value))
    else if Take(s, ',').Some? then
      var rest := Take(s, ',').value;
      if Take(rest, delimiter).Some? then Ok((true, Take(rest, delimiter).value)) else Ok((false, rest))
    else Err(NoEnd)
  }

  function KeyText(y: Yaml, token: string): Option<string> {
    if !StartsQuoted(token) then Some(token)
    else
      match y.quoted(token)
      case Some(String(text)) => Some(text)
      case _ => None
  }

  function TokenValue(y: Yaml, token: string): Option<Value> {
    if StartsQuoted(token) then y.quoted(token) else y.scalar(token)
  }

  function ParseValue(y: Yaml, s: string): (r: Result<(Value, string)>)
    ensures r.Ok? ==> |r.value.1| < |s|
    decreases |s|, 2
  {
    if Take(s, '{').Some? then
      var rest := Take(s, '{').value;
      if Take(rest, '}').Some? then Ok((Object(map[]), Take(rest, '}').value)) else ParseFields(y, rest, map[])
    else if Take(s, '[').Some? then
      var rest := Take(s, '[').value;
      if Take(rest, ']').Some? then Ok((Array([]), Take(rest, ']').value)) else ParseItems(y, rest, [])
    else
      match Token(s, false)
      case Err(error) => Err(error)
      case Ok((token, rest)) =>
        if TokenValue(y, token).None? then Err(BadScalar) else Ok((TokenValue(y, token).value, rest))
  }

  /** A key, a separator and a value: the key's text, the value, and what follows. */
  function ParseField(y: Yaml, s: string): (r: Result<(string, Value, string)>)
    ensures r.Ok? ==> |r.value.2| < |s|
    decreases |s|, 0
  {
    match Token(s, true)
    case Err(error) => Err(error)
    case Ok((token, rest)) =>
      if KeyText(y, token).None? then Err(BadKey)
      else
        var after := if Take(rest, ':').Some? then Take(rest, ':') else Take(rest, '=');
        if after.None? then Err(NoSeparator)
        else
          match ParseValue(y, after.value)
          case Err(error) => Err(error)
          case Ok((value, next)) => Ok((KeyText(y, token).value, value, next))
  }

  function ParseFields(y: Yaml, s: string, fields: map<string, Value>): (r: Result<(Value, string)>)
    ensures r.Ok? ==> |r.value.1| < |s|
    decreases |s|, 1
  {
    match ParseField(y, s)
    case Err(error) => Err(error)
    case Ok((key, value, rest)) =>
      match End(rest, '}')
      case Err(error) => Err(error)
      case Ok((done, next)) =>
        var more := fields[key := value];
        if done then Ok((Object(more), next)) else ParseFields(y, next, more)
  }

  function ParseItems(y: Yaml, s: string, items: seq<Value>): (r: Result<(Value, string)>)
    ensures r.Ok? ==> |r.value.1| < |s|
    decreases |s|, 3
  {
    match ParseValue(y, s)
    case Err(error) => Err(error)
    case Ok((value, rest)) =>
      match End(rest, ']')
      case Err(error) => Err(error)
      case Ok((done, next)) =>
        if done then Ok((Array(items + [value]), next)) else ParseItems(y, next, items + [value])
  }

  function Parse(y: Yaml, source: string): Result<Value> {
    if '\n' in source || '\r' in source then Err(NotInline)
    else
      match ParseValue(y, Trim(source))
      case Err(error) => Err(error)
      case Ok((value, rest)) => if rest != [] then Err(TextAfterValue) else Ok(value)
  }
}

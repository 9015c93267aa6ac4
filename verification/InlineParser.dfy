/** The parser object of `src/config/inline.rs`: it reassigns the text that remains. */
module InlineParser {
  import opened Json
  import opened Options
  import opened InlineGrammar

  class Parser {
    var rest: string
    const yaml: Yaml

    constructor (yaml: Yaml, source: string)
      ensures this.yaml == yaml && rest == Trim(source)
    {
      this.yaml := yaml;
      rest := Trim(source);
    }

    method TakeDelimiter(delimiter: char) returns (taken: bool)
      modifies this
      ensures taken <==> Take(old(rest), delimiter).Some?
      ensures rest == if taken then Take(old(rest), delimiter).value else old(rest)
    {
      if rest != [] && rest[0] == delimiter {
        rest := TrimStart(rest[1..]);
        return true;
      }
      return false;
    }

    method EndCollection(delimiter: char) returns (done: Result<bool>)
      modifies this
      ensures if done.Ok? then End(old(rest), delimiter) == Ok((done.value, rest))
              else End(old(rest), delimiter) == Err(done.error)
    {
      var taken := TakeDelimiter(delimiter);
      if taken {
        return Ok(true);
      }
      taken := TakeDelimiter(',');
      if taken {
        taken := TakeDelimiter(delimiter);
        return Ok(taken);
      }
      return Err(NoEnd);
    }

    /** The loop over the characters of a quoted string. */
    method FindQuoteEnd() returns (end: Option<nat>)
      requires StartsQuoted(rest)
      ensures end == QuoteEnd(rest, rest[0], 1)
    {
      var quote := rest[0];
      var i := 1;
      while i < |rest|
        invariant QuoteEnd(rest, quote, i) == QuoteEnd(rest, quote, 1)
        decreases |rest| - i
      {
        var character := rest[i];
        i := i + 1;
        if quote == '"' && character == '\\' {
          i := i + 1;
        } else if character == quote {
          if quote == '\'' && i < |rest| && rest[i] == quote {
            i := i + 1;
          } else {
            return Some(i);
          }
        }
      }
      return None;
    }

    method FindDelimiter(key: bool) returns (end: nat)
      ensures end == WordEnd(rest, key, 0)
    {
      end := 0;
      while end < |rest| && !IsDelimiter(rest[end], key)
        invariant end <= |rest| && WordEnd(rest, key, end) == WordEnd(rest, key, 0)
      {
        end := end + 1;
      }
    }

    method TakeToken(key: bool) returns (token: Result<string>)
      modifies this
      ensures if token.Ok? then Token(old(rest), key) == Ok((token.value, rest))
              else Token(old(rest), key) == Err(token.error)
    {
      var source := rest;
      var length: nat;
      if StartsQuoted(source) {
        var end := FindQuoteEnd();
        if end.None? {
          return Err(Unterminated);
        }
        length := end.value;
      } else {
        length := FindDelimiter(key);
      }
      var text := Trim(source[..length]);
      if text == [] {
        return Err(EmptyToken);
      }
      rest := TrimStart(source[length..]);
      return Ok(text);
    }

    method ParseOne() returns (value: Result<Value>)
      modifies this
      ensures if value.Ok? then ParseValue(yaml, old(rest)) == Ok((value.value, rest))
              else ParseValue(yaml, old(rest)) == Err(value.error)
      decreases |rest|, 2
    {
      var taken := TakeDelimiter('{');
      if taken {
        taken := TakeDelimiter('}');
        if taken {
          return Ok(Object(map[]));
        }
        value := ParseTable();
        return;
      }
      taken := TakeDelimiter('[');
      if taken {
        taken := TakeDelimiter(']');
        if taken {
          return Ok(Array([]));
        }
        value := ParseList();
        return;
      }
      var token := TakeToken(false);
      if token.Err? {
        return Err(token.error);
      }
      var result := if StartsQuoted(token.value) then yaml.quoted(token.value) else yaml.scalar(token.value);
      return if result.None? then Err(BadScalar) else Ok(result.value);
    }

    /** The loop over the fields of an object. */
    method ParseTable() returns (value: Result<Value>)
      modifies this
      ensures if value.Ok? then ParseFields(yaml, old(rest), map[]) == Ok((value.value, rest))
              else ParseFields(yaml, old(rest), map[]) == Err(value.error)
      decreases |rest|, 1
    {
      var fields: map<string, Value> := map[];
      while true
        invariant |rest| <= |old(rest)|
        invariant ParseFields(yaml, rest, fields) == ParseFields(yaml, old(rest), map[])
        decreases |rest|
      {
        var key, field := ParseKeyValue();
        if field.Err? {
          return Err(field.error);
        }
        fields := fields[key := field.value];
        var done := EndCollection('}');
        if done.Err? {
          return Err(done.error);
        }
        if done.value {
          return Ok(Object(fields));
        }
      }
    }

    method ParseKeyValue() returns (key: string, value: Result<Value>)
      modifies this
      ensures if value.Ok? then ParseField(yaml, old(rest)) == Ok((key, value.value, rest))
              else ParseField(yaml, old(rest)) == Err(value.error)
      decreases |rest|, 0
    {
      key := [];
      var token := TakeToken(true);
      if token.Err? {
        return key, Err(token.error);
      }
      key := token.value;
      if StartsQuoted(key) {
        match yaml.quoted(key) {
          case Some(String(text)) => key := text;
          case _ => return key, Err(BadKey);
        }
      }
      var taken := TakeDelimiter(':');
      if !taken {
        taken := TakeDelimiter('=');
        if !taken {
          return key, Err(NoSeparator);
        }
      }
      value := ParseOne();
    }

    /** The loop over the items of an array. */
    method ParseList() returns (value: Result<Value>)
      modifies this
      ensures if value.Ok? then ParseItems(yaml, old(rest), []) == Ok((value.value, rest))
              else ParseItems(yaml, old(rest), []) == Err(value.error)
      decreases |rest|, 3
    {
      var items: seq<Value> := [];
      while true
        invariant |rest| <= |old(rest)|
        invariant ParseItems(yaml, rest, items) == ParseItems(yaml, old(rest), [])
        decreases |rest|
      {
        var item := ParseOne();
        if item.Err? {
          return Err(item.error);
        }
        items := items + [item.value];
        var done := EndCollection(']');
        if done.Err? {
          return Err(done.error);
        }
        if done.value {
          return Ok(Array(items));
        }
      }
    }
  }

  /** `parse`: one inline value, and nothing after it. */
  method ParseInline(yaml: Yaml, source: string) returns (value: Result<Value>)
    ensures value == Parse(yaml, source)
  {
    if '\n' in source || '\r' in source {
      return Err(NotInline);
    }
    var parser := new Parser(yaml, source);
    value := parser.ParseOne();
    if value.Ok? && parser.rest != [] {
      return Err(TextAfterValue);
    }
  }
}

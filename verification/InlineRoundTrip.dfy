/** The inline parser accepts exactly the printed forms of documents, with their meaning. */
module InlineRoundTrip {
  import opened Json
  import opened Options
  import opened InlineGrammar

  // ----- Documents as they are written -----

  /** The strings named after punctuation are the white space that follows it. */
  datatype Doc =
    | Atom(text: string, after: string)
    | EmptyList(open: string, close: string)
    | List(open: string, items: Items, close: string)
    | EmptyTable(open: string, close: string)
    | Table(open: string, fields: Fields, close: string)

  datatype Items = LastItem(item: Doc, trailing: Option<string>) | MoreItems(item: Doc, comma: string, rest: Items)

  datatype Field = Field(key: string, afterKey: string, separator: char, afterSeparator: string, value: Doc)

  datatype Fields = LastField(field: Field, trailing: Option<string>)
                  | MoreFields(field: Field, comma: string, rest: Fields)

  function Show(d: Doc): string {
    match d
    case Atom(text, after) => text + after
    case EmptyList(open, close) => ['['] + open + ([']'] + close)
    case List(open, items, close) => ['['] + open + (ShowItems(items) + ([']'] + close))
    case EmptyTable(open, close) => ['{'] + open + (['}'] + close)
    case Table(open, fields, close) => ['{'] + open + (ShowFields(fields) + (['}'] + close))
  }

  function ShowTrailing(trailing: Option<string>): string {
    if trailing.Some? then [','] + trailing.value else []
  }

  function ShowItems(items: Items): string {
    match items
    case LastItem(item, trailing) => Show(item) + ShowTrailing(trailing)
    case MoreItems(item, comma, rest) => Show(item) + ([','] + comma + ShowItems(rest))
  }

  function ShowField(f: Field): string {
    f.key + f.afterKey + ([f.separator] + f.afterSeparator + Show(f.value))
  }

  function ShowFields(fields: Fields): string {
    match fields
    case LastField(field, trailing) => ShowField(field) + ShowTrailing(trailing)
    case MoreFields(field, comma, rest) => ShowField(field) + ([','] + comma + ShowFields(rest))
  }

  /** Visible text without brackets, braces and commas, and in a key without separators. */
  predicate IsWord(text: string, key: bool) {
    && text != [] && Visible(text) && EndsVisible(text)
    && forall i :: 0 <= i < |text| ==> text[i] !in "{}[]," && (key ==> text[i] !in ":=")
  }

  predicate Quoted(text: string) {
    text != [] && (text[0] == '\'' || text[0] == '"')
  }

  /** A quoted string to its closing quote, or a word. */
  predicate IsToken(text: string, key: bool) {
    if Quoted(text) then QuoteEnd(text, text[0], 1) == Some(|text|) else IsWord(text, key)
  }

  predicate WellFormed(d: Doc) {
    match d
    case Atom(text, after) => IsToken(text, false) && Spaces(after)
    case EmptyList(open, close) => Spaces(open) && Spaces(close)
    case List(open, items, close) => Spaces(open) && WellFormedItems(items) && Spaces(close)
    case EmptyTable(open, close) => Spaces(open) && Spaces(close)
    case Table(open, fields, close) => Spaces(open) && WellFormedFields(fields) && Spaces(close)
  }

  predicate WellFormedItems(items: Items) {
    match items
    case LastItem(item, trailing) => WellFormed(item) && (trailing.Some? ==> Spaces(trailing.value))
    case MoreItems(item, comma, rest) => WellFormed(item) && Spaces(comma) && WellFormedItems(rest)
  }

  predicate WellFormedField(f: Field) {
    && IsToken(f.key, true) && Spaces(f.afterKey) && (f.separator == ':' || f.separator == '=')
    && Spaces(f.afterSeparator) && WellFormed(f.value)
  }

  predicate WellFormedFields(fields: Fields) {
    match fields
    case LastField(field, trailing) => WellFormedField(field) && (trailing.Some? ==> Spaces(trailing.value))
    case MoreFields(field, comma, rest) => WellFormedField(field) && Spaces(comma) && WellFormedFields(rest)
  }

  /** The value of a document, unless the YAML library refuses one of its tokens. */
  function Meaning(y: Yaml, d: Doc): Option<Value> {
    match d
    case Atom(text, _) => if Quoted(text) then y.quoted(text) else y.scalar(text)
    case EmptyList(_, _) => Some(Array([]))
    case List(_, items, _) =>
      var values := MeaningOfItems(y, items);
      if values.None? then None else Some(Array(values.value))
    case EmptyTable(_, _) => Some(Object(map[]))
    case Table(_, fields, _) =>
      var values := MeaningOfFields(y, fields);
      if values.None? then None else Some(Object(values.value))
  }

  function MeaningOfItems(y: Yaml, items: Items): Option<seq<Value>> {
    var first := Meaning(y, items.item);
    if first.None? then None
    else if items.LastItem? then Some([first.value])
    else
      var rest := MeaningOfItems(y, items.rest);
      if rest.None? then None else Some([first.value] + rest.value)
  }

  /** A quoted key has to be a string. */
  function MeaningOfKey(y: Yaml, key: string): Option<string> {
    if !Quoted(key) then Some(key)
    else if y.quoted(key).Some? && y.quoted(key).value.String? then Some(y.quoted(key).value.text) else None
  }

  function MeaningOfField(y: Yaml, f: Field): Option<(string, Value)> {
    var key, value := MeaningOfKey(y, f.key), Meaning(y, f.value);
    if key.None? || value.None? then None else Some((key.value, value.value))
  }

  /** A later key replaces an earlier one. */
  function MeaningOfFields(y: Yaml, fields: Fields): Option<map<string, Value>> {
    var first := MeaningOfField(y, fields.field);
    if first.None? then None
    else if fields.LastField? then Some(map[first.value.0 := first.value.1])
    else
      var rest := MeaningOfFields(y, fields.rest);
      if rest.None? then None else Some(map[first.value.0 := first.value.1] + rest.value)
  }

  // ----- Tokens -----

  /** The text is over, or a delimiter follows. */
  predicate Delimited(next: string, key: bool) {
    next != [] ==> IsDelimiter(next[0], key)
  }

  lemma {:induction false} QuoteEndExtends(text: string, suffix: string, quote: char, i: nat)
    requires QuoteEnd(text, quote, i) == Some(|text|) && (suffix != [] ==> suffix[0] != '\'')
    ensures QuoteEnd(text + suffix, quote, i) == Some(|text|)
    ensures text[|text| - 1] == quote
    decreases |text| - i
  {
    if quote == '"' && text[i] == '\\' {
      QuoteEndExtends(text, suffix, quote, i + 2);
    } else if text[i] != quote {
      QuoteEndExtends(text, suffix, quote, i + 1);
    } else if quote == '\'' && i + 1 < |text| && text[i + 1] == quote {
      QuoteEndExtends(text, suffix, quote, i + 2);
    }
  }

  lemma {:induction false} QuoteEndCuts(s: string, quote: char, i: nat)
    requires QuoteEnd(s, quote, i).Some?
    ensures var n := QuoteEnd(s, quote, i).value;
      QuoteEnd(s[..n], quote, i) == Some(n) && s[n - 1] == quote
    decreases |s| - i
  {
    if quote == '"' && s[i] == '\\' {
      QuoteEndCuts(s, quote, i + 2);
    } else if s[i] != quote {
      QuoteEndCuts(s, quote, i + 1);
    } else if quote == '\'' && i + 1 < |s| && s[i + 1] == quote {
      QuoteEndCuts(s, quote, i + 2);
    }
  }

  /** Where a token ends: at its quote, or only before the delimiter that follows the space after it. */
  lemma TokenLengthIs(text: string, key: bool, after: string, next: string)
    requires IsToken(text, key) && Spaces(after) && Delimited(next, key)
    ensures TokenLength(text + after + next, key)
      == Some(if StartsQuoted(text) then |text| else |text| + |after|)
  {
    var s := text + after + next;
    assert s[0] == text[0];
    if StartsQuoted(text) {
      QuoteEndExtends(text, after + next, text[0], 1);
      assert s == text + (after + next);
    } else {
      WordEndIs(text, after, next, key);
    }
  }

  lemma TokenEndsVisible(text: string, key: bool)
    requires IsToken(text, key)
    ensures text != [] && Visible(text) && EndsVisible(text)
  {
    if StartsQuoted(text) {
      QuoteEndExtends(text, [], text[0], 1);
    }
  }

  lemma TokenIsShown(text: string, key: bool, after: string, next: string)
    requires IsToken(text, key) && Spaces(after) && Delimited(next, key)
    ensures Token(text + after + next, key) == Ok((text, next))
  {
    var s := text + after + next;
    var length := if StartsQuoted(text) then |text| else |text| + |after|;
    TokenLengthIs(text, key, after, next);
    TokenEndsVisible(text, key);
    var inside, outside := after[..length - |text|], after[length - |text|..];
    assert s[..length] == text + inside;
    assert s[length..] == outside + next;
    TrimText(text, inside);
    TrimStartSkips(outside, next);
  }

  /** White space is that of the Unicode Standard, by code points. */
  lemma SpacesAre(c: char)
    ensures IsSpace(c) <==>
      || 0x9 <= c as int <= 0xD || 0x2000 <= c as int <= 0x200A
      || c as int in {0x20, 0x85, 0xA0, 0x1680, 0x2028, 0x2029, 0x202F, 0x205F, 0x3000}
  {
  }

  // ----- Quoted strings, as YAML 1.2.2 writes them -----

  /** Section 7.3.2: a single quote inside is doubled. */
  function Doubled(content: string): string {
    if content == [] then []
    else (if content[0] == '\'' then "''" else [content[0]]) + Doubled(content[1..])
  }

  function SingleQuoted(content: string): string {
    "'" + (Doubled(content) + "'")
  }

  /** Section 7.3.1: a character, or a backslash that escapes one. */
  datatype Piece = Plain(c: char) | Escaped(c: char)

  predicate ArePieces(pieces: seq<Piece>) {
    forall i :: 0 <= i < |pieces| && pieces[i].Plain? ==> pieces[i].c != '"' && pieces[i].c != '\\'
  }

  function ShowPieces(pieces: seq<Piece>): string {
    if pieces == [] then []
    else (if pieces[0].Plain? then [pieces[0].c] else ['\\', pieces[0].c]) + ShowPieces(pieces[1..])
  }

  function DoubleQuoted(pieces: seq<Piece>): string {
    "\"" + (ShowPieces(pieces) + "\"")
  }

  lemma {:induction false} SingleEnds(before: string, content: string)
    ensures var s := before + (Doubled(content) + "'"); QuoteEnd(s, '\'', |before|) == Some(|s|)
    decreases |content|
  {
    var s := before + (Doubled(content) + "'");
    if content != [] {
      var first := if content[0] == '\'' then "''" else [content[0]];
      SingleEnds(before + first, content[1..]);
      assert s == (before + first) + (Doubled(content[1..]) + "'");
    }
  }

  lemma {:induction false} DoubleEnds(before: string, pieces: seq<Piece>)
    requires ArePieces(pieces)
    ensures var s := before + (ShowPieces(pieces) + "\""); QuoteEnd(s, '"', |before|) == Some(|s|)
    decreases |pieces|
  {
    var s := before + (ShowPieces(pieces) + "\"");
    if pieces != [] {
      var first := if pieces[0].Plain? then [pieces[0].c] else ['\\', pieces[0].c];
      DoubleEnds(before + first, pieces[1..]);
      assert s == (before + first) + (ShowPieces(pieces[1..]) + "\"");
    }
  }

  lemma {:induction false} SingleContent(s: string, i: nat) returns (content: string)
    requires QuoteEnd(s, '\'', i) == Some(|s|)
    ensures s[i..] == Doubled(content) + "'"
    decreases |s| - i
  {
    if s[i] != '\'' {
      content := SingleContent(s, i + 1);
      content := [s[i]] + content;
      assert s[i..] == [s[i]] + s[i + 1..];
    } else if i + 1 < |s| && s[i + 1] == '\'' {
      content := SingleContent(s, i + 2);
      content := "'" + content;
      assert s[i..] == "''" + s[i + 2..];
    } else {
      content := [];
    }
  }

  lemma {:induction false} DoublePieces(s: string, i: nat) returns (pieces: seq<Piece>)
    requires QuoteEnd(s, '"', i) == Some(|s|)
    ensures ArePieces(pieces) && s[i..] == ShowPieces(pieces) + "\""
    decreases |s| - i
  {
    if s[i] == '\\' {
      var rest := DoublePieces(s, i + 2);
      pieces := [Escaped(s[i + 1])] + rest;
      assert s[i..] == ['\\', s[i + 1]] + s[i + 2..];
    } else if s[i] != '"' {
      var rest := DoublePieces(s, i + 1);
      pieces := [Plain(s[i])] + rest;
      assert s[i..] == [s[i]] + s[i + 1..];
    } else {
      pieces := [];
    }
  }

  /**
    Quoted tokens are exactly what these two forms show, so every string has one.
    Which escapes mean something is for the YAML library.
  */
  lemma QuotedTokens(text: string, key: bool)
    requires text != [] && (text[0] == '\'' || text[0] == '"')
    ensures IsToken(text, key) <==>
      || (exists content :: text == SingleQuoted(content))
      || (exists pieces :: ArePieces(pieces) && text == DoubleQuoted(pieces))
  {
    forall content | text == SingleQuoted(content)
      ensures IsToken(text, key)
    {
      SingleEnds("'", content);
    }
    forall pieces | ArePieces(pieces) && text == DoubleQuoted(pieces)
      ensures IsToken(text, key)
    {
      DoubleEnds("\"", pieces);
    }
    if IsToken(text, key) {
      assert text == [text[0]] + text[1..];
      if text[0] == '\'' {
        var content := SingleContent(text, 1);
        assert text == SingleQuoted(content);
      } else {
        var pieces := DoublePieces(text, 1);
        assert text == DoubleQuoted(pieces);
      }
    }
  }

  lemma WordEndIs(text: string, after: string, next: string, key: bool)
    requires Spaces(after) && Delimited(next, key)
    requires forall i :: 0 <= i < |text| ==> !IsDelimiter(text[i], key)
    ensures WordEnd(text + after + next, key, 0) == |text| + |after|
  {
    var s := text + after + next;
    var n := |text| + |after|;
    assert forall i :: 0 <= i < n ==> s[i] == if i < |text| then text[i] else after[i - |text|];
    assert n < |s| ==> s[n] == next[0];
    assert forall i :: 0 <= i < n ==> !IsDelimiter(s[i], key);
  }

  lemma TrimStartParts(s: string) returns (space: string)
    ensures s == space + TrimStart(s) && Spaces(space) && Visible(TrimStart(s))
  {
    TrimStartSplits(s);
    space := s[..|s| - |TrimStart(s)|];
    assert s == space + s[|s| - |TrimStart(s)|..];
  }

  lemma TrimParts(s: string) returns (space: string)
    requires Visible(s)
    ensures s == Trim(s) + space && Spaces(space) && EndsVisible(Trim(s))
  {
    TrimStartSkips([], s);
    assert [] + s == s;
    TrimEndSplits(s);
    space := s[|Trim(s)|..];
    assert s == s[..|Trim(s)|] + space;
  }

  lemma WordIsToken(part: string, text: string, space: string, key: bool)
    requires part == text + space && Visible(part) && text != [] && EndsVisible(text) && !StartsQuoted(part)
    requires forall i :: 0 <= i < |part| ==> !IsDelimiter(part[i], key)
    ensures IsToken(text, key)
  {
    assert forall i :: 0 <= i < |text| ==> text[i] == part[i];
  }

  lemma QuotedIsToken(s: string, key: bool, length: nat)
    requires StartsQuoted(s) && TokenLength(s, key) == Some(length)
    ensures IsToken(s[..length], key) && Trim(s[..length]) == s[..length]
  {
    QuoteEndCuts(s, s[0], 1);
    var part := s[..length];
    assert part[0] == s[0];
    TrimText(part, []);
    assert part + [] == part;
  }

  /** What was read as a token is one. */
  lemma TokenIsToken(s: string, key: bool, length: nat) returns (space: string)
    requires Visible(s) && TokenLength(s, key) == Some(length) && Trim(s[..length]) != []
    ensures IsToken(Trim(s[..length]), key)
    ensures s[..length] == Trim(s[..length]) + space && Spaces(space)
  {
    if StartsQuoted(s) {
      QuotedIsToken(s, key, length);
      space := [];
    } else {
      var part := s[..length];
      space := TrimParts(part);
      WordIsToken(part, Trim(part), space, key);
    }
  }

  lemma Rejoin(s: string, length: nat, text: string, inside: string, outside: string, rest: string)
    requires length <= |s| && s[..length] == text + inside && s[length..] == outside + rest
    requires Spaces(inside) && Spaces(outside)
    ensures s == text + (inside + outside) + rest && Spaces(inside + outside)
  {
    assert s == s[..length] + s[length..];
  }

  lemma TokenParts(s: string, key: bool) returns (length: nat)
    requires Token(s, key).Ok?
    ensures TokenLength(s, key) == Some(length) && Trim(s[..length]) != []
    ensures Token(s, key).value == (Trim(s[..length]), TrimStart(s[length..]))
  {
    length := TokenLength(s, key).value;
  }

  /** A token, the space after it, and something visible. */
  lemma TokenSplits(s: string, key: bool) returns (after: string)
    requires Visible(s) && Token(s, key).Ok?
    ensures var (text, rest) := Token(s, key).value;
      s == text + after + rest && Spaces(after) && IsToken(text, key) && Visible(rest)
  {
    var length := TokenParts(s, key);
    var text, rest := Token(s, key).value.0, Token(s, key).value.1;
    var inside := TokenIsToken(s, key, length);
    var outside := TrimStartParts(s[length..]);
    Rejoin(s, length, text, inside, outside, rest);
    after := inside + outside;
  }

  // ----- Punctuation -----

  lemma TakeSkips(delimiter: char, space: string, next: string)
    requires Spaces(space) && Visible(next)
    ensures Take([delimiter] + space + next, delimiter) == Some(next)
  {
    var s := [delimiter] + space + next;
    assert s[1..] == space + next;
    TrimStartSkips(space, next);
  }

  lemma TakeSplits(s: string, delimiter: char) returns (space: string)
    requires Take(s, delimiter).Some?
    ensures s == [delimiter] + space + Take(s, delimiter).value && Spaces(space) && Visible(Take(s, delimiter).value)
  {
    space := TrimStartParts(s[1..]);
    assert s == [s[0]] + s[1..];
  }

  /** A collection's last delimiter, after an optional comma. */
  lemma EndSkips(trailing: Option<string>, delimiter: char, close: string, next: string)
    requires delimiter != ',' && !IsSpace(delimiter) && Visible(next)
    requires (trailing.Some? ==> Spaces(trailing.value)) && Spaces(close)
    ensures End(ShowTrailing(trailing) + ([delimiter] + close + next), delimiter) == Ok((true, next))
  {
    var last := [delimiter] + close + next;
    TakeSkips(delimiter, close, next);
    if trailing.Some? {
      TakeSkips(',', trailing.value, last);
    } else {
      assert [] + last == last;
    }
  }

  lemma EndGoesOn(delimiter: char, comma: string, next: string)
    requires delimiter != ',' && Spaces(comma) && Visible(next) && Take(next, delimiter).None?
    ensures End([','] + comma + next, delimiter) == Ok((false, next))
  {
    TakeSkips(',', comma, next);
  }

  /** The two ways in which a collection goes on, told apart by the parser. */
  lemma EndSplits(s: string, delimiter: char) returns (trailing: Option<string>, space: string)
    requires End(s, delimiter).Ok?
    ensures var (done, rest) := End(s, delimiter).value;
      && Spaces(space) && Visible(rest) && (trailing.Some? ==> Spaces(trailing.value))
      && s == if done then ShowTrailing(trailing) + ([delimiter] + space + rest) else [','] + space + rest
  {
    trailing := None;
    if Take(s, delimiter).Some? {
      space := TakeSplits(s, delimiter);
      assert [] + s == s;
    } else {
      var comma := TakeSplits(s, ',');
      var rest := Take(s, ',').value;
      if Take(rest, delimiter).Some? {
        space := TakeSplits(rest, delimiter);
        trailing := Some(comma);
      } else {
        space := comma;
      }
    }
  }

  predicate Opens(s: string) {
    s != [] && !IsSpace(s[0]) && s[0] != ',' && s[0] != ']' && s[0] != '}'
  }

  lemma ShowOpens(d: Doc)
    requires WellFormed(d)
    ensures Opens(Show(d))
  {
    if d.Atom? {
      TokenEndsVisible(d.text, false);
    }
  }

  lemma OpensOn(s: string, next: string)
    requires Opens(s)
    ensures Opens(s + next) && Take(s + next, ']').None? && Visible(s + next)
  {
  }

  lemma Associate(a: string, b: string, c: string)
    ensures (a + b) + c == a + (b + c)
  {
  }

  // ----- Printed documents are parsed -----

  lemma {:induction false} ShownIsParsed(y: Yaml, d: Doc, next: string)
    requires WellFormed(d) && Meaning(y, d).Some? && Delimited(next, false)
    ensures ParseValue(y, Show(d) + next) == Ok((Meaning(y, d).value, next))
    decreases d, 1
  {
    match d {
      case Atom(text, after) =>
        ShowOpens(d);
        TokenIsShown(text, false, after, next);
        TokenEndsVisible(text, false);
        assert (Show(d) + next)[0] == text[0];
      case EmptyList(open, close) =>
        OpenSkips('[', open, [']'] + close, next);
        TakeSkips(']', close, next);
      case EmptyTable(open, close) =>
        OpenSkips('{', open, ['}'] + close, next);
        TakeSkips('}', close, next);
      case List(_, _, _) => ShownListIsParsed(y, d, next);
      case Table(_, _, _) => ShownTableIsParsed(y, d, next);
    }
  }

  lemma ShownListIsParsed(y: Yaml, d: Doc, next: string)
    requires d.List? && WellFormed(d) && Meaning(y, d).Some? && Delimited(next, false)
    ensures ParseValue(y, Show(d) + next) == Ok((Meaning(y, d).value, next))
    decreases d, 0
  {
    var List(open, items, close) := d;
    ItemsOpen(items);
    OpensOn(ShowItems(items), [']'] + close + next);
    OpenSkips('[', open, ShowItems(items) + ([']'] + close), next);
    Associate(ShowItems(items), [']'] + close, next);
    ItemsAreParsed(y, items, close, next, []);
    assert [] + MeaningOfItems(y, items).value == MeaningOfItems(y, items).value;
  }

  lemma ShownTableIsParsed(y: Yaml, d: Doc, next: string)
    requires d.Table? && WellFormed(d) && Meaning(y, d).Some? && Delimited(next, false)
    ensures ParseValue(y, Show(d) + next) == Ok((Meaning(y, d).value, next))
    decreases d, 0
  {
    var Table(open, fields, close) := d;
    FieldsOpen(fields);
    FieldsOpenOn(ShowFields(fields), ['}'] + close + next);
    OpenSkips('{', open, ShowFields(fields) + (['}'] + close), next);
    Associate(ShowFields(fields), ['}'] + close, next);
    FieldsAreParsed(y, fields, close, next, map[]);
    assert map[] + MeaningOfFields(y, fields).value == MeaningOfFields(y, fields).value;
  }

  lemma OpenSkips(delimiter: char, open: string, body: string, next: string)
    requires Spaces(open) && body != [] && Visible(body)
    ensures Take([delimiter] + open + body + next, delimiter) == Some(body + next)
    ensures ([delimiter] + open + body + next)[0] == delimiter
  {
    Associate([delimiter] + open, body, next);
    TakeSkips(delimiter, open, body + next);
  }

  lemma ItemsOpen(items: Items)
    requires WellFormedItems(items)
    ensures Opens(ShowItems(items))
  {
    ShowOpens(items.item);
  }

  lemma {:induction false} ItemsAreParsed(y: Yaml, items: Items, close: string, next: string, acc: seq<Value>)
    requires WellFormedItems(items) && MeaningOfItems(y, items).Some? && Spaces(close) && Delimited(next, false)
    ensures ParseItems(y, ShowItems(items) + ([']'] + close + next), acc)
      == Ok((Array(acc + MeaningOfItems(y, items).value), next))
    decreases items
  {
    var tail := [']'] + close + next;
    match items {
      case LastItem(item, trailing) =>
        Associate(Show(item), ShowTrailing(trailing), tail);
        ShownIsParsed(y, item, ShowTrailing(trailing) + tail);
        EndSkips(trailing, ']', close, next);
      case MoreItems(item, comma, rest) =>
        var more := ShowItems(rest) + tail;
        Associate(Show(item), [','] + comma + ShowItems(rest), tail);
        Associate([','] + comma, ShowItems(rest), tail);
        ShownIsParsed(y, item, [','] + comma + more);
        ItemsOpen(rest);
        OpensOn(ShowItems(rest), tail);
        EndGoesOn(']', comma, more);
        var first := Meaning(y, item).value;
        ItemsAreParsed(y, rest, close, next, acc + [first]);
        assert acc + [first] + MeaningOfItems(y, rest).value == acc + ([first] + MeaningOfItems(y, rest).value);
    }
  }

  predicate FieldOpens(s: string) {
    s != [] && !IsSpace(s[0]) && s[0] != '}'
  }

  lemma FieldsOpen(fields: Fields)
    requires WellFormedFields(fields)
    ensures FieldOpens(ShowFields(fields))
  {
    TokenEndsVisible(fields.field.key, true);
  }

  lemma FieldsOpenOn(s: string, next: string)
    requires FieldOpens(s)
    ensures FieldOpens(s + next) && Take(s + next, '}').None? && Visible(s + next)
  {
  }

  lemma FieldIsParsed(y: Yaml, f: Field, next: string)
    requires WellFormedField(f) && MeaningOfField(y, f).Some? && Delimited(next, false)
    ensures ParseField(y, ShowField(f) + next)
      == Ok((MeaningOfField(y, f).value.0, MeaningOfField(y, f).value.1, next))
    decreases f, 1
  {
    var rest := [f.separator] + f.afterSeparator + (Show(f.value) + next);
    Associate(f.key + f.afterKey, [f.separator] + f.afterSeparator + Show(f.value), next);
    Associate([f.separator] + f.afterSeparator, Show(f.value), next);
    TokenIsShown(f.key, true, f.afterKey, rest);
    ShowOpens(f.value);
    OpensOn(Show(f.value), next);
    TakeSkips(f.separator, f.afterSeparator, Show(f.value) + next);
    ShownIsParsed(y, f.value, next);
  }

  lemma MapsJoin(acc: map<string, Value>, key: string, value: Value, rest: map<string, Value>)
    ensures acc[key := value] + rest == acc + (map[key := value] + rest)
    ensures acc[key := value] == acc + map[key := value]
  {
  }

  lemma {:induction false} FieldsAreParsed(y: Yaml, fields: Fields, close: string, next: string, acc: map<string, Value>)
    requires WellFormedFields(fields) && MeaningOfFields(y, fields).Some? && Spaces(close) && Delimited(next, false)
    ensures ParseFields(y, ShowFields(fields) + (['}'] + close + next), acc)
      == Ok((Object(acc + MeaningOfFields(y, fields).value), next))
    decreases fields
  {
    var tail := ['}'] + close + next;
    var (key, value) := MeaningOfField(y, fields.field).value;
    match fields {
      case LastField(field, trailing) =>
        Associate(ShowField(field), ShowTrailing(trailing), tail);
        FieldIsParsed(y, field, ShowTrailing(trailing) + tail);
        EndSkips(trailing, '}', close, next);
        MapsJoin(acc, key, value, map[]);
      case MoreFields(field, comma, rest) =>
        var more := ShowFields(rest) + tail;
        Associate(ShowField(field), [','] + comma + ShowFields(rest), tail);
        Associate([','] + comma, ShowFields(rest), tail);
        FieldIsParsed(y, field, [','] + comma + more);
        FieldsOpen(rest);
        FieldsOpenOn(ShowFields(rest), tail);
        EndGoesOn('}', comma, more);
        FieldsAreParsed(y, rest, close, next, acc[key := value]);
        MapsJoin(acc, key, value, MeaningOfFields(y, rest).value);
    }
  }

  // ----- What is parsed was printed -----

  lemma {:induction false} ParsedIsShown(y: Yaml, s: string) returns (d: Doc)
    requires Visible(s) && ParseValue(y, s).Ok?
    ensures var (value, rest) := ParseValue(y, s).value;
      WellFormed(d) && Meaning(y, d) == Some(value) && s == Show(d) + rest && Visible(rest)
    decreases |s|, 2
  {
    if Take(s, '{').Some? {
      d := ParsedTableIsShown(y, s);
    } else if Take(s, '[').Some? {
      d := ParsedListIsShown(y, s);
    } else {
      var after := TokenSplits(s, false);
      d := Atom(Token(s, false).value.0, after);
    }
  }

  lemma ParsedTableIsShown(y: Yaml, s: string) returns (d: Doc)
    requires Take(s, '{').Some? && ParseValue(y, s).Ok?
    ensures var (value, rest) := ParseValue(y, s).value;
      WellFormed(d) && Meaning(y, d) == Some(value) && s == Show(d) + rest && Visible(rest)
    decreases |s|, 1
  {
    var open := TakeSplits(s, '{');
    var inside := Take(s, '{').value;
    if Take(inside, '}').Some? {
      var close := TakeSplits(inside, '}');
      d := EmptyTable(open, close);
      Associate(['{'] + open, ['}'] + close, Take(inside, '}').value);
    } else {
      var fields, close := ParsedFieldsAreShown(y, inside, map[]);
      d := Table(open, fields, close);
      assert map[] + MeaningOfFields(y, fields).value == MeaningOfFields(y, fields).value;
      CollectionJoins(['{'] + open, ShowFields(fields), ['}'] + close, ParseFields(y, inside, map[]).value.1);
    }
  }

  lemma ParsedListIsShown(y: Yaml, s: string) returns (d: Doc)
    requires Take(s, '[').Some? && ParseValue(y, s).Ok?
    ensures var (value, rest) := ParseValue(y, s).value;
      WellFormed(d) && Meaning(y, d) == Some(value) && s == Show(d) + rest && Visible(rest)
    decreases |s|, 1
  {
    var open := TakeSplits(s, '[');
    var inside := Take(s, '[').value;
    if Take(inside, ']').Some? {
      var close := TakeSplits(inside, ']');
      d := EmptyList(open, close);
      Associate(['['] + open, [']'] + close, Take(inside, ']').value);
    } else {
      var items, close := ParsedItemsAreShown(y, inside, []);
      d := List(open, items, close);
      assert [] + MeaningOfItems(y, items).value == MeaningOfItems(y, items).value;
      CollectionJoins(['['] + open, ShowItems(items), [']'] + close, ParseItems(y, inside, []).value.1);
    }
  }

  lemma CollectionJoins(open: string, body: string, close: string, rest: string)
    ensures open + (body + (close + rest)) == open + (body + close) + rest
  {
  }

  lemma {:induction false} ParsedItemsAreShown(y: Yaml, s: string, acc: seq<Value>)
    returns (items: Items, close: string)
    requires Visible(s) && ParseItems(y, s, acc).Ok?
    ensures var (value, rest) := ParseItems(y, s, acc).value;
      && WellFormedItems(items) && MeaningOfItems(y, items).Some? && Spaces(close) && Visible(rest)
      && value == Array(acc + MeaningOfItems(y, items).value)
      && s == ShowItems(items) + ([']'] + close + rest)
    decreases |s|, 3
  {
    var item := ParsedIsShown(y, s);
    var (value, after) := ParseValue(y, s).value;
    var trailing, space := EndSplits(after, ']');
    var (done, next) := End(after, ']').value;
    if done {
      items, close := LastItem(item, trailing), space;
      Associate(Show(item), ShowTrailing(trailing), [']'] + close + next);
    } else {
      var rest;
      rest, close := ParsedItemsAreShown(y, next, acc + [value]);
      items := MoreItems(item, space, rest);
      var tail := [']'] + close + ParseItems(y, s, acc).value.1;
      MoreJoins(Show(item), [','] + space, ShowItems(rest), tail);
      assert acc + [value] + MeaningOfItems(y, rest).value == acc + ([value] + MeaningOfItems(y, rest).value);
    }
  }

  lemma MoreJoins(first: string, comma: string, rest: string, tail: string)
    ensures first + (comma + (rest + tail)) == first + (comma + rest) + tail
  {
  }

  lemma ParsedFieldIsShown(y: Yaml, s: string) returns (f: Field)
    requires Visible(s) && ParseField(y, s).Ok?
    ensures var (key, value, rest) := ParseField(y, s).value;
      && WellFormedField(f) && MeaningOfField(y, f) == Some((key, value)) && Visible(rest)
      && s == ShowField(f) + rest
    decreases |s|, 0
  {
    var (token, after) := Token(s, true).value;
    var afterKey := TokenSplits(s, true);
    var separator := if Take(after, ':').Some? then ':' else '=';
    var afterSeparator := TakeSplits(after, separator);
    var body := Take(after, separator).value;
    var value := ParsedIsShown(y, body);
    f := Field(token, afterKey, separator, afterSeparator, value);
    MoreJoins(token + afterKey, [separator] + afterSeparator, Show(value), ParseValue(y, body).value.1);
  }

  lemma {:induction false} ParsedFieldsAreShown(y: Yaml, s: string, acc: map<string, Value>)
    returns (fields: Fields, close: string)
    requires Visible(s) && ParseFields(y, s, acc).Ok?
    ensures var (value, rest) := ParseFields(y, s, acc).value;
      && WellFormedFields(fields) && MeaningOfFields(y, fields).Some? && Spaces(close) && Visible(rest)
      && value == Object(acc + MeaningOfFields(y, fields).value)
      && s == ShowFields(fields) + (['}'] + close + rest)
    decreases |s|, 1
  {
    var field := ParsedFieldIsShown(y, s);
    var (key, value, after) := ParseField(y, s).value;
    var trailing, space := EndSplits(after, '}');
    var (done, next) := End(after, '}').value;
    if done {
      fields, close := LastField(field, trailing), space;
      Associate(ShowField(field), ShowTrailing(trailing), ['}'] + close + next);
      MapsJoin(acc, key, value, map[]);
    } else {
      var rest;
      rest, close := ParsedFieldsAreShown(y, next, acc[key := value]);
      fields := MoreFields(field, space, rest);
      var tail := ['}'] + close + ParseFields(y, s, acc).value.1;
      MoreJoins(ShowField(field), [','] + space, ShowFields(rest), tail);
      MapsJoin(acc, key, value, MeaningOfFields(y, rest).value);
    }
  }

  // ----- The accepted language -----

  /** A document, in white space, on one line. */
  ghost predicate Prints(source: string, d: Doc) {
    && WellFormed(d) && EndsVisible(Show(d))
    && '\n' !in source && '\r' !in source
    && exists lead, tail :: Spaces(lead) && Spaces(tail) && source == lead + Show(d) + tail
  }

  lemma PrintedIsParsed(y: Yaml, source: string, d: Doc)
    requires Prints(source, d) && Meaning(y, d).Some?
    ensures Parse(y, source) == Ok(Meaning(y, d).value)
  {
    var lead, tail :| Spaces(lead) && Spaces(tail) && source == lead + Show(d) + tail;
    ShowOpens(d);
    TrimSkips(lead, Show(d), tail);
    ShownIsParsed(y, d, []);
    assert Show(d) + [] == Show(d);
  }

  lemma ParsedIsPrinted(y: Yaml, source: string) returns (d: Doc)
    requires Parse(y, source).Ok?
    ensures Prints(source, d) && Meaning(y, d) == Some(Parse(y, source).value)
  {
    var lead := TrimStartParts(source);
    var trimmed := TrimStart(source);
    var tail := TrimParts(trimmed);
    assert Trim(trimmed) == Trim(source) by {
      TrimStartSkips([], trimmed);
      assert [] + trimmed == trimmed;
    }
    assert Visible(Trim(source));
    d := ParsedIsShown(y, Trim(source));
    assert Show(d) + [] == Show(d);
    Associate(lead, Show(d), tail);
  }

  /**
    Text is accepted with a value exactly when it is the printed form of a
    document that means this value: with ':' or '=', any spacing, an optional
    trailing comma, and quoted or unquoted tokens.
  */
  lemma AcceptsExactlyDocuments(y: Yaml, source: string, value: Value)
    ensures Parse(y, source) == Ok(value)
      <==> exists d :: Prints(source, d) && Meaning(y, d) == Some(value)
  {
    if Parse(y, source) == Ok(value) {
      var d := ParsedIsPrinted(y, source);
    }
    forall d | Prints(source, d) && Meaning(y, d) == Some(value)
      ensures Parse(y, source) == Ok(value)
    {
      PrintedIsParsed(y, source, d);
    }
  }

  // ----- Every tree can be printed -----

  /** How scalars and keys are written; strings and keys may always be quoted. */
  datatype Writer = Writer(scalar: Value -> string, key: string -> string)

  predicate OneLine(s: string) {
    '\n' !in s && '\r' !in s
  }

  /** The YAML library reads back what the writer writes for the scalars and keys of a tree. */
  ghost predicate ReadsBack(y: Yaml, w: Writer, v: Value)
    decreases v
  {
    match v
    case Array(items) => forall i :: 0 <= i < |items| ==> ReadsBack(y, w, items[i])
    case Object(fields) => forall k :: k in fields ==> KeyReadsBack(y, w, k) && ReadsBack(y, w, fields[k])
    case _ => IsToken(w.scalar(v), false) && OneLine(w.scalar(v)) && Meaning(y, Atom(w.scalar(v), [])) == Some(v)
  }

  ghost predicate KeyReadsBack(y: Yaml, w: Writer, k: string) {
    IsToken(w.key(k), true) && OneLine(w.key(k)) && MeaningOfKey(y, w.key(k)) == Some(k)
  }

  /** Printed on one line, without space at the end. */
  ghost predicate Tidy(s: string) {
    OneLine(s) && EndsVisible(s)
  }

  lemma {:induction false} DocumentOf(y: Yaml, w: Writer, v: Value) returns (d: Doc)
    requires ReadsBack(y, w, v)
    ensures WellFormed(d) && Meaning(y, d) == Some(v) && Tidy(Show(d))
    decreases v, 3
  {
    match v {
      case Array(_) => d := ListOf(y, w, v);
      case Object(_) => d := TableOf(y, w, v);
      case _ =>
        d := Atom(w.scalar(v), []);
        TokenEndsVisible(w.scalar(v), false);
        assert w.scalar(v) + [] == w.scalar(v);
    }
  }

  lemma ListOf(y: Yaml, w: Writer, v: Value) returns (d: Doc)
    requires ReadsBack(y, w, v) && v.Array?
    ensures WellFormed(d) && Meaning(y, d) == Some(v) && Tidy(Show(d))
    decreases v, 2
  {
    if v.items == [] {
      d := EmptyList([], []);
    } else {
      var items := ItemsOf(y, w, v, 0);
      d := List([], items, []);
      assert v.items[0..] == v.items;
    }
  }

  lemma TableOf(y: Yaml, w: Writer, v: Value) returns (d: Doc)
    requires ReadsBack(y, w, v) && v.Object?
    ensures WellFormed(d) && Meaning(y, d) == Some(v) && Tidy(Show(d))
    decreases v, 2
  {
    if v.fields == map[] {
      d := EmptyTable([], []);
    } else {
      var shown := FieldsOf(y, w, v, v.fields.Keys);
      d := Table([], shown, []);
      assert MeaningOfFields(y, shown).value == v.fields;
    }
  }

  lemma {:induction false} ItemsOf(y: Yaml, w: Writer, v: Value, i: nat) returns (items: Items)
    requires ReadsBack(y, w, v) && v.Array? && i < |v.items|
    ensures WellFormedItems(items) && MeaningOfItems(y, items) == Some(v.items[i..]) && OneLine(ShowItems(items))
    decreases v, 0, |v.items| - i
  {
    var item := DocumentOf(y, w, v.items[i]);
    assert v.items[i..] == [v.items[i]] + v.items[i + 1..];
    if i + 1 == |v.items| {
      items := LastItem(item, None);
      assert v.items[i..] == [v.items[i]];
    } else {
      var rest := ItemsOf(y, w, v, i + 1);
      items := MoreItems(item, [], rest);
    }
  }

  function Restricted(fields: map<string, Value>, keys: set<string>): map<string, Value>
    requires keys <= fields.Keys
  {
    map k | k in keys :: fields[k]
  }

  lemma RestrictedSplits(fields: map<string, Value>, keys: set<string>, key: string)
    requires keys <= fields.Keys && key in keys
    ensures Restricted(fields, keys) == map[key := fields[key]] + Restricted(fields, keys - {key})
    ensures keys - {key} == {} ==> Restricted(fields, keys) == map[key := fields[key]]
  {
    var others := Restricted(fields, keys - {key});
    assert keys == {key} + (keys - {key});
    assert keys - {key} == {} ==> others == map[];
  }

  lemma FieldOf(y: Yaml, w: Writer, v: Value, key: string) returns (field: Field)
    requires ReadsBack(y, w, v) && v.Object? && key in v.fields
    ensures WellFormedField(field) && MeaningOfField(y, field) == Some((key, v.fields[key]))
    ensures OneLine(ShowField(field))
    decreases v, 0, 0
  {
    var value := DocumentOf(y, w, v.fields[key]);
    field := Field(w.key(key), [], ':', [], value);
  }

  lemma {:induction false} FieldsOf(y: Yaml, w: Writer, v: Value, keys: set<string>) returns (shown: Fields)
    requires ReadsBack(y, w, v) && v.Object? && keys <= v.fields.Keys && keys != {}
    ensures WellFormedFields(shown) && MeaningOfFields(y, shown) == Some(Restricted(v.fields, keys))
    ensures OneLine(ShowFields(shown))
    decreases v, 0, |keys|
  {
    var key :| key in keys;
    var field := FieldOf(y, w, v, key);
    RestrictedSplits(v.fields, keys, key);
    if keys - {key} == {} {
      shown := LastField(field, None);
    } else {
      var rest := FieldsOf(y, w, v, keys - {key});
      shown := MoreFields(field, [], rest);
    }
  }

  /** For every value tree there is text that parses to exactly this tree. */
  lemma EveryTreeRoundTrips(y: Yaml, w: Writer, v: Value)
    requires ReadsBack(y, w, v)
    ensures exists d :: WellFormed(d) && Meaning(y, d) == Some(v) && Parse(y, Show(d)) == Ok(v)
  {
    var d := DocumentOf(y, w, v);
    assert [] + Show(d) + [] == Show(d);
    assert Prints(Show(d), d);
    PrintedIsParsed(y, Show(d), d);
  }
}

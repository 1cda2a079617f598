/**
 * Quoting of one shell word by the installer, and the field splitting and quote removal of
 * section 2.2 of the POSIX.1-2017 Shell Command Language as an independent reader of the result.
 */
module Shell {
  import opened Wrappers

  /** One element of an expanded field: a literal character, or the quoted `$@`. */
  datatype Piece = Literal(c: char) | AllArguments

  type Field = seq<Piece>

  function Literals(text: string): Field {
    if text == [] then [] else [Literal(text[0])] + Literals(text[1..])
  }

  /** The escape that closes the single quotes, adds a quoted quote, and opens them again. */
  const QUOTE_ESCAPE: string := ['\'', '"', '\'', '"', '\'']

  function ReplaceQuotes(value: string): string {
    if value == [] then []
    else (if value[0] == '\'' then QUOTE_ESCAPE else [value[0]]) + ReplaceQuotes(value[1..])
  }

  function QuoteShellWord(value: string): string {
    ['\''] + ReplaceQuotes(value) + ['\'']
  }

  datatype Mode = Bare | InSingle | InDouble

  /** Characters that end a word, start an expansion or form an operator when they are not quoted. */
  predicate NeedsQuoting(c: char) {
    c in {'|', '&', ';', '<', '>', '(', ')', '$', '`', '\n', '*', '?', '[', '#', '~', '=', '%'}
  }

  predicate Blank(c: char) {
    c == ' ' || c == '\t'
  }

  /** The word read so far; a quote starts a word even when nothing has been read. */
  function Started(field: Option<Field>): Field {
    if field.Some? then field.value else []
  }

  function Extend(field: Option<Field>, more: Piece): Option<Field> {
    Some(Started(field) + [more])
  }

  function Emit(field: Option<Field>, later: Option<seq<Field>>): Option<seq<Field>> {
    if field == None || later == None then later else Some([field.value] + later.value)
  }

  /**
   * Splits a command line into fields. `field` is the word being read, absent between words.
   * `None` means the line is not a simple command made of quoted words: an unterminated quote, an
   * unquoted special character, or an expansion other than `$@` in double quotes.
   */
  function Fields(line: string, mode: Mode, field: Option<Field>): Option<seq<Field>>
    decreases |line|
  {
    if line == [] then
      if mode == Bare then Emit(field, Some([])) else None
    else
      var c, rest := line[0], line[1..];
      match mode
      case Bare =>
        if c == '\'' then Fields(rest, InSingle, Some(Started(field)))
        else if c == '"' then Fields(rest, InDouble, Some(Started(field)))
        else if c == '\\' then
          if rest == [] then None
          else if rest[0] == '\n' then Fields(rest[1..], Bare, field)
          else Fields(rest[1..], Bare, Extend(field, Literal(rest[0])))
        else if Blank(c) then Emit(field, Fields(rest, Bare, None))
        else if NeedsQuoting(c) then None
        else Fields(rest, Bare, Extend(field, Literal(c)))
      case InSingle =>
        if c == '\'' then Fields(rest, Bare, field)
        else Fields(rest, InSingle, Extend(field, Literal(c)))
      case InDouble =>
        if c == '"' then Fields(rest, Bare, field)
        else if c == '$' then
          if rest != [] && rest[0] == '@' then Fields(rest[1..], InDouble, Extend(field, AllArguments)) else None
        else if c == '`' then None
        else if c == '\\' && rest != [] && rest[0] in {'$', '`', '"', '\\'} then
          Fields(rest[1..], InDouble, Extend(field, Literal(rest[0])))
        else if c == '\\' && rest != [] && rest[0] == '\n' then Fields(rest[1..], InDouble, field)
        else Fields(rest, InDouble, Extend(field, Literal(c)))
  }

  /** Inside single quotes, the escape reads back as one literal quote and stays inside them. */
  lemma EscapeReadsAsQuote(rest: string, field: Field)
    ensures Fields(QUOTE_ESCAPE + rest, InSingle, Some(field)) ==
            Fields(rest, InSingle, Some(field + [Literal('\'')]))
  {
    var s1, s2, s3, s4 := ['"', '\'', '"', '\''] + rest, ['\'', '"', '\''] + rest, ['"', '\''] + rest, ['\''] + rest;
    assert (QUOTE_ESCAPE + rest)[1..] == s1;
    assert s1[1..] == s2;
    assert s2[1..] == s3;
    assert s3[1..] == s4;
    assert s4[1..] == rest;
    var quoted := field + [Literal('\'')];
    calc {
      Fields(QUOTE_ESCAPE + rest, InSingle, Some(field));
      Fields(s1, Bare, Some(field));
      Fields(s2, InDouble, Some(field));
      Fields(s3, InDouble, Some(quoted));
      Fields(s4, Bare, Some(quoted));
      Fields(rest, InSingle, Some(quoted));
    }
  }

  lemma PlainReadsAsItself(c: char, rest: string, field: Field)
    requires c != '\''
    ensures Fields([c] + rest, InSingle, Some(field)) == Fields(rest, InSingle, Some(field + [Literal(c)]))
  {
    assert ([c] + rest)[1..] == rest;
  }

  lemma QuoteEnds(rest: string, field: Field)
    ensures Fields(['\''] + rest, InSingle, Some(field)) == Fields(rest, Bare, Some(field))
  {
    assert (['\''] + rest)[1..] == rest;
  }

  /** The body of a quoted word reads back as exactly the characters of the value. */
  lemma {:induction false} ReplacedReadsBack(value: string, tail: string, field: Field)
    ensures Fields(ReplaceQuotes(value) + ['\''] + tail, InSingle, Some(field)) ==
            Fields(tail, Bare, Some(field + Literals(value)))
    decreases |value|
  {
    hide Fields;
    var line := ReplaceQuotes(value) + ['\''] + tail;
    if value == [] {
      assert line == ['\''] + tail;
      QuoteEnds(tail, field);
      assert field + Literals(value) == field;
    } else {
      var rest := ReplaceQuotes(value[1..]) + ['\''] + tail;
      var next := field + [Literal(value[0])];
      ReplacedReadsBack(value[1..], tail, next);
      assert next + Literals(value[1..]) == field + Literals(value);
      if value[0] == '\'' {
        assert line == QUOTE_ESCAPE + rest;
        EscapeReadsAsQuote(rest, field);
      } else {
        assert line == [value[0]] + rest;
        PlainReadsAsItself(value[0], rest, field);
      }
    }
  }

  /** A quoted word, wherever it starts, adds exactly its value to the current field. */
  lemma QuotedReadsBack(value: string, tail: string)
    ensures Fields(QuoteShellWord(value) + tail, Bare, None) == Fields(tail, Bare, Some(Literals(value)))
  {
    var line := QuoteShellWord(value) + tail;
    assert line[1..] == ReplaceQuotes(value) + ['\''] + tail;
    ReplacedReadsBack(value, tail, []);
    var empty: Field := [];
    assert empty + Literals(value) == Literals(value);
  }

  /** A blank after a word ends it. */
  lemma BlankEndsField(tail: string, field: Field)
    ensures Fields([' '] + tail, Bare, Some(field)) == Emit(Some(field), Fields(tail, Bare, None))
  {
    assert ([' '] + tail)[1..] == tail;
  }
}

/**
 The token reader of Oracle CQN statements (`readCqnToken`), and the
 character-by-character lexer it refines.
 */
module CqnTokens {
  import opened Options

  datatype SqlError =
    | UnterminatedQuote
    | InvalidDelimiter
    | UnbalancedParentheses

  /** The characters that the pattern \s matches. */
  predicate IsSpace(c: char) {
    || '\U{9}' <= c <= '\U{d}'
    || c == ' '
    || c == '\U{a0}'
    || c == '\U{1680}'
    || '\U{2000}' <= c <= '\U{200a}'
    || c == '\U{2028}'
    || c == '\U{2029}'
    || c == '\U{202f}'
    || c == '\U{205f}'
    || c == '\U{3000}'
    || c == '\U{feff}'
  }

  /** Where a one-pass lexer is after the characters it has seen. */
  datatype Mode =
    | Plain
    | AfterQ                      // the last character may open an alternative quote
    | Delimiter                   // inside q', before the delimiter
    | Quoted(quote: char)
    | MaybeClosed(quote: char)    // the quote may still turn out to be doubled
    | Alternative(close: char)    // inside q'...
    | AlternativeMaybe(close: char)

  datatype Lex = Lex(mode: Mode, depth: nat) {
    predicate Outside() {
      mode.Plain? || mode.AfterQ? || mode.MaybeClosed?
    }

    /** Between tokens: outside quotes and parentheses. */
    predicate AtTop() {
      Outside() && depth == 0
    }
  }

  const START := Lex(Plain, 0)

  function Closing(delimiter: char): char {
    match delimiter
    case '[' => ']'
    case '{' => '}'
    case '<' => '>'
    case '(' => ')'
    case _ => delimiter
  }

  function PlainStep(depth: nat, c: char): Result<Lex, SqlError> {
    if c == 'q' || c == 'Q' then Ok(Lex(AfterQ, depth))
    else if c == '\'' || c == '"' then Ok(Lex(Quoted(c), depth))
    else if c == '(' then Ok(Lex(Plain, depth + 1))
    else if c == ')' then (if depth == 0 then Err(UnbalancedParentheses) else Ok(Lex(Plain, depth - 1)))
    else Ok(Lex(Plain, depth))
  }

  /** One character of the reference lexer. */
  function Step(lex: Lex, c: char): Result<Lex, SqlError> {
    match lex.mode
    case Plain => PlainStep(lex.depth, c)
    case AfterQ => if c == '\'' then Ok(Lex(Delimiter, lex.depth)) else PlainStep(lex.depth, c)
    case Delimiter => if IsSpace(c) then Err(InvalidDelimiter) else Ok(Lex(Alternative(Closing(c)), lex.depth))
    case Quoted(q) => Ok(if c == q then Lex(MaybeClosed(q), lex.depth) else lex)
    case MaybeClosed(q) => if c == q then Ok(Lex(Quoted(q), lex.depth)) else PlainStep(lex.depth, c)
    case Alternative(x) => Ok(if c == x then Lex(AlternativeMaybe(x), lex.depth) else lex)
    case AlternativeMaybe(x) =>
      Ok(if c == '\'' then Lex(Plain, lex.depth)
         else if c == x then lex
         else Lex(Alternative(x), lex.depth))
  }

  /** Only the two quote characters open a plain quote. */
  predicate Real(lex: Lex) {
    && (lex.mode.Quoted? ==> lex.mode.quote in "'\"")
    && (lex.mode.MaybeClosed? ==> lex.mode.quote in "'\"")
  }

  lemma StepStaysReal(lex: Lex, c: char)
    requires Real(lex)
    ensures Step(lex, c).Ok? ==> Real(Step(lex, c).value)
    ensures lex.AtTop() && IsSpace(c) ==> Step(lex, c) == Ok(START)
  {}

  lemma StartIsReal()
    ensures Real(START) && START.AtTop()
  {}

  /** What ending the statement in a given place reports. */
  function End(lex: Lex): Result<(), SqlError> {
    if !lex.Outside() then Err(UnterminatedQuote)
    else if lex.depth != 0 then Err(UnbalancedParentheses)
    else Ok(())
  }

  /** The lexer over a whole text. */
  function Run(s: string, lex: Lex): Result<Lex, SqlError> {
    if s == [] then Ok(lex)
    else match Step(lex, s[0])
      case Err(e) => Err(e)
      case Ok(next) => Run(s[1..], next)
  }

  /** Length of the token that the rest of the statement starts with. */
  function TokenLength(s: string, lex: Lex): (r: Result<nat, SqlError>)
    ensures r.Ok? ==> r.value <= |s|
  {
    if s == [] then (match End(lex) case Ok(_) => Ok(0) case Err(e) => Err(e))
    else if lex.AtTop() && IsSpace(s[0]) then Ok(0)
    else match Step(lex, s[0])
      case Err(e) => Err(e)
      case Ok(next) =>
        match TokenLength(s[1..], next)
        case Err(e) => Err(e)
        case Ok(n) => Ok(n + 1)
  }

  function Gap(s: string): (n: nat)
    ensures n <= |s|
    ensures forall i :: 0 <= i < n ==> IsSpace(s[i])
    ensures n < |s| ==> !IsSpace(s[n])
  {
    if s != [] && IsSpace(s[0]) then 1 + Gap(s[1..]) else 0
  }

  datatype Token = Token(text: string, start: nat, end: nat)

  /** What reading one token from `offset` means. */
  function ReadToken(sql: string, offset: nat): (r: Result<Option<Token>, SqlError>)
    requires offset <= |sql|
    ensures r.Ok? && r.value.Some? ==>
              offset <= r.value.value.start < r.value.value.end <= |sql| && r.value.value.text == sql[r.value.value.start..r.value.value.end]
  {
    var start := offset + Gap(sql[offset..]);
    if start == |sql| then Ok(None)
    else match TokenLength(sql[start..], START)
      case Err(e) => Err(e)
      case Ok(n) => Ok(Some(Token(sql[start..start + n], start, start + n)))
  }

  predicate AllSpace(s: string) {
    forall i :: 0 <= i < |s| ==> IsSpace(s[i])
  }

  /** What the loop of ReadCqnToken has in `quote`, against the reference lexer. */
  ghost predicate Agrees(quote: Option<string>, lex: Lex, rest: string) {
    match quote
    case None =>
      && lex.Outside()
      && (lex.mode.AfterQ? && rest != [] ==> rest[0] != '\'')
      && (lex.mode.MaybeClosed? && rest != [] ==> rest[0] != lex.mode.quote)
    case Some(q) =>
      || (|q| == 1 && lex.mode == Quoted(q[0]) && (q[0] == '\'' || q[0] == '"'))
      || (|q| == 2 && q[1] == '\'' &&
          (lex.mode == Alternative(q[0]) || (lex.mode == AlternativeMaybe(q[0]) && (rest != [] ==> rest[0] != '\''))))
  }

  /** Reads one token by scanning ahead for closing quotes and delimiters. */
  method ReadCqnToken(sql: string, offset: nat) returns (token: Result<Option<Token>, SqlError>)
    requires offset <= |sql|
    ensures token == ReadToken(sql, offset)
  {
    hide IsSpace, ReadToken, Skipping, Scanning, TokenLength;
    var start: Option<nat> := None;
    var quote: Option<string> := None;
    var parentheses: nat := 0;
    var index := offset;
    ghost var lex := START;
    SkipBegins(sql, offset);
    while index < |sql|
      invariant offset <= index <= |sql|
      invariant start.None? ==> quote.None? && lex == START && Skipping(sql, offset, index)
      invariant start.Some? ==> start.value <= index && Scanning(sql, offset, start.value, index, lex)
      invariant Agrees(quote, lex, sql[index..]) && parentheses == lex.depth
    {
      ghost var rest := sql[index..];
      assert rest[1..] == sql[index + 1..];
      var character := sql[index];
      if start.None? {
        SkipStep(sql, offset, index);
        if IsSpace(character) {
          index := index + 1;
          continue;
        }
        start := Some(index);
      }
      ScanStep(sql, offset, start.value, index, lex);
      PunctuationIsNotSpace();
      if quote.Some? {
        if |quote.value| > 1 {
          if index + 1 < |sql| && sql[index] == quote.value[0] && sql[index + 1] == quote.value[1] {
            lex := Step(lex, character).value;
            ScanStep(sql, offset, start.value, index + 1, lex);
            lex := Step(lex, sql[index + 1]).value;
            index := index + 1;
            quote := None;
          } else {
            lex := Step(lex, character).value;
          }
        } else if character == quote.value[0] {
          lex := Step(lex, character).value;
          if index + 1 < |sql| && sql[index + 1] == quote.value[0] {
            ScanStep(sql, offset, start.value, index + 1, lex);
            lex := Step(lex, sql[index + 1]).value;
            index := index + 1;
          } else {
            quote := None;
          }
        }
      } else if (character == 'q' || character == 'Q') && index + 1 < |sql| && sql[index + 1] == '\'' {
        lex := Step(lex, character).value;
        ScanStep(sql, offset, start.value, index + 1, lex);
        lex := Step(lex, sql[index + 1]).value;
        if index + 2 >= |sql| {
          ScanEnds(sql, offset, start.value, lex);
          return Err(UnterminatedQuote);
        }
        ScanStep(sql, offset, start.value, index + 2, lex);
        var delimiter := sql[index + 2];
        if IsSpace(delimiter) {
          return Err(InvalidDelimiter);
        }
        lex := Step(lex, delimiter).value;
        quote := Some([Closing(delimiter), '\'']);
        index := index + 2;
      } else if character == '\'' || character == '"' {
        lex := Step(lex, character).value;
        quote := Some([character]);
      } else if character == '(' {
        lex := Step(lex, character).value;
        parentheses := parentheses + 1;
      } else if character == ')' {
        if parentheses == 0 {
          return Err(UnbalancedParentheses);
        }
        lex := Step(lex, character).value;
        parentheses := parentheses - 1;
      } else if parentheses == 0 && IsSpace(character) {
        return Ok(Some(Token(sql[start.value..index], start.value, index)));
      } else {
        lex := Step(lex, character).value;
      }
      index := index + 1;
    }
    if start.None? {
      SkipEnds(sql, offset);
      return Ok(None);
    }
    ScanEnds(sql, offset, start.value, lex);
    if quote.Some? {
      return Err(UnterminatedQuote);
    }
    if parentheses != 0 {
      return Err(UnbalancedParentheses);
    }
    token := Ok(Some(Token(sql[start.value..], start.value, |sql|)));
  }

  /** Only white space between `offset` and `index`. */
  ghost predicate Skipping(sql: string, offset: nat, index: nat) {
    && offset <= index <= |sql|
    && Gap(sql[offset..]) == index - offset + Gap(sql[index..])
  }

  /** The token read from `offset` starts at `start`, and the lexer is in `lex` at `index`. */
  ghost predicate Scanning(sql: string, offset: nat, start: nat, index: nat, lex: Lex) {
    && offset <= start <= index <= |sql|
    && start < |sql|
    && Gap(sql[offset..]) == start - offset
    && match TokenLength(sql[index..], lex)
       case Err(e) => TokenLength(sql[start..], START) == Err(e)
       case Ok(n) => TokenLength(sql[start..], START) == Ok(index - start + n)
  }

  lemma PunctuationIsNotSpace()
    ensures !IsSpace('q') && !IsSpace('Q') && !IsSpace('\'') && !IsSpace('"') && !IsSpace('(') && !IsSpace(')')
  {}

  lemma SkipBegins(sql: string, offset: nat)
    requires offset <= |sql|
    ensures Skipping(sql, offset, offset)
  {}

  lemma SkipStep(sql: string, offset: nat, index: nat)
    requires Skipping(sql, offset, index) && index < |sql|
    ensures IsSpace(sql[index]) ==> Skipping(sql, offset, index + 1)
    ensures !IsSpace(sql[index]) ==> Scanning(sql, offset, index, index, START)
  {
    assert sql[index..][1..] == sql[index + 1..];
  }

  lemma SkipEnds(sql: string, offset: nat)
    requires Skipping(sql, offset, |sql|)
    ensures ReadToken(sql, offset) == Ok(None)
  {}

  /** Consuming one character, or stopping at it, keeps the account of the token. */
  lemma ScanStep(sql: string, offset: nat, start: nat, index: nat, lex: Lex)
    requires Scanning(sql, offset, start, index, lex) && index < |sql|
    ensures lex.AtTop() && IsSpace(sql[index]) ==>
              ReadToken(sql, offset) == Ok(Some(Token(sql[start..index], start, index)))
    ensures !(lex.AtTop() && IsSpace(sql[index])) ==>
              match Step(lex, sql[index])
              case Ok(next) => Scanning(sql, offset, start, index + 1, next)
              case Err(e) => ReadToken(sql, offset) == Err(e)
  {
    hide IsSpace, Step;
    assert sql[index..][1..] == sql[index + 1..];
  }

  lemma ScanEnds(sql: string, offset: nat, start: nat, lex: Lex)
    requires Scanning(sql, offset, start, |sql|, lex)
    ensures match End(lex)
            case Ok(_) => ReadToken(sql, offset) == Ok(Some(Token(sql[start..], start, |sql|)))
            case Err(e) => ReadToken(sql, offset) == Err(e)
  {
    assert sql[start..|sql|] == sql[start..];
  }
}

/**
 Reading a CQN statement token by token cuts it exactly where a one-pass
 lexer is outside quotes and parentheses on white space.
 */
module CqnTiling {
  import opened Options
  import opened CqnTokens

  /** Repeated reading from `offset`. */
  function ReadAll(sql: string, offset: nat): Result<seq<Token>, SqlError>
    requires offset <= |sql|
    decreases |sql| - offset
  {
    match ReadToken(sql, offset)
    case Err(e) => Err(e)
    case Ok(None) => Ok([])
    case Ok(Some(token)) =>
      match ReadAll(sql, token.end)
      case Err(e) => Err(e)
      case Ok(rest) => Ok([token] + rest)
  }

  /** For every character, whether it belongs to a token, in one pass over the text. */
  function Scan(s: string, lex: Lex): Result<seq<bool>, SqlError> {
    if s == [] then (match End(lex) case Ok(_) => Ok([]) case Err(e) => Err(e))
    else match Step(lex, s[0])
      case Err(e) => Err(e)
      case Ok(next) =>
        match Scan(s[1..], next)
        case Err(e) => Err(e)
        case Ok(rest) => Ok([!(lex.AtTop() && IsSpace(s[0]))] + rest)
  }

  function Repeat(b: bool, n: nat): (r: seq<bool>)
    ensures |r| == n && forall i :: 0 <= i < n ==> r[i] == b
  {
    if n == 0 then [] else [b] + Repeat(b, n - 1)
  }

  /** White space outside quotes and parentheses, judged from everything before it. */
  ghost predicate Separator(sql: string, k: nat)
    requires k < |sql|
  {
    IsSpace(sql[k]) && Run(sql[..k], START).Ok? && Run(sql[..k], START).value.AtTop()
  }

  function Prepend(b: bool, n: nat, marks: Result<seq<bool>, SqlError>): (r: Result<seq<bool>, SqlError>)
    ensures n == 0 ==> r == marks
  {
    match marks
    case Err(e) => Err(e)
    case Ok(m) =>
      assert n == 0 ==> Repeat(b, n) + m == m;
      Ok(Repeat(b, n) + m)
  }

  lemma PrependOne(b: bool, n: nat, marks: Result<seq<bool>, SqlError>)
    requires n > 0 && marks.Ok?
    ensures Prepend(b, n, marks) == Ok([b] + Prepend(b, n - 1, marks).value)
  {
    assert [b] + (Repeat(b, n - 1) + marks.value) == Repeat(b, n) + marks.value;
  }

  lemma {:induction false} ScanGap(s: string, lex: Lex, n: nat)
    requires lex.AtTop() && Real(lex) && n <= |s| && AllSpace(s[..n])
    ensures Scan(s, lex) == Prepend(false, n, Scan(s[n..], if n == 0 then lex else START))
    decreases n
  {
    assert s[0..] == s;
    if n > 0 {
      StartIsReal();
      hide IsSpace, Step, Real;
      assert s[..n][0] == s[0] && s[1..][..n - 1] == s[..n][1..] && s[1..][n - 1..] == s[n..];
      StepStaysReal(lex, s[0]);
      ScanGap(s[1..], START, n - 1);
      if Scan(s[n..], START).Ok? { PrependOne(false, n, Scan(s[n..], START)); }
    }
  }

  lemma {:induction false} ScanToken(s: string, lex: Lex) returns (after: Lex)
    requires Real(lex)
    ensures Real(after)
    ensures match TokenLength(s, lex)
            case Err(e) => Scan(s, lex) == Err(e)
            case Ok(n) =>
              && after.AtTop()
              && (n == |s| || IsSpace(s[n]))
              && Scan(s, lex) == Prepend(true, n, Scan(s[n..], after))
  {
    StartIsReal();
    hide IsSpace, Real;
    after := lex;
    assert s[0..] == s;
    if s == [] {
    } else if lex.AtTop() && IsSpace(s[0]) {
    } else {
      StepStaysReal(lex, s[0]);
      match Step(lex, s[0])
      case Err(_) =>
      case Ok(next) =>
        hide Step;
        after := ScanToken(s[1..], next);
        if TokenLength(s[1..], next).Ok? {
          var n := TokenLength(s[1..], next).value;
          assert s[1..][n..] == s[n + 1..];
          if Scan(s[n + 1..], after).Ok? { PrependOne(true, n + 1, Scan(s[n + 1..], after)); }
        }
    }
  }

  lemma {:induction false} ScanMarksSeparators(s: string, lex: Lex)
    ensures match Scan(s, lex)
            case Err(e) => (Run(s, lex) == Err(e)) || (Run(s, lex).Ok? && End(Run(s, lex).value) == Err(e))
            case Ok(m) =>
              && Run(s, lex).Ok? && End(Run(s, lex).value).Ok?
              && |m| == |s|
              && forall k :: 0 <= k < |s| ==>
                   && Run(s[..k], lex).Ok?
                   && (m[k] <==> !(IsSpace(s[k]) && Run(s[..k], lex).value.AtTop()))
  {
    hide IsSpace, Step;
    if s != [] && Step(lex, s[0]).Ok? {
      var next := Step(lex, s[0]).value;
      ScanMarksSeparators(s[1..], next);
      if Scan(s, lex).Ok? {
        forall k | 0 < k < |s|
          ensures Run(s[..k], lex) == Run(s[1..][..k - 1], next)
        {
          assert s[..k][1..] == s[1..][..k - 1];
        }
      }
    }
  }

  /** One of the tokens covers position k. */
  predicate InToken(tokens: seq<Token>, k: nat) {
    tokens != [] && (tokens[0].start <= k < tokens[0].end || InToken(tokens[1..], k))
  }

  /** The tokens lie one after the other between `from` and `length`. */
  predicate Ordered(tokens: seq<Token>, from: nat, length: nat) {
    && from <= length
    && (tokens != [] ==>
          && from <= tokens[0].start < tokens[0].end
          && Ordered(tokens[1..], tokens[0].end, length))
  }

  lemma {:induction false} LaterTokens(tokens: seq<Token>, from: nat, length: nat, k: nat)
    requires Ordered(tokens, from, length) && k < from
    ensures !InToken(tokens, k)
  {
    if tokens != [] {
      LaterTokens(tokens[1..], tokens[0].end, length, k);
    }
  }

  /** One more token in front. */
  lemma TokenInFront(token: Token, rest: seq<Token>, from: nat, length: nat)
    requires from <= token.start < token.end && Ordered(rest, token.end, length)
    ensures Ordered([token] + rest, from, length)
    ensures forall k: nat :: InToken([token] + rest, k) <==> token.start <= k < token.end || (token.end <= k && InToken(rest, k))
  {
    assert ([token] + rest)[1..] == rest;
    forall k: nat | k < token.end
      ensures !InToken(rest, k)
    {
      LaterTokens(rest, token.end, length, k);
    }
  }

  /** What repeated reading from `offset` returns, against the one-pass scan of the rest of the statement. */
  ghost predicate ReadsAsScanned(sql: string, offset: nat, lex: Lex)
    requires offset <= |sql|
  {
    match ReadAll(sql, offset)
    case Err(e) => Scan(sql[offset..], lex) == Err(e)
    case Ok(tokens) =>
      && Ordered(tokens, offset, |sql|)
      && Scan(sql[offset..], lex).Ok?
      && Marks(Scan(sql[offset..], lex).value, tokens, offset, |sql|)
  }

  lemma {:induction false} ReadAllIsScan(sql: string, offset: nat, lex: Lex)
    requires offset <= |sql| && lex.AtTop() && Real(lex)
    requires lex == START || offset == |sql| || IsSpace(sql[offset])
    ensures ReadsAsScanned(sql, offset, lex)
    decreases |sql| - offset
  {
    hide IsSpace, Step, TokenLength, Real, Lex.AtTop, Scan, ReadsAsScanned, Repeat, Prepend;
    var s := sql[offset..];
    var g := Gap(s);
    ScanGap(s, lex, g);
    var start := offset + g;
    assert s[g..] == sql[start..];
    StartIsReal();
    if start == |sql| {
      NothingLeft(sql, offset, lex);
    } else {
      var after := ScanToken(sql[start..], START);
      if TokenLength(sql[start..], START).Ok? {
        var n := TokenLength(sql[start..], START).value;
        assert sql[start..][n..] == sql[start + n..];
        assert lex == START || g > 0;
        ReadAllIsScan(sql, start + n, after);
        FirstToken(sql, offset, lex, n, after);
      } else {
        FirstTokenFails(sql, offset, lex);
      }
    }
  }

  lemma NothingLeft(sql: string, offset: nat, lex: Lex)
    requires offset <= |sql| && lex.AtTop() && Gap(sql[offset..]) == |sql| - offset
    requires Scan(sql[offset..], lex) == Prepend(false, |sql| - offset, Scan([], if offset == |sql| then lex else START))
    ensures ReadsAsScanned(sql, offset, lex)
  {
    NothingMarked(|sql| - offset, offset);
  }

  lemma FirstTokenFails(sql: string, offset: nat, lex: Lex)
    requires offset <= |sql| && Gap(sql[offset..]) < |sql| - offset
    requires TokenLength(sql[offset + Gap(sql[offset..])..], START).Err?
    requires Scan(sql[offset..], lex) ==
             Prepend(false, Gap(sql[offset..]), Err(TokenLength(sql[offset + Gap(sql[offset..])..], START).error))
    ensures ReadsAsScanned(sql, offset, lex)
  {}

  lemma FirstToken(sql: string, offset: nat, lex: Lex, n: nat, after: Lex)
    requires offset <= |sql| && Gap(sql[offset..]) < |sql| - offset
    requires TokenLength(sql[offset + Gap(sql[offset..])..], START) == Ok(n)
    requires ReadsAsScanned(sql, offset + Gap(sql[offset..]) + n, after)
    requires Scan(sql[offset..], lex) ==
             Prepend(false, Gap(sql[offset..]), Prepend(true, n, Scan(sql[offset + Gap(sql[offset..]) + n..], after)))
    ensures ReadsAsScanned(sql, offset, lex)
  {
    hide IsSpace, Step, TokenLength, Scan, Ordered, InToken, Marks, Repeat, ReadToken;
    var start := offset + Gap(sql[offset..]);
    var token := Token(sql[start..start + n], start, start + n);
    FirstTokenIsRead(sql, offset, n);
    if ReadAll(sql, start + n).Ok? {
      MarksInFront(token, ReadAll(sql, start + n).value, offset, |sql|, Scan(sql[start + n..], after).value);
    }
  }

  lemma FirstTokenIsRead(sql: string, offset: nat, n: nat)
    requires offset <= |sql| && Gap(sql[offset..]) < |sql| - offset
    requires TokenLength(sql[offset + Gap(sql[offset..])..], START) == Ok(n)
    ensures var start := offset + Gap(sql[offset..]);
            && start + n <= |sql|
            && ReadToken(sql, offset) == Ok(Some(Token(sql[start..start + n], start, start + n)))
  {
    hide IsSpace, Step;
  }

  lemma NothingMarked(n: nat, from: nat)
    ensures Marks(Repeat(false, n) + [], [], from, from + n) && Ordered([], from, from + n)
  {}

  /** `marks` says of every position from `from` on whether a token covers it. */
  ghost predicate Marks(marks: seq<bool>, tokens: seq<Token>, from: nat, length: nat) {
    && from <= length
    && |marks| == length - from
    && forall k: nat :: from <= k < length ==> (marks[k - from] <==> InToken(tokens, k))
  }

  lemma MarksInFront(token: Token, rest: seq<Token>, from: nat, length: nat, marks: seq<bool>)
    requires from <= token.start < token.end && Ordered(rest, token.end, length) && Marks(marks, rest, token.end, length)
    ensures Ordered([token] + rest, from, length)
    ensures Marks(Repeat(false, token.start - from) + (Repeat(true, token.end - token.start) + marks), [token] + rest, from, length)
  {
    hide InToken, Ordered;
    TokenInFront(token, rest, from, length);
    var gap, word := Repeat(false, token.start - from), Repeat(true, token.end - token.start);
    var all := gap + (word + marks);
    forall k: nat | from <= k < length
      ensures all[k - from] <==> InToken([token] + rest, k)
    {
      if k >= token.end { assert all[k - from] == marks[k - token.end]; }
    }
  }

  /**
   Tokens tile the statement: they are in order, and a character belongs to one
   of them exactly when it is not white space outside quotes and parentheses.
   */
  lemma TokensTileTheStatement(sql: string)
    requires ReadAll(sql, 0).Ok?
    ensures Ordered(ReadAll(sql, 0).value, 0, |sql|)
    ensures forall k: nat :: k < |sql| ==> (InToken(ReadAll(sql, 0).value, k) <==> !Separator(sql, k))
  {
    hide IsSpace, Step, InToken, ReadAll, Ordered;
    assert sql[0..] == sql;
    StartIsReal();
    ReadAllIsScan(sql, 0, START);
    ScanMarksSeparators(sql, START);
  }

  /** Reading the whole statement fails exactly as the lexer does, and with the same report. */
  lemma ReadingFailsAsTheLexerDoes(sql: string, e: SqlError)
    ensures ReadAll(sql, 0) == Err(e) <==>
            Run(sql, START) == Err(e) || (Run(sql, START).Ok? && End(Run(sql, START).value) == Err(e))
  {
    hide IsSpace, Step, InToken, Ordered;
    assert sql[0..] == sql;
    StartIsReal();
    ReadAllIsScan(sql, 0, START);
    ScanMarksSeparators(sql, START);
  }

  // ---- alternative quotes

  /** The character that closes an alternative quote: brackets close with their partner, anything else with itself. */
  predicate Partners(open: char, close: char) {
    if open in "[{<(" then (open, close) in {('[', ']'), ('{', '}'), ('<', '>'), ('(', ')')} else open == close
  }

  /** The closing character is not followed by a quote before the end. */
  predicate OpenUntilEnd(body: string, close: char) {
    forall i :: 0 <= i < |body| - 1 ==> !(body[i] == close && body[i + 1] == '\'')
  }

  lemma {:induction false} AlternativeBody(body: string, rest: string, close: char, lex: Lex)
    requires OpenUntilEnd(body, close)
    requires lex.mode == Alternative(close) || (lex.mode == AlternativeMaybe(close) && (body == [] || body[0] != '\''))
    requires close != '\''
    ensures TokenLength(body + [close, '\''] + rest, lex) ==
            match TokenLength(rest, Lex(Plain, lex.depth)) case Err(e) => Err(e) case Ok(n) => Ok(|body| + 2 + n)
  {
    var whole := body + [close, '\''] + rest;
    if body == [] {
      assert whole == [close, '\''] + rest && whole[1..] == ['\''] + rest && whole[1..][1..] == rest;
    } else {
      assert whole[1..] == body[1..] + [close, '\''] + rest;
      AlternativeBody(body[1..], rest, close, Step(lex, body[0]).value);
    }
  }

  /**
   A q-quoted literal is one token, whatever quotes, parentheses and blanks it
   holds, for each kind of delimiter.
   */
  lemma QQuotedLiteralIsOneToken(q: char, open: char, close: char, body: string)
    requires q == 'q' || q == 'Q'
    requires !IsSpace(open) && close != '\'' && Partners(open, close) && OpenUntilEnd(body, close)
    ensures var literal := [q, '\'', open] + body + [close, '\''];
            TokenLength(literal, START) == Ok(|literal|) && ReadAll(literal, 0) == Ok([Token(literal, 0, |literal|)])
  {
    hide IsSpace;
    PunctuationIsNotSpace();
    var literal := [q, '\'', open] + body + [close, '\''];
    assert literal[1..] == ['\'', open] + body + [close, '\''] && literal[1..][1..] == [open] + body + [close, '\''];
    assert literal[1..][1..][1..] == body + [close, '\''] + [];
    assert Closing(open) == close;
    AlternativeBody(body, [], close, Lex(Alternative(close), 0));
    var s1, s2, s3 := literal[1..], literal[1..][1..], literal[1..][1..][1..];
    assert TokenLength([], Lex(Plain, 0)) == Ok(0);
    assert TokenLength(s3, Lex(Alternative(close), 0)) == Ok(|body| + 2);
    assert TokenLength(s2, Lex(Delimiter, 0)) == Ok(|body| + 3);
    assert TokenLength(s1, Lex(AfterQ, 0)) == Ok(|body| + 4);
    WholeIsOneToken(literal);
  }

  lemma WholeIsOneToken(sql: string)
    requires sql != [] && !IsSpace(sql[0]) && TokenLength(sql, START) == Ok(|sql|)
    ensures ReadAll(sql, 0) == Ok([Token(sql, 0, |sql|)])
  {
    hide IsSpace, TokenLength;
    assert Gap(sql) == 0 && sql[0..] == sql && sql[0..|sql|] == sql;
    assert ReadToken(sql, 0) == Ok(Some(Token(sql, 0, |sql|)));
    assert sql[|sql|..] == [] && ReadToken(sql, |sql|) == Ok(None);
    assert ReadAll(sql, |sql|) == Ok([]);
    assert [Token(sql, 0, |sql|)] + [] == [Token(sql, 0, |sql|)];
  }
}

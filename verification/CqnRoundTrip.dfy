/**
 Where tokens end, how words are read one after the other, and which texts hold
 no token FROM: what parsing and printing CQN statements rests on.
 */
module CqnRoundTrip {
  import opened Options
  import opened CqnTokens
  import opened CqnPlan

  // ---- where tokens end

  lemma {:induction false} CutToken(s: string, lex: Lex, m: nat)
    requires TokenLength(s, lex).Ok? && TokenLength(s, lex).value <= m <= |s|
    ensures TokenLength(s[..m], lex) == TokenLength(s, lex)
  {
    hide IsSpace, Step;
    if s != [] && !(lex.AtTop() && IsSpace(s[0])) {
      assert s[..m][1..] == s[1..][..m - 1];
      CutToken(s[1..], Step(lex, s[0]).value, m - 1);
    }
  }

  lemma {:induction false} ExtendToken(s: string, y: string, lex: Lex)
    requires TokenLength(s, lex).Ok? && (y == [] || IsSpace(y[0]))
    ensures TokenLength(s + y, lex) == TokenLength(s, lex)
  {
    hide IsSpace, Step;
    if s == [] {
      assert s + y == y;
    } else if !(lex.AtTop() && IsSpace(s[0])) {
      assert (s + y)[1..] == s[1..] + y;
      ExtendToken(s[1..], y, Step(lex, s[0]).value);
    }
  }

  lemma SpaceKeepsInside(lex: Lex, c: char)
    requires Real(lex) && IsSpace(c) && !lex.AtTop() && Step(lex, c).Ok?
    ensures !Step(lex, c).value.AtTop()
  {}

  lemma {:induction false} TokensEndVisibly(s: string, lex: Lex)
    requires Real(lex) && TokenLength(s, lex).Ok? && TokenLength(s, lex).value > 0
    ensures !IsSpace(s[TokenLength(s, lex).value - 1])
  {
    hide IsSpace, Step, Real;
    var next := Step(lex, s[0]).value;
    StepStaysReal(lex, s[0]);
    if TokenLength(s[1..], next).value > 0 {
      TokensEndVisibly(s[1..], next);
    } else if IsSpace(s[0]) {
      SpaceKeepsInside(lex, s[0]);
    }
  }

  /** Reading past a gap finds the word after it. */
  lemma ReadsWord(sql: string, offset: nat, gap: string, word: string, rest: string)
    requires offset <= |sql| && sql[offset..] == gap + word + rest
    requires AllSpace(gap) && word != [] && !IsSpace(word[0])
    requires TokenLength(word + rest, START) == Ok(|word|)
    ensures ReadToken(sql, offset) == Ok(Some(Token(word, offset + |gap|, offset + |gap| + |word|)))
  {
    hide IsSpace, TokenLength;
    GapIs(gap, word + rest);
    assert gap + word + rest == gap + (word + rest);
    assert sql[offset + |gap|..] == sql[offset..][|gap|..] == word + rest;
    assert sql[offset + |gap|..offset + |gap| + |word|] == (word + rest)[..|word|] == word;
  }

  lemma {:induction false} GapIs(gap: string, rest: string)
    requires AllSpace(gap) && (rest == [] || !IsSpace(rest[0]))
    ensures Gap(gap + rest) == |gap|
  {
    hide IsSpace;
    if gap == [] {
      assert gap + rest == rest;
    } else {
      assert (gap + rest)[1..] == gap[1..] + rest;
      GapIs(gap[1..], rest);
    }
  }

  predicate PlainChar(c: char) {
    !IsSpace(c) && c !in "'\"()"
  }

  lemma {:induction false} PlainWord(word: string, rest: string, mode: Mode)
    requires forall i :: 0 <= i < |word| ==> PlainChar(word[i])
    requires rest == [] || IsSpace(rest[0])
    requires mode.Plain? || mode.AfterQ?
    ensures TokenLength(word + rest, Lex(mode, 0)) == Ok(|word|)
  {
    if word == [] {
      assert word + rest == rest;
    } else {
      assert (word + rest)[1..] == word[1..] + rest;
      PlainWord(word[1..], rest, if word[0] == 'q' || word[0] == 'Q' then AfterQ else Plain);
    }
  }

  // ---- a text without FROM

  /** Every token of the text can be read, and none is FROM. */
  predicate NoFrom(s: string)
    decreases |s|
  {
    var g := Gap(s);
    g == |s| ||
    match TokenLength(s[g..], START)
    case Err(_) => false
    case Ok(n) => n > 0 && Upper(s[g..g + n]) != "FROM" && NoFrom(s[g + n..])
  }

  /** The first word of a text without FROM. */
  lemma FirstWord(s: string) returns (gap: string, word: string, later: string)
    requires NoFrom(s) && Gap(s) < |s|
    ensures s == gap + word + later && AllSpace(gap) && word != [] && !IsSpace(word[0])
    ensures TokenLength(word + later, START) == Ok(|word|) && Upper(word) != "FROM" && NoFrom(later)
  {
    hide IsSpace, TokenLength, Upper;
    var g := Gap(s);
    var n := TokenLength(s[g..], START).value;
    gap, word, later := s[..g], s[g..g + n], s[g + n..];
    ThreeParts(s, g, n);
  }

  lemma ThreeParts(s: string, g: nat, n: nat)
    requires g + n <= |s|
    ensures s[g..] == s[g..g + n] + s[g + n..] && s == s[..g] + s[g..g + n] + s[g + n..]
  {}

  lemma NoFromJoin(gap: string, word: string, later: string)
    requires AllSpace(gap) && word != [] && !IsSpace(word[0])
    requires TokenLength(word + later, START) == Ok(|word|) && Upper(word) != "FROM" && NoFrom(later)
    ensures NoFrom(gap + word + later)
  {
    hide IsSpace, TokenLength, Upper;
    var s := gap + word + later;
    assert s == gap + (word + later);
    GapIs(gap, word + later);
    assert s[|gap|..] == word + later;
    assert s[|gap|..|gap| + |word|] == word;
    assert s[|gap| + |word|..] == later;
  }

  lemma NoFromSpace(s: string)
    requires AllSpace(s)
    ensures NoFrom(s)
  {
    hide IsSpace;
    GapIs(s, []);
    assert s + [] == s;
  }

  /** The token read at an offset, as a cut of the text. */
  lemma TokenCuts(sql: string, offset: nat) returns (gap: string, later: string)
    requires offset <= |sql| && ReadToken(sql, offset).Ok? && ReadToken(sql, offset).value.Some?
    ensures var token := ReadToken(sql, offset).value.value;
            && sql[offset..] == gap + token.text + later
            && AllSpace(gap) && token.text != [] && !IsSpace(token.text[0])
            && TokenLength(token.text + later, START) == Ok(|token.text|)
            && token.start == offset + |gap| && token.end == token.start + |token.text|
            && sql[token.end..] == later
  {
    hide IsSpace, TokenLength;
    var token := ReadToken(sql, offset).value.value;
    var g := Gap(sql[offset..]);
    gap, later := sql[offset..][..g], sql[token.end..];
    assert sql[token.start..] == token.text + later;
  }

  /** The first FROM after a text without one. */
  lemma {:induction false} FindsFrom(sql: string, offset: nat, s: string, gap: string, from: string, rest: string)
    requires offset <= |sql| && sql[offset..] == s + (gap + from + rest) && NoFrom(s)
    requires gap != [] && AllSpace(gap) && Upper(from) == "FROM" && !IsSpace(from[0])
    requires TokenLength(from + rest, START) == Ok(|from|)
    ensures FindFrom(sql, offset) == Ok(Some(Token(from, offset + |s| + |gap|, offset + |s| + |gap| + |from|)))
    decreases |s|
  {
    hide IsSpace, TokenLength, Upper, ReadToken, NoFrom, Gap;
    if Gap(s) == |s| {
      VisibleEndsGap(s);
      assert s + (gap + from + rest) == (s + gap) + from + rest;
      ReadsWord(sql, offset, s + gap, from, rest);
    } else {
      var space, word, later := FirstWord(s);
      var y := gap + from + rest;
      ExtendToken(word + later, y, START);
      assert word + later + y == word + (later + y);
      assert s + y == space + word + (later + y);
      ReadsWord(sql, offset, space, word, later + y);
      var next := offset + |space| + |word|;
      assert sql[next..] == sql[offset..][|space| + |word|..] == later + y;
      FindsFrom(sql, next, later, gap, from, rest);
    }
  }

  lemma BlankIsSpace()
    ensures IsSpace(' ')
  {}

  lemma KeywordsAreUpper()
    ensures Upper("FROM") == "FROM" && Upper("WHERE") == "WHERE" && Upper("SELECT") == "SELECT" && Upper("AS") == "AS"
  {}

  /** What lies before the first FROM has none. */
  lemma {:induction false} BeforeFrom(sql: string, offset: nat)
    requires offset <= |sql| && FindFrom(sql, offset).Ok? && FindFrom(sql, offset).value.Some?
    ensures NoFrom(sql[offset..FindFrom(sql, offset).value.value.start])
    decreases |sql| - offset
  {
    hide IsSpace, TokenLength, Upper, NoFrom, ReadToken;
    var token := ReadToken(sql, offset).value.value;
    var gap, later := TokenCuts(sql, offset);
    var from := FindFrom(sql, offset).value.value;
    var s := sql[offset..from.start];
    if Upper(token.text) == "FROM" {
      assert s == sql[offset..][..|gap|] == gap;
      NoFromSpace(s);
    } else {
      BeforeFrom(sql, token.end);
      var between := sql[token.end..from.start];
      assert between == later[..from.start - token.end];
      assert (token.text + later)[..|token.text| + |between|] == token.text + between;
      CutToken(token.text + later, START, |token.text| + |between|);
      assert s == sql[offset..][..from.start - offset] == gap + token.text + between;
      NoFromJoin(gap, token.text, between);
    }
  }

  lemma NoFromAfterGap(s: string)
    requires NoFrom(s)
    ensures NoFrom(s[Gap(s)..])
  {
    hide IsSpace, TokenLength, Upper, NoFrom;
    if Gap(s) == |s| {
      assert s[Gap(s)..] == [];
      NoFromSpace([]);
    } else {
      var gap, word, later := FirstWord(s);
      GapIs(gap, word + later);
      assert gap + (word + later) == s;
      NoFromJoin([], word, later);
      assert s[|gap|..] == [] + word + later;
    }
  }

  lemma {:induction false} NoFromBeforeGap(s: string, space: string)
    requires NoFrom(s + space) && AllSpace(space)
    ensures NoFrom(s)
    decreases |s|
  {
    hide IsSpace, TokenLength, Upper, NoFrom, Real, Gap;
    if AllSpace(s) {
      NoFromSpace(s);
    } else {
      VisibleEndsGap(s + space);
      var gap, word, later := FirstWord(s + space);
      StartIsReal();
      TokensEndVisibly(word + later, START);
      var n := |gap| + |word|;
      assert (s + space)[n - 1] == word[|word| - 1];
      assert n <= |s|;
      var rest := s[n..];
      assert later == (s + space)[n..] == rest + space;
      assert (word + later)[..|word| + |rest|] == word + rest;
      CutToken(word + later, START, |word| + |rest|);
      assert s == (s + space)[..|s|] == gap + word + rest;
      NoFromBeforeGap(rest, space);
      NoFromJoin(gap, word, rest);
    }
  }

  lemma VisibleEndsGap(s: string)
    ensures !AllSpace(s) ==> Gap(s) < |s|
    ensures AllSpace(s) ==> Gap(s) == |s|
  {}

  lemma NoFromTrimmed(s: string)
    requires NoFrom(s)
    ensures NoFrom(Trim(s))
  {
    hide NoFrom, IsSpace, Gap;
    NoFromAfterGap(s);
    var t := s[Gap(s)..];
    var e := TrimEnd(t);
    assert t == e + t[|e|..];
    NoFromBeforeGap(e, t[|e|..]);
  }
}

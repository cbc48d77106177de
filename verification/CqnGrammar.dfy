/**
 Which statements the CQN parser accepts: a grammar in which a statement is
 spelled from its parts, and the parser as its exact inverse.
 */
module CqnGrammar {
  import opened Options
  import opened CqnTokens
  import opened CqnPlan
  import opened CqnRoundTrip

  /** Trimmed text that is not empty. */
  predicate Trimmed(s: string) {
    s != [] && !IsSpace(s[0]) && !IsSpace(s[|s| - 1])
  }

  /** What holds of every plan the parser returns, its condition aside. */
  predicate Printable(plan: Plan) {
    && Trimmed(plan.projection) && NoFrom(plan.projection) && NoMarkers(plan.projection)
    && Qualified(plan.tableName)
    && (plan.alias.Some? ==> Identifier(plan.alias.value) && Upper(plan.alias.value) != "WHERE")
  }

  /**
   How a statement is written: the white space before each part, the case of its
   keywords, and whether its alias comes after an AS.
   */
  datatype Spelling = Spelling(
    select: string, beforeProjection: string,
    beforeFrom: string, from: string, beforeTable: string,
    beforeAs: string, asWord: Option<string>, beforeAlias: string,
    beforeWhere: string, whereWord: string, beforeCondition: string)

  predicate Blank(gap: string) {
    gap != [] && AllSpace(gap)
  }

  predicate Spells(sp: Spelling) {
    && Upper(sp.select) == "SELECT" && Upper(sp.from) == "FROM" && Upper(sp.whereWord) == "WHERE"
    && (sp.asWord.Some? ==> Upper(sp.asWord.value) == "AS")
    && Blank(sp.beforeProjection) && Blank(sp.beforeFrom) && Blank(sp.beforeTable)
    && Blank(sp.beforeAs) && Blank(sp.beforeAlias) && Blank(sp.beforeWhere) && Blank(sp.beforeCondition)
  }

  function AliasText(alias: Option<string>, sp: Spelling): string {
    if alias.None? then "" else (if sp.asWord.Some? then sp.beforeAs + sp.asWord.value else "") + (sp.beforeAlias + alias.value)
  }

  function WhereText(where: Option<string>, sp: Spelling): string {
    if where.None? then "" else sp.beforeWhere + sp.whereWord + (sp.beforeCondition + where.value)
  }

  /** SELECT projection FROM table [[AS] alias] [WHERE condition]. */
  function Spelled(plan: Plan, sp: Spelling): string {
    sp.select + (sp.beforeProjection + plan.projection + (sp.beforeFrom + sp.from + (sp.beforeTable + plan.tableName
      + (AliasText(plan.alias, sp) + WhereText(plan.where, sp)))))
  }

  // ---- white space and comment markers

  lemma TrimKeeps(before: string, s: string, after: string)
    requires AllSpace(before) && Trimmed(s) && AllSpace(after)
    ensures Trim(before + s + after) == s
  {
    hide IsSpace;
    assert before + s + after == before + (s + after);
    GapIs(before, s + after);
    assert (before + (s + after))[|before|..] == s + after;
    TrimEndKeeps(s, after);
  }

  lemma {:induction false} TrimEndKeeps(s: string, after: string)
    requires s != [] && !IsSpace(s[|s| - 1]) && AllSpace(after)
    ensures TrimEnd(s + after) == s
    decreases |after|
  {
    hide IsSpace;
    if after == [] {
      assert s + after == s;
    } else {
      assert (s + after)[..|s + after| - 1] == s + after[..|after| - 1];
      assert (s + after)[|s + after| - 1] == after[|after| - 1];
      TrimEndKeeps(s, after[..|after| - 1]);
    }
  }

  lemma TrimIsTrimmed(s: string)
    requires Trim(s) != []
    ensures Trimmed(Trim(s))
    ensures exists i, j :: 0 <= i <= j <= |s| && Trim(s) == s[i..j]
  {
    hide IsSpace;
    var g := Gap(s);
    var t := TrimEnd(s[g..]);
    assert t[0] == s[g..][0];
    assert Trim(s) == s[g..g + |t|];
  }

  lemma NoMarkersInSlice(s: string, i: nat, j: nat)
    requires i <= j <= |s| && NoMarkers(s)
    ensures NoMarkers(s[i..j])
  {
    hide Marker;
    var t := s[i..j];
    forall k | 0 <= k < |t|
      ensures t[k] != ';' && (k + 1 < |t| ==> !Marker(t[k], t[k + 1]))
    {
      assert t[k] == s[i + k];
      if k + 1 < |t| { assert t[k + 1] == s[i + k + 1]; }
    }
  }

  /** A character that is part of no comment marker. */
  predicate Safe(c: char) {
    c != '-' && c != '/' && c != '*'
  }

  /** Joining two texts makes no marker if one of them is safe at the joint. */
  lemma NoMarkersJoin(a: string, b: string)
    requires NoMarkers(a) && NoMarkers(b)
    requires a == [] || b == [] || Safe(a[|a| - 1]) || Safe(b[0])
    ensures NoMarkers(a + b)
  {
    var s := a + b;
    forall k | 0 <= k < |s|
      ensures s[k] != ';' && (k + 1 < |s| ==> !Marker(s[k], s[k + 1]))
    {
      if k < |a| {
        assert s[k] == a[k];
        if k + 1 < |a| { assert s[k + 1] == a[k + 1]; }
      } else {
        assert s[k] == b[k - |a|];
        if k + 1 < |s| { assert s[k + 1] == b[k + 1 - |a|]; }
      }
    }
  }

  lemma SafeTextHasNoMarkers(s: string)
    requires forall i :: 0 <= i < |s| ==> Safe(s[i]) && s[i] != ';'
    ensures NoMarkers(s)
  {}

  lemma NamesAreSafe(s: string)
    requires Qualified(s)
    ensures NoMarkers(s) && Trimmed(s) && forall i :: 0 <= i < |s| ==> PlainChar(s[i])
  {
    if !Identifier(s) {
      var d :| 0 <= d < |s| && s[d] == '.' && Identifier(s[..d]) && Identifier(s[d + 1..]);
      forall i | 0 <= i < |s|
        ensures IsNameChar(s[i]) || s[i] == '.'
      {
        if i < d { assert s[i] == s[..d][i]; }
        if i > d { assert s[i] == s[d + 1..][i - d - 1]; }
      }
    }
    SafeTextHasNoMarkers(s);
  }

  lemma LiteralsHaveNoMarkers()
    ensures NoMarkers("SELECT") && NoMarkers("FROM") && NoMarkers("WHERE") && NoMarkers(" ") && NoMarkers("(") && NoMarkers(")")
    ensures NoMarkers("") && NoMarkers(" AND ") && NoMarkers("ROWID") && NoMarkers(".ROWID") && NoMarkers(" IN (")
  {
    SafeTextHasNoMarkers("SELECT");
    SafeTextHasNoMarkers("FROM");
    SafeTextHasNoMarkers("WHERE");
    SafeTextHasNoMarkers(" AND ");
    SafeTextHasNoMarkers("ROWID");
    SafeTextHasNoMarkers(".ROWID");
    SafeTextHasNoMarkers(" IN (");
  }

  lemma IdentifiersAreNames(s: string)
    ensures Identifier(s) ==> Qualified(s)
  {}

  // ---- parsing a spelled statement

  lemma NoFromSpaced(gap: string, s: string)
    requires NoFrom(s) && AllSpace(gap)
    ensures NoFrom(gap + s)
  {
    hide NoFrom, IsSpace, Gap;
    if Gap(s) == |s| {
      VisibleEndsGap(s);
      NoFromSpace(gap + s);
    } else {
      var space, word, later := FirstWord(s);
      assert gap + s == (gap + space) + word + later;
      NoFromJoin(gap + space, word, later);
    }
  }

  /** Nothing follows, or white space does. */
  predicate EndsWord(rest: string) {
    rest == [] || IsSpace(rest[0])
  }

  lemma PlainCharIsVisible(c: char)
    ensures PlainChar(c) ==> !IsSpace(c)
  {}

  /** A keyword or name that can be read as one token. */
  predicate Readable(word: string) {
    word != [] && forall i :: 0 <= i < |word| ==> PlainChar(word[i])
  }

  lemma KeywordsAreReadable(word: string, keyword: string)
    requires Upper(word) == keyword && keyword in {"SELECT", "FROM", "AS", "WHERE"}
    ensures Readable(word)
  {
    assert |word| == |keyword| > 0;
    forall i | 0 <= i < |word| ensures PlainChar(word[i]) {
      assert UpperChar(word[i]) == keyword[i] && 'A' <= keyword[i] <= 'Z';
    }
  }

  predicate Parts(text: string, gap: string, word: string, rest: string) {
    text == gap + word + rest
  }

  lemma ReadsPart(sql: string, offset: nat, gap: string, word: string, rest: string)
    requires offset <= |sql| && Parts(sql[offset..], gap, word, rest)
    requires AllSpace(gap) && Readable(word) && EndsWord(rest)
    ensures ReadToken(sql, offset) == Ok(Some(Token(word, offset + |gap|, offset + |gap| + |word|)))
    ensures offset + |gap| + |word| <= |sql| && sql[offset + |gap| + |word|..] == rest
  {
    PlainCharIsVisible(word[0]);
    hide IsSpace, PlainChar, ReadToken;
    PlainWord(word, rest, Plain);
    ReadsWord(sql, offset, gap, word, rest);
    assert sql[offset..][|gap| + |word|..] == rest;
  }

  lemma CutAfter(sql: string, offset: nat, a: string, b: string)
    requires offset <= |sql| && sql[offset..] == a + b
    ensures offset + |a| <= |sql| && sql[offset..offset + |a|] == a && sql[offset + |a|..] == b
  {
    assert sql[offset..][|a|..] == b;
    assert sql[offset..][..|a|] == a;
  }

  /** The pieces of a text with blanks between them. */
  lemma FromPieces(sql: string, offset: nat, b: string, p: string, g: string, f: string, rest: string)
    requires offset <= |sql| && sql[offset..] == b + p + (g + f + rest)
    ensures offset + |b| + |p| + |g| + |f| <= |sql|
    ensures sql[offset..offset + |b| + |p| + |g|] == b + p + g
    ensures sql[offset + |b| + |p| + |g| + |f|..] == rest
  {
    assert b + p + (g + f + rest) == (b + p + g) + (f + rest) == (b + p + g + f) + rest;
    CutAfter(sql, offset, b + p + g, f + rest);
    CutAfter(sql, offset, b + p + g + f, rest);
  }

  lemma FindsFromAfterBlank(sql: string, offset: nat, b: string, p: string, g: string, fromOn: string, f: string, rest: string)
    requires offset <= |sql| && Parts(sql[offset..], b, p, fromOn) && Parts(fromOn, g, f, rest)
    requires Blank(b) && Blank(g) && EndsWord(rest)
    requires Trimmed(p) && NoFrom(p) && Readable(f) && Upper(f) == "FROM"
    ensures var start := offset + |b| + |p| + |g|;
            && start + |f| <= |sql|
            && FindFrom(sql, offset) == Ok(Some(Token(f, start, start + |f|)))
            && Trim(sql[offset..start]) == p
            && sql[start + |f|..] == rest
  {
    hide IsSpace, Upper, NoFrom, FindFrom, PlainChar, Trim, TokenLength;
    PlainCharIsVisible(f[0]);
    PlainWord(f, rest, Plain);
    NoFromSpaced(b, p);
    FindsFrom(sql, offset, b + p, g, f, rest);
    FromPieces(sql, offset, b, p, g, f, rest);
    TrimKeeps(b, p, g);
  }

  lemma BlanksEndWords(gap: string, rest: string)
    requires Blank(gap)
    ensures EndsWord(gap + rest) && EndsWord(gap)
  {
    assert (gap + rest)[0] == gap[0];
  }

  lemma TailEndsWords(alias: Option<string>, where: Option<string>, sp: Spelling)
    requires Spells(sp)
    ensures EndsWord(AliasText(alias, sp) + WhereText(where, sp)) && EndsWord(WhereText(where, sp))
  {
    hide Upper, IsSpace;
    var a, w := AliasText(alias, sp), WhereText(where, sp);
    assert w != [] ==> w[0] == sp.beforeWhere[0];
    assert a != [] ==> a[0] == if sp.asWord.Some? then sp.beforeAs[0] else sp.beforeAlias[0];
    assert a + w != [] ==> (a + w)[0] == if a == [] then w[0] else a[0];
  }

  /** The first three reads: SELECT, FROM and the table. */
  lemma SpelledTokens(sql: string, plan: Plan, sp: Spelling) returns (select: Token, from: Token, table: Token)
    requires Printable(plan) && Spells(sp) && sql == Spelled(plan, sp)
    ensures ReadToken(sql, 0) == Ok(Some(select)) && select.text == sp.select && select.end <= |sql|
    ensures FindFrom(sql, select.end) == Ok(Some(from))
    ensures select.end <= from.start <= from.end <= |sql| && Trim(sql[select.end..from.start]) == plan.projection
    ensures ReadToken(sql, from.end) == Ok(Some(table)) && table.text == plan.tableName && table.end <= |sql|
    ensures sql[table.end..] == AliasText(plan.alias, sp) + WhereText(plan.where, sp)
  {
    hide *;
    var fromOn, afterFrom := SpelledParts(sql, plan, sp);
    var s := |sp.select|;
    var f := s + |sp.beforeProjection| + |plan.projection| + |sp.beforeFrom|;
    var t := f + |sp.from| + |sp.beforeTable|;
    select, from, table := Token(sp.select, 0, s), Token(sp.from, f, f + |sp.from|), Token(plan.tableName, t, t + |plan.tableName|);
    ReadsPart(sql, 0, [], sp.select, sp.beforeProjection + plan.projection + fromOn);
    FindsFromAfterBlank(sql, s, sp.beforeProjection, plan.projection, sp.beforeFrom, fromOn, sp.from, afterFrom);
    ReadsPart(sql, from.end, sp.beforeTable, plan.tableName, AliasText(plan.alias, sp) + WhereText(plan.where, sp));
  }

  lemma SpelledParts(sql: string, plan: Plan, sp: Spelling) returns (fromOn: string, afterFrom: string)
    requires Printable(plan) && Spells(sp) && sql == Spelled(plan, sp)
    ensures var tail := AliasText(plan.alias, sp) + WhereText(plan.where, sp);
            && Parts(sql[0..], [], sp.select, sp.beforeProjection + plan.projection + fromOn)
            && Parts(sp.beforeProjection + plan.projection + fromOn, sp.beforeProjection, plan.projection, fromOn)
            && Parts(fromOn, sp.beforeFrom, sp.from, afterFrom)
            && Parts(afterFrom, sp.beforeTable, plan.tableName, tail)
            && EndsWord(sp.beforeProjection + plan.projection + fromOn) && EndsWord(afterFrom) && EndsWord(tail)
    ensures Readable(sp.select) && Readable(sp.from) && Readable(plan.tableName) && Upper(sp.from) == "FROM"
    ensures AllSpace([]) && AllSpace(sp.beforeTable) && Blank(sp.beforeProjection) && Blank(sp.beforeFrom)
    ensures Trimmed(plan.projection) && NoFrom(plan.projection)
  {
    KeywordsAreReadable(sp.select, "SELECT");
    KeywordsAreReadable(sp.from, "FROM");
    NamesAreSafe(plan.tableName);
    TailEndsWords(plan.alias, plan.where, sp);
    hide IsSpace, Upper, NoFrom, PlainChar, Trim, Qualified, NoMarkers, Identifier, AliasText, WhereText, EndsWord;
    var tail := AliasText(plan.alias, sp) + WhereText(plan.where, sp);
    afterFrom := sp.beforeTable + plan.tableName + tail;
    fromOn := sp.beforeFrom + sp.from + afterFrom;
    BlanksEndWords(sp.beforeTable, plan.tableName + tail);
    BlanksEndWords(sp.beforeProjection, plan.projection + fromOn);
    assert sp.beforeTable + (plan.tableName + tail) == afterFrom;
    assert sp.beforeProjection + (plan.projection + fromOn) == sp.beforeProjection + plan.projection + fromOn;
  }

  lemma ParsesWhere(sql: string, offset: nat, alias: Option<string>, where: Option<string>, sp: Spelling)
    requires offset <= |sql| && sql[offset..] == WhereText(where, sp) && Spells(sp) && (where.Some? ==> Trimmed(where.value))
    ensures where.None? ==> ReadToken(sql, offset) == Ok(None)
    ensures where.Some? ==> ReadToken(sql, offset).Ok? && ReadToken(sql, offset).value.Some? && ReadToken(sql, offset).value.value.text == sp.whereWord
    ensures ParseWhere(sql, alias, ReadToken(sql, offset).value) == Ok((alias, where))
  {
    hide *;
    if where.None? {
      NoWhereParses(sql, offset, alias, sp);
    } else {
      WhereParts(where.value, sp);
      ReadsPart(sql, offset, sp.beforeWhere, sp.whereWord, sp.beforeCondition + where.value);
      WhereParses(sql, alias, Token(sp.whereWord, offset + |sp.beforeWhere|, offset + |sp.beforeWhere| + |sp.whereWord|), sp.beforeCondition, where.value);
    }
  }

  lemma NoWhereParses(sql: string, offset: nat, alias: Option<string>, sp: Spelling)
    requires offset <= |sql| && sql[offset..] == WhereText(None, sp)
    ensures ReadToken(sql, offset) == Ok(None) && ParseWhere(sql, alias, None) == Ok((alias, None))
  {}

  lemma WhereParts(condition: string, sp: Spelling)
    requires Spells(sp)
    ensures Parts(WhereText(Some(condition), sp), sp.beforeWhere, sp.whereWord, sp.beforeCondition + condition)
    ensures AllSpace(sp.beforeWhere) && AllSpace(sp.beforeCondition) && EndsWord(sp.beforeCondition + condition)
    ensures Readable(sp.whereWord) && Upper(sp.whereWord) == "WHERE"
  {
    KeywordsAreReadable(sp.whereWord, "WHERE");
    hide IsSpace, Upper, PlainChar, EndsWord, AllSpace;
    BlanksEndWords(sp.beforeCondition, condition);
  }

  lemma WhereParses(sql: string, alias: Option<string>, token: Token, gap: string, condition: string)
    requires token.end <= |sql| && Upper(token.text) == "WHERE" && sql[token.end..] == gap + condition
    requires AllSpace(gap) && Trimmed(condition)
    ensures ParseWhere(sql, alias, Some(token)) == Ok((alias, Some(condition)))
  {
    hide IsSpace, Upper, Trim;
    TrimKeeps(gap, condition, []);
    assert gap + condition + [] == gap + condition;
  }

  /** The alias and the condition; without an AS before it, an alias AS is taken for one. */
  lemma ParsesTail(sql: string, offset: nat, alias: Option<string>, where: Option<string>, sp: Spelling)
    requires offset <= |sql| && sql[offset..] == AliasText(alias, sp) + WhereText(where, sp)
    requires Spells(sp) && (where.Some? ==> Trimmed(where.value))
    requires alias.Some? ==> Identifier(alias.value) && Upper(alias.value) != "WHERE"
    ensures ParseTail(sql, offset) ==
            if alias.Some? && sp.asWord.None? && Upper(alias.value) == "AS" then Err(Syntax) else Ok((alias, where))
  {
    WhereIsWhere(sp);
    hide IsSpace, ReadToken, Upper, ParseWhere, ParseAlias, WhereText, AliasText, Trimmed, Spells, Identifier;
    AliasTexts(alias, where, sp);
    if alias.None? {
      ParsesWhere(sql, offset, None, where, sp);
    } else if sp.asWord.None? {
      var token := AliasIsRead(sql, offset, alias.value, where, sp);
    } else {
      var end := AsComesFirst(sql, offset, alias.value, where, sp);
      var token := AliasIsRead(sql, end, alias.value, where, sp);
    }
  }

  lemma AliasTexts(alias: Option<string>, where: Option<string>, sp: Spelling)
    ensures alias.None? ==> AliasText(alias, sp) + WhereText(where, sp) == WhereText(where, sp)
    ensures alias.Some? && sp.asWord.None? ==> AliasText(alias, sp) + WhereText(where, sp) == sp.beforeAlias + alias.value + WhereText(where, sp)
  {
    hide WhereText;
    if alias.None? {
      assert [] + WhereText(where, sp) == WhereText(where, sp);
    } else if sp.asWord.None? {
      assert "" + (sp.beforeAlias + alias.value) == sp.beforeAlias + alias.value;
    }
  }

  /** The alias is read, and what follows it is nothing or the WHERE. */
  lemma AliasIsRead(sql: string, offset: nat, alias: string, where: Option<string>, sp: Spelling) returns (token: Token)
    requires offset <= |sql| && sql[offset..] == sp.beforeAlias + alias + WhereText(where, sp)
    requires Spells(sp) && (where.Some? ==> Trimmed(where.value)) && Identifier(alias)
    ensures ReadToken(sql, offset) == Ok(Some(token)) && token.text == alias && token.end <= |sql|
    ensures ParseAlias(sql, token) == Ok((Some(alias), where))
    ensures ReadToken(sql, token.end).Ok?
    ensures match ReadToken(sql, token.end).value
            case None => true
            case Some(next) => Upper(next.text) == "WHERE"
  {
    hide *;
    IdentifiersAreReadable(alias);
    TailEndsWords(None, where, sp);
    WhereIsWhere(sp);
    ReadsPart(sql, offset, sp.beforeAlias, alias, WhereText(where, sp)) by { PartsAre(sql[offset..], sp.beforeAlias, alias, WhereText(where, sp)); }
    token := Token(alias, offset + |sp.beforeAlias|, offset + |sp.beforeAlias| + |alias|);
    ParsesWhere(sql, token.end, Some(alias), where, sp);
    AliasParses(sql, token, where);
  }

  lemma PartsAre(text: string, gap: string, word: string, rest: string)
    requires text == gap + word + rest
    ensures Parts(text, gap, word, rest)
  {}

  lemma AliasParses(sql: string, token: Token, where: Option<string>)
    requires token.end <= |sql| && Identifier(token.text) && Trimmed(token.text) && ReadToken(sql, token.end).Ok?
    requires ParseWhere(sql, Some(token.text), ReadToken(sql, token.end).value) == Ok((Some(token.text), where))
    ensures ParseAlias(sql, token) == Ok((Some(token.text), where))
  {
    hide IsSpace, ReadToken, ParseWhere, Trimmed, Trim, Identifier;
    NothingIsSpace();
    TrimKeeps([], token.text, []);
    assert [] + token.text + [] == token.text;
  }

  lemma IdentifiersAreReadable(name: string)
    requires Identifier(name)
    ensures Readable(name) && Trimmed(name)
  {
    IdentifiersAreNames(name);
    NamesAreSafe(name);
  }

  lemma NothingIsSpace()
    ensures AllSpace([])
  {}

  lemma WhereIsWhere(sp: Spelling)
    requires Spells(sp)
    ensures Upper(sp.whereWord) == "WHERE" && (sp.asWord.Some? ==> Upper(sp.asWord.value) == "AS")
    ensures AllSpace([]) && AllSpace(sp.beforeAlias)
  {}

  lemma AsComesFirst(sql: string, offset: nat, alias: string, where: Option<string>, sp: Spelling) returns (end: nat)
    requires offset <= |sql| && sp.asWord.Some? && Spells(sp)
    requires sql[offset..] == AliasText(Some(alias), sp) + WhereText(where, sp)
    ensures end <= |sql| && ReadToken(sql, offset) == Ok(Some(Token(sp.asWord.value, offset + |sp.beforeAs|, end)))
    ensures sql[end..] == sp.beforeAlias + alias + WhereText(where, sp)
  {
    hide *;
    var rest := sp.beforeAlias + alias + WhereText(where, sp);
    AsParts(alias, where, sp);
    ReadsPart(sql, offset, sp.beforeAs, sp.asWord.value, rest);
    end := offset + |sp.beforeAs| + |sp.asWord.value|;
  }

  lemma AsParts(alias: string, where: Option<string>, sp: Spelling)
    requires Spells(sp) && sp.asWord.Some?
    ensures var rest := sp.beforeAlias + alias + WhereText(where, sp);
            Parts(AliasText(Some(alias), sp) + WhereText(where, sp), sp.beforeAs, sp.asWord.value, rest) && EndsWord(rest)
    ensures AllSpace(sp.beforeAs) && Readable(sp.asWord.value)
  {
    KeywordsAreReadable(sp.asWord.value, "AS");
    hide IsSpace, AllSpace, EndsWord, WhereText, Upper, Readable;
    var w := WhereText(where, sp);
    BlanksEndWords(sp.beforeAlias, alias + w);
    assert sp.beforeAlias + (alias + w) == sp.beforeAlias + alias + w;
  }

  /** Parsing, given what the reads return. */
  lemma ParsesParts(forbidden: string -> bool, input: string, select: Token, from: Token, table: Token)
    requires Trim(input) != [] && NoMarkers(Trim(input))
    requires ReadToken(Trim(input), 0) == Ok(Some(select)) && Upper(select.text) == "SELECT"
    requires FindFrom(Trim(input), select.end) == Ok(Some(from))
    requires ReadToken(Trim(input), from.end) == Ok(Some(table)) && Qualified(table.text)
    ensures Parse(forbidden, input) ==
            match ParseTail(Trim(input), table.end)
            case Err(e) => Err(e)
            case Ok((alias, where)) => Checked(forbidden, Plan(Trim(Trim(input)[select.end..from.start]), table.text, alias, where))
  {
    hide IsSpace, ReadToken, Upper, ParseTail, NoMarkers, Trim, Qualified, FindFrom, Checked;
  }

  /** Parsing a statement gives its parts back, however it is spelled; an alias AS needs an AS before it. */
  lemma SpelledParses(forbidden: string -> bool, input: string, plan: Plan, sp: Spelling)
    requires Printable(plan) && Spells(sp) && (plan.where.Some? ==> Trimmed(plan.where.value))
    requires Trim(input) == Spelled(plan, sp) && NoMarkers(Trim(input))
    ensures Parse(forbidden, input) ==
            if plan.alias.Some? && sp.asWord.None? && Upper(plan.alias.value) == "AS" then Err(Syntax) else Checked(forbidden, plan)
  {
    hide IsSpace, ReadToken, Upper, ParseTail, NoFrom, NoMarkers, Trim, Qualified, FindFrom, Spelled, AliasText, WhereText, Parse;
    var select, from, table := SpelledTokens(Trim(input), plan, sp);
    SelectIsSelect(sp);
    NotEmpty(Trim(input), select);
    ParsesParts(forbidden, input, select, from, table);
    ParsesTail(Trim(input), table.end, plan.alias, plan.where, sp);
  }

  lemma SelectIsSelect(sp: Spelling)
    requires Spells(sp)
    ensures Upper(sp.select) == "SELECT"
  {}

  lemma NotEmpty(sql: string, token: Token)
    requires ReadToken(sql, 0) == Ok(Some(token))
    ensures sql != []
  {}

  // ---- what the parser returns can be printed

  lemma TokenTextIsTrimmed(sql: string, offset: nat)
    requires offset <= |sql| && ReadToken(sql, offset).Ok? && ReadToken(sql, offset).value.Some?
    ensures Trim(ReadToken(sql, offset).value.value.text) == ReadToken(sql, offset).value.value.text
  {
    hide IsSpace, TokenLength, Real, Trim;
    var gap, later := TokenCuts(sql, offset);
    var text := ReadToken(sql, offset).value.value.text;
    StartIsReal();
    TokensEndVisibly(text + later, START);
    assert (text + later)[|text| - 1] == text[|text| - 1];
    TrimKeeps([], text, []);
    assert [] + text + [] == text;
  }

  /** An alias that ParseTail returns is an identifier and not WHERE; a condition is trimmed text of the statement. */
  lemma TailIsPrintable(sql: string, offset: nat)
    requires offset <= |sql| && NoMarkers(sql) && ParseTail(sql, offset).Ok?
    ensures var (alias, where) := ParseTail(sql, offset).value;
            && (alias.Some? ==> Identifier(alias.value) && Upper(alias.value) != "WHERE")
            && (where.Some? ==> Trimmed(where.value) && NoMarkers(where.value))
  {
    hide IsSpace, Upper, NoMarkers, Trim, ReadToken, Identifier, Trimmed;
    var first := ReadToken(sql, offset).value;
    if first.Some? {
      TokenTextIsTrimmed(sql, offset);
      ReadMoves(sql, offset);
      if Upper(first.value.text) == "WHERE" {
        WhereIsPrintable(sql, None, first);
      } else if Upper(first.value.text) == "AS" {
        TokenTextIsTrimmed(sql, first.value.end);
        ReadMoves(sql, first.value.end);
        var second := ReadToken(sql, first.value.end).value.value;
        ReadMoves(sql, second.end);
        WhereIsPrintable(sql, Some(Trim(second.text)), ReadToken(sql, second.end).value);
      } else {
        ReadMoves(sql, first.value.end);
        WhereIsPrintable(sql, Some(Trim(first.value.text)), ReadToken(sql, first.value.end).value);
      }
    }
  }

  lemma WhereIsPrintable(sql: string, alias: Option<string>, token: Option<Token>)
    requires NoMarkers(sql) && (token.Some? ==> token.value.end <= |sql|) && ParseWhere(sql, alias, token).Ok?
    ensures ParseWhere(sql, alias, token).value.0 == alias
    ensures var where := ParseWhere(sql, alias, token).value.1;
            where.Some? ==> Trimmed(where.value) && NoMarkers(where.value)
  {
    hide IsSpace, Upper, NoMarkers, Trim;
    if token.Some? {
      TrimmedPart(sql, token.value.end, |sql|);
      assert sql[token.value.end..|sql|] == sql[token.value.end..];
    }
  }

  lemma TrimmedPart(sql: string, i: nat, j: nat)
    requires i <= j <= |sql| && NoMarkers(sql)
    ensures NoMarkers(Trim(sql[i..j]))
    ensures Trim(sql[i..j]) != [] ==> Trimmed(Trim(sql[i..j]))
  {
    hide IsSpace, NoMarkers, Trim, Trimmed;
    NoMarkersInSlice(sql, i, j);
    if Trim(sql[i..j]) == [] {
      LiteralsHaveNoMarkers();
    } else {
      TrimIsTrimmed(sql[i..j]);
      var a, b :| 0 <= a <= b <= |sql[i..j]| && Trim(sql[i..j]) == sql[i..j][a..b];
      NoMarkersInSlice(sql[i..j], a, b);
    }
  }

  lemma ParsedPlanIsPrintable(forbidden: string -> bool, input: string)
    requires Parse(forbidden, input).Ok?
    ensures var plan := Parse(forbidden, input).value;
            && Printable(plan) && !forbidden(plan.projection)
            && (plan.where.Some? ==> Trimmed(plan.where.value) && NoMarkers(plan.where.value) && !forbidden(plan.where.value))
  {
    hide IsSpace, Upper, NoMarkers, Trim, ReadToken, FindFrom, Identifier, Trimmed, Qualified, ParseTail, NoFrom;
    var sql := Trim(input);
    var select := ReadToken(sql, 0).value.value;
    ReadMoves(sql, 0);
    var from := FindFrom(sql, select.end).value.value;
    ReadMoves(sql, from.end);
    var table := ReadToken(sql, from.end).value.value;
    BeforeFrom(sql, select.end);
    NoFromTrimmed(sql[select.end..from.start]);
    TrimmedPart(sql, select.end, from.start);
    TailIsPrintable(sql, table.end);
  }

  // ---- what the parser accepts is spelled

  lemma {:induction false} WordsEndAtSpace(s: string, lex: Lex)
    requires TokenLength(s, lex).Ok?
    ensures EndsWord(s[TokenLength(s, lex).value..])
  {
    if s != [] && !(lex.AtTop() && IsSpace(s[0])) {
      hide IsSpace, Step;
      var next := Step(lex, s[0]).value;
      WordsEndAtSpace(s[1..], next);
      assert s[1..][TokenLength(s[1..], next).value..] == s[TokenLength(s, lex).value..];
    }
  }

  /** After a word, the next token comes after white space. */
  lemma ReadsAfterBlank(sql: string, offset: nat, token: Token) returns (gap: string)
    requires offset <= |sql| && ReadToken(sql, offset) == Ok(Some(token))
    ensures token.end <= |sql| && token.start == offset + |gap|
    ensures AllSpace(gap) && sql[offset..] == gap + token.text + sql[token.end..]
    ensures EndsWord(sql[offset..]) ==> Blank(gap)
    ensures EndsWord(sql[token.end..])
  {
    hide IsSpace, TokenLength, ReadToken;
    var later;
    gap, later := TokenCuts(sql, offset);
    WordsEndAtSpace(token.text + later, START);
    assert (token.text + later)[|token.text|..] == later;
    if gap == [] {
      assert sql[offset..][0] == token.text[0];
    }
  }

  /** The white space around a text. */
  lemma TrimParts(s: string) returns (before: string, after: string)
    ensures s == before + Trim(s) + after && AllSpace(before) && AllSpace(after)
    ensures Trim(s) != [] && EndsWord(s) ==> Blank(before)
    ensures Trim(s) != [] && s != [] && IsSpace(s[|s| - 1]) ==> Blank(after)
    ensures Trim(s) != [] && !IsSpace(s[|s| - 1]) ==> after == []
  {
    hide IsSpace, Trim, AllSpace;
    before, after := TrimCuts(s);
    if Trim(s) != [] {
      TrimIsTrimmed(s);
      EndsOfThree(before, Trim(s), after);
      if after != [] { LastIsSpace(after); }
    }
  }

  lemma TrimCuts(s: string) returns (before: string, after: string)
    ensures s == before + Trim(s) + after && AllSpace(before) && AllSpace(after)
  {
    hide IsSpace;
    before := s[..Gap(s)];
    var rest := s[Gap(s)..];
    after := rest[|TrimEnd(rest)|..];
    assert rest == TrimEnd(rest) + after && s == before + rest;
  }

  lemma EndsOfThree(a: string, b: string, c: string)
    requires b != []
    ensures (a + b + c)[0] == if a == [] then b[0] else a[0]
    ensures (a + b + c)[|a + b + c| - 1] == if c == [] then b[|b| - 1] else c[|c| - 1]
  {}

  lemma LastIsSpace(s: string)
    requires s != [] && AllSpace(s)
    ensures IsSpace(s[|s| - 1])
  {}

  lemma {:induction false} FromAfterBlank(sql: string, offset: nat, from: Token)
    requires offset <= |sql| && EndsWord(sql[offset..]) && FindFrom(sql, offset) == Ok(Some(from))
    ensures offset < from.start < from.end <= |sql| && from.text == sql[from.start..from.end] && Upper(from.text) == "FROM"
    ensures IsSpace(sql[from.start - 1]) && EndsWord(sql[from.end..])
    decreases |sql| - offset
  {
    hide IsSpace, Upper;
    var token := ReadToken(sql, offset).value.value;
    var gap := ReadsAfterBlank(sql, offset, token);
    if Upper(token.text) == "FROM" {
      assert sql[from.start - 1] == sql[offset..][|gap| - 1] == gap[|gap| - 1];
    } else {
      FromAfterBlank(sql, token.end, from);
    }
  }

  /** Nothing is left to read at the end of a text that ends visibly. */
  lemma NothingIsLeft(sql: string, offset: nat)
    requires offset <= |sql| && sql != [] && !IsSpace(sql[|sql| - 1]) && ReadToken(sql, offset) == Ok(None)
    ensures sql[offset..] == []
  {
    hide IsSpace;
  }

  lemma WhereIsSpelled(sql: string, offset: nat, alias: Option<string>) returns (sp: Spelling)
    requires offset <= |sql| && sql != [] && !IsSpace(sql[|sql| - 1]) && EndsWord(sql[offset..])
    requires ReadToken(sql, offset).Ok? && ParseWhere(sql, alias, ReadToken(sql, offset).value).Ok?
    ensures var where := ParseWhere(sql, alias, ReadToken(sql, offset).value).value.1;
            Spells(sp) && sql[offset..] == WhereText(where, sp)
  {
    StandardSpells();
    hide IsSpace, ReadToken, Upper, AllSpace;
    sp := STANDARD;
    var read := ReadToken(sql, offset).value;
    if read.None? {
      NothingIsLeft(sql, offset);
    } else {
      var gap := ReadsAfterBlank(sql, offset, read.value);
      var rest := sql[read.value.end..];
      var before, after := TrimParts(rest);
      assert rest != [] ==> rest[|rest| - 1] == sql[|sql| - 1];
      assert before + Trim(rest) + [] == before + Trim(rest);
      sp := STANDARD.(beforeWhere := gap, whereWord := read.value.text, beforeCondition := before);
    }
  }

  const STANDARD := Spelling("SELECT", " ", " ", "FROM", " ", " ", None, " ", " ", "WHERE", " ")

  lemma StandardSpells()
    ensures Spells(STANDARD)
  {
    KeywordsAreUpper();
    BlankIsSpace();
  }

  lemma TailIsSpelled(sql: string, offset: nat) returns (sp: Spelling)
    requires offset <= |sql| && sql != [] && !IsSpace(sql[|sql| - 1]) && EndsWord(sql[offset..]) && ParseTail(sql, offset).Ok?
    ensures var (alias, where) := ParseTail(sql, offset).value;
            && Spells(sp) && sql[offset..] == AliasText(alias, sp) + WhereText(where, sp)
            && (alias.Some? && sp.asWord.None? ==> Upper(alias.value) != "AS")
  {
    StandardSpells();
    hide IsSpace, ReadToken, Upper, ParseWhere, EndsWord, Trim, Identifier;
    var read := ReadToken(sql, offset).value;
    if read.None? {
      sp := STANDARD;
      NothingIsLeft(sql, offset);
    } else if Upper(read.value.text) == "WHERE" {
      sp := WhereIsSpelled(sql, offset, None);
      WhereKeepsAlias(sql, None, read);
      assert [] + sql[offset..] == sql[offset..];
    } else if Upper(read.value.text) == "AS" {
      var gap := ReadsAfterBlank(sql, offset, read.value);
      var name := ReadToken(sql, read.value.end).value.value;
      sp := AliasIsSpelled(sql, read.value.end, name);
      assert gap + read.value.text + sql[read.value.end..] == gap + read.value.text + (sp.beforeAlias + name.text) + sql[name.end..];
      sp := sp.(beforeAs := gap, asWord := Some(read.value.text));
    } else {
      sp := AliasIsSpelled(sql, offset, read.value);
      assert "" + (sp.beforeAlias + read.value.text) == sp.beforeAlias + read.value.text;
    }
  }

  lemma WhereKeepsAlias(sql: string, alias: Option<string>, token: Option<Token>)
    requires (token.Some? ==> token.value.end <= |sql|) && ParseWhere(sql, alias, token).Ok?
    ensures ParseWhere(sql, alias, token).value.0 == alias
  {}

  lemma AliasIsSpelled(sql: string, offset: nat, name: Token) returns (sp: Spelling)
    requires offset <= |sql| && sql != [] && !IsSpace(sql[|sql| - 1]) && EndsWord(sql[offset..])
    requires ReadToken(sql, offset) == Ok(Some(name)) && name.end <= |sql| && ParseAlias(sql, name).Ok?
    ensures var (alias, where) := ParseAlias(sql, name).value;
            && Spells(sp) && sp.asWord.None? && alias == Some(name.text)
            && sql[offset..] == sp.beforeAlias + name.text + sql[name.end..] && sql[name.end..] == WhereText(where, sp)
  {
    hide IsSpace, ReadToken, Upper, ParseWhere, EndsWord, Trim, Identifier;
    TokenTextIsTrimmed(sql, offset);
    var gap := ReadsAfterBlank(sql, offset, name);
    WhereKeepsAlias(sql, Some(Trim(name.text)), ReadToken(sql, name.end).value);
    sp := WhereIsSpelled(sql, name.end, Some(Trim(name.text)));
    sp := sp.(beforeAlias := gap, asWord := None);
  }

  /** What is accepted is spelled from the parts that the parser returns. */
  lemma ParsedIsSpelled(forbidden: string -> bool, input: string) returns (sp: Spelling)
    requires Parse(forbidden, input).Ok?
    ensures var plan := Parse(forbidden, input).value;
            && Spells(sp) && Trim(input) == Spelled(plan, sp)
            && (plan.alias.Some? && sp.asWord.None? ==> Upper(plan.alias.value) != "AS")
  {
    hide *;
    var sql := Trim(input);
    var select, from, table := PartsOfParse(forbidden, input);
    var head := HeadIsSpelled(sql, select, from, table);
    var tail := TailIsSpelled(sql, table.end);
    sp := Spliced(Parse(forbidden, input).value, head, tail);
  }

  lemma PartsOfParse(forbidden: string -> bool, input: string) returns (select: Token, from: Token, table: Token)
    requires Parse(forbidden, input).Ok?
    ensures var sql, plan := Trim(input), Parse(forbidden, input).value;
            && Trimmed(sql) && sql != [] && !IsSpace(sql[|sql| - 1])
            && ReadToken(sql, 0) == Ok(Some(select)) && Upper(select.text) == "SELECT"
            && select.end <= |sql| && FindFrom(sql, select.end) == Ok(Some(from))
            && from.end <= |sql| && ReadToken(sql, from.end) == Ok(Some(table))
            && select.end <= from.start && plan.projection == Trim(sql[select.end..from.start]) && plan.projection != []
            && table.end <= |sql| && table.text == plan.tableName && ParseTail(sql, table.end) == Ok((plan.alias, plan.where))
  {
    TrimIsTrimmed(input);
    hide IsSpace, Upper, NoMarkers, Trim, ReadToken, FindFrom, Qualified, ParseTail;
    select := ReadToken(Trim(input), 0).value.value;
    from := FindFrom(Trim(input), select.end).value.value;
    table := ReadToken(Trim(input), from.end).value.value;
  }

  /** Two spellings, one good for the parts up to the table, the other for those after it. */
  lemma Spliced(plan: Plan, head: Spelling, tail: Spelling) returns (sp: Spelling)
    requires Spells(head) && Spells(tail)
    ensures Spells(sp) && sp.asWord == tail.asWord
    ensures Spelled(plan, sp) == head.select + (head.beforeProjection + plan.projection + (head.beforeFrom + head.from
              + (head.beforeTable + plan.tableName + (AliasText(plan.alias, tail) + WhereText(plan.where, tail)))))
  {
    hide Upper, AllSpace;
    sp := tail.(select := head.select, beforeProjection := head.beforeProjection,
                beforeFrom := head.beforeFrom, from := head.from, beforeTable := head.beforeTable);
    assert AliasText(plan.alias, sp) == AliasText(plan.alias, tail) && WhereText(plan.where, sp) == WhereText(plan.where, tail);
  }

  lemma HeadIsSpelled(sql: string, select: Token, from: Token, table: Token) returns (sp: Spelling)
    requires Trimmed(sql) && ReadToken(sql, 0) == Ok(Some(select)) && Upper(select.text) == "SELECT"
    requires select.end <= |sql| && FindFrom(sql, select.end) == Ok(Some(from))
    requires from.end <= |sql| && ReadToken(sql, from.end) == Ok(Some(table))
    requires select.end <= from.start && Trim(sql[select.end..from.start]) != []
    ensures Spells(sp) && table.end <= |sql| && EndsWord(sql[table.end..])
    ensures sql == sp.select + (sp.beforeProjection + Trim(sql[select.end..from.start])
                   + (sp.beforeFrom + sp.from + (sp.beforeTable + table.text + sql[table.end..])))
  {
    StandardSpells();
    hide IsSpace, Upper, Trim, ReadToken, FindFrom, AllSpace;
    StartsVisibly(sql, select);
    FromAfterBlank(sql, select.end, from);
    var beforeTable := ReadsAfterBlank(sql, from.end, table);
    var middle := sql[select.end..from.start];
    MiddleEnds(sql, select.end, from.start);
    var beforeProjection, beforeFrom := TrimParts(middle);
    sp := STANDARD.(select := select.text, beforeProjection := beforeProjection, beforeFrom := beforeFrom, from := from.text, beforeTable := beforeTable);
    FourParts(sql, select.end, from.start, from.end);
    Regroup(beforeProjection, Trim(middle), beforeFrom, from.text, sql[from.end..]);
  }

  lemma FourParts(s: string, a: nat, b: nat, c: nat)
    requires a <= b <= c <= |s|
    ensures s == s[..a] + (s[a..b] + (s[b..c] + s[c..])) && s[0..a] == s[..a]
  {}

  lemma Regroup(a: string, b: string, c: string, d: string, e: string)
    ensures a + b + c + (d + e) == a + b + (c + d + e)
  {}

  lemma MiddleEnds(sql: string, i: nat, j: nat)
    requires i < j <= |sql| && EndsWord(sql[i..]) && IsSpace(sql[j - 1])
    ensures EndsWord(sql[i..j]) && sql[i..j] != [] && IsSpace(sql[i..j][|sql[i..j]| - 1])
  {
    assert sql[i..][0] == sql[i..j][0];
  }

  /** The first token of trimmed text starts at once. */
  lemma StartsVisibly(sql: string, token: Token)
    requires Trimmed(sql) && ReadToken(sql, 0) == Ok(Some(token))
    ensures token.start == 0 && token.end <= |sql| && token.text == sql[..token.end] && EndsWord(sql[token.end..])
  {
    hide IsSpace, TokenLength;
    var gap := ReadsAfterBlank(sql, 0, token);
    assert sql[0..] == sql && Gap(sql) == 0;
  }

  /** The parts of a statement are as they should be, and can be refetched. */
  predicate Acceptable(forbidden: string -> bool, plan: Plan) {
    && Printable(plan) && !forbidden(plan.projection)
    && (plan.where.Some? ==> Trimmed(plan.where.value) && !forbidden(plan.where.value))
  }

  /** The parser accepts exactly the statements that can be spelled from acceptable parts, and returns these parts. */
  lemma ParsesExactly(forbidden: string -> bool, input: string, plan: Plan)
    ensures Parse(forbidden, input) == Ok(plan) <==>
            && NoMarkers(Trim(input)) && Acceptable(forbidden, plan)
            && exists sp :: Spells(sp) && Trim(input) == Spelled(plan, sp)
                            && (plan.alias.Some? && sp.asWord.None? ==> Upper(plan.alias.value) != "AS")
  {
    hide Spells, Spelled, Printable, Trimmed, Upper, Trim, NoMarkers;
    if Parse(forbidden, input) == Ok(plan) {
      OneStatement(forbidden, input);
      ParsedPlanIsPrintable(forbidden, input);
      var sp := ParsedIsSpelled(forbidden, input);
    }
    if NoMarkers(Trim(input)) && Acceptable(forbidden, plan) {
      hide Parse;
      ProjectionIsThere(plan);
      forall sp | Spells(sp) && Trim(input) == Spelled(plan, sp) && (plan.alias.Some? && sp.asWord.None? ==> Upper(plan.alias.value) != "AS")
        ensures Parse(forbidden, input) == Ok(plan)
      {
        SpelledParses(forbidden, input, plan, sp);
      }
    }
  }

  lemma OneStatement(forbidden: string -> bool, input: string)
    requires Parse(forbidden, input).Ok?
    ensures NoMarkers(Trim(input))
  {
    hide NoMarkers, Trim, ReadToken, FindFrom, ParseTail, Upper;
  }

  lemma ProjectionIsThere(plan: Plan)
    requires Printable(plan)
    ensures plan.projection != []
  {}
}

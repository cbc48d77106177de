/**
 What a refetch query asks for. A reader takes the text of the query apart
 again, and says of a row whether the query selects it.
 */
module CqnMeaning {
  import opened Options
  import opened Sequences
  import opened CqnTokens
  import opened CqnTiling
  import opened CqnPlan
  import opened CqnRoundTrip
  import opened CqnGrammar
  import opened CqnRefetch
  import TextEncoding

  type RowId = string

  // ---- the reader

  /** A condition on the ROWID, perhaps with a group of its own in front. */
  datatype Condition = Condition(group: Option<string>, column: string, items: seq<string>)

  function Texts(tokens: seq<Token>): seq<string> {
    seq(|tokens|, i requires 0 <= i < |tokens| => tokens[i].text)
  }

  /** What stands between the parentheses of a token. */
  function Inside(token: string): Option<string> {
    if |token| >= 2 && token[0] == '(' && token[|token| - 1] == ')' then Some(token[1..|token| - 1]) else None
  }

  /** The items of a list, without the white space around them. */
  function Items(list: string): seq<string> {
    var parts := Split(list, ',');
    seq(|parts|, i requires 0 <= i < |parts| => Trim(parts[i]))
  }

  /** Reads `[(group) AND] column IN (items)`. */
  function ReadCondition(condition: string): Option<Condition> {
    match ReadAll(condition, 0)
    case Err(_) => None
    case Ok(tokens) =>
      var t := Texts(tokens);
      if |t| == 3 && t[1] == "IN" && Inside(t[2]).Some? then Some(Condition(None, t[0], Items(Inside(t[2]).value)))
      else if |t| == 5 && t[1] == "AND" && t[3] == "IN" && Inside(t[0]).Some? && Inside(t[4]).Some?
      then Some(Condition(Inside(t[0]), t[2], Items(Inside(t[4]).value)))
      else None
  }

  /** Some item is a bind, and its value is the ROWID. */
  predicate Listed(items: seq<string>, bindings: map<string, RowId>, rowId: RowId) {
    exists i :: 0 <= i < |items| && BoundTo(items[i], bindings, rowId)
  }

  predicate BoundTo(item: string, bindings: map<string, RowId>, rowId: RowId) {
    item != [] && item[0] == ':' && item[1..] in bindings && bindings[item[1..]] == rowId
  }

  /**
   The query selects a row with this ROWID, of which `holds` says which
   conditions are true: its own group is, and the ROWID of its table is listed.
   */
  predicate Selects(sql: string, bindings: map<string, RowId>, holds: string -> bool, rowId: RowId) {
    match Parse(_ => false, sql)
    case Err(_) => false
    case Ok(plan) =>
      plan.where.Some? &&
      match ReadCondition(plan.where.value)
      case None => false
      case Some(c) =>
        && c.column == (if plan.alias.Some? then plan.alias.value + ".ROWID" else "ROWID")
        && (c.group.Some? ==> holds(c.group.value))
        && Listed(c.items, bindings, rowId)
  }

  // ---- binds

  function BindName(i: nat): string {
    "rowid_" + TextEncoding.Digits(i)
  }

  /** The placeholders of n ROWIDs, in order. */
  function Placeholders(n: nat): string {
    if n == 0 then "" else if n == 1 then ":" + BindName(0) else Placeholders(n - 1) + ", :" + BindName(n - 1)
  }

  /** The value of each placeholder. */
  function Bindings(ids: seq<RowId>): map<string, RowId> {
    if ids == [] then map[] else Bindings(ids[..|ids| - 1])[BindName(|ids| - 1) := ids[|ids| - 1]]
  }

  lemma {:induction false} DigitsAreSafe(n: nat)
    ensures PlaceholderText(TextEncoding.Digits(n)) && Harmless(TextEncoding.Digits(n)) && ',' !in TextEncoding.Digits(n)
  {
    if n >= 10 { DigitsAreSafe(n / 10); }
  }

  lemma {:induction false} PlaceholdersAreText(n: nat)
    ensures PlaceholderText(Placeholders(n)) && Harmless(Placeholders(n))
  {
    if n > 0 {
      DigitsAreSafe(n - 1);
      PlaceholdersAreText(n - 1);
    }
  }

  /** No two ROWIDs of a query share a bind name. */
  lemma BindNamesDiffer(a: nat, b: nat)
    requires a != b
    ensures BindName(a) != BindName(b)
  {
    TextEncoding.DigitsDiffer(a, b);
    assert BindName(a)[6..] == TextEncoding.Digits(a) && BindName(b)[6..] == TextEncoding.Digits(b);
  }

  lemma {:induction false} BindingOf(ids: seq<RowId>, i: nat)
    requires i < |ids|
    ensures BindName(i) in Bindings(ids) && Bindings(ids)[BindName(i)] == ids[i]
  {
    if i < |ids| - 1 {
      BindNamesDiffer(i, |ids| - 1);
      BindingOf(ids[..|ids| - 1], i);
    }
  }

  /** A text that leaves the lexer where it is. */
  predicate Harmless(s: string) {
    forall i :: 0 <= i < |s| ==> s[i] !in "'\"()qQ"
  }

  lemma {:induction false} HarmlessIsBalanced(s: string)
    requires Harmless(s)
    ensures Run(s, START) == Ok(START)
  {
    if s != [] { HarmlessIsBalanced(s[1..]); }
  }

  /** The items of a list of placeholders are the binds in order. */
  lemma {:induction false} ItemsOfPlaceholders(n: nat)
    requires n >= 1
    ensures |Split(Placeholders(n), ',')| == n
    ensures forall i :: 0 <= i < n ==> Split(Placeholders(n), ',')[i] == (if i == 0 then ":" else " :") + BindName(i)
  {
    hide Split, TextEncoding.Digits, PlaceholderText, Harmless;
    DigitsAreSafe(n - 1);
    var last := (if n == 1 then ":" else " :") + BindName(n - 1);
    SplitOfWhole(last, ',');
    if n > 1 {
      ItemsOfPlaceholders(n - 1);
      SplitOfJoined(Placeholders(n - 1), last, ',');
      assert Placeholders(n) == Placeholders(n - 1) + [','] + last;
    }
  }

  lemma BindIsTrimmed(i: nat)
    ensures Trim(":" + BindName(i)) == ":" + BindName(i) && Trim(" :" + BindName(i)) == ":" + BindName(i)
  {
    hide TextEncoding.Digits, IsSpace, Trim;
    var bind := ":" + BindName(i);
    DigitsEndVisibly(i);
    assert bind[|bind| - 1] == TextEncoding.Digits(i)[|TextEncoding.Digits(i)| - 1];
    TrimmedStays(bind);
    Blanked(BindName(i));
  }

  lemma TrimmedStays(s: string)
    requires Trimmed(s)
    ensures Trim(s) == s && Trim(" " + s) == s
  {
    BlankIsSpace();
    hide IsSpace, Trim;
    TrimKeeps([], s, []);
    TrimKeeps(" ", s, []);
    assert [] + s + [] == s && " " + s + [] == " " + s;
  }

  lemma {:induction false} DigitsEndVisibly(i: nat)
    ensures TextEncoding.Digits(i) != [] && !IsSpace(TextEncoding.Digits(i)[|TextEncoding.Digits(i)| - 1]) && !IsSpace(':')
  {}

  lemma ItemsAre(n: nat)
    requires n >= 1
    ensures |Items(Placeholders(n))| == n && forall i :: 0 <= i < n ==> Items(Placeholders(n))[i] == ":" + BindName(i)
  {
    hide Trim, IsSpace, BindName, Placeholders;
    ItemsOfPlaceholders(n);
    forall i | 0 <= i < n ensures Items(Placeholders(n))[i] == ":" + BindName(i) {
      BindIsTrimmed(i);
      Blanked(BindName(i));
    }
  }

  lemma Blanked(name: string)
    ensures " :" + name == " " + (":" + name)
  {}

  lemma BoundToItsRow(name: string, bindings: map<string, RowId>, rowId: RowId)
    requires name in bindings
    ensures BoundTo(":" + name, bindings, rowId) <==> bindings[name] == rowId
  {
    assert (":" + name)[1..] == name;
  }

  lemma ListedExactly(ids: seq<RowId>, rowId: RowId)
    requires ids != []
    ensures Listed(Items(Placeholders(|ids|)), Bindings(ids), rowId) <==> rowId in ids
  {
    hide Items, Placeholders, BindName, Bindings, BoundTo;
    var items := Items(Placeholders(|ids|));
    ItemsAre(|ids|);
    forall i | 0 <= i < |ids| ensures BoundTo(items[i], Bindings(ids), rowId) <==> ids[i] == rowId {
      BindingOf(ids, i);
      BoundToItsRow(BindName(i), Bindings(ids), rowId);
    }
  }

  // ---- reading what was printed

  /** A text that is one token wherever it stands between white space. */
  predicate Whole(word: string) {
    word != [] && !IsSpace(word[0]) && TokenLength(word, START) == Ok(|word|)
  }

  /** Words with blanks between them are read one by one. */
  lemma {:induction false} ReadsJoined(sql: string, offset: nat, gap: string, words: seq<string>)
    requires offset <= |sql| && sql[offset..] == gap + Join(words, ' ') && AllSpace(gap)
    requires words != [] && forall i :: 0 <= i < |words| ==> Whole(words[i])
    ensures ReadAll(sql, offset).Ok? && Texts(ReadAll(sql, offset).value) == words
    decreases |words|
  {
    hide IsSpace, TokenLength, ReadToken;
    var word, later := words[0], words[1..];
    var rest := if later == [] then [] else " " + Join(later, ' ');
    assert gap + Join(words, ' ') == gap + word + rest;
    BlankIsSpace();
    ExtendToken(word, rest, START);
    ReadsWord(sql, offset, gap, word, rest);
    var end := offset + |gap| + |word|;
    CutAfter(sql, offset, gap + word, rest);
    if later == [] {
      NothingToRead(sql, end);
    } else {
      ReadsJoined(sql, end, " ", later);
    }
    TextsStep(Token(word, offset + |gap|, end), ReadAll(sql, end).value);
    assert words == [word] + later;
  }

  lemma NothingToRead(sql: string, offset: nat)
    requires offset <= |sql| && sql[offset..] == []
    ensures ReadAll(sql, offset) == Ok([])
  {}

  lemma TextsStep(token: Token, rest: seq<Token>)
    ensures Texts([token] + rest) == [token.text] + Texts(rest)
  {}

  /** Within parentheses a balanced text goes on to the closing one. */
  lemma {:induction false} GroupIsRead(s: string, lex: Lex)
    requires Real(lex) && Run(s, lex).Ok? && Run(s, lex).value.AtTop()
    ensures TokenLength(s + ")", Deeper(lex)) == Ok(|s| + 1)
  {
    StepDeeper(lex, if s == [] then ')' else s[0]);
    if s == [] { ClosesGroup(lex); }
    hide IsSpace, Real;
    if s == [] {
      assert s + ")" == [] + ")";
    } else {
      assert (s + ")")[0] == s[0] && (s + ")")[1..] == s[1..] + ")";
      StepStaysReal(lex, s[0]);
      GroupIsRead(s[1..], Step(lex, s[0]).value);
    }
  }

  lemma ClosesGroup(lex: Lex)
    requires lex.AtTop() && Real(lex)
    ensures TokenLength([] + ")", Deeper(lex)) == Ok(1)
  {
    assert ([] + ")")[1..] == [] && ([] + ")")[0] == ')';
    assert Step(Deeper(lex), ')') == Ok(Lex(Plain, 0));
  }

  lemma GroupIsWhole(s: string)
    requires Balanced(s)
    ensures Whole("(" + s + ")") && Inside("(" + s + ")") == Some(s)
  {
    StartIsReal();
    GroupIsRead(s, START);
    var group := "(" + s + ")";
    assert group[1..] == s + ")" && group[1..|group| - 1] == s;
    PunctuationIsNotSpace();
    assert Step(START, '(') == Ok(Deeper(START));
  }

  lemma PlainIsWhole(word: string)
    requires Readable(word)
    ensures Whole(word)
  {
    PlainCharIsVisible(word[0]);
    PlainWord(word, [], Plain);
    assert word + [] == word;
  }

  lemma ColumnIsWhole(plan: Plan)
    requires Printable(plan)
    ensures Whole(if plan.alias.Some? then plan.alias.value + ".ROWID" else "ROWID") && Whole("IN") && Whole("AND")
  {
    hide Whole, PlainChar, NoFrom, NoMarkers, Trimmed, Qualified, Identifier, Upper;
    if plan.alias.Some? {
      IdentifiersAreReadable(plan.alias.value);
      LettersArePlain();
      PlainIsWhole(plan.alias.value + ".ROWID");
    }
    LettersArePlain();
    PlainIsWhole("ROWID");
    PlainIsWhole("IN");
    PlainIsWhole("AND");
  }

  lemma LettersArePlain()
    ensures forall c :: c in ".ROWIDAN" ==> PlainChar(c)
  {}

  /** The printed condition is read as the plan's own condition, if it has one, and the list of placeholders. */
  lemma PrintedConditionIsRead(plan: Plan, n: nat)
    requires Printable(plan) && n >= 1 && (plan.where.Some? ==> Balanced(plan.where.value))
    ensures ReadCondition(Where(plan, Placeholders(n))) ==
            Some(Condition(plan.where, if plan.alias.Some? then plan.alias.value + ".ROWID" else "ROWID", Items(Placeholders(n))))
  {
    ColumnIsWhole(plan);
    PlaceholdersAreText(n);
    HarmlessIsBalanced(Placeholders(n));
    GroupIsWhole(Placeholders(n));
    hide Whole, Items, Printable, Balanced, Inside, ReadCondition, Where, Placeholders;
    var column := if plan.alias.Some? then plan.alias.value + ".ROWID" else "ROWID";
    var words := [column, "IN", "(" + Placeholders(n) + ")"];
    PrintedWords(plan, Placeholders(n));
    if plan.where.Some? {
      GroupIsWhole(plan.where.value);
      words := ["(" + plan.where.value + ")", "AND"] + words;
    }
    ReadsWords(Where(plan, Placeholders(n)), words);
    WordsAreCondition(Where(plan, Placeholders(n)), plan.where, column, Placeholders(n));
  }

  lemma ReadsWords(condition: string, words: seq<string>)
    requires words != [] && condition == Join(words, ' ') && forall i :: 0 <= i < |words| ==> Whole(words[i])
    ensures ReadAll(condition, 0).Ok? && Texts(ReadAll(condition, 0).value) == words
  {
    hide Whole;
    assert condition[0..] == [] + condition;
    ReadsJoined(condition, 0, [], words);
  }

  lemma WordsAreCondition(condition: string, where: Option<string>, column: string, list: string)
    requires ReadAll(condition, 0).Ok?
    requires var pinned := [column, "IN", "(" + list + ")"];
             Texts(ReadAll(condition, 0).value) == if where.Some? then ["(" + where.value + ")", "AND"] + pinned else pinned
    requires Inside("(" + list + ")") == Some(list) && (where.Some? ==> Inside("(" + where.value + ")") == where)
    ensures ReadCondition(condition) == Some(Condition(where, column, Items(list)))
  {
    hide Items, Inside, ReadAll, Texts;
  }

  lemma JoinOfThree(a: string, b: string, c: string)
    ensures Join([a, b, c], ' ') == a + " " + b + " " + c
  {
    assert [a, b, c][1..] == [b, c] && [b, c][1..] == [c];
    assert Join([b, c], ' ') == b + [' '] + c;
    assert Join([a, b, c], ' ') == a + [' '] + Join([b, c], ' ');
    assert a + [' '] + (b + [' '] + c) == a + " " + b + " " + c;
  }

  lemma JoinOfFive(a: string, b: string, words: seq<string>)
    requires words != []
    ensures Join([a, b] + words, ' ') == a + " " + b + " " + Join(words, ' ')
  {
    assert ([a, b] + words)[1..] == [b] + words && ([b] + words)[1..] == words;
    assert a + [' '] + (b + [' '] + Join(words, ' ')) == a + " " + b + " " + Join(words, ' ');
  }

  lemma PrintedWords(plan: Plan, placeholders: string)
    ensures var column := if plan.alias.Some? then plan.alias.value + ".ROWID" else "ROWID";
            var pinned := [column, "IN", "(" + placeholders + ")"];
            Where(plan, placeholders) == Join(if plan.where.Some? then ["(" + plan.where.value + ")", "AND"] + pinned else pinned, ' ')
  {
    var column := if plan.alias.Some? then plan.alias.value + ".ROWID" else "ROWID";
    var pinned := [column, "IN", "(" + placeholders + ")"];
    assert " IN (" == " " + "IN" + " " + "(" && " AND " == " " + "AND" + " ";
    Regroup(column, " ", "IN", "(", placeholders, ")");
    hide Join;
    JoinOfThree(column, "IN", "(" + placeholders + ")");
    if plan.where.Some? {
      Regroup3("(" + plan.where.value + ")", " ", "AND", RowIdPredicate(plan, placeholders));
      JoinOfFive("(" + plan.where.value + ")", "AND", pinned);
    }
  }

  lemma Regroup(a: string, b: string, c: string, d: string, e: string, f: string)
    ensures a + (b + c + b + d) + e + f == a + b + c + b + (d + e + f)
  {}

  lemma Regroup3(a: string, b: string, c: string, d: string)
    ensures a + (b + c + b) + d == a + b + c + b + d
  {}

  /**
   The query printed for some ROWIDs selects a row if and only if the
   statement's own condition holds of the row and its ROWID is one of them.
   */
  lemma QuerySelectsExactlyItsRows(forbidden: string -> bool, input: string, ids: seq<RowId>, holds: string -> bool, rowId: RowId)
    requires Parse(forbidden, input).Ok? && ids != []
    requires var plan := Parse(forbidden, input).value;
             && (plan.where.Some? ==> Balanced(plan.where.value))
             && (plan.alias.Some? ==> Upper(plan.alias.value) != "AS")
    ensures var plan := Parse(forbidden, input).value;
            Selects(Build(plan, Placeholders(|ids|)), Bindings(ids), holds, rowId) <==>
            (plan.where.Some? ==> holds(plan.where.value)) && rowId in ids
  {
    var plan := Parse(forbidden, input).value;
    ParsedPlanIsPrintable(forbidden, input);
    hide Parse, Build, ReadCondition, Listed, Items, Bindings, Placeholders, Printable, Balanced, Where, PlaceholderText;
    PlaceholdersAreText(|ids|);
    PlanQuerySelects(plan, ids, holds, rowId);
  }

  lemma PlanQuerySelects(plan: Plan, ids: seq<RowId>, holds: string -> bool, rowId: RowId)
    requires Printable(plan) && ids != []
    requires (plan.where.Some? ==> Balanced(plan.where.value) && NoMarkers(plan.where.value)) && (plan.alias.Some? ==> Upper(plan.alias.value) != "AS")
    ensures Selects(Build(plan, Placeholders(|ids|)), Bindings(ids), holds, rowId) <==>
            (plan.where.Some? ==> holds(plan.where.value)) && rowId in ids
  {
    hide Parse, Build, ReadCondition, Listed, Items, Bindings, Placeholders, Printable, Balanced, Where, PlaceholderText, NoMarkers, Upper, Spelled;
    var n := |ids|;
    PlaceholdersAreText(n);
    WhereIsCondition(plan, Placeholders(n));
    BuildIsSpelled(plan, Placeholders(n));
    StatementParses(_ => false, plan, Where(plan, Placeholders(n)));
    PrintedConditionIsRead(plan, n);
    ListedExactly(ids, rowId);
  }
}

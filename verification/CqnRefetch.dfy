/**
 The refetch query: it parses back to the plan it was printed from, and its
 condition keeps the plan's own condition together when that is balanced.
 */
module CqnRefetch {
  import opened Options
  import opened CqnTokens
  import opened CqnPlan
  import opened CqnRoundTrip
  import opened CqnGrammar

  lemma BuildIsSpelled(plan: Plan, placeholders: string)
    ensures Build(plan, placeholders) == Spelled(plan.(where := Some(Where(plan, placeholders))), STANDARD)
  {
    hide Where;
    var p, t, w := plan.projection, plan.tableName, Where(plan, placeholders);
    assert "SELECT " == "SELECT" + " ";
    assert " FROM " == " " + "FROM" + " ";
    assert " WHERE " == " " + "WHERE" + " ";
    var a := if plan.alias.Some? then " " + plan.alias.value else "";
    assert From(plan) == t + a && AliasText(plan.alias, STANDARD) == a;
    Reassociate("SELECT", " ", p, " ", "FROM", t, a, "WHERE", w);
  }

  lemma Reassociate(s: string, b: string, p: string, c: string, f: string, t: string, a: string, v: string, w: string)
    ensures (s + b) + p + (c + f + c) + (t + a) + (c + v + c) + w ==
            s + (b + p + (c + f + (c + t + (a + (c + v + (c + w))))))
  {}

  lemma SpelledHasNoMarkers(plan: Plan, condition: string)
    requires Printable(plan) && plan.where == Some(condition) && NoMarkers(condition)
    ensures NoMarkers(Spelled(plan, STANDARD))
  {
    LiteralsHaveNoMarkers();
    NamesAreSafe(plan.tableName);
    hide NoMarkers, NoFrom, Upper, Qualified, Trimmed;
    var w := " " + condition;
    NoMarkersJoin(" ", condition);
    NoMarkersJoin(" ", "WHERE");
    NoMarkersJoin(" " + "WHERE", w);
    var tail := " " + "WHERE" + w;
    var a := AliasText(plan.alias, STANDARD);
    if plan.alias.Some? {
      NamesAreSafe(plan.alias.value) by { IdentifiersAreNames(plan.alias.value); }
      NoMarkersJoin(" ", plan.alias.value);
      assert a == " " + plan.alias.value;
    }
    NoMarkersJoin(a, tail);
    NoMarkersJoin(" ", plan.tableName);
    NoMarkersJoin(" " + plan.tableName, a + tail);
    var t := " " + plan.tableName + (a + tail);
    NoMarkersJoin(" ", "FROM");
    NoMarkersJoin(" " + "FROM", t);
    var f := " " + "FROM" + t;
    NoMarkersJoin(" ", plan.projection);
    NoMarkersJoin(" " + plan.projection, f);
    NoMarkersJoin("SELECT", " " + plan.projection + f);
  }

  lemma SpelledIsTrimmed(plan: Plan, condition: string)
    requires plan.where == Some(condition) && Trimmed(condition)
    ensures Trim(Spelled(plan, STANDARD)) == Spelled(plan, STANDARD)
  {
    var sql := Spelled(plan, STANDARD);
    PlainCharIsVisible('S');
    assert sql[0] == 'S';
    assert sql[|sql| - 1] == condition[|condition| - 1];
    hide IsSpace, Spelled, Trim;
    TrimKeeps([], sql, []);
    assert [] + sql + [] == sql;
  }

  /** A statement spelled as the printer does gives its parts back; an alias AS is not read back. */
  lemma StatementParses(forbidden: string -> bool, plan: Plan, condition: string)
    requires Printable(plan) && !forbidden(plan.projection)
    requires Trimmed(condition) && NoMarkers(condition)
    ensures var narrowed := plan.(where := Some(condition));
            Parse(forbidden, Spelled(narrowed, STANDARD)) ==
            if plan.alias.Some? && Upper(plan.alias.value) == "AS" then Err(Syntax)
            else if forbidden(condition) then Err(UnsafeConstruct)
            else Ok(narrowed)
  {
    hide NoMarkers, Trim, Upper, Spelled, Parse, Spells, Qualified, NoFrom, Identifier;
    var narrowed := plan.(where := Some(condition));
    SpelledHasNoMarkers(narrowed, condition);
    SpelledIsTrimmed(narrowed, condition);
    StandardSpells();
    SpelledParses(forbidden, Spelled(narrowed, STANDARD), narrowed, STANDARD);
  }

  // ---- the refetch query

  /** Text of bind placeholders: nothing that could end the list or start a comment. */
  predicate PlaceholderText(s: string) {
    forall i :: 0 <= i < |s| ==> Safe(s[i]) && s[i] != ';'
  }

  lemma WhereIsCondition(plan: Plan, placeholders: string)
    requires Printable(plan) && PlaceholderText(placeholders)
    requires plan.where.Some? ==> NoMarkers(plan.where.value)
    ensures Trimmed(Where(plan, placeholders)) && NoMarkers(Where(plan, placeholders))
  {
    RowIdPredicateIsCondition(plan, placeholders);
    if plan.where.Some? {
      PunctuationIsNotSpace();
      LiteralsHaveNoMarkers();
      hide IsSpace, NoMarkers, Printable, PlaceholderText, RowIdPredicate;
      var r := RowIdPredicate(plan, placeholders);
      var group := "(" + plan.where.value + ")";
      NoMarkersJoin("(", plan.where.value);
      NoMarkersJoin("(" + plan.where.value, ")");
      NoMarkersJoin(group, " AND ");
      NoMarkersJoin(group + " AND ", r);
      assert Where(plan, placeholders) == group + " AND " + r;
      assert (group + " AND " + r)[0] == '(';
      assert (group + " AND " + r)[|group + " AND " + r| - 1] == r[|r| - 1];
    }
  }

  lemma RowIdPredicateIsCondition(plan: Plan, placeholders: string)
    requires Printable(plan) && PlaceholderText(placeholders)
    ensures Trimmed(RowIdPredicate(plan, placeholders)) && NoMarkers(RowIdPredicate(plan, placeholders))
  {
    PunctuationIsNotSpace();
    LiteralsHaveNoMarkers();
    SafeTextHasNoMarkers(placeholders);
    PlainCharIsVisible('R');
    hide IsSpace, NoMarkers, PlaceholderText, NoFrom, Upper, Qualified;
    var column := if plan.alias.Some? then plan.alias.value + ".ROWID" else "ROWID";
    if plan.alias.Some? {
      IdentifiersAreNames(plan.alias.value);
      NamesAreSafe(plan.alias.value);
      NoMarkersJoin(plan.alias.value, ".ROWID");
      assert column[0] == plan.alias.value[0];
    }
    NoMarkersJoin(column, " IN (");
    NoMarkersJoin(column + " IN (", placeholders);
    NoMarkersJoin(column + " IN (" + placeholders, ")");
  }

  /**
   The query printed for a parsed statement parses to the same projection, table
   and alias, with the condition narrowed to the ROWIDs. The one statement that
   does not come back is one whose alias is the word AS.
   */
  lemma RefetchQueryParses(forbidden: string -> bool, input: string, placeholders: string)
    requires Parse(forbidden, input).Ok? && PlaceholderText(placeholders)
    ensures var plan := Parse(forbidden, input).value;
            var condition := Where(plan, placeholders);
            Parse(forbidden, Build(plan, placeholders)) ==
            if plan.alias.Some? && Upper(plan.alias.value) == "AS" then Err(Syntax)
            else if forbidden(condition) then Err(UnsafeConstruct)
            else Ok(plan.(where := Some(condition)))
  {
    hide *;
    var plan := Parse(forbidden, input).value;
    ParsedPlanIsPrintable(forbidden, input);
    WhereIsCondition(plan, placeholders);
    BuildIsSpelled(plan, placeholders);
    StatementParses(forbidden, plan, Where(plan, placeholders));
  }

  // ---- the group around the plan's own condition

  /** The lexer ends the text outside quotes, with every parenthesis closed and none closed too early. */
  predicate Balanced(s: string) {
    Run(s, START).Ok? && Run(s, START).value.AtTop()
  }

  /** How far the text after an opening parenthesis goes before the matching one closes it. */
  function MatchingClose(s: string, lex: Lex): Option<nat> {
    if s == [] then None
    else match Step(lex, s[0])
      case Err(_) => None
      case Ok(next) =>
        if next.depth == 0 then Some(0)
        else match MatchingClose(s[1..], next)
          case None => None
          case Some(n) => Some(n + 1)
  }

  function Deeper(lex: Lex): Lex {
    Lex(lex.mode, lex.depth + 1)
  }

  lemma StepDeeper(lex: Lex, c: char)
    requires Real(lex)
    ensures match Step(lex, c)
            case Ok(next) => Step(Deeper(lex), c) == Ok(Deeper(next))
            case Err(_) => Step(Deeper(lex), c).Ok? ==> Step(Deeper(lex), c).value.depth == 0
    ensures c == ')' ==> (lex.AtTop() <==> Step(Deeper(lex), c).Ok? && Step(Deeper(lex), c).value.depth == 0)
  {}

  lemma {:induction false} GroupClosesAtEnd(s: string, rest: string, lex: Lex)
    requires Real(lex)
    ensures MatchingClose(s + ")" + rest, Deeper(lex)) == Some(|s|) <==>
            (Run(s, lex).Ok? && Run(s, lex).value.AtTop())
  {
    StepDeeper(lex, if s == [] then ')' else s[0]);
    hide Step, Real, Lex.AtTop;
    var whole := s + ")" + rest;
    if s == [] {
      assert whole == ")" + rest;
    } else {
      assert whole[0] == s[0] && whole[1..] == s[1..] + ")" + rest;
      StepStaysReal(lex, s[0]);
      if Step(lex, s[0]).Ok? {
        GroupClosesAtEnd(s[1..], rest, Step(lex, s[0]).value);
      }
    }
  }

  /**
   The parenthesis that opens the printed condition is closed right after the
   plan's own condition exactly when that condition is balanced.
   */
  lemma GroupIsKeptIffBalanced(plan: Plan, placeholders: string)
    requires plan.where.Some?
    ensures Where(plan, placeholders)[0] == '('
    ensures MatchingClose(Where(plan, placeholders)[1..], Lex(Plain, 1)) == Some(|plan.where.value|) <==> Balanced(plan.where.value)
  {
    StartIsReal();
    hide RowIdPredicate, Real;
    var p, rest := plan.where.value, " AND " + RowIdPredicate(plan, placeholders);
    assert "(" + p + ")" + rest == "(" + (p + ")" + rest);
    assert Where(plan, placeholders) == "(" + p + ")" + rest;
    GroupClosesAtEnd(p, rest, START);
  }

  /** The parser takes a condition that closes a parenthesis it did not open. */
  lemma UnbalancedConditionIsAccepted(forbidden: string -> bool)
    requires !forbidden("a") && !forbidden("a) OR (b")
    ensures var plan := Plan("a", "t", None, Some("a) OR (b"));
            Parse(forbidden, Spelled(plan, STANDARD)) == Ok(plan) && !Balanced("a) OR (b")
  {
    var plan := Plan("a", "t", None, Some("a) OR (b"));
    assert Gap("a") == 0 && "a"[0..] == "a";
    PlainWord("a", [], Plain);
    assert "a" + [] == "a";
    assert Upper("a")[0] == 'A';
    assert Run("a) OR (b", START).Err? by {
      assert "a) OR (b"[1..] == ") OR (b";
    }
    hide Parse, Spelled;
    StatementParses(forbidden, plan, "a) OR (b");
  }
}

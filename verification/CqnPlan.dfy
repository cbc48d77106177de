/**
 From a CQN statement to the query that refetches changed rows: the parser
 (`parseCqnRefetchPlan`), the printer (`buildCqnRefetchSql`) and the way back.
 */
module CqnPlan {
  import opened Options
  import opened CqnTokens

  datatype Plan = Plan(projection: string, tableName: string, alias: Option<string>, where: Option<string>)

  datatype PlanError =
    | NotOneStatement
    | Syntax
    | Unreadable(error: SqlError)
    | UnsafeIdentifier
    | UnsafeConstruct

  /** Upper case as far as it decides whether a text is one of the ASCII keywords. */
  function UpperChar(c: char): char {
    if 'a' <= c <= 'z' then (c as int - 32) as char
    else if c == '\U{17f}' then 'S'
    else if c == '\U{131}' then 'I'
    else c
  }

  function Upper(s: string): (r: string)
    ensures |r| == |s|
  {
    seq(|s|, i requires 0 <= i < |s| => UpperChar(s[i]))
  }

  function TrimEnd(s: string): (r: string)
    ensures r <= s && (r != [] ==> !IsSpace(r[|r| - 1]))
    ensures AllSpace(s[|r|..])
  {
    if s != [] && IsSpace(s[|s| - 1]) then TrimEnd(s[..|s| - 1]) else s
  }

  function Trim(s: string): string {
    TrimEnd(s[Gap(s)..])
  }

  predicate IsLetter(c: char) {
    'A' <= c <= 'Z' || 'a' <= c <= 'z' || c == '_'
  }

  predicate IsNameChar(c: char) {
    IsLetter(c) || '0' <= c <= '9' || c == '$' || c == '#'
  }

  predicate Identifier(s: string) {
    s != [] && IsLetter(s[0]) && forall i :: 0 <= i < |s| ==> IsNameChar(s[i])
  }

  /** One identifier, or two joined by a dot. */
  predicate Qualified(s: string) {
    Identifier(s) || exists i :: 0 <= i < |s| && s[i] == '.' && Identifier(s[..i]) && Identifier(s[i + 1..])
  }

  predicate Marker(a: char, b: char) {
    (a == '-' && b == '-') || (a == '/' && b == '*') || (a == '*' && b == '/')
  }

  /** No statement terminator and no comment. */
  predicate NoMarkers(s: string) {
    forall i :: 0 <= i < |s| ==> s[i] != ';' && (i + 1 < |s| ==> !Marker(s[i], s[i + 1]))
  }

  /** The first token FROM at or after `offset`. */
  function FindFrom(sql: string, offset: nat): (r: Result<Option<Token>, SqlError>)
    requires offset <= |sql|
    ensures r.Ok? && r.value.Some? ==> offset <= r.value.value.start < r.value.value.end <= |sql|
    decreases |sql| - offset
  {
    match ReadToken(sql, offset)
    case Err(e) => Err(e)
    case Ok(None) => Ok(None)
    case Ok(Some(token)) => if Upper(token.text) == "FROM" then Ok(Some(token)) else FindFrom(sql, token.end)
  }

  /** The optional alias and WHERE clause after the table name. */
  function ParseTail(sql: string, offset: nat): Result<(Option<string>, Option<string>), PlanError>
    requires offset <= |sql|
  {
    match ReadToken(sql, offset)
    case Err(e) => Err(Unreadable(e))
    case Ok(None) => Ok((None, None))
    case Ok(Some(first)) =>
      if Upper(first.text) == "WHERE" then ParseWhere(sql, None, Some(first))
      else if Upper(first.text) == "AS" then
        match ReadToken(sql, first.end)
        case Err(e) => Err(Unreadable(e))
        case Ok(None) => Err(Syntax)
        case Ok(Some(second)) => if Upper(second.text) == "WHERE" then Err(Syntax) else ParseAlias(sql, second)
      else ParseAlias(sql, first)
  }

  function ParseAlias(sql: string, token: Token): Result<(Option<string>, Option<string>), PlanError>
    requires token.end <= |sql|
  {
    if !Identifier(Trim(token.text)) then Err(UnsafeIdentifier)
    else match ReadToken(sql, token.end)
      case Err(e) => Err(Unreadable(e))
      case Ok(next) => ParseWhere(sql, Some(Trim(token.text)), next)
  }

  function ParseWhere(sql: string, alias: Option<string>, token: Option<Token>): Result<(Option<string>, Option<string>), PlanError>
    requires token.Some? ==> token.value.end <= |sql|
  {
    if token.None? then Ok((alias, None))
    else if Upper(token.value.text) != "WHERE" then Err(Syntax)
    else
      var condition := Trim(sql[token.value.end..]);
      if condition == [] then Err(Syntax) else Ok((alias, Some(condition)))
  }

  /** What parsing a statement means; `forbidden` is the check for constructs that cannot be refetched. */
  function Parse(forbidden: string -> bool, input: string): Result<Plan, PlanError> {
    var sql := Trim(input);
    if sql == [] || !NoMarkers(sql) then Err(NotOneStatement)
    else match ReadToken(sql, 0)
      case Err(e) => Err(Unreadable(e))
      case Ok(None) => Err(Syntax)
      case Ok(Some(select)) =>
        if Upper(select.text) != "SELECT" then Err(Syntax)
        else match FindFrom(sql, select.end)
          case Err(e) => Err(Unreadable(e))
          case Ok(None) => Err(Syntax)
          case Ok(Some(from)) =>
            match ReadToken(sql, from.end)
            case Err(e) => Err(Unreadable(e))
            case Ok(None) => Err(Syntax)
            case Ok(Some(table)) =>
              if !Qualified(table.text) then Err(Syntax)
              else match ParseTail(sql, table.end)
                case Err(e) => Err(e)
                case Ok((alias, where)) =>
                  Checked(forbidden, Plan(Trim(sql[select.end..from.start]), table.text, alias, where))
  }

  function Checked(forbidden: string -> bool, plan: Plan): Result<Plan, PlanError> {
    if plan.projection == [] || forbidden(plan.projection) || (plan.where.Some? && forbidden(plan.where.value))
    then Err(UnsafeConstruct)
    else Ok(plan)
  }

  method ParseCqnRefetchPlan(forbidden: string -> bool, input: string) returns (r: Result<Plan, PlanError>)
    ensures r == Parse(forbidden, input)
  {
    hide ReadToken, Trim, Qualified, NoMarkers, Upper, Identifier;
    var sql := Trim(input);
    if sql == [] || !NoMarkers(sql) {
      return Err(NotOneStatement);
    }
    var read := ReadCqnToken(sql, 0);
    if read.Err? { return Err(Unreadable(read.error)); }
    if read.value.None? || Upper(read.value.value.text) != "SELECT" { return Err(Syntax); }
    var select := read.value.value;

    var from: Option<Token> := None;
    read := ReadCqnToken(sql, select.end);
    if read.Err? { return Err(Unreadable(read.error)); }
    var token := read.value;
    while token.Some? && from.None?
      invariant token.Some? ==> token.value.end <= |sql|
      invariant from.Some? ==> from.value.end <= |sql|
      invariant FindFrom(sql, select.end) ==
                if from.Some? then Ok(from)
                else if token.None? then Ok(None)
                else if Upper(token.value.text) == "FROM" then Ok(token) else FindFrom(sql, token.value.end)
      decreases from.None?, if token.Some? then |sql| - token.value.end + 1 else 0
    {
      if Upper(token.value.text) == "FROM" {
        from := token;
      } else {
        read := ReadCqnToken(sql, token.value.end);
        if read.Err? { return Err(Unreadable(read.error)); }
        ReadMoves(sql, token.value.end);
        token := read.value;
      }
    }
    if from.None? { return Err(Syntax); }
    read := ReadCqnToken(sql, from.value.end);
    if read.Err? { return Err(Unreadable(read.error)); }
    if read.value.None? || !Qualified(read.value.value.text) { return Err(Syntax); }
    var table := read.value.value;
    var projection := Trim(sql[select.end..from.value.start]);

    read := ReadCqnToken(sql, table.end);
    if read.Err? { return Err(Unreadable(read.error)); }
    token := read.value;
    var alias: Option<string> := None;
    if token.Some? && Upper(token.value.text) == "AS" {
      read := ReadCqnToken(sql, token.value.end);
      if read.Err? { return Err(Unreadable(read.error)); }
      token := read.value;
      if token.None? || Upper(token.value.text) == "WHERE" { return Err(Syntax); }
    }
    if token.Some? && Upper(token.value.text) != "WHERE" {
      if !Identifier(Trim(token.value.text)) { return Err(UnsafeIdentifier); }
      alias := Some(Trim(token.value.text));
      read := ReadCqnToken(sql, token.value.end);
      if read.Err? { return Err(Unreadable(read.error)); }
      token := read.value;
    }
    var where: Option<string> := None;
    if token.Some? {
      if Upper(token.value.text) != "WHERE" { return Err(Syntax); }
      where := Some(Trim(sql[token.value.end..]));
      if where.value == [] { return Err(Syntax); }
    }
    if projection == [] || forbidden(projection) || (where.Some? && forbidden(where.value)) {
      return Err(UnsafeConstruct);
    }
    return Ok(Plan(projection, table.text, alias, where));
  }

  lemma ReadMoves(sql: string, offset: nat)
    requires offset <= |sql|
    ensures ReadToken(sql, offset).Ok? && ReadToken(sql, offset).value.Some? ==>
              offset < ReadToken(sql, offset).value.value.end <= |sql|
  {}

  /** The condition that pins a query to a set of ROWIDs. */
  function RowIdPredicate(plan: Plan, placeholders: string): string {
    (if plan.alias.Some? then plan.alias.value + ".ROWID" else "ROWID") + " IN (" + placeholders + ")"
  }

  function Where(plan: Plan, placeholders: string): string {
    if plan.where.Some? then "(" + plan.where.value + ")" + " AND " + RowIdPredicate(plan, placeholders)
    else RowIdPredicate(plan, placeholders)
  }

  function From(plan: Plan): string {
    plan.tableName + if plan.alias.Some? then " " + plan.alias.value else ""
  }

  /** The refetch query of a plan. */
  function Build(plan: Plan, placeholders: string): string {
    "SELECT " + plan.projection + " FROM " + From(plan) + " WHERE " + Where(plan, placeholders)
  }
}

/** The row cap of the query policy, and its two-pass authorization over an abstract parser, relation
    check and printer. */
module SqlPolicy {
  import opened Wrappers
  import A = Arrow

  datatype Expression = Literal(isInteger: bool, value: int) | OtherExpression

  datatype Options = Options(percent: bool, withTies: bool)

  /** A LIMIT or FETCH clause. */
  datatype Clause =
    | Limit(expression: Option<Expression>, options: Option<Options>)
    | Fetch(count: Option<Expression>, options: Option<Options>)

  /** A parsed query, as far as the policy looks: everything else is its body. */
  datatype Ast = Ast(body: int, limit: Option<Clause>)

  function PlainLimit(rows: nat): Clause {
    Limit(Some(Literal(true, rows)), None)
  }

  predicate PercentOrTies(clause: Clause) {
    clause.options.Some? && (clause.options.value.percent || clause.options.value.withTies)
  }

  function CountOf(clause: Clause): Option<Expression> {
    if clause.Limit? then clause.expression else clause.count
  }

  predicate IsCount(expression: Option<Expression>) {
    expression.Some? && expression.value.Literal? && expression.value.isInteger && expression.value.value >= 0
  }

  /** The clauses the policy can cap; it rejects a query with any other. */
  predicate Cappable(limit: Option<Clause>) {
    limit.None? || PercentOrTies(limit.value) || IsCount(CountOf(limit.value))
  }

  function Capped(limit: Option<Clause>, cap: nat): Option<Clause>
    requires Cappable(limit)
  {
    if limit.Some? && !PercentOrTies(limit.value) && CountOf(limit.value).value.value <= cap then limit
    else Some(PlainLimit(cap))
  }

  class Statement {
    const body: int
    var limit: Option<Clause>

    constructor (ast: Ast)
      ensures AsAst() == ast
    {
      body, limit := ast.body, ast.limit;
    }

    function AsAst(): Ast
      reads this
    {
      Ast(body, limit)
    }

    /** Caps the statement in place, or rejects it untouched. */
    method ApplyRowCap(maximumRows: nat) returns (ok: bool)
      modifies this
      ensures ok <==> Cappable(old(limit))
      ensures limit == if ok then Capped(old(limit), maximumRows) else old(limit)
    {
      if limit.None? {
        limit := Some(PlainLimit(maximumRows));
        return true;
      }
      var clause := limit.value;
      if clause.options.Some? && (clause.options.value.percent || clause.options.value.withTies) {
        limit := Some(PlainLimit(maximumRows));
        return true;
      }
      var expression := if clause.Limit? then clause.expression else clause.count;
      var value := NonnegativeInteger(expression);
      if value.None? {
        return false;
      }
      if value.value > maximumRows {
        limit := Some(PlainLimit(maximumRows));
      }
      return true;
    }
  }

  method NonnegativeInteger(expression: Option<Expression>) returns (value: Option<nat>)
    ensures value.Some? <==> IsCount(expression)
    ensures value.Some? ==> value.value == expression.value.value
  {
    if expression.None? || !expression.value.Literal? || !expression.value.isInteger || expression.value.value < 0 {
      return None;
    }
    return Some(expression.value.value);
  }

  // ----- what the cap does to a result -----

  /** A row count, or none when the query is unlimited. */
  ghost predicate Counted(limit: Option<Clause>) {
    limit.None? || (!PercentOrTies(limit.value) && IsCount(CountOf(limit.value)))
  }

  /** The rows a query returns, from the rows it would return without its limit. */
  ghost function Evaluate<T>(rows: seq<T>, limit: Option<Clause>): seq<T>
    requires Counted(limit)
  {
    if limit.None? || CountOf(limit.value).value.value >= |rows| then rows
    else rows[..CountOf(limit.value).value.value]
  }

  /** Capping one row above the admitted number loses nothing silently: the capped result has at most
      that number of rows exactly when the uncapped one has, and then they are the same rows. */
  lemma NoSilentTruncation<T>(rows: seq<T>, limit: Option<Clause>, maximumRows: nat)
    requires Counted(limit)
    ensures Cappable(limit) && Counted(Capped(limit, maximumRows + 1))
    ensures var capped, uncapped := Evaluate(rows, Capped(limit, maximumRows + 1)), Evaluate(rows, limit);
            && |capped| <= maximumRows + 1
            && (|capped| <= maximumRows <==> |uncapped| <= maximumRows)
            && (|uncapped| <= maximumRows ==> capped == uncapped)
  {
  }

  /** The same across admission: an admitted result is the uncapped query's, and a query with more rows
      than the admission limit is never admitted. */
  lemma AdmittedMeansUncut<T>(rows: seq<T>, limit: Option<Clause>, z: A.Serializer, source: A.Source, limits: A.Limits)
    requires A.ValidLimits(limits) && Counted(limit) && Cappable(limit) && Counted(Capped(limit, limits.rows + 1))
    requires A.Rows(source.batches) == |Evaluate(rows, Capped(limit, limits.rows + 1))|
    ensures A.Admissible(z, source, limits) ==> Evaluate(rows, Capped(limit, limits.rows + 1)) == Evaluate(rows, limit)
    ensures |Evaluate(rows, limit)| > limits.rows ==> !A.Admissible(z, source, limits)
  {
    NoSilentTruncation(rows, limit, limits.rows);
    hide A.SchemaSupported;
    hide A.CellsWithin;
    hide A.Rows;
  }

  /** A capped statement is capped: capping again, even for a larger cap, changes nothing. */
  lemma CapIsIdempotent(limit: Option<Clause>, cap: nat, larger: nat)
    requires Cappable(limit) && cap <= larger
    ensures Counted(Capped(limit, cap)) && Cappable(Capped(limit, cap))
    ensures Capped(Capped(limit, cap), larger) == Capped(limit, cap)
  {
  }

  /** How many rows a clause with this count asks for: a percentage is counted up to the next whole row. */
  function Share(rows: nat, clause: Clause): nat
    requires IsCount(CountOf(clause))
  {
    var count := CountOf(clause).value.value;
    if clause.options.Some? && clause.options.value.percent then (rows * count + 99) / 100 else count
  }

  /** The first rows of a count, and those behind them that sort the same; a row is its sort key. */
  function WithTies(rows: seq<int>, count: nat): seq<int>
    decreases |rows| - count
  {
    if count == 0 then []
    else if count >= |rows| then rows
    else if rows[count] == rows[count - 1] then WithTies(rows, count + 1)
    else rows[..count]
  }

  /** The rows a clause with options asks for. */
  function Requested(rows: seq<int>, clause: Clause): seq<int>
    requires IsCount(CountOf(clause))
  {
    var count := Share(|rows|, clause);
    if clause.options.Some? && clause.options.value.withTies then WithTies(rows, count)
    else if count >= |rows| then rows
    else rows[..count]
  }

  /** Every result of the rewritten query that is admitted is the result asked for. */
  ghost predicate Kept(clause: Clause, maximumRows: nat)
    requires PercentOrTies(clause) && IsCount(CountOf(clause))
  {
    forall rows: seq<int> :: |Evaluate(rows, Some(PlainLimit(maximumRows + 1)))| <= maximumRows ==>
      Evaluate(rows, Some(PlainLimit(maximumRows + 1))) == Requested(rows, clause)
  }

  /** A PERCENT or WITH TIES clause is rewritten to a plain cap, so what is admitted is the whole result. */
  lemma RewrittenToAll<T>(rows: seq<T>, clause: Clause, maximumRows: nat)
    requires PercentOrTies(clause)
    ensures Cappable(Some(clause)) && Capped(Some(clause), maximumRows + 1) == Some(PlainLimit(maximumRows + 1))
    ensures Counted(Some(PlainLimit(maximumRows + 1)))
    ensures |Evaluate(rows, Some(PlainLimit(maximumRows + 1)))| <= maximumRows <==> |rows| <= maximumRows
    ensures |rows| <= maximumRows ==> Evaluate(rows, Some(PlainLimit(maximumRows + 1))) == rows
  {
  }

  /** Admitted results are all as asked for exactly when every share of up to that many rows is all of
      them: rows without ties show the first share that is not. */
  lemma KeptIffShares(clause: Clause, maximumRows: nat)
    requires PercentOrTies(clause) && IsCount(CountOf(clause))
    ensures Kept(clause, maximumRows) <==> forall n: nat :: n <= maximumRows ==> Share(n, clause) >= n
  {
    if Kept(clause, maximumRows) {
      forall n: nat | n <= maximumRows ensures Share(n, clause) >= n {
        DistinctRows(clause, n);
        RewrittenToAll(seq(n, i => i), clause, maximumRows);
      }
    }
    if forall n: nat :: n <= maximumRows ==> Share(n, clause) >= n {
      forall rows: seq<int> | |Evaluate(rows, Some(PlainLimit(maximumRows + 1)))| <= maximumRows
        ensures Evaluate(rows, Some(PlainLimit(maximumRows + 1))) == Requested(rows, clause)
      {
        RewrittenToAll(rows, clause, maximumRows);
        assert Share(|rows|, clause) >= |rows|;
        assert |rows| == 0 ==> rows == [];
      }
    }
  }

  /** Of rows that all differ, only a whole share is requested whole. */
  lemma DistinctRows(clause: Clause, n: nat)
    requires PercentOrTies(clause) && IsCount(CountOf(clause))
    ensures Share(n, clause) < n ==> Requested(seq(n, i => i), clause) != seq(n, i => i)
  {
    hide Share;
    var rows, count := seq(n, i => i), Share(n, clause);
    if count < n {
      assert |Requested(rows, clause)| == count;
    }
  }

  /** PERCENT, with ties or without: exactly when the row limit and the percentage left out leave no room
      for a row to be dropped. */
  lemma PercentKeptIff(clause: Clause, percent: nat, maximumRows: nat)
    requires clause.options.Some? && clause.options.value.percent && CountOf(clause) == Some(Literal(true, percent))
    ensures Kept(clause, maximumRows) <==> maximumRows * (100 - percent) < 100
  {
    KeptIffShares(clause, maximumRows);
    hide Kept;
    if maximumRows * (100 - percent) < 100 {
      forall n: nat | n <= maximumRows ensures Share(n, clause) >= n {
        ShareIsAll(n, maximumRows, percent);
      }
    } else {
      ShareDropsOne(maximumRows, percent);
      assert Share(maximumRows, clause) < maximumRows;
    }
  }

  lemma ShareIsAll(rows: nat, maximumRows: nat, percent: nat)
    requires rows <= maximumRows && maximumRows * (100 - percent) < 100
    ensures (rows * percent + 99) / 100 >= rows
  {
    if percent <= 100 {
      assert rows * (100 - percent) <= maximumRows * (100 - percent);
    } else {
      assert rows * (percent - 100) >= 0;
    }
    assert rows * percent == rows * 100 - rows * (100 - percent);
  }

  lemma ShareDropsOne(rows: nat, percent: nat)
    requires rows * (100 - percent) >= 100
    ensures (rows * percent + 99) / 100 < rows
  {
    assert rows * percent == rows * 100 - rows * (100 - percent);
  }

  /** WITH TIES of a plain count: exactly when the count is no smaller than the row limit. */
  lemma TiesKeptIff(clause: Clause, count: nat, maximumRows: nat)
    requires clause.options.Some? && clause.options.value.withTies && !clause.options.value.percent
    requires CountOf(clause) == Some(Literal(true, count))
    ensures Kept(clause, maximumRows) <==> maximumRows <= count
  {
    KeptIffShares(clause, maximumRows);
    hide Kept;
    if maximumRows <= count {
      forall n: nat | n <= maximumRows ensures Share(n, clause) >= n {
        assert Share(n, clause) == count;
      }
    } else {
      assert Share(maximumRows, clause) == count;
    }
  }

  /** Half of two rows is one row, yet both are admitted. */
  lemma HalfOfTwoRows()
    ensures var clause := Fetch(Some(Literal(true, 50)), Some(Options(true, false)));
            && Capped(Some(clause), 51) == Some(PlainLimit(51)) && Evaluate([0, 1], Some(PlainLimit(51))) == [0, 1]
            && Requested([0, 1], clause) == [0]
  {
    var clause := Fetch(Some(Literal(true, 50)), Some(Options(true, false)));
    assert Share(2, clause) == 1 && [0, 1][..1] == [0];
  }

  // ----- authorization -----

  /** A parser that yields exactly one query or nothing, a relation check, and a printer. */
  datatype Dialect = Dialect(parse: string -> Option<Ast>, allows: Ast -> bool, text: Ast -> string)

  /** Parse, check, cap and print. */
  function Govern(dialect: Dialect, cap: nat, sql: string): Option<string> {
    var parsed := dialect.parse(sql);
    if parsed.None? || !dialect.allows(parsed.value) || !Cappable(parsed.value.limit) then None
    else Some(dialect.text(parsed.value.(limit := Capped(parsed.value.limit, cap))))
  }

  method Pass(dialect: Dialect, cap: nat, sql: string) returns (governed: Option<string>)
    ensures governed == Govern(dialect, cap, sql)
  {
    var parsed := dialect.parse(sql);
    if parsed.None? || !dialect.allows(parsed.value) {
      return None;
    }
    var statement := new Statement(parsed.value);
    var ok := statement.ApplyRowCap(cap);
    if !ok {
      return None;
    }
    return Some(dialect.text(statement.AsAst()));
  }

  /** Governs the query, then governs the result again; only text that comes back unchanged is executed. */
  method Authorize(dialect: Dialect, maximumRows: nat, sql: string) returns (governed: Option<string>)
    ensures governed == Authorized(dialect, maximumRows, sql)
  {
    governed := Pass(dialect, maximumRows + 1, sql);
    if governed.None? {
      return None;
    }
    var again := Pass(dialect, maximumRows + 1, governed.value);
    if again != governed {
      return None;
    }
  }

  function Authorized(dialect: Dialect, maximumRows: nat, sql: string): Option<string> {
    var governed := Govern(dialect, maximumRows + 1, sql);
    if governed.Some? && Govern(dialect, maximumRows + 1, governed.value) == governed then governed else None
  }

  /** The text that is executed has itself been parsed, checked and capped, and authorizing it gives it
      back. */
  lemma AuthorizedIsFixpoint(dialect: Dialect, maximumRows: nat, sql: string)
    requires Authorized(dialect, maximumRows, sql).Some?
    ensures var governed := Authorized(dialect, maximumRows, sql).value;
            && dialect.parse(governed).Some? && dialect.allows(dialect.parse(governed).value)
            && Cappable(dialect.parse(governed).value.limit)
            && Authorized(dialect, maximumRows, governed) == Some(governed)
  {
  }

  // ----- which queries are authorized -----

  /** The limits a query may have: none, a PERCENT or WITH TIES clause, or a non-negative integer literal. */
  predicate MayLimit(limit: Option<Clause>) {
    match limit
    case None => true
    case Some(Limit(expression, options)) => WithOptions(options) || CountLiteral(expression)
    case Some(Fetch(count, options)) => WithOptions(options) || CountLiteral(count)
  }

  predicate WithOptions(options: Option<Options>) {
    match options case Some(Options(percent, withTies)) => percent || withTies case None => false
  }

  predicate CountLiteral(expression: Option<Expression>) {
    match expression case Some(Literal(isInteger, value)) => isInteger && value >= 0 case _ => false
  }

  /** The query to execute: the one submitted when its literal count is at most one above the maximum, and
      otherwise the same body limited to one row above the maximum. */
  function ToExecute(ast: Ast, maximumRows: nat): Ast {
    match ast.limit
    case Some(Limit(Some(Literal(true, n)), options)) =>
      if !WithOptions(options) && n <= maximumRows + 1 then ast else Ast(ast.body, Some(PlainLimit(maximumRows + 1)))
    case Some(Fetch(Some(Literal(true, n)), options)) =>
      if !WithOptions(options) && n <= maximumRows + 1 then ast else Ast(ast.body, Some(PlainLimit(maximumRows + 1)))
    case _ => Ast(ast.body, Some(PlainLimit(maximumRows + 1)))
  }

  lemma GovernIs(dialect: Dialect, maximumRows: nat, sql: string)
    ensures Govern(dialect, maximumRows + 1, sql) ==
            match dialect.parse(sql)
            case None => None
            case Some(ast) =>
              if dialect.allows(ast) && MayLimit(ast.limit) then Some(dialect.text(ToExecute(ast, maximumRows))) else None
  {
    var parsed := dialect.parse(sql);
    if parsed.Some? {
      CapIs(parsed.value, maximumRows);
    }
    hide Capped;
    hide Cappable;
    hide ToExecute;
    hide MayLimit;
  }

  lemma CapIs(ast: Ast, maximumRows: nat)
    ensures Cappable(ast.limit) <==> MayLimit(ast.limit)
    ensures MayLimit(ast.limit) ==> ast.(limit := Capped(ast.limit, maximumRows + 1)) == ToExecute(ast, maximumRows)
  {
  }

  /** Which queries are authorized, for any printer, and what is then executed: exactly those that parse, are
      allowed and have such a limit, and whose text as executed parses, is allowed and has such a limit
      again, and comes back as the same text. */
  lemma AuthorizedIff(dialect: Dialect, maximumRows: nat, sql: string, governed: string)
    ensures Authorized(dialect, maximumRows, sql) == Some(governed) <==>
              && dialect.parse(sql).Some?
              && var ast := dialect.parse(sql).value;
                 && dialect.allows(ast) && MayLimit(ast.limit) && governed == dialect.text(ToExecute(ast, maximumRows))
                 && dialect.parse(governed).Some?
                 && var again := dialect.parse(governed).value;
                    && dialect.allows(again) && MayLimit(again.limit)
                    && dialect.text(ToExecute(again, maximumRows)) == governed
  {
    GovernIs(dialect, maximumRows, sql);
    GovernIs(dialect, maximumRows, governed);
    hide Govern;
    hide ToExecute;
    hide MayLimit;
  }

  /** What is executed needs no further cap. */
  lemma ToExecuteTwice(ast: Ast, maximumRows: nat)
    requires MayLimit(ast.limit)
    ensures MayLimit(ToExecute(ast, maximumRows).limit)
    ensures ToExecute(ToExecute(ast, maximumRows), maximumRows) == ToExecute(ast, maximumRows)
  {
  }

  /** When printing loses nothing of the capped query and the cap does not turn an allowed query into one that
      is not, a query is authorized exactly if it parses, is allowed and has such a limit, and it is then the
      capped query that is executed. */
  lemma FaithfulPrinterAuthorizes(dialect: Dialect, maximumRows: nat, sql: string)
    requires dialect.parse(sql).Some? ==>
               var ast := dialect.parse(sql).value;
               && dialect.parse(dialect.text(ToExecute(ast, maximumRows))) == Some(ToExecute(ast, maximumRows))
               && (dialect.allows(ast) ==> dialect.allows(ToExecute(ast, maximumRows)))
    ensures Authorized(dialect, maximumRows, sql) ==
            match dialect.parse(sql)
            case None => None
            case Some(ast) =>
              if dialect.allows(ast) && MayLimit(ast.limit) then Some(dialect.text(ToExecute(ast, maximumRows))) else None
  {
    GovernIs(dialect, maximumRows, sql);
    if dialect.parse(sql).Some? && MayLimit(dialect.parse(sql).value.limit) {
      var ast := dialect.parse(sql).value;
      GovernIs(dialect, maximumRows, dialect.text(ToExecute(ast, maximumRows)));
      ToExecuteTwice(ast, maximumRows);
    }
    hide Govern;
    hide ToExecute;
    hide MayLimit;
  }

  /** The printer loses nothing of this query. */
  predicate PrintedFaithfully(dialect: Dialect, ast: Ast) {
    dialect.parse(dialect.text(ast)) == Some(ast)
  }

  /** When printing loses nothing of the capped query, what the database parses is that query: it asks for at
      most one row above the maximum, and its body is the body of the query submitted. */
  lemma ExecutedQueryIsCapped<T>(dialect: Dialect, maximumRows: nat, sql: string, rows: seq<T>)
    requires Authorized(dialect, maximumRows, sql).Some?
    requires var submitted := dialect.parse(sql).value;
             PrintedFaithfully(dialect, submitted.(limit := Capped(submitted.limit, maximumRows + 1)))
    ensures var submitted := dialect.parse(sql).value;
            var executed := dialect.parse(Authorized(dialect, maximumRows, sql).value).value;
            && dialect.allows(submitted) && Cappable(submitted.limit)
            && executed == submitted.(limit := Capped(submitted.limit, maximumRows + 1))
            && Counted(executed.limit) && |Evaluate(rows, executed.limit)| <= maximumRows + 1
  {
  }
}

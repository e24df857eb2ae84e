/**
 * The WHERE text of the index query and what it selects (internal/http/utils.go). The text is kept
 * as the fragments it is put together from; AND binds tighter than OR, as in SQL, and each condition
 * takes the next parameter.
 */
module QueryText {
  import opened Wrappers
  import opened IndexCache

  datatype Token = NameLike | Or | And | CreatedAtMost | CreatedAtLeast

  datatype Param = Pattern(text: string) | Instant(t: int)

  function Fragment(t: Token): string {
    match t
    case NameLike => "name LIKE ?"
    case Or => " OR "
    case And => " AND "
    case CreatedAtMost => "index_create_at <= ?"
    case CreatedAtLeast => "index_create_at >= ?"
  }

  /** The SQL text itself. */
  function Render(text: seq<Token>): string {
    if text == [] then "" else Fragment(text[0]) + Render(text[1..])
  }

  predicate IsCondition(t: Token) {
    !t.Or? && !t.And?
  }

  // ---------------------------------------------------------------- conditions

  /** SQL LIKE without an escape character: % is any text, _ is any character. */
  predicate Like(pattern: string, text: string)
    decreases |pattern| + |text|
  {
    if pattern == "" then text == ""
    else if pattern[0] == '%' then Like(pattern[1..], text) || (text != "" && Like(pattern, text[1..]))
    else text != "" && (pattern[0] == '_' || pattern[0] == text[0]) && Like(pattern[1..], text[1..])
  }

  function Around(name: string): string {
    "%" + name + "%"
  }

  /** The name contains what was asked for, read as a LIKE pattern. */
  predicate NameMatches(asked: string, row: IndexRow) {
    Like(Around(asked), row.name)
  }

  lemma {:induction false} LikePrefixOfItself(name: string)
    ensures Like(name + "%", name)
  {
    if name == "" {
      assert name + "%" == "%" && "%"[1..] == "";
    } else {
      var rest := name[1..];
      LikePrefixOfItself(rest);
      assert (name + "%")[1..] == rest + "%";
      if name[0] == '%' {
        assert Like(name + "%", rest);
      }
    }
  }

  /** Whatever wildcards a name holds, it matches itself. */
  lemma NameMatchesItself(row: IndexRow)
    ensures NameMatches(row.name, row)
  {
    LikePrefixOfItself(row.name);
    assert Around(row.name)[1..] == row.name + "%";
  }

  predicate Holds(condition: Token, param: Param, row: IndexRow) {
    match condition
    case NameLike => param.Pattern? && Like(param.text, row.name)
    case CreatedAtMost => param.Instant? && row.createAt.Some? && row.createAt.value <= param.t
    case CreatedAtLeast => param.Instant? && row.createAt.Some? && row.createAt.value >= param.t
    case _ => false
  }

  // ---------------------------------------------------------------- precedence

  function Placeholders(text: seq<Token>): nat {
    if text == [] then 0 else (if IsCondition(text[0]) then 1 else 0) + Placeholders(text[1..])
  }

  function FirstOr(text: seq<Token>): (k: nat)
    ensures k <= |text|
    ensures forall i | 0 <= i < k :: !text[i].Or?
    ensures k < |text| ==> text[k].Or?
  {
    if text == [] || text[0].Or? then 0 else 1 + FirstOr(text[1..])
  }

  /** Conditions joined by AND. */
  predicate EvalAnd(text: seq<Token>, params: seq<Param>, row: IndexRow) {
    && text != [] && params != []
    && Holds(text[0], params[0], row)
    && (|text| == 1 || (text[1].And? && EvalAnd(text[2..], params[1..], row)))
  }

  /** Such conjunctions joined by OR. */
  predicate Eval(text: seq<Token>, params: seq<Param>, row: IndexRow) {
    var k := FirstOr(text);
    var used := Placeholders(text[..k]);
    if k == |text| || used > |params| then EvalAnd(text, params, row)
    else EvalAnd(text[..k], params, row) || Eval(text[k + 1..], params[used..], row)
  }

  // ---------------------------------------------------------------- the texts that are built

  function NameQuery(k: nat): seq<Token> {
    if k == 0 then [] else if k == 1 then [NameLike] else [NameLike, Or] + NameQuery(k - 1)
  }

  function Patterns(names: seq<string>): (params: seq<Param>)
    ensures |params| == |names| && forall i | 0 <= i < |names| :: params[i] == Pattern(Around(names[i]))
  {
    seq(|names|, i requires 0 <= i < |names| => Pattern(Around(names[i])))
  }

  /** A time bound: the condition and its instant. */
  datatype Bound = Bound(condition: Token, t: int)

  predicate IsTimeBound(b: Bound) {
    b.condition.CreatedAtMost? || b.condition.CreatedAtLeast?
  }

  function BoundText(bounds: seq<Bound>): seq<Token> {
    if bounds == [] then [] else [And, bounds[0].condition] + BoundText(bounds[1..])
  }

  function BoundParams(bounds: seq<Bound>): (params: seq<Param>)
    ensures |params| == |bounds| && forall i | 0 <= i < |bounds| :: params[i] == Instant(bounds[i].t)
  {
    seq(|bounds|, i requires 0 <= i < |bounds| => Instant(bounds[i].t))
  }

  function QueryFor(k: nat, bounds: seq<Bound>): seq<Token> {
    NameQuery(k) + BoundText(bounds)
  }

  function ParamsFor(names: seq<string>, bounds: seq<Bound>): seq<Param> {
    Patterns(names) + BoundParams(bounds)
  }

  predicate BoundsHold(bounds: seq<Bound>, row: IndexRow) {
    forall i | 0 <= i < |bounds| :: Holds(bounds[i].condition, Instant(bounds[i].t), row)
  }

  predicate AnyName(names: seq<string>, row: IndexRow) {
    exists i | 0 <= i < |names| :: NameMatches(names[i], row)
  }

  lemma {:induction false} PlaceholdersConcat(a: seq<Token>, b: seq<Token>)
    ensures Placeholders(a + b) == Placeholders(a) + Placeholders(b)
  {
    if a == [] {
      assert a + b == b;
    } else {
      assert (a + b)[1..] == a[1..] + b;
      PlaceholdersConcat(a[1..], b);
    }
  }

  lemma {:induction false} NameQueryPlaceholders(k: nat)
    ensures Placeholders(NameQuery(k)) == k
  {
    if k >= 2 {
      NameQueryPlaceholders(k - 1);
      PlaceholdersConcat([NameLike, Or], NameQuery(k - 1));
      assert Placeholders([NameLike, Or]) == 1;
    }
  }

  lemma {:induction false} BoundPlaceholders(bounds: seq<Bound>)
    requires forall b | b in bounds :: IsTimeBound(b)
    ensures Placeholders(BoundText(bounds)) == |bounds|
  {
    if bounds == [] {
    } else {
      assert bounds[0] in bounds;
      BoundPlaceholders(bounds[1..]);
      PlaceholdersConcat([And, bounds[0].condition], BoundText(bounds[1..]));
      assert Placeholders([And, bounds[0].condition]) == 1;
    }
  }

  /** One placeholder for each parameter. */
  lemma OnePlaceholderEach(names: seq<string>, bounds: seq<Bound>)
    requires forall b | b in bounds :: IsTimeBound(b)
    ensures Placeholders(QueryFor(|names|, bounds)) == |ParamsFor(names, bounds)|
  {
    NameQueryPlaceholders(|names|);
    BoundPlaceholders(bounds);
    PlaceholdersConcat(NameQuery(|names|), BoundText(bounds));
  }

  function Marks(sql: string): nat {
    if sql == "" then 0 else (if sql[|sql| - 1] == '?' then 1 else 0) + Marks(sql[..|sql| - 1])
  }

  lemma {:induction false} MarksConcat(a: string, b: string)
    ensures Marks(a + b) == Marks(a) + Marks(b)
  {
    if b == "" {
      assert a + b == a;
    } else {
      assert (a + b)[..|a + b| - 1] == a + b[..|b| - 1];
      MarksConcat(a, b[..|b| - 1]);
    }
  }

  lemma {:induction false} NoMarks(sql: string)
    requires '?' !in sql
    ensures Marks(sql) == 0
  {
    if sql == "" {
    } else {
      NoMarks(sql[..|sql| - 1]);
    }
  }

  lemma FragmentMarks(t: Token)
    ensures Marks(Fragment(t)) == if IsCondition(t) then 1 else 0
  {
    match t {
      case NameLike =>
        NoMarks("name LIKE "); MarksConcat("name LIKE ", "?");
        assert "name LIKE ?" == "name LIKE " + "?";
      case Or => NoMarks(" OR ");
      case And => NoMarks(" AND ");
      case CreatedAtMost =>
        NoMarks("index_create_at <= "); MarksConcat("index_create_at <= ", "?");
        assert "index_create_at <= ?" == "index_create_at <= " + "?";
      case CreatedAtLeast =>
        NoMarks("index_create_at >= "); MarksConcat("index_create_at >= ", "?");
        assert "index_create_at >= ?" == "index_create_at >= " + "?";
    }
  }

  /** The placeholders are the question marks of the SQL text. */
  lemma {:induction false} PlaceholdersAreMarks(text: seq<Token>)
    ensures Marks(Render(text)) == Placeholders(text)
  {
    if text == [] {
    } else {
      PlaceholdersAreMarks(text[1..]);
      FragmentMarks(text[0]);
      MarksConcat(Fragment(text[0]), Render(text[1..]));
    }
  }

  // ---------------------------------------------------------------- what they select

  lemma {:induction false} BoundsEval(first: Token, param: Param, bounds: seq<Bound>, row: IndexRow)
    ensures EvalAnd([first] + BoundText(bounds), [param] + BoundParams(bounds), row)
            <==> Holds(first, param, row) && BoundsHold(bounds, row)
    decreases |bounds|
  {
    var text, params := [first] + BoundText(bounds), [param] + BoundParams(bounds);
    if bounds == [] {
    } else {
      var rest := bounds[1..];
      BoundsEval(bounds[0].condition, Instant(bounds[0].t), rest, row);
      assert text[1] == And && text[2..] == [bounds[0].condition] + BoundText(rest);
      assert params[1..] == [Instant(bounds[0].t)] + BoundParams(rest);
      assert BoundsHold(bounds, row) <==>
             Holds(bounds[0].condition, Instant(bounds[0].t), row) && BoundsHold(rest, row) by {
        assert forall i | 0 <= i < |rest| :: rest[i] == bounds[i + 1];
        assert forall i | 1 <= i < |bounds| :: bounds[i] == rest[i - 1];
      }
    }
  }

  lemma {:induction false} NoOrInBounds(first: Token, bounds: seq<Bound>)
    requires IsCondition(first) && forall b | b in bounds :: IsTimeBound(b)
    ensures FirstOr([first] + BoundText(bounds)) == |[first] + BoundText(bounds)|
    decreases |bounds|
  {
    var text := [first] + BoundText(bounds);
    if bounds == [] {
    } else {
      assert bounds[0] in bounds;
      NoOrInBounds(bounds[0].condition, bounds[1..]);
      assert text[1..] == [And] + ([bounds[0].condition] + BoundText(bounds[1..]));
      assert text[1..][1..] == [bounds[0].condition] + BoundText(bounds[1..]);
    }
  }

  /** One name: the text means what it says. */
  lemma OneNameQuery(name: string, bounds: seq<Bound>, row: IndexRow)
    requires forall b | b in bounds :: IsTimeBound(b)
    ensures Eval(QueryFor(1, bounds), ParamsFor([name], bounds), row)
            <==> NameMatches(name, row) && BoundsHold(bounds, row)
  {
    BoundsEval(NameLike, Pattern(Around(name)), bounds, row);
    NoOrInBounds(NameLike, bounds);
    assert ParamsFor([name], bounds) == [Pattern(Around(name))] + BoundParams(bounds);
  }

  /** More names: the bounds belong to the last name only, and the others are selected at any time. */
  lemma {:induction false} QuerySelects(names: seq<string>, bounds: seq<Bound>, row: IndexRow)
    requires names != [] && forall b | b in bounds :: IsTimeBound(b)
    ensures Eval(QueryFor(|names|, bounds), ParamsFor(names, bounds), row)
            <==> AnyName(names[..|names| - 1], row)
                 || (NameMatches(names[|names| - 1], row) && BoundsHold(bounds, row))
  {
    if |names| == 1 {
      assert names == [names[0]];
      OneNameQuery(names[0], bounds, row);
    } else {
      QuerySelects(names[1..], bounds, row);
      QueryUnfolds(names, bounds, row);
      FirstOrLater(names, row);
    }
    hide *;
  }

  /** The first of several names stands alone before the first "or". */
  lemma QueryUnfolds(names: seq<string>, bounds: seq<Bound>, row: IndexRow)
    requires |names| >= 2
    ensures Eval(QueryFor(|names|, bounds), ParamsFor(names, bounds), row)
            <==> NameMatches(names[0], row) || Eval(QueryFor(|names| - 1, bounds), ParamsFor(names[1..], bounds), row)
  {
    var text, params := QueryFor(|names|, bounds), ParamsFor(names, bounds);
    assert text == [NameLike, Or] + QueryFor(|names| - 1, bounds);
    assert text[0] == NameLike && text[1] == Or && text[2..] == QueryFor(|names| - 1, bounds);
    assert FirstOr(text) == 1;
    assert text[..1] == [NameLike] && Placeholders([NameLike]) == 1;
    assert params[0] == Pattern(Around(names[0])) && params[1..] == ParamsFor(names[1..], bounds);
  }

  lemma FirstOrLater(names: seq<string>, row: IndexRow)
    requires |names| >= 2
    ensures AnyName(names[..|names| - 1], row)
            <==> NameMatches(names[0], row) || AnyName(names[1..][..|names| - 2], row)
  {
    var front, later := names[..|names| - 1], names[1..][..|names| - 2];
    assert front == [names[0]] + later;
    assert forall i | 0 <= i < |later| :: front[i + 1] == later[i];
    if AnyName(front, row) && !NameMatches(names[0], row) {
      var i :| 0 <= i < |front| && NameMatches(front[i], row);
      assert NameMatches(later[i - 1], row);
    }
    if AnyName(later, row) {
      var i :| 0 <= i < |later| && NameMatches(later[i], row);
      assert NameMatches(front[i + 1], row);
    }
    if NameMatches(names[0], row) {
      assert NameMatches(front[0], row);
    }
  }

  /** A row of the given name that the bound turns away. */
  function OutOfBounds(name: string, b: Bound): (row: IndexRow)
    requires IsTimeBound(b)
    ensures NameMatches(name, row) && !Holds(b.condition, Instant(b.t), row)
  {
    var row := IndexRow(name, Some(if b.condition.CreatedAtMost? then b.t + 1 else b.t - 1), "");
    NameMatchesItself(row);
    row
  }

  /** A text with a time bound selects what was meant, on every row, exactly for a single name. */
  lemma QueryMeansIntendedForOneName(names: seq<string>, bounds: seq<Bound>)
    requires names != [] && bounds != [] && forall b | b in bounds :: IsTimeBound(b)
    ensures (forall row :: Eval(QueryFor(|names|, bounds), ParamsFor(names, bounds), row)
                           <==> AnyName(names, row) && BoundsHold(bounds, row))
            <==> |names| == 1
  {
    hide Eval, NameMatches;
    if |names| == 1 {
      assert names == [names[0]];
      forall row
        ensures Eval(QueryFor(1, bounds), ParamsFor(names, bounds), row)
                <==> AnyName(names, row) && BoundsHold(bounds, row)
      {
        OneNameQuery(names[0], bounds, row);
        assert AnyName(names, row) <==> NameMatches(names[0], row);
      }
    } else {
      assert bounds[0] in bounds;
      var row := OutOfBounds(names[0], bounds[0]);
      QuerySelects(names, bounds, row);
      assert NameMatches(names[..|names| - 1][0], row);
      assert AnyName(names[..|names| - 1], row);
      assert !BoundsHold(bounds, row);
    }
  }
}

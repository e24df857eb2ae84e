/**
 * The index query over a time window (internal/http/utils.go) and the rows it covers; the order and
 * limit of a query are those of internal/db/db.go.
 */
module WindowQuery {
  import opened Wrappers
  import opened SizeText
  import opened Slices
  import opened IndexCache
  import opened QueryText

  // ---------------------------------------------------------------- queries

  /** Descending order of creation times; NULL comes last. */
  predicate NewerFirst(a: IndexRow, b: IndexRow) {
    b.createAt.None? || (a.createAt.Some? && a.createAt.value >= b.createAt.value)
  }

  predicate Descending(rows: seq<IndexRow>) {
    forall i, j | 0 <= i < j < |rows| :: NewerFirst(rows[i], rows[j])
  }

  function Selected(rows: seq<IndexRow>, text: seq<Token>, params: seq<Param>): (found: seq<IndexRow>)
    ensures forall r | r in found :: r in rows && Eval(text, params, r)
    ensures forall r | r in rows && Eval(text, params, r) :: r in found
  {
    if rows == [] then []
    else
      var last := rows[|rows| - 1];
      Selected(rows[..|rows| - 1], text, params) + if Eval(text, params, last) then [last] else []
  }

  /** An answer the database may give: newest first, all selected rows or the limit's worth of the
      newest; limit 0 is no limit. Rows of equal time may come in any order. */
  predicate Answers(rows: seq<IndexRow>, text: seq<Token>, params: seq<Param>, limit: nat, answer: seq<IndexRow>) {
    var found := Selected(rows, text, params);
    && Descending(answer)
    && multiset(answer) <= multiset(found)
    && |answer| == (if limit == 0 || limit > |found| then |found| else limit)
    && forall a, r | a in answer && r in multiset(found) - multiset(answer) :: NewerFirst(a, r)
  }

  /** Where r belongs in a descending list: behind everything not older. */
  function Place(sorted: seq<IndexRow>, r: IndexRow): (k: nat)
    ensures k <= |sorted|
    ensures k > 0 ==> NewerFirst(sorted[k - 1], r)
    ensures forall i | k <= i < |sorted| :: NewerFirst(r, sorted[i])
  {
    if sorted == [] then 0
    else if NewerFirst(sorted[|sorted| - 1], r) then |sorted|
    else Place(sorted[..|sorted| - 1], r)
  }

  function Inserted(sorted: seq<IndexRow>, r: IndexRow): seq<IndexRow> {
    var k := Place(sorted, r);
    sorted[..k] + [r] + sorted[k..]
  }

  lemma InsertedIsDescending(sorted: seq<IndexRow>, r: IndexRow)
    requires Descending(sorted)
    ensures Descending(Inserted(sorted, r))
  {
    var k, all := Place(sorted, r), Inserted(sorted, r);
    forall i | 0 <= i < k
      ensures NewerFirst(sorted[i], r)
    {
      assert i == k - 1 || NewerFirst(sorted[i], sorted[k - 1]);
    }
    forall i, j | 0 <= i < j < |all|
      ensures NewerFirst(all[i], all[j])
    {
      assert i < k ==> all[i] == sorted[i];
      assert i > k ==> all[i] == sorted[i - 1];
      assert j < k ==> all[j] == sorted[j];
      assert j > k ==> all[j] == sorted[j - 1];
      assert all[k] == r;
      hide NewerFirst;
    }
  }

  lemma InsertedInOrder(sorted: seq<IndexRow>, r: IndexRow)
    requires Descending(sorted)
    ensures Descending(Inserted(sorted, r))
    ensures multiset(Inserted(sorted, r)) == multiset(sorted) + multiset{r}
  {
    InsertedIsDescending(sorted, r);
    InsertedIsOneMore(sorted, r, Place(sorted, r));
    hide Descending, Place;
  }

  lemma InsertedIsOneMore(sorted: seq<IndexRow>, r: IndexRow, k: nat)
    requires k <= |sorted|
    ensures multiset(sorted[..k] + [r] + sorted[k..]) == multiset(sorted) + multiset{r}
  {
    assert sorted == sorted[..k] + sorted[k..];
  }

  /** The first of a descending list of all selected rows answer a limited query. */
  lemma LimitedAnswers(rows: seq<IndexRow>, text: seq<Token>, params: seq<Param>, limit: nat, all: seq<IndexRow>,
                       n: nat)
    requires Descending(all) && multiset(all) == multiset(Selected(rows, text, params)) && n <= |all|
    requires n == if limit == 0 || limit > |all| then |all| else limit
    ensures Answers(rows, text, params, limit, all[..n])
  {
    hide NewerFirst, Selected;
    var found := Selected(rows, text, params);
    SameSize(all, found);
    DescendingPrefix(all, n);
    LeftOut(all, found, n);
    forall a, r | a in all[..n] && r in multiset(found) - multiset(all[..n])
      ensures NewerFirst(a, r)
    {
      assert r in all[n..];
      PrefixBeforeRest(all, n, a, r);
    }
    hide Descending;
  }

  lemma LeftOut(all: seq<IndexRow>, found: seq<IndexRow>, n: nat)
    requires multiset(all) == multiset(found) && n <= |all|
    ensures multiset(all[..n]) <= multiset(found)
    ensures multiset(found) - multiset(all[..n]) == multiset(all[n..])
  {
    assert all == all[..n] + all[n..];
  }

  lemma PrefixBeforeRest(all: seq<IndexRow>, n: nat, a: IndexRow, r: IndexRow)
    requires Descending(all) && n <= |all| && a in all[..n] && r in all[n..]
    ensures NewerFirst(a, r)
  {
    hide NewerFirst;
    var i :| 0 <= i < n && all[i] == a;
    var j :| n <= j < |all| && all[j] == r;
    assert NewerFirst(all[i], all[j]);
  }

  lemma DescendingPrefix(all: seq<IndexRow>, n: nat)
    requires Descending(all) && n <= |all|
    ensures Descending(all[..n])
  {
  }

  method Find(rows: seq<IndexRow>, text: seq<Token>, params: seq<Param>) returns (all: seq<IndexRow>)
    ensures Descending(all) && multiset(all) == multiset(Selected(rows, text, params))
  {
    hide Eval, NewerFirst;
    all := [];
    for i := 0 to |rows|
      invariant Descending(all) && multiset(all) == multiset(Selected(rows[..i], text, params))
    {
      assert rows[..i + 1][..i] == rows[..i];
      if Eval(text, params, rows[i]) {
        InsertedInOrder(all, rows[i]);
        all := Inserted(all, rows[i]);
      }
    }
    assert rows[..|rows|] == rows;
  }

  method QueryAll(cache: Cache, text: seq<Token>, params: seq<Param>, limit: nat) returns (answer: seq<IndexRow>)
    ensures Answers(cache.indices, text, params, limit, answer)
  {
    answer := Find(cache.indices, text, params);
    LimitedAnswers(cache.indices, text, params, limit, answer,
                   if limit == 0 || limit > |answer| then |answer| else limit);
    if limit != 0 && limit <= |answer| {
      answer := answer[..limit];
    }
    assert answer[..|answer|] == answer;
  }

  lemma SameSize(a: seq<IndexRow>, b: seq<IndexRow>)
    requires multiset(a) == multiset(b)
    ensures |a| == |b|
  {
    assert |multiset(a)| == |multiset(b)|;
  }

  // ---------------------------------------------------------------- the window

  const FROM_BELOW := CreatedAtMost
  const FROM_ABOVE := CreatedAtLeast

  predicate AnswersFor(rows: seq<IndexRow>, names: seq<string>, bounds: seq<Bound>, limit: nat, answer: seq<IndexRow>) {
    Answers(rows, QueryFor(|names|, bounds), ParamsFor(names, bounds), limit, answer)
  }

  /** The bounds of the query for the window itself. */
  function WindowBounds(startAt: Option<int>, endAt: Option<int>): seq<Bound> {
    (if startAt.Some? then [Bound(FROM_ABOVE, startAt.value)] else [])
    + if endAt.Some? then [Bound(FROM_BELOW, endAt.value)] else []
  }

  /** With a start, one newest row from before it is put in front of the rows of the window. */
  predicate IsResult(rows: seq<IndexRow>, names: seq<string>, startAt: Option<int>, endAt: Option<int>,
                     first: seq<IndexRow>, rest: seq<IndexRow>)
  {
    && (if startAt.Some? then AnswersFor(rows, names, [Bound(FROM_BELOW, startAt.value)], 1, first) else first == [])
    && AnswersFor(rows, names, WindowBounds(startAt, endAt), 0, rest)
  }

  lemma {:induction false} NameQueryGrows(k: nat)
    requires k >= 1
    ensures NameQuery(k + 1) == NameQuery(k) + [Or, NameLike]
  {
    if k >= 2 {
      NameQueryGrows(k - 1);
    } else {
      assert [NameLike, Or] + [NameLike] == [NameLike] + [Or, NameLike];
    }
  }

  /** The text and the parameters of the name conditions, collected in one loop. */
  method NameConditions(names: seq<string>) returns (text: seq<Token>, param: Slice<Param>)
    ensures text == NameQuery(|names|)
    ensures Fits(param) && Items(param) == Patterns(names) && fresh(param.buf)
  {
    text := [];
    param := Nil();
    for i := 0 to |names|
      invariant text == NameQuery(i)
      invariant Fits(param) && Items(param) == Patterns(names[..i]) && fresh(param.buf)
    {
      if i > 0 {
        NameQueryGrows(i);
      }
      text := text + (if i == 0 then [NameLike] else [Or, NameLike]);
      assert Patterns(names[..i + 1]) == Patterns(names[..i]) + [Pattern(Around(names[i]))];
      param := Append(param, Pattern(Around(names[i])));
    }
    assert names[..|names|] == names;
  }

  lemma OneBound(names: seq<string>, b: Bound)
    ensures NameQuery(|names|) + [And, b.condition] == QueryFor(|names|, [b])
    ensures Patterns(names) + [Instant(b.t)] == ParamsFor(names, [b])
  {
    assert BoundText([b]) == [And, b.condition] + [];
  }

  lemma TwoBounds(names: seq<string>, a: Bound, b: Bound)
    ensures NameQuery(|names|) + [And, a.condition, And, b.condition] == QueryFor(|names|, [a, b])
    ensures Patterns(names) + [Instant(a.t)] + [Instant(b.t)] == ParamsFor(names, [a, b])
  {
    TwoBoundTexts(a, b);
    TwoBoundParams(Patterns(names), a, b);
    hide NameQuery, BoundText, BoundParams, Patterns;
  }

  lemma TwoBoundParams(params: seq<Param>, a: Bound, b: Bound)
    ensures params + [Instant(a.t)] + [Instant(b.t)] == params + BoundParams([a, b])
  {
    assert BoundParams([a, b]) == [Instant(a.t), Instant(b.t)];
  }

  lemma TwoBoundTexts(a: Bound, b: Bound)
    ensures BoundText([a, b]) == [And, a.condition, And, b.condition]
  {
    assert [a, b][1..] == [b];
    OneBoundText(b);
    hide Fragment;
  }

  lemma OneBoundText(b: Bound)
    ensures BoundText([b]) == [And, b.condition]
  {
    assert BoundText([b]) == [And, b.condition] + [];
  }

  /** One query with a time condition, its parameters appended behind the shared ones. */
  method QueryBounded(cache: Cache, names: seq<string>, nameQuery: seq<Token>, param: Slice<Param>, b: Bound,
                      limit: nat)
    returns (answer: seq<IndexRow>)
    requires nameQuery == NameQuery(|names|) && Fits(param) && Items(param) == Patterns(names)
    modifies param.buf
    ensures Fits(param) && Items(param) == Patterns(names)
    ensures AnswersFor(cache.indices, names, [b], limit, answer)
  {
    hide NameQuery, QueryFor, ParamsFor, Answers;
    var conds := Append(param, Instant(b.t));
    OneBound(names, b);
    answer := QueryAll(cache, nameQuery + [And, b.condition], conds.buf[..conds.len], limit);
  }

  /** ... and one with two. */
  method QueryBetween(cache: Cache, names: seq<string>, nameQuery: seq<Token>, param: Slice<Param>, a: Bound, b: Bound)
    returns (answer: seq<IndexRow>)
    requires nameQuery == NameQuery(|names|) && Fits(param) && Items(param) == Patterns(names)
    modifies param.buf
    ensures AnswersFor(cache.indices, names, [a, b], 0, answer)
  {
    hide NameQuery, QueryFor, ParamsFor, Answers;
    var conds := Append(param, Instant(a.t));
    conds := Append(conds, Instant(b.t));
    TwoBounds(names, a, b);
    answer := QueryAll(cache, nameQuery + [And, a.condition, And, b.condition], conds.buf[..conds.len], 0);
  }

  /** None for a time is the empty text; a query whose flag is false fails. */
  method QueryIndexResultViaTime(cache: Cache, names: seq<string>, startAt: Option<int>, endAt: Option<int>,
                                 firstOk: bool, restOk: bool)
    returns (result: Option<seq<IndexRow>>, ghost first: seq<IndexRow>, ghost rest: seq<IndexRow>)
    requires names != []
    ensures result.None? <==> (startAt.Some? && !firstOk) || !restOk
    ensures result.Some? ==> result.value == first + rest && IsResult(cache.indices, names, startAt, endAt, first, rest)
  {
    hide NameQuery, Answers, QueryFor, ParamsFor;
    first, rest := [], [];
    var nameQuery, param := NameConditions(names);
    var all: seq<IndexRow> := [];
    if startAt.Some? {
      if !firstOk {
        return None, first, rest;
      }
      var before := QueryBounded(cache, names, nameQuery, param, Bound(FROM_BELOW, startAt.value), 1);
      all, first := before, before;
    }
    if !restOk {
      return None, first, rest;
    }
    var window;
    if startAt.Some? && endAt.None? {
      window := QueryBounded(cache, names, nameQuery, param, Bound(FROM_ABOVE, startAt.value), 0);
    } else if startAt.Some? && endAt.Some? {
      window := QueryBetween(cache, names, nameQuery, param, Bound(FROM_ABOVE, startAt.value),
        Bound(FROM_BELOW, endAt.value));
    } else if endAt.Some? {
      window := QueryBounded(cache, names, nameQuery, param, Bound(FROM_BELOW, endAt.value), 0);
    } else {
      PlainQuery(names);
      window := QueryAll(cache, nameQuery, param.buf[..param.len], 0);
    }
    WindowBoundsAre(startAt, endAt);
    hide WindowBounds;
    rest := window;
    result := Some(all + window);
  }

  lemma WindowBoundsAre(startAt: Option<int>, endAt: Option<int>)
    ensures WindowBounds(startAt, endAt)
         == match (startAt, endAt)
            case (Some(s), Some(e)) => [Bound(FROM_ABOVE, s), Bound(FROM_BELOW, e)]
            case (Some(s), None) => [Bound(FROM_ABOVE, s)]
            case (None, Some(e)) => [Bound(FROM_BELOW, e)]
            case (None, None) => []
  {
  }

  lemma PlainQuery(names: seq<string>)
    ensures QueryFor(|names|, []) == NameQuery(|names|) && ParamsFor(names, []) == Patterns(names)
  {
    assert NameQuery(|names|) + [] == NameQuery(|names|);
  }

  // ---------------------------------------------------------------- one name: what the result covers

  /** A row of the name whose creation time is known and at most t. */
  predicate CreatedBy(name: string, row: IndexRow, t: int) {
    NameMatches(name, row) && row.createAt.Some? && row.createAt.value <= t
  }

  lemma SelectedForOne(rows: seq<IndexRow>, name: string, bounds: seq<Bound>, r: IndexRow)
    requires forall b | b in bounds :: IsTimeBound(b)
    ensures r in Selected(rows, QueryFor(1, bounds), ParamsFor([name], bounds))
            <==> r in rows && NameMatches(name, r) && BoundsHold(bounds, r)
  {
    OneNameQuery(name, bounds, r);
  }

  /** An unlimited answer is the selected rows, in some order. */
  lemma UnlimitedAnswer(rows: seq<IndexRow>, text: seq<Token>, params: seq<Param>, answer: seq<IndexRow>)
    requires Answers(rows, text, params, 0, answer)
    ensures multiset(answer) == multiset(Selected(rows, text, params))
    ensures forall r :: r in answer <==> r in Selected(rows, text, params)
  {
    SameMultiset(multiset(answer), multiset(Selected(rows, text, params)));
    assert forall r :: r in answer <==> r in multiset(answer);
    hide Answers;
    assert forall r :: r in Selected(rows, text, params) <==> r in multiset(Selected(rows, text, params));
  }

  lemma SameMultiset<T>(a: multiset<T>, b: multiset<T>)
    requires a <= b && |a| == |b|
    ensures a == b
  {
    assert b == a + (b - a);
  }

  /** An answer limited to one row is a newest selected row, if any is selected. */
  lemma NewestAnswer(rows: seq<IndexRow>, text: seq<Token>, params: seq<Param>, answer: seq<IndexRow>)
    requires Answers(rows, text, params, 1, answer)
    ensures answer == [] <==> forall r | r in rows :: !Eval(text, params, r)
    ensures answer != [] ==>
              && |answer| == 1 && answer[0] in rows && Eval(text, params, answer[0])
              && forall r | r in rows && Eval(text, params, r) :: NewerFirst(answer[0], r)
  {
    var found := Selected(rows, text, params);
    if answer != [] {
      assert answer[0] in multiset(answer);
      assert answer[0] in multiset(found);
      assert answer[0] in found && Eval(text, params, answer[0]);
      hide Eval;
      forall r | r in found
        ensures NewerFirst(answer[0], r)
      {
        assert r in multiset(found);
        assert answer == [answer[0]];
      }
    } else {
      assert found == [];
      assert forall r | r in rows && Eval(text, params, r) :: r in found;
    }
  }

  predicate InWindow(t: int, startAt: Option<int>, endAt: Option<int>) {
    (startAt.Some? ==> startAt.value <= t) && (endAt.Some? ==> t <= endAt.value)
  }

  lemma WindowBoundsHold(startAt: Option<int>, endAt: Option<int>, row: IndexRow)
    ensures BoundsHold(WindowBounds(startAt, endAt), row)
            <==> (startAt.None? && endAt.None?) || (row.createAt.Some? && InWindow(row.createAt.value, startAt, endAt))
    ensures forall b | b in WindowBounds(startAt, endAt) :: IsTimeBound(b)
  {
    WindowBoundsAre(startAt, endAt);
    var bounds := WindowBounds(startAt, endAt);
    assert startAt.Some? ==>
        Holds(bounds[0].condition, Instant(bounds[0].t), row)
        == (row.createAt.Some? && row.createAt.value >= startAt.value);
    assert endAt.Some? ==> var i := |bounds| - 1;
      Holds(bounds[i].condition, Instant(bounds[i].t), row)
        == (row.createAt.Some? && row.createAt.value <= endAt.value);
  }

  /** The rows of the second part are the matches of the window; NULL times are in no bounded one. */
  lemma RestIsWindow(rows: seq<IndexRow>, name: string, startAt: Option<int>, endAt: Option<int>,
                     first: seq<IndexRow>, rest: seq<IndexRow>, r: IndexRow)
    requires IsResult(rows, [name], startAt, endAt, first, rest)
    ensures r in rest <==>
              && r in rows && NameMatches(name, r)
              && ((startAt.None? && endAt.None?) || (r.createAt.Some? && InWindow(r.createAt.value, startAt, endAt)))
  {
    var bounds := WindowBounds(startAt, endAt);
    WindowBoundsHold(startAt, endAt, r);
    UnlimitedAnswer(rows, QueryFor(1, bounds), ParamsFor([name], bounds), rest);
    SelectedForOne(rows, name, bounds, r);
    hide Answers, Selected, QueryFor, ParamsFor, BoundsHold, NameMatches, WindowBounds;
  }

  /** The first part is a newest match created at or before the start. */
  lemma FirstIsNewestBefore(rows: seq<IndexRow>, name: string, startAt: int, endAt: Option<int>,
                            first: seq<IndexRow>, rest: seq<IndexRow>)
    requires IsResult(rows, [name], Some(startAt), endAt, first, rest)
    ensures first == [] <==> forall r | r in rows :: !CreatedBy(name, r, startAt)
    ensures first != [] ==>
              && |first| == 1 && first[0] in rows && CreatedBy(name, first[0], startAt)
              && forall r | r in rows && CreatedBy(name, r, startAt) :: r.createAt.value <= first[0].createAt.value
  {
    var bounds := [Bound(FROM_BELOW, startAt)];
    NewestAnswer(rows, QueryFor(1, bounds), ParamsFor([name], bounds), first);
    forall r
      ensures Eval(QueryFor(1, bounds), ParamsFor([name], bounds), r) <==> CreatedBy(name, r, startAt)
    {
      OneNameQuery(name, bounds, r);
      assert BoundsHold(bounds, r) <==> Holds(bounds[0].condition, Instant(bounds[0].t), r);
    }
    hide Answers, Eval, QueryFor, ParamsFor, NameMatches;
  }

  /** A newest of the rows created by t, when there is one. */
  lemma {:induction false} NewestExists(rows: seq<IndexRow>, name: string, t: int, some: IndexRow)
    returns (best: IndexRow)
    requires some in rows && CreatedBy(name, some, t)
    ensures best in rows && CreatedBy(name, best, t)
    ensures forall r | r in rows && CreatedBy(name, r, t) :: r.createAt.value <= best.createAt.value
  {
    hide NameMatches;
    var front, last := rows[..|rows| - 1], rows[|rows| - 1];
    assert rows == front + [last];
    if r :| r in front && CreatedBy(name, r, t) {
      best := NewestExists(front, name, t, r);
      if CreatedBy(name, last, t) && last.createAt.value > best.createAt.value {
        best := last;
      }
    } else {
      best := last;
    }
  }

  /**
   * Coverage: for every instant of the requested window by which some match had been created, the
   * result holds a match that was the newest at that instant.
   */
  lemma WindowIsCovered(rows: seq<IndexRow>, name: string, startAt: Option<int>, endAt: Option<int>,
                        first: seq<IndexRow>, rest: seq<IndexRow>, t: int, some: IndexRow)
    requires IsResult(rows, [name], startAt, endAt, first, rest)
    requires InWindow(t, startAt, endAt) && some in rows && CreatedBy(name, some, t)
    ensures exists best | best in first + rest ::
              CreatedBy(name, best, t)
              && forall r | r in rows && CreatedBy(name, r, t) :: r.createAt.value <= best.createAt.value
  {
    var best := NewestExists(rows, name, t, some);
    RestIsWindow(rows, name, startAt, endAt, first, rest, best);
    if startAt.Some? && best.createAt.value < startAt.value {
      FirstIsNewestBefore(rows, name, startAt.value, endAt, first, rest);
      hide IsResult, NameMatches;
      assert CreatedBy(name, best, startAt.value);
      assert first[0] in first + rest;
      assert CreatedBy(name, first[0], t);
    } else {
      hide IsResult, NameMatches;
      assert best in rest;
      assert best in first + rest;
    }
  }

  // ---------------------------------------------------------------- several names: what the result covers

  /** A newest of the rows of the name created by t. */
  predicate IsNewest(rows: seq<IndexRow>, name: string, t: int, best: IndexRow) {
    && best in rows && CreatedBy(name, best, t)
    && forall r | r in rows && CreatedBy(name, r, t) :: r.createAt.value <= best.createAt.value
  }

  /** With several names the second part is all matches of the names but the last, whenever they were
      created, and the last one's matches in the window. */
  lemma RestOfSeveral(rows: seq<IndexRow>, names: seq<string>, startAt: Option<int>, endAt: Option<int>,
                      first: seq<IndexRow>, rest: seq<IndexRow>, r: IndexRow)
    requires names != [] && IsResult(rows, names, startAt, endAt, first, rest)
    ensures r in rest <==>
              && r in rows
              && (AnyName(names[..|names| - 1], r)
                  || (NameMatches(names[|names| - 1], r)
                      && ((startAt.None? && endAt.None?)
                          || (r.createAt.Some? && InWindow(r.createAt.value, startAt, endAt)))))
  {
    var bounds := WindowBounds(startAt, endAt);
    WindowBoundsHold(startAt, endAt, r);
    UnlimitedAnswer(rows, QueryFor(|names|, bounds), ParamsFor(names, bounds), rest);
    QuerySelects(names, bounds, r);
    hide Answers, QueryFor, ParamsFor, BoundsHold, NameMatches, AnyName, WindowBounds, Eval;
  }

  /** Every name but the last is covered at every instant at all, in the window or not. */
  lemma OtherNamesAreCovered(rows: seq<IndexRow>, names: seq<string>, startAt: Option<int>, endAt: Option<int>,
                             first: seq<IndexRow>, rest: seq<IndexRow>, i: nat, t: int, some: IndexRow)
    requires i < |names| - 1 && IsResult(rows, names, startAt, endAt, first, rest)
    requires some in rows && CreatedBy(names[i], some, t)
    ensures exists best | best in first + rest :: IsNewest(rows, names[i], t, best)
  {
    var best := NewestExists(rows, names[i], t, some);
    RestOfSeveral(rows, names, startAt, endAt, first, rest, best);
    assert NameMatches(names[..|names| - 1][i], best);
    hide IsResult, NameMatches;
    assert best in first + rest;
    assert IsNewest(rows, names[i], t, best);
  }

  /** With a start the first part is a newest of the other names' rows and the last one's from before. */
  lemma FirstOfSeveral(rows: seq<IndexRow>, names: seq<string>, startAt: int, endAt: Option<int>,
                       first: seq<IndexRow>, rest: seq<IndexRow>, best: IndexRow)
    requires names != [] && IsResult(rows, names, Some(startAt), endAt, first, rest)
    requires best in rows && CreatedBy(names[|names| - 1], best, startAt)
    ensures |first| == 1 && first[0] in rows && NewerFirst(first[0], best)
    ensures AnyName(names[..|names| - 1], first[0]) || CreatedBy(names[|names| - 1], first[0], startAt)
    ensures forall r | r in rows && AnyName(names[..|names| - 1], r) :: NewerFirst(first[0], r)
  {
    var bounds := [Bound(FROM_BELOW, startAt)];
    NewestAnswer(rows, QueryFor(|names|, bounds), ParamsFor(names, bounds), first);
    forall r
      ensures Eval(QueryFor(|names|, bounds), ParamsFor(names, bounds), r)
              <==> AnyName(names[..|names| - 1], r) || CreatedBy(names[|names| - 1], r, startAt)
    {
      QuerySelects(names, bounds, r);
      assert BoundsHold(bounds, r) <==> Holds(bounds[0].condition, Instant(bounds[0].t), r);
    }
    hide Answers, Eval, QueryFor, ParamsFor, NameMatches, AnyName, BoundsHold;
  }

  /** A newest match of the last name at t that some other name matches too. */
  predicate SharesNewest(rows: seq<IndexRow>, others: seq<string>, last: string, t: int) {
    exists r | r in rows :: AnyName(others, r) && IsNewest(rows, last, t, r)
  }

  /** A row of the other names, of whatever time, that is newer. */
  predicate HasNewer(rows: seq<IndexRow>, others: seq<string>, time: int) {
    exists r | r in rows :: AnyName(others, r) && r.createAt.Some? && r.createAt.value > time
  }

  /** A row of the other names of the very same time that the last name does not match. */
  predicate HasRival(rows: seq<IndexRow>, others: seq<string>, last: string, time: int) {
    exists r | r in rows :: AnyName(others, r) && r.createAt == Some(time) && !NameMatches(last, r)
  }

  predicate Covered(rows: seq<IndexRow>, name: string, t: int, result: seq<IndexRow>) {
    exists found | found in result :: IsNewest(rows, name, t, found)
  }

  /**
   * The last of several names is covered at an instant whose newest match lies in the window. Where that
   * is from before the start, it is covered exactly when another name matches such a newest row too, or
   * no row of the other names, of whatever time, is newer; only a row of theirs of the very same time,
   * with neither of the two, leaves it to the row the database puts first.
   */
  lemma LastNameIsCoveredExactly(rows: seq<IndexRow>, names: seq<string>, startAt: int, endAt: Option<int>,
                                 first: seq<IndexRow>, rest: seq<IndexRow>, t: int, best: IndexRow)
    requires names != [] && IsResult(rows, names, Some(startAt), endAt, first, rest)
    requires InWindow(t, Some(startAt), endAt) && IsNewest(rows, names[|names| - 1], t, best)
    ensures best.createAt.value >= startAt ==> best in rest
    ensures var last, others, time := names[|names| - 1], names[..|names| - 1], best.createAt.value;
            time < startAt ==>
              && |first| == 1
              && (Covered(rows, last, t, first + rest)
                  <==> SharesNewest(rows, others, last, t) || IsNewest(rows, last, t, first[0]))
              && (SharesNewest(rows, others, last, t) || HasNewer(rows, others, time)
                  || !HasRival(rows, others, last, time) ==>
                    (Covered(rows, last, t, first + rest)
                     <==> SharesNewest(rows, others, last, t) || !HasNewer(rows, others, time)))
  {
    var last, others := names[|names| - 1], names[..|names| - 1];
    RestOfSeveral(rows, names, Some(startAt), endAt, first, rest, best);
    if best.createAt.value < startAt {
      FirstOfSeveral(rows, names, startAt, endAt, first, rest, best);
      CoveredByFirst(rows, names, startAt, endAt, first, rest, t, best);
      if !SharesNewest(rows, others, last, t) {
        FirstIsNewestExactly(rows, others, last, startAt, t, best, first[0]);
      }
    }
    hide *;
  }

  /** The newest matches in the result are the first row and the ones another name matches. */
  lemma CoveredByFirst(rows: seq<IndexRow>, names: seq<string>, startAt: int, endAt: Option<int>,
                       first: seq<IndexRow>, rest: seq<IndexRow>, t: int, best: IndexRow)
    requires names != [] && IsResult(rows, names, Some(startAt), endAt, first, rest) && |first| == 1
    requires IsNewest(rows, names[|names| - 1], t, best) && best.createAt.value < startAt
    ensures var last, others := names[|names| - 1], names[..|names| - 1];
            Covered(rows, last, t, first + rest)
            <==> SharesNewest(rows, others, last, t) || IsNewest(rows, last, t, first[0])
  {
    var last, others := names[|names| - 1], names[..|names| - 1];
    forall r
      ensures r in rest && IsNewest(rows, last, t, r) <==> r in rows && AnyName(others, r) && IsNewest(rows, last, t, r)
    {
      RestOfSeveral(rows, names, Some(startAt), endAt, first, rest, r);
    }
    hide IsResult, NameMatches, AnyName, IsNewest;
    assert first[0] in first + rest;
    assert forall r | r in rest :: r in first + rest;
  }

  /** A newest row of the other names and the last one's from before is the last one's newest, no other
      name matching such a row, exactly when none of theirs is newer; a rival apart. */
  lemma FirstIsNewestExactly(rows: seq<IndexRow>, others: seq<string>, last: string, startAt: int, t: int,
                             best: IndexRow, top: IndexRow)
    requires IsNewest(rows, last, t, best) && best.createAt.value < startAt <= t
    requires top in rows && NewerFirst(top, best) && (AnyName(others, top) || CreatedBy(last, top, startAt))
    requires forall r | r in rows && AnyName(others, r) :: NewerFirst(top, r)
    requires !SharesNewest(rows, others, last, t)
    ensures HasNewer(rows, others, best.createAt.value) ==> !IsNewest(rows, last, t, top)
    ensures !HasNewer(rows, others, best.createAt.value) && !HasRival(rows, others, last, best.createAt.value) ==>
              IsNewest(rows, last, t, top)
  {
    hide NameMatches, AnyName;
    if AnyName(others, top) && !HasNewer(rows, others, best.createAt.value) {
      assert top.createAt == best.createAt;
    }
  }

  // ---------------------------------------------------------------- one name: repeated rows

  predicate NoRepeats(rows: seq<IndexRow>) {
    forall i, j | 0 <= i < j < |rows| :: rows[i] != rows[j]
  }

  lemma NoRepeatsIsSet(rows: seq<IndexRow>)
    ensures NoRepeats(rows) <==> forall r :: multiset(rows)[r] <= 1
  {
    if NoRepeats(rows) {
      forall r
        ensures multiset(rows)[r] <= 1
      {
        AtMostOnce(rows, r);
      }
    } else {
      var i, j :| 0 <= i < j < |rows| && rows[i] == rows[j];
      assert rows == rows[..i] + [rows[i]] + rows[i + 1..j] + [rows[j]] + rows[j + 1..];
      assert multiset(rows)[rows[i]] >= 2;
    }
  }

  lemma {:induction false} AtMostOnce(rows: seq<IndexRow>, r: IndexRow)
    requires NoRepeats(rows)
    ensures multiset(rows)[r] <= 1
  {
    if rows == [] {
    } else {
      var front, last := rows[..|rows| - 1], rows[|rows| - 1];
      assert rows == front + [last];
      AtMostOnce(front, r);
      if r == last {
        assert r !in front;
        assert multiset(front)[r] == 0;
      }
    }
  }

  lemma {:induction false} SelectedIsPart(rows: seq<IndexRow>, text: seq<Token>, params: seq<Param>)
    ensures multiset(Selected(rows, text, params)) <= multiset(rows)
  {
    hide Eval;
    if rows == [] {
    } else {
      assert rows == rows[..|rows| - 1] + [rows[|rows| - 1]];
      SelectedIsPart(rows[..|rows| - 1], text, params);
    }
  }

  /** No row comes twice in the second part. */
  lemma RestHasNoRepeats(rows: seq<IndexRow>, name: string, startAt: Option<int>, endAt: Option<int>,
                         first: seq<IndexRow>, rest: seq<IndexRow>)
    requires UniqueNames(rows) && IsResult(rows, [name], startAt, endAt, first, rest)
    ensures NoRepeats(rest)
  {
    var bounds := WindowBounds(startAt, endAt);
    UnlimitedAnswer(rows, QueryFor(1, bounds), ParamsFor([name], bounds), rest);
    SelectedIsPart(rows, QueryFor(1, bounds), ParamsFor([name], bounds));
    hide Answers, Selected, QueryFor, ParamsFor, WindowBounds;
    assert NoRepeats(rows);
    NoRepeatsIsSet(rows);
    NoRepeatsIsSet(rest);
    hide NoRepeats;
    assert forall r :: multiset(rest)[r] <= multiset(rows)[r];
  }

  /** A match created exactly at the start of a window that is not empty. */
  predicate CreatedAtStart(rows: seq<IndexRow>, name: string, startAt: Option<int>, endAt: Option<int>) {
    && startAt.Some? && InWindow(startAt.value, startAt, endAt)
    && exists r | r in rows :: NameMatches(name, r) && r.createAt == startAt
  }

  /** The first part repeats a row of the second just when a match was created at the start. */
  lemma FirstIsRepeated(rows: seq<IndexRow>, name: string, startAt: Option<int>, endAt: Option<int>,
                        first: seq<IndexRow>, rest: seq<IndexRow>)
    requires IsResult(rows, [name], startAt, endAt, first, rest)
    ensures |first| <= 1
    ensures first != [] && first[0] in rest <==> CreatedAtStart(rows, name, startAt, endAt)
  {
    if startAt.Some? {
      FirstIsNewestBefore(rows, name, startAt.value, endAt, first, rest);
      if first != [] {
        RestIsWindow(rows, name, startAt, endAt, first, rest, first[0]);
      }
      hide IsResult, NameMatches;
      if CreatedAtStart(rows, name, startAt, endAt) {
        var r :| r in rows && NameMatches(name, r) && r.createAt == startAt;
        assert CreatedBy(name, r, startAt.value);
      }
    }
  }

  /**
   * Repeats: result rows are distinct unless a match was created exactly at the start of the window;
   * then one row, in front, comes twice, and the published size counts it twice.
   */
  lemma RepeatsExactlyAtStart(rows: seq<IndexRow>, name: string, startAt: Option<int>, endAt: Option<int>,
                              first: seq<IndexRow>, rest: seq<IndexRow>)
    requires UniqueNames(rows) && IsResult(rows, [name], startAt, endAt, first, rest)
    ensures NoRepeats(first + rest) <==> !CreatedAtStart(rows, name, startAt, endAt)
    ensures CreatedAtStart(rows, name, startAt, endAt) ==>
              && first != [] && multiset(first + rest)[first[0]] == 2
              && Total(Sizes(first + rest)) == Total(Sizes(rest)) + SizeOrZero(first[0].size)
  {
    FirstIsRepeated(rows, name, startAt, endAt, first, rest);
    RestHasNoRepeats(rows, name, startAt, endAt, first, rest);
    if first == [] {
      assert first + rest == rest;
    } else {
      assert first == [first[0]];
      OneInFront(first[0], rest);
      OneMoreSize(first[0], rest);
    }
    hide *;
  }

  lemma OneMoreSize(r: IndexRow, rest: seq<IndexRow>)
    ensures Total(Sizes([r] + rest)) == Total(Sizes(rest)) + SizeOrZero(r.size)
  {
    hide Total, SizeOrZero;
    assert Sizes([r] + rest) == [r.size] + Sizes(rest);
    TotalConcat([r.size], Sizes(rest));
    TotalOfOne(r.size);
  }

  lemma OneInFront(r: IndexRow, rest: seq<IndexRow>)
    requires NoRepeats(rest)
    ensures NoRepeats([r] + rest) <==> r !in rest
    ensures r in rest ==> multiset([r] + rest)[r] == 2
  {
    var all := [r] + rest;
    if r in rest {
      AtMostOnce(rest, r);
      var i :| 0 <= i < |rest| && rest[i] == r;
      assert all[0] == all[i + 1];
    }
  }

  function Sizes(rows: seq<IndexRow>): (sizes: seq<string>)
    ensures |sizes| == |rows| && forall i | 0 <= i < |rows| :: sizes[i] == rows[i].size
  {
    seq(|rows|, i requires 0 <= i < |rows| => rows[i].size)
  }

  lemma TotalOfOne(size: string)
    ensures Total([size]) == SizeOrZero(size)
  {
    assert [size][..0] == [];
    assert Total([]) == 0.0;
  }

  // ---------------------------------------------------------------- the reply

  method IndexNames(rows: seq<IndexRow>) returns (names: seq<string>)
    ensures |names| == |rows| && forall i | 0 <= i < |rows| :: names[i] == rows[i].name
  {
    names := [];
    for i := 0 to |rows|
      invariant |names| == i && forall j | 0 <= j < i :: names[j] == rows[j].name
    {
      names := names + [rows[i].name];
    }
  }

  /** The reply of the index query: the names found, and a size text that reads as their total. */
  method QueryIndex(cache: Cache, names: seq<string>, startAt: Option<int>, endAt: Option<int>,
                    firstOk: bool, restOk: bool, diskMinSize: real)
    returns (reply: Option<(seq<string>, string)>, ghost found: seq<IndexRow>)
    requires names != []
    ensures reply.None? <==> (startAt.Some? && !firstOk) || !restOk
    ensures reply.Some? ==>
              && (exists first, rest ::
                    found == first + rest && IsResult(cache.indices, names, startAt, endAt, first, rest))
              && |reply.value.0| == |found| && (forall i | 0 <= i < |found| :: reply.value.0[i] == found[i].name)
              && IsPublished(reply.value.1, Total(Sizes(found)), diskMinSize)
  {
    hide IsResult, IsPublished, Total;
    var result, first, rest := QueryIndexResultViaTime(cache, names, startAt, endAt, firstOk, restOk);
    found := result.GetOr([]);
    if result.None? {
      return None, found;
    }
    var listed := IndexNames(result.value);
    var text := PublishStoreSize(Sizes(result.value), diskMinSize);
    reply := Some((listed, text));
  }
}

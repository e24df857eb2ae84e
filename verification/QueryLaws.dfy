/**
 * Which index names a query for a name selects (internal/http/utils.go): the pattern built around the
 * name, read position by position.
 */
module QueryLaws {
  import opened Wrappers
  import opened Names
  import opened IndexCache
  import opened QueryText
  import opened WindowQuery

  /** The characters of a pattern read a stretch of the text, one after the other: '%' reads any stretch,
      '_' any one character, any other character itself. Character i reads from at[i] to at[i + 1]. */
  ghost predicate Reads(pattern: string, text: string, at: seq<nat>) {
    && |at| == |pattern| + 1 && at[|pattern|] <= |text|
    && forall i | 0 <= i < |pattern| ::
         && at[i] <= at[i + 1]
         && (pattern[i] == '%'
             || (at[i + 1] == at[i] + 1 <= |text| && (pattern[i] == '_' || pattern[i] == text[at[i]])))
  }

  /** All of the text. */
  ghost predicate ReadsAll(pattern: string, text: string, at: seq<nat>) {
    Reads(pattern, text, at) && at[0] == 0 && at[|pattern|] == |text|
  }

  function Later(at: seq<nat>): (later: seq<nat>)
    ensures |later| == |at| && forall i | 0 <= i < |at| :: later[i] == at[i] + 1
  {
    seq(|at|, i requires 0 <= i < |at| => at[i] + 1)
  }

  function Earlier(at: seq<nat>): (earlier: seq<nat>)
    requires forall i | 0 <= i < |at| :: at[i] > 0
    ensures |earlier| == |at| && forall i | 0 <= i < |at| :: earlier[i] == at[i] - 1
  {
    seq(|at|, i requires 0 <= i < |at| => (at[i] - 1) as nat)
  }

  lemma {:induction false} LikeReads(pattern: string, text: string) returns (at: seq<nat>)
    requires Like(pattern, text)
    ensures ReadsAll(pattern, text, at)
    decreases |pattern| + |text|
  {
    if pattern == "" {
      at := [0];
    } else if pattern[0] == '%' && Like(pattern[1..], text) {
      at := LikeReads(pattern[1..], text);
      hide Like;
      ReadsNothingFirst(pattern, text, at);
      at := [0] + at;
    } else if pattern[0] == '%' {
      at := LikeReads(pattern, text[1..]);
      hide Like;
      ReadsOneMore(pattern, text, at);
      at := [0] + Later(at[1..]);
    } else {
      at := LikeReads(pattern[1..], text[1..]);
      hide Like;
      ReadsOneFirst(pattern, text, at);
      at := [0] + Later(at);
    }
  }

  lemma ReadsNothingFirst(pattern: string, text: string, at: seq<nat>)
    requires pattern != "" && pattern[0] == '%' && ReadsAll(pattern[1..], text, at)
    ensures ReadsAll(pattern, text, [0] + at)
  {
    var all := [0] + at;
    forall i | 0 < i < |pattern|
      ensures all[i] == at[i - 1] && all[i + 1] == at[i] && pattern[i] == pattern[1..][i - 1]
    {
    }
  }

  lemma ReadsOneMore(pattern: string, text: string, at: seq<nat>)
    requires pattern != "" && text != "" && pattern[0] == '%' && ReadsAll(pattern, text[1..], at)
    ensures ReadsAll(pattern, text, [0] + Later(at[1..]))
  {
    var all := [0] + Later(at[1..]);
    forall i | 0 < i < |pattern|
      ensures all[i] <= all[i + 1]
      ensures pattern[i] == '%'
              || (all[i + 1] == all[i] + 1 <= |text| && (pattern[i] == '_' || pattern[i] == text[all[i]]))
    {
      assert all[i] == at[i] + 1 && all[i + 1] == at[i + 1] + 1;
    }
  }

  lemma ReadsOneFirst(pattern: string, text: string, at: seq<nat>)
    requires pattern != "" && text != "" && (pattern[0] == '_' || pattern[0] == text[0])
    requires ReadsAll(pattern[1..], text[1..], at)
    ensures ReadsAll(pattern, text, [0] + Later(at))
  {
    var all := [0] + Later(at);
    forall i | 0 < i < |pattern|
      ensures all[i] == at[i - 1] + 1 && all[i + 1] == at[i] + 1 && pattern[i] == pattern[1..][i - 1]
      ensures pattern[i] != '%' ==> text[all[i]] == text[1..][at[i - 1]]
    {
    }
  }

  lemma {:induction false} ReadIsLike(pattern: string, text: string, at: seq<nat>)
    requires ReadsAll(pattern, text, at)
    ensures Like(pattern, text)
    decreases |pattern| + |text|
  {
    if pattern == "" {
    } else if at[1] == 0 {
      NothingFirst(pattern, text, at);
      hide Reads, ReadsAll;
      ReadIsLike(pattern[1..], text, at[1..]);
    } else {
      Positive(pattern, text, at);
      if pattern[0] == '%' {
        OneLess(pattern, text, at);
        hide Reads, ReadsAll;
        ReadIsLike(pattern, text[1..], [0] + Earlier(at[1..]));
      } else {
        OneFirst(pattern, text, at);
        hide Reads, ReadsAll;
        ReadIsLike(pattern[1..], text[1..], Earlier(at[1..]));
      }
    }
  }

  lemma NothingFirst(pattern: string, text: string, at: seq<nat>)
    requires ReadsAll(pattern, text, at) && pattern != "" && at[1] == 0
    ensures pattern[0] == '%' && ReadsAll(pattern[1..], text, at[1..])
  {
  }

  lemma OneLess(pattern: string, text: string, at: seq<nat>)
    requires ReadsAll(pattern, text, at) && pattern != "" && pattern[0] == '%'
    requires forall i | 1 <= i < |at| :: 0 < at[i] <= |text|
    ensures ReadsAll(pattern, text[1..], [0] + Earlier(at[1..]))
  {
    var less := [0] + Earlier(at[1..]);
    forall i | 0 < i < |pattern|
      ensures less[i] <= less[i + 1]
      ensures pattern[i] == '%'
              || (less[i + 1] == less[i] + 1 < |text| && (pattern[i] == '_' || pattern[i] == text[1..][less[i]]))
    {
      assert less[i] == at[i] - 1 && less[i + 1] == at[i + 1] - 1;
    }
  }

  lemma OneFirst(pattern: string, text: string, at: seq<nat>)
    requires ReadsAll(pattern, text, at) && pattern != "" && pattern[0] != '%'
    requires forall i | 1 <= i < |at| :: 0 < at[i] <= |text|
    ensures at[1] == 1 && text != "" && (pattern[0] == '_' || pattern[0] == text[0])
    ensures ReadsAll(pattern[1..], text[1..], Earlier(at[1..]))
  {
    var less := Earlier(at[1..]);
    forall i | 0 < i < |pattern|
      ensures less[i - 1] == at[i] - 1 && less[i] == at[i + 1] - 1 && pattern[i] == pattern[1..][i - 1]
      ensures pattern[i] != '%' ==> text[at[i]] == text[1..][less[i - 1]]
    {
    }
  }

  lemma Positive(pattern: string, text: string, at: seq<nat>)
    requires Reads(pattern, text, at) && pattern != "" && at[1] > 0
    ensures forall i | 1 <= i < |at| :: 0 < at[i] <= |text|
  {
    forall i | 1 <= i < |at|
      ensures 0 < at[i] <= |text|
    {
      InOrder(pattern, text, at, 1, i);
      InOrder(pattern, text, at, i, |pattern|);
    }
  }

  lemma {:induction false} InOrder(pattern: string, text: string, at: seq<nat>, i: nat, j: nat)
    requires Reads(pattern, text, at) && i <= j <= |pattern|
    ensures at[i] <= at[j]
    decreases j - i
  {
    if i == j {
    } else {
      InOrder(pattern, text, at, i, j - 1);
      assert at[j - 1] <= at[j - 1 + 1];
    }
  }

  /** A name is matched exactly when what was asked for reads some stretch of it. */
  lemma NameMatchesExactly(asked: string, row: IndexRow)
    ensures NameMatches(asked, row) <==> exists at :: Reads(asked, row.name, at)
  {
    var pattern := Around(asked);
    assert pattern == "%" + asked + "%";
    if NameMatches(asked, row) {
      var at := LikeReads(pattern, row.name);
      Inside(asked, row.name, at);
      var inside := at[1..|asked| + 2];
      assert Reads(asked, row.name, inside);
    }
    forall at | Reads(asked, row.name, at)
      ensures NameMatches(asked, row)
    {
      Surrounded(asked, row.name, at);
      ReadIsLike(pattern, row.name, [0] + at + [|row.name|]);
    }
    hide Reads, Like, ReadsAll;
  }

  lemma Inside(asked: string, text: string, at: seq<nat>)
    requires ReadsAll("%" + asked + "%", text, at)
    ensures Reads(asked, text, at[1..|asked| + 2])
  {
    var pattern, inside := "%" + asked + "%", at[1..|asked| + 2];
    InOrder(pattern, text, at, |asked| + 1, |pattern|);
    forall i | 0 <= i < |asked|
      ensures inside[i] <= inside[i + 1]
      ensures asked[i] == '%'
              || (inside[i + 1] == inside[i] + 1 <= |text| && (asked[i] == '_' || asked[i] == text[inside[i]]))
    {
      assert asked[i] == pattern[i + 1] && inside[i] == at[i + 1] && inside[i + 1] == at[i + 2];
    }
  }

  lemma Surrounded(asked: string, text: string, at: seq<nat>)
    requires Reads(asked, text, at)
    ensures ReadsAll("%" + asked + "%", text, [0] + at + [|text|])
  {
    var pattern, all := "%" + asked + "%", [0] + at + [|text|];
    forall i | 0 <= i < |pattern|
      ensures all[i] <= all[i + 1]
      ensures pattern[i] == '%'
              || (all[i + 1] == all[i] + 1 <= |text| && (pattern[i] == '_' || pattern[i] == text[all[i]]))
    {
      if 0 < i <= |asked| {
        assert pattern[i] == asked[i - 1] && all[i] == at[i - 1] && all[i + 1] == at[i];
      }
    }
  }

  /** A name without wildcards is matched exactly by the names it occurs in. */
  lemma PlainNameMatches(asked: string, row: IndexRow)
    requires '%' !in asked && '_' !in asked
    ensures NameMatches(asked, row) <==>
            exists k: nat :: OccursAt(asked, row.name, k)
  {
    NameMatchesExactly(asked, row);
    hide NameMatches, Reads, OccursAt;
    if NameMatches(asked, row) {
      var at :| Reads(asked, row.name, at);
      ReadOccurs(asked, row.name, at);
      var k := at[0];
      assert OccursAt(asked, row.name, k);
    } else if k: nat :| OccursAt(asked, row.name, k) {
      OccurrenceReads(asked, row.name, k);
      assert false;
    }
  }

  lemma ReadOccurs(asked: string, name: string, at: seq<nat>)
    requires Reads(asked, name, at) && '%' !in asked && '_' !in asked
    ensures at != []
    ensures OccursAt(asked, name, at[0])
  {
    StepByStep(asked, name, at, |asked|);
    forall i | 0 <= i < |asked|
      ensures asked[i] == name[at[0]..at[0] + |asked|][i]
    {
      assert asked[i] in asked;
      StepByStep(asked, name, at, i);
      assert at[i] <= at[i + 1];
    }
  }

  lemma OccurrenceReads(asked: string, name: string, k: nat)
    requires OccursAt(asked, name, k)
    ensures Reads(asked, name, From(k, |asked| + 1))
  {
    var at := From(k, |asked| + 1);
    forall i | 0 <= i < |asked|
      ensures at[i] < at[i + 1] == at[i] + 1 <= |name| && asked[i] == name[at[i]]
    {
      assert asked[i] == name[k..k + |asked|][i];
    }
  }

  function From(k: nat, n: nat): (at: seq<nat>)
    ensures |at| == n && forall i | 0 <= i < n :: at[i] == k + i
  {
    seq(n, i requires 0 <= i < n => k + i)
  }

  lemma {:induction false} StepByStep(asked: string, text: string, at: seq<nat>, i: nat)
    requires Reads(asked, text, at) && '%' !in asked && i <= |asked|
    ensures at[i] == at[0] + i
  {
    if i == 0 {
    } else {
      StepByStep(asked, text, at, i - 1);
      assert asked[i - 1] in asked;
      assert at[i - 1 + 1] == at[i - 1] + 1;
    }
  }

  /**
   * The rows of a query for one name without wildcards, bounds and all: the second part is the rows of
   * the cache in whose names it occurs, created from the start on and up to the end.
   */
  lemma RestHoldsOccurrences(rows: seq<IndexRow>, name: string, startAt: Option<int>, endAt: Option<int>,
                             first: seq<IndexRow>, rest: seq<IndexRow>, r: IndexRow)
    requires IsResult(rows, [name], startAt, endAt, first, rest) && '%' !in name && '_' !in name
    ensures r in rest <==>
              && r in rows
              && (exists k: nat :: OccursAt(name, r.name, k))
              && (startAt.Some? ==> r.createAt.Some? && startAt.value <= r.createAt.value)
              && (endAt.Some? ==> r.createAt.Some? && r.createAt.value <= endAt.value)
  {
    RestIsWindow(rows, name, startAt, endAt, first, rest, r);
    PlainNameMatches(name, r);
    hide IsResult, NameMatches;
  }

  // ---------------------------------------------------------------- the SQL text and the order of the rows

  /** The text for any number of names: their conditions joined by OR, without parentheses. */
  lemma NamesAreJoined(k: nat)
    ensures Render(NameQuery(1)) == "name LIKE ?"
    ensures k >= 1 ==> Render(NameQuery(k + 1)) == "name LIKE ?" + " OR " + Render(NameQuery(k))
  {
    OneFragment(NameLike);
    if k >= 1 {
      assert NameQuery(k + 1) == [NameLike, Or] + NameQuery(k);
      RenderTwo(NameLike, Or, NameQuery(k));
    }
  }

  lemma OneFragment(t: Token)
    ensures Render([t]) == Fragment(t)
  {
    assert [t][1..] == [] && Render([]) == "";
  }

  lemma RenderTwo(a: Token, b: Token, rest: seq<Token>)
    ensures Render([a, b] + rest) == Fragment(a) + Fragment(b) + Render(rest)
  {
    var text := [a, b] + rest;
    assert text[1..][1..] == rest && text[1..][0] == b;
    hide Fragment;
  }

  lemma {:induction false} RenderConcat(a: seq<Token>, b: seq<Token>)
    ensures Render(a + b) == Render(a) + Render(b)
  {
    hide Fragment;
    if a == [] {
      assert a + b == b;
    } else {
      assert (a + b)[1..] == a[1..] + b;
      RenderConcat(a[1..], b);
    }
  }

  /** Behind the names come the time conditions of the window, and before it the one of its start. */
  lemma BoundsAreAppended(k: nat, startAt: Option<int>, endAt: Option<int>)
    ensures Render(QueryFor(k, WindowBounds(startAt, endAt)))
         == Render(NameQuery(k))
            + (if startAt.Some? then " AND index_create_at >= ?" else "")
            + (if endAt.Some? then " AND index_create_at <= ?" else "")
    ensures startAt.Some? ==>
              Render(QueryFor(k, [Bound(FROM_BELOW, startAt.value)]))
              == Render(NameQuery(k)) + " AND index_create_at <= ?"
  {
    RenderConcat(NameQuery(k), BoundText(WindowBounds(startAt, endAt)));
    WindowBoundsAre(startAt, endAt);
    AndAbove();
    AndBelow();
    if startAt.Some? {
      var before, after := Bound(FROM_BELOW, startAt.value), Bound(FROM_ABOVE, startAt.value);
      RenderConcat(NameQuery(k), BoundText([before]));
      OneBoundText(before);
      OneBoundText(after);
      RenderConcat([And, FROM_ABOVE], [And, FROM_BELOW]);
      if endAt.Some? {
        TwoBoundTexts(after, Bound(FROM_BELOW, endAt.value));
        assert [And, FROM_ABOVE] + [And, FROM_BELOW] == [And, FROM_ABOVE, And, FROM_BELOW];
      }
    } else if endAt.Some? {
      OneBoundText(Bound(FROM_BELOW, endAt.value));
    }
    hide NameQuery, WindowBounds, Fragment, Render;
  }

  lemma AndAbove()
    ensures Render([And, FROM_ABOVE]) == " AND index_create_at >= ?"
  {
    RenderTwo(And, FROM_ABOVE, []);
    assert [And, FROM_ABOVE] + [] == [And, FROM_ABOVE];
  }

  lemma AndBelow()
    ensures Render([And, FROM_BELOW]) == " AND index_create_at <= ?"
  {
    RenderTwo(And, FROM_BELOW, []);
    assert [And, FROM_BELOW] + [] == [And, FROM_BELOW];
  }

  /** For any number of names the rows of the window come newest first, rows without a time last, and
      each as often as it is in the cache. */
  lemma RestIsNewestFirst(rows: seq<IndexRow>, names: seq<string>, startAt: Option<int>, endAt: Option<int>,
                          first: seq<IndexRow>, rest: seq<IndexRow>, i: nat, j: nat)
    requires IsResult(rows, names, startAt, endAt, first, rest) && i <= j < |rest|
    ensures rest[j].createAt.Some? ==> rest[i].createAt.Some? && rest[i].createAt.value >= rest[j].createAt.value
    ensures multiset(rest)[rest[i]] == multiset(rows)[rest[i]]
  {
    var bounds := WindowBounds(startAt, endAt);
    hide WindowBounds, QueryFor, ParamsFor;
    AnswerInOrder(rows, QueryFor(|names|, bounds), ParamsFor(names, bounds), rest, i, j);
    hide Answers;
  }

  lemma AnswerInOrder(rows: seq<IndexRow>, text: seq<Token>, params: seq<Param>, answer: seq<IndexRow>, i: nat, j: nat)
    requires Answers(rows, text, params, 0, answer) && i <= j < |answer|
    ensures answer[j].createAt.Some? ==>
              answer[i].createAt.Some? && answer[i].createAt.value >= answer[j].createAt.value
    ensures multiset(answer)[answer[i]] == multiset(rows)[answer[i]]
  {
    assert i < j ==> NewerFirst(answer[i], answer[j]);
    UnlimitedAnswer(rows, text, params, answer);
    hide Answers, Selected, Eval;
    assert answer[i] in answer;
    SelectedAsOften(rows, text, params, answer[i]);
  }

  lemma {:induction false} SelectedAsOften(rows: seq<IndexRow>, text: seq<Token>, params: seq<Param>, r: IndexRow)
    requires Eval(text, params, r)
    ensures multiset(Selected(rows, text, params))[r] == multiset(rows)[r]
  {
    hide Eval;
    if rows == [] {
    } else {
      var n := |rows| - 1;
      assert rows == rows[..n] + [rows[n]];
      SelectedAsOften(rows[..n], text, params, r);
    }
  }
}

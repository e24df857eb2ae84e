/**
 * The index and snapshot tables that the cron jobs fill (internal/cron/job.go, internal/db/db.go),
 * and the lookup of the latest good snapshot (internal/http/utils.go). A batch is one INSERT with
 * ON DUPLICATE KEY UPDATE, handled row by row as MySQL does.
 */
module IndexCache {
  import opened Wrappers
  import opened TimeText
  import opened Names

  datatype IndexRow = IndexRow(name: string, createAt: Option<int>, size: string)

  datatype SnapshotRow = SnapshotRow(name: string, repository: string, state: string,
                                     startTime: Option<int>, indices: seq<string>)

  const INDEX_NAME := (r: IndexRow) => r.name

  const SNAPSHOT_NAME := (r: SnapshotRow) => r.name

  /** An index as the cat API lists it, and a snapshot as the snapshot API does. */
  datatype CatIndex = CatIndex(name: string, createAt: string, size: string)

  datatype SnapshotInfo = SnapshotInfo(name: string, repository: string, state: string,
                                       startTime: string, indices: seq<string>)

  /** The column a parsed time is stored in: NULL when it was not parsed, or is zero. */
  function TimeColumn(parse: Parser, text: string): Option<int> {
    match parse(Rfc3339, text)
    case None => None
    case Some(t) => if t == ZERO then None else Some(t)
  }

  function IndexRecord(parse: Parser, i: CatIndex): IndexRow {
    IndexRow(i.name, TimeColumn(parse, i.createAt), i.size)
  }

  function SnapshotRecord(parse: Parser, s: SnapshotInfo): SnapshotRow {
    SnapshotRow(s.name, s.repository, s.state, TimeColumn(parse, s.startTime), s.indices)
  }

  // ---------------------------------------------------------------- upserts

  /** A known name has its size replaced; a new one is added. */
  function Upsert(rows: seq<IndexRow>, r: IndexRow): seq<IndexRow> {
    var k := FirstNamed(INDEX_NAME, rows, r.name);
    if k < |rows| then rows[k := rows[k].(size := r.size)] else rows + [r]
  }

  function UpsertAll(rows: seq<IndexRow>, batch: seq<IndexRow>): seq<IndexRow> {
    if batch == [] then rows else Upsert(UpsertAll(rows, batch[..|batch| - 1]), batch[|batch| - 1])
  }

  /** A known snapshot has its name set to itself; a new one is added. */
  function UpsertSnapshot(rows: seq<SnapshotRow>, r: SnapshotRow): seq<SnapshotRow> {
    var k := FirstNamed(SNAPSHOT_NAME, rows, r.name);
    if k < |rows| then rows[k := rows[k].(name := r.name)] else rows + [r]
  }

  function UpsertAllSnapshots(rows: seq<SnapshotRow>, batch: seq<SnapshotRow>): seq<SnapshotRow> {
    if batch == [] then rows else UpsertSnapshot(UpsertAllSnapshots(rows, batch[..|batch| - 1]), batch[|batch| - 1])
  }

  function IndexRecords(parse: Parser, listed: seq<CatIndex>): (batch: seq<IndexRow>)
    ensures |batch| == |listed| && forall i | 0 <= i < |listed| :: batch[i] == IndexRecord(parse, listed[i])
  {
    seq(|listed|, i requires 0 <= i < |listed| => IndexRecord(parse, listed[i]))
  }

  function SnapshotRecords(parse: Parser, listed: seq<SnapshotInfo>): (batch: seq<SnapshotRow>)
    ensures |batch| == |listed| && forall i | 0 <= i < |listed| :: batch[i] == SnapshotRecord(parse, listed[i])
  {
    seq(|listed|, i requires 0 <= i < |listed| => SnapshotRecord(parse, listed[i]))
  }

  // ---------------------------------------------------------------- the code

  class Cache {
    var indices: seq<IndexRow>
    var snapshots: seq<SnapshotRow>

    /** An empty batch is an error and changes nothing, and so is a batch the database refuses. */
    method CreateIndexRecords(batch: seq<IndexRow>, accepted: bool) returns (ok: bool)
      modifies this
      ensures ok == (accepted && batch != [])
      ensures indices == if ok then UpsertAll(old(indices), batch) else old(indices)
      ensures snapshots == old(snapshots)
    {
      ok := accepted && batch != [];
      if !ok {
        return;
      }
      for i := 0 to |batch|
        invariant indices == UpsertAll(old(indices), batch[..i])
        invariant snapshots == old(snapshots)
      {
        assert batch[..i + 1][..i] == batch[..i];
        var k := FirstNamed(INDEX_NAME, indices, batch[i].name);
        if k < |indices| {
          indices := indices[k := indices[k].(size := batch[i].size)];
        } else {
          indices := indices + [batch[i]];
        }
      }
      assert batch[..|batch|] == batch;
    }

    method CreateSnapshotRecords(batch: seq<SnapshotRow>, accepted: bool) returns (ok: bool)
      modifies this
      ensures ok == (accepted && batch != [])
      ensures snapshots == if ok then UpsertAllSnapshots(old(snapshots), batch) else old(snapshots)
      ensures indices == old(indices)
    {
      ok := accepted && batch != [];
      if !ok {
        return;
      }
      for i := 0 to |batch|
        invariant snapshots == UpsertAllSnapshots(old(snapshots), batch[..i])
        invariant indices == old(indices)
      {
        assert batch[..i + 1][..i] == batch[..i];
        var k := FirstNamed(SNAPSHOT_NAME, snapshots, batch[i].name);
        if k < |snapshots| {
          snapshots := snapshots[k := snapshots[k].(name := batch[i].name)];
        } else {
          snapshots := snapshots + [batch[i]];
        }
      }
      assert batch[..|batch|] == batch;
    }

    /** AllIndex.Run; listed is None when Elasticsearch could not be asked. */
    method RunIndexJob(parse: Parser, listed: Option<seq<CatIndex>>, accepted: bool)
      modifies this
      ensures indices == if accepted then UpsertAll(old(indices), IndexRecords(parse, listed.GetOr([])))
              else old(indices)
      ensures snapshots == old(snapshots)
    {
      var found := listed.GetOr([]);
      var batch: seq<IndexRow> := [];
      for i := 0 to |found|
        invariant batch == IndexRecords(parse, found[..i])
        invariant indices == old(indices) && snapshots == old(snapshots)
      {
        var t := NewTimeString(parse, found[i].createAt);
        var time := match t case Ok(v) => v case Err(_) => ZERO;
        batch := batch + [IndexRow(found[i].name, if time == ZERO then None else Some(time), found[i].size)];
      }
      assert found[..|found|] == found;
      var _ := CreateIndexRecords(batch, accepted);
    }

    method RunSnapshotJob(parse: Parser, listed: Option<seq<SnapshotInfo>>, accepted: bool)
      modifies this
      ensures snapshots == if accepted then UpsertAllSnapshots(old(snapshots), SnapshotRecords(parse, listed.GetOr([])))
                           else old(snapshots)
      ensures indices == old(indices)
    {
      var found := listed.GetOr([]);
      var batch: seq<SnapshotRow> := [];
      for i := 0 to |found|
        invariant batch == SnapshotRecords(parse, found[..i])
        invariant indices == old(indices) && snapshots == old(snapshots)
      {
        var t := NewTimeString(parse, found[i].startTime);
        var time := match t case Ok(v) => v case Err(_) => ZERO;
        batch := batch + [SnapshotRow(found[i].name, found[i].repository, found[i].state,
                                      if time == ZERO then None else Some(time), found[i].indices)];
      }
      assert found[..|found|] == found;
      var _ := CreateSnapshotRecords(batch, accepted);
    }

    /** The best snapshot the query may answer with: any of the latest good ones. */
    method QueryLatest(name: string) returns (found: seq<SnapshotRow>)
      ensures found == [] <==> forall r | r in snapshots :: r.state != "SUCCESS" || name !in r.indices
      ensures found != [] ==>
                && |found| == 1 && found[0] in snapshots && found[0].state == "SUCCESS" && name in found[0].indices
                && forall r | r in snapshots && r.state == "SUCCESS" && name in r.indices && r.startTime.Some? ::
                     found[0].startTime.Some? && found[0].startTime.value >= r.startTime.value
    {
      found := [];
      for i := 0 to |snapshots|
        invariant found == [] <==> forall r | r in snapshots[..i] :: !Good(r, name)
        invariant found != [] ==> |found| == 1 && IsLatest(snapshots[..i], name, found[0])
      {
        assert snapshots[..i + 1] == snapshots[..i] + [snapshots[i]];
        if Good(snapshots[i], name) && (found == [] || !NotBefore(found[0], snapshots[i])) {
          found := [snapshots[i]];
        }
      }
      assert snapshots[..|snapshots|] == snapshots;
    }

    /** A failed query passes over its index. */
    method QueryLatestSnapshotsViaIndex(index: seq<IndexRow>, fails: seq<bool>) returns (m: map<string, SnapshotRow>)
      requires |fails| == |index|
      ensures forall name | name in m ::
                && (exists i | 0 <= i < |index| :: index[i].name == name && !fails[i])
                && m[name] in snapshots && m[name].state == "SUCCESS" && name in m[name].indices
                && forall r | r in snapshots && r.state == "SUCCESS" && name in r.indices && r.startTime.Some? ::
                     m[name].startTime.Some? && m[name].startTime.value >= r.startTime.value
      ensures forall i | 0 <= i < |index| && !fails[i] ::
                index[i].name in m
                <==> exists r | r in snapshots :: r.state == "SUCCESS" && index[i].name in r.indices
    {
      m := map[];
      for i := 0 to |index|
        invariant forall name | name in m ::
                    && (exists j | 0 <= j < i :: index[j].name == name && !fails[j])
                    && IsLatest(snapshots, name, m[name])
        invariant forall j | 0 <= j < i && !fails[j] ::
                    index[j].name in m <==> exists r | r in snapshots :: Good(r, index[j].name)
      {
        if fails[i] {
          continue;
        }
        var found := QueryLatest(index[i].name);
        if |found| == 1 {
          m := m[index[i].name := found[0]];
        }
      }
    }
  }

  // ---------------------------------------------------------------- what the snapshot job is given

  /** A repository's answers: its snapshot names, if they could be listed, and their details. */
  datatype RepositoryAnswer = RepositoryAnswer(names: Option<seq<string>>, details: Option<seq<SnapshotInfo>>)

  /** Snapshots of a repository that failed, or that has none, are missing; the others are kept. */
  function Collected(answers: seq<RepositoryAnswer>): seq<SnapshotInfo> {
    if answers == [] then []
    else
      var last := answers[|answers| - 1];
      Collected(answers[..|answers| - 1])
      + if last.names.GetOr([]) != [] then last.details.GetOr([]) else []
  }

  method GetAllSnapshotDetails(answers: seq<RepositoryAnswer>) returns (all: seq<SnapshotInfo>)
    ensures all == Collected(answers)
  {
    all := [];
    for i := 0 to |answers|
      invariant all == Collected(answers[..i])
    {
      assert answers[..i + 1][..i] == answers[..i];
      if answers[i].names.None? {
        continue;
      }
      if answers[i].names.value != [] {
        var snapshots := answers[i].details.GetOr([]);
        all := all + snapshots;
      }
    }
    assert answers[..|answers|] == answers;
  }

  /** A snapshot is collected exactly when its repository was listed, is not empty and gave details. */
  lemma {:induction false} CollectedExactly(answers: seq<RepositoryAnswer>, s: SnapshotInfo)
    ensures s in Collected(answers) <==>
            exists i | 0 <= i < |answers| ::
              && answers[i].names.Some? && answers[i].names.value != []
              && answers[i].details.Some? && s in answers[i].details.value
  {
    if answers == [] {
    } else {
      var front := answers[..|answers| - 1];
      CollectedExactly(front, s);
      if s in Collected(front) {
        var i :| 0 <= i < |front| && front[i].names.Some? && front[i].names.value != []
                 && front[i].details.Some? && s in front[i].details.value;
        assert answers[i] == front[i];
      }
      forall i | 0 <= i < |front| ensures answers[i] == front[i] { }
    }
  }

  // ---------------------------------------------------------------- latest snapshots

  predicate Good(r: SnapshotRow, name: string) {
    r.state == "SUCCESS" && name in r.indices
  }

  /** Descending order of start times; NULL comes last. */
  predicate NotBefore(a: SnapshotRow, b: SnapshotRow) {
    b.startTime.None? || (a.startTime.Some? && a.startTime.value >= b.startTime.value)
  }

  predicate IsLatest(rows: seq<SnapshotRow>, name: string, r: SnapshotRow) {
    r in rows && Good(r, name) && forall q | q in rows && Good(q, name) :: NotBefore(r, q)
  }

  // ---------------------------------------------------------------- history

  predicate UniqueNames(rows: seq<IndexRow>) {
    forall i, j | 0 <= i < j < |rows| :: rows[i].name != rows[j].name
  }

  /** A row tells the first creation time and the last size observed for its name. */
  predicate RowTells(history: seq<IndexRow>, r: IndexRow) {
    var first, last := FirstNamed(INDEX_NAME, history, r.name), LastNamed(INDEX_NAME, history, r.name);
    && first < |history| && last < |history|
    && r.createAt == history[first].createAt
    && r.size == history[last].size
  }

  lemma HistoryGrows(history: seq<IndexRow>, h: IndexRow, name: string)
    ensures LastNamed(INDEX_NAME, history + [h], name)
         == if h.name == name then |history|
            else if LastNamed(INDEX_NAME, history, name) == |history| then |history| + 1
              else LastNamed(INDEX_NAME, history, name)
    ensures FirstNamed(INDEX_NAME, history, name) < |history|
            ==> FirstNamed(INDEX_NAME, history + [h], name) == FirstNamed(INDEX_NAME, history, name)
    ensures FirstNamed(INDEX_NAME, history, name) == |history| && h.name == name
            ==> FirstNamed(INDEX_NAME, history + [h], name) == |history|
  {
    var all := history + [h];
    assert all[..|history|] == history;
    var k := FirstNamed(INDEX_NAME, history, name);
    if k < |history| || h.name == name {
      FirstNamedIs(INDEX_NAME, all, name, k);
    }
  }

  /** Unique names, exactly the names observed, each with its first creation time and last size. */
  predicate Tells(table: seq<IndexRow>, history: seq<IndexRow>) {
    && UniqueNames(table)
    && (forall i | 0 <= i < |table| :: RowTells(history, table[i]))
    && forall i | 0 <= i < |history| :: FirstNamed(INDEX_NAME, table, history[i].name) < |table|
  }

  /** Over any observed history the table tells exactly what was observed. */
  lemma {:induction false} CacheAgreesWithHistory(history: seq<IndexRow>)
    ensures Tells(UpsertAll([], history), history)
  {
    if history == [] {
    } else {
      var front, h := history[..|history| - 1], history[|history| - 1];
      CacheAgreesWithHistory(front);
      assert history == front + [h];
      UpsertTells(UpsertAll([], front), front, h);
    }
  }

  lemma UpsertTells(table: seq<IndexRow>, history: seq<IndexRow>, h: IndexRow)
    requires Tells(table, history)
    ensures Tells(Upsert(table, h), history + [h])
  {
    hide RowTells;
    var after := Upsert(table, h);
    forall i | 0 <= i < |after|
      ensures RowTells(history + [h], after[i])
    {
      if after[i].name == h.name {
        UpsertedRowTells(table, history, h, i);
      } else {
        OtherRowTells(history, h, table[i]);
      }
    }
    forall i | 0 <= i < |history| + 1
      ensures FirstNamed(INDEX_NAME, after, (history + [h])[i].name) < |after|
    {
      NamesAfterUpsert(table, h, (history + [h])[i].name);
    }
  }

  lemma OtherRowTells(history: seq<IndexRow>, h: IndexRow, r: IndexRow)
    requires RowTells(history, r) && r.name != h.name
    ensures RowTells(history + [h], r)
  {
    HistoryGrows(history, h, r.name);
  }

  lemma UpsertedRowTells(table: seq<IndexRow>, history: seq<IndexRow>, h: IndexRow, i: nat)
    requires Tells(table, history) && i < |Upsert(table, h)| && Upsert(table, h)[i].name == h.name
    ensures RowTells(history + [h], Upsert(table, h)[i])
  {
    var k := FirstNamed(INDEX_NAME, table, h.name);
    HistoryGrows(history, h, h.name);
    if k < |table| {
      assert i == k;
      assert RowTells(history, table[k]);
    } else {
      assert i == k;
      assert forall j | 0 <= j < |history| :: history[j].name != h.name;
      assert FirstNamed(INDEX_NAME, history, h.name) == |history|;
    }
  }

  lemma NamesAfterUpsert(table: seq<IndexRow>, h: IndexRow, name: string)
    ensures FirstNamed(INDEX_NAME, Upsert(table, h), name) < |Upsert(table, h)|
            <==> name == h.name || FirstNamed(INDEX_NAME, table, name) < |table|
  {
    var after := Upsert(table, h);
    var k, m := FirstNamed(INDEX_NAME, table, h.name), FirstNamed(INDEX_NAME, table, name);
    if k == |table| {
      assert after[|table|] == h;
    } else {
      assert after[k].name == h.name;
    }
    if m < |table| {
      assert after[m].name == name;
    }
  }

  /** Only the sequence of records matters, not how the jobs batched it. */
  lemma {:induction false} BatchingDoesNotMatter(rows: seq<IndexRow>, a: seq<IndexRow>, b: seq<IndexRow>)
    ensures UpsertAll(UpsertAll(rows, a), b) == UpsertAll(rows, a + b)
  {
    if b == [] {
      assert a + b == a;
    } else {
      assert (a + b)[..|a + b| - 1] == a + b[..|b| - 1];
      BatchingDoesNotMatter(rows, a, b[..|b| - 1]);
    }
  }

  predicate FirstSeen(history: seq<SnapshotRow>, r: SnapshotRow) {
    FirstNamed(SNAPSHOT_NAME, history, r.name) < |history| && history[FirstNamed(SNAPSHOT_NAME, history, r.name)] == r
  }

  predicate InTable(table: seq<SnapshotRow>, name: string) {
    FirstNamed(SNAPSHOT_NAME, table, name) < |table|
  }

  /** The table holds the first record of each name observed, once, and nothing else. */
  predicate HoldsFirstSeen(table: seq<SnapshotRow>, history: seq<SnapshotRow>) {
    && (forall i | 0 <= i < |table| :: FirstSeen(history, table[i]))
    && (forall i | 0 <= i < |history| :: InTable(table, history[i].name))
    && forall i, j | 0 <= i < j < |table| :: table[i].name != table[j].name
  }

  /** A snapshot row is what was first observed under its name, in whatever repository. */
  lemma {:induction false} SnapshotsStayAsFirstSeen(history: seq<SnapshotRow>)
    ensures HoldsFirstSeen(UpsertAllSnapshots([], history), history)
  {
    if history == [] {
    } else {
      var front, h := history[..|history| - 1], history[|history| - 1];
      SnapshotsStayAsFirstSeen(front);
      assert history == front + [h];
      FirstSeenStep(UpsertAllSnapshots([], front), front, h);
    }
  }

  lemma FirstSeenStep(table: seq<SnapshotRow>, history: seq<SnapshotRow>, h: SnapshotRow)
    requires HoldsFirstSeen(table, history)
    ensures HoldsFirstSeen(UpsertSnapshot(table, h), history + [h])
  {
    if InTable(table, h.name) {
      KnownSnapshot(table, history, h);
    } else {
      NewSnapshot(table, history, h);
    }
    hide *;
  }

  lemma FirstSeenStays(history: seq<SnapshotRow>, h: SnapshotRow, r: SnapshotRow)
    requires FirstSeen(history, r)
    ensures FirstSeen(history + [h], r)
  {
    FirstNamedGrows(SNAPSHOT_NAME, history, h, r.name);
  }

  lemma KnownSnapshot(table: seq<SnapshotRow>, history: seq<SnapshotRow>, h: SnapshotRow)
    requires HoldsFirstSeen(table, history) && InTable(table, h.name)
    ensures UpsertSnapshot(table, h) == table
    ensures HoldsFirstSeen(table, history + [h])
  {
    forall i | 0 <= i < |table|
      ensures FirstSeen(history + [h], table[i])
    {
      FirstSeenStays(history, h, table[i]);
    }
    hide FirstSeen, FirstNamed, InTable;
  }

  lemma NewSnapshot(table: seq<SnapshotRow>, history: seq<SnapshotRow>, h: SnapshotRow)
    requires HoldsFirstSeen(table, history) && !InTable(table, h.name)
    ensures UpsertSnapshot(table, h) == table + [h]
    ensures HoldsFirstSeen(table + [h], history + [h])
  {
    NewIsFirstSeen(table, history, h);
    NamesDiffer(table, h);
    NewIsAdded(table, h);
    hide FirstSeen, InTable, UpsertSnapshot;
    forall i | 0 <= i < |table|
      ensures FirstSeen(history + [h], table[i])
    {
      FirstSeenStays(history, h, table[i]);
    }
    forall i | 0 <= i < |history| + 1
      ensures InTable(table + [h], (history + [h])[i].name)
    {
      NameIsThere(table, history, h, i);
    }
  }

  lemma NewIsAdded(table: seq<SnapshotRow>, h: SnapshotRow)
    requires !InTable(table, h.name)
    ensures UpsertSnapshot(table, h) == table + [h]
  {
  }

  lemma NamesDiffer(table: seq<SnapshotRow>, h: SnapshotRow)
    requires !InTable(table, h.name)
    ensures forall i | 0 <= i < |table| :: table[i].name != h.name
  {
  }

  lemma NewIsFirstSeen(table: seq<SnapshotRow>, history: seq<SnapshotRow>, h: SnapshotRow)
    requires HoldsFirstSeen(table, history) && !InTable(table, h.name)
    ensures FirstSeen(history + [h], h)
  {
    assert forall i | 0 <= i < |history| :: history[i].name != h.name;
    FirstNamedGrows(SNAPSHOT_NAME, history, h, h.name);
  }

  lemma NameIsThere(table: seq<SnapshotRow>, history: seq<SnapshotRow>, h: SnapshotRow, i: nat)
    requires HoldsFirstSeen(table, history) && i < |history| + 1
    ensures InTable(table + [h], (history + [h])[i].name)
  {
    hide FirstSeen;
    FirstNamedGrows(SNAPSHOT_NAME, table, h, (history + [h])[i].name);
    assert i < |history| ==> (history + [h])[i] == history[i];
  }

  /**
   * The snapshot the lookup answers with, after any history, is one that was good when it was first
   * observed, and none that was good then started later.
   */
  lemma LatestAmongFirstSeen(history: seq<SnapshotRow>, name: string, r: SnapshotRow)
    ensures IsLatest(UpsertAllSnapshots([], history), name, r) <==>
              && FirstSeen(history, r)
              && r.state == "SUCCESS" && name in r.indices
              && forall q | q in history && FirstSeen(history, q) && q.state == "SUCCESS" && name in q.indices ::
                   q.startTime.Some? ==> r.startTime.Some? && r.startTime.value >= q.startTime.value
  {
    SnapshotsStayAsFirstSeen(history);
    forall q
      ensures q in UpsertAllSnapshots([], history) <==> FirstSeen(history, q)
    {
      TableIsFirstSeen(UpsertAllSnapshots([], history), history, q);
    }
    hide UpsertAllSnapshots, HoldsFirstSeen;
  }

  lemma TableIsFirstSeen(table: seq<SnapshotRow>, history: seq<SnapshotRow>, q: SnapshotRow)
    requires HoldsFirstSeen(table, history)
    ensures q in table <==> FirstSeen(history, q)
  {
    if FirstSeen(history, q) {
      var first := FirstNamed(SNAPSHOT_NAME, history, q.name);
      var i := FirstNamed(SNAPSHOT_NAME, table, history[first].name);
      assert table[i] == q;
    }
  }

  // ---------------------------------------------------------------- what was listed

  /** A stored time: RFC 3339 or nothing, and no zero time. */
  predicate IsStoredTime(parse: Parser, text: string, column: Option<int>) {
    match parse(Rfc3339, text)
    case None => column == None
    case Some(t) => column == if t == 0 then None else Some(t)
  }

  predicate FirstListed(names: seq<string>, i: nat) {
    i < |names| && forall j | 0 <= j < i :: names[j] != names[i]
  }

  predicate LastListed(names: seq<string>, i: nat) {
    i < |names| && forall j | i < j < |names| :: names[j] != names[i]
  }

  function CatNames(listed: seq<CatIndex>): (names: seq<string>)
    ensures |names| == |listed| && forall i | 0 <= i < |listed| :: names[i] == listed[i].name
  {
    seq(|listed|, i requires 0 <= i < |listed| => listed[i].name)
  }

  function InfoNames(listed: seq<SnapshotInfo>): (names: seq<string>)
    ensures |names| == |listed| && forall i | 0 <= i < |listed| :: names[i] == listed[i].name
  {
    seq(|listed|, i requires 0 <= i < |listed| => listed[i].name)
  }

  /** After the jobs have stored listings of indices, one row tells of each name: the creation time of
      its first listing, and the size of its last. */
  lemma ListedIndexIsTold(parse: Parser, listed: seq<CatIndex>, i: nat, r: IndexRow)
    requires i < |listed|
    ensures var table := UpsertAll([], IndexRecords(parse, listed));
            && (exists row :: row in table && row.name == listed[i].name)
            && (r in table && r.name == listed[i].name ==>
                  && multiset(table)[r] == 1
                  && (FirstListed(CatNames(listed), i) ==> IsStoredTime(parse, listed[i].createAt, r.createAt))
                  && (LastListed(CatNames(listed), i) ==> r.size == listed[i].size))
  {
    var history, name := IndexRecords(parse, listed), listed[i].name;
    var table := UpsertAll([], history);
    CacheAgreesWithHistory(history);
    assert history[i].name == name;
    assert table[FirstNamed(INDEX_NAME, table, name)].name == name;
    if r in table && r.name == name {
      var k :| 0 <= k < |table| && table[k] == r;
      CountedOnce(table, k);
      assert RowTells(history, table[k]);
      NamesOfRecords(parse, listed, name, i);
    }
    hide UpsertAll;
  }

  lemma NamesOfRecords(parse: Parser, listed: seq<CatIndex>, name: string, i: nat)
    requires i < |listed| && listed[i].name == name
    ensures FirstListed(CatNames(listed), i) ==> FirstNamed(INDEX_NAME, IndexRecords(parse, listed), name) == i
    ensures LastListed(CatNames(listed), i) ==> LastNamed(INDEX_NAME, IndexRecords(parse, listed), name) == i
  {
    var history := IndexRecords(parse, listed);
    assert forall j | 0 <= j < |listed| :: history[j].name == CatNames(listed)[j];
    var first, last := FirstNamed(INDEX_NAME, history, name), LastNamed(INDEX_NAME, history, name);
    assert history[i].name == name && first < |history| && last < |history|;
    hide FirstNamed, LastNamed;
    assert CatNames(listed)[first] == CatNames(listed)[last] == CatNames(listed)[i];
  }

  lemma CountedOnce(table: seq<IndexRow>, k: nat)
    requires UniqueNames(table) && k < |table|
    ensures multiset(table)[table[k]] == 1
  {
    var front, back := table[..k], table[k + 1..];
    assert table == front + [table[k]] + back;
    assert forall j | 0 <= j < |back| :: back[j] == table[k + 1 + j];
    assert table[k] !in front && table[k] !in back;
  }

  /** And one row of each snapshot name, as it was first listed. */
  lemma ListedSnapshotIsTold(parse: Parser, listed: seq<SnapshotInfo>, i: nat)
    requires FirstListed(InfoNames(listed), i)
    ensures var table, info := UpsertAllSnapshots([], SnapshotRecords(parse, listed)), listed[i];
            exists r | r in table ::
              && r.name == info.name && r.repository == info.repository && r.state == info.state
              && r.indices == info.indices && IsStoredTime(parse, info.startTime, r.startTime)
              && forall q | q in table && q.name == info.name :: q == r
  {
    var history := SnapshotRecords(parse, listed);
    var table, r := UpsertAllSnapshots([], history), history[i];
    SnapshotsStayAsFirstSeen(history);
    FirstSeenAt(parse, listed, i);
    hide UpsertAllSnapshots, FirstNamed;
    TableIsFirstSeen(table, history, r);
    forall q | q in table && q.name == r.name
      ensures q == r
    {
      TableIsFirstSeen(table, history, q);
    }
    hide HoldsFirstSeen, InTable;
  }

  lemma FirstSeenAt(parse: Parser, listed: seq<SnapshotInfo>, i: nat)
    requires FirstListed(InfoNames(listed), i)
    ensures FirstSeen(SnapshotRecords(parse, listed), SnapshotRecords(parse, listed)[i])
  {
    var history := SnapshotRecords(parse, listed);
    assert forall j | 0 <= j < |listed| :: history[j].name == InfoNames(listed)[j];
    FirstNamedIs(SNAPSHOT_NAME, history, history[i].name, i);
  }
}

/** The SQLite store (backend/src/db.ts) as an append-only log of writes.
    Every table is a projection of the log: incidents are upserted by id,
    events, plans, validations and rewards are plain appends. Row timestamps
    taken from the clock are not modelled; an incident's `created_at` comes
    from the record itself and is. */
module Store {
  import opened Wrappers
  import opened Types

  /** The JSON payloads the pipeline stores with its events. */
  datatype Payload =
    | IncidentPayload(incident: IncidentRecord)
    | AttemptPayload(attempt: int, plan: RepairPlan, validation: ValidationResult)
    | FixedPayload(plan: RepairPlan, validation: ValidationResult)
    | EmptyPayload

  datatype Event = Event(kind: string, incidentId: Option<string>, payload: Payload)

  datatype Write =
    | UpsertIncident(record: IncidentRecord)
    | InsertEvent(event: Event)
    | InsertPlan(plan: RepairPlan)
    | InsertValidation(validation: ValidationResult)
    | InsertReward(signal: RewardSignal)

  /** The database: every write ever made, oldest first. */
  type Db = seq<Write>

  // ----- incidents: one row per id -----

  datatype IncidentRow = IncidentRow(id: string, payload: IncidentRecord, status: Status, createdAt: string)

  predicate DistinctIds(table: seq<IncidentRow>) {
    forall i, j :: 0 <= i < j < |table| ==> table[i].id != table[j].id
  }

  function IndexOfId(table: seq<IncidentRow>, id: string): (r: Option<nat>)
    ensures r.Some? ==> r.value < |table| && table[r.value].id == id
    ensures r.None? ==> forall k :: 0 <= k < |table| ==> table[k].id != id
    decreases |table|
  {
    if |table| == 0 then None
    else if table[|table| - 1].id == id then Some(|table| - 1)
    else IndexOfId(table[..|table| - 1], id)
  }

  function Lookup(table: seq<IncidentRow>, id: string): Option<IncidentRow> {
    match IndexOfId(table, id)
    case Some(i) => Some(table[i])
    case None => None
  }

  /** The row an upsert of `rec` leaves: the new payload and status, and the
      `created_at` of the first insert for that id. */
  function UpsertedRow(table: seq<IncidentRow>, rec: IncidentRecord): IncidentRow {
    var createdAt := match Lookup(table, rec.id)
      case Some(row) => row.createdAt
      case None => rec.createdAt;
    IncidentRow(rec.id, rec, rec.status, createdAt)
  }

  /** `INSERT ... ON CONFLICT(id) DO UPDATE SET payload, status`. */
  function Upsert(table: seq<IncidentRow>, rec: IncidentRecord): (r: seq<IncidentRow>)
    requires DistinctIds(table)
    ensures DistinctIds(r)
    ensures Lookup(r, rec.id) == Some(UpsertedRow(table, rec))
    ensures forall id :: id != rec.id ==> Lookup(r, id) == Lookup(table, id)
    ensures |r| == |table| + (if Lookup(table, rec.id).Some? then 0 else 1)
  {
    var row := UpsertedRow(table, rec);
    match IndexOfId(table, rec.id)
    case Some(i) =>
      var r := table[i := row];
      assert DistinctIds(r);
      forall id | id != rec.id ensures Lookup(r, id) == Lookup(table, id) {
        ReplaceKeepsOtherIds(table, i, row, id);
      }
      LookupByIndex(r, rec.id);
      assert r[i] == row;
      r
    case None =>
      var r := table + [row];
      assert r[..|table|] == table;
      r
  }

  /** In a table with distinct ids, a row found anywhere is the row `Lookup` gives. */
  lemma LookupByIndex(table: seq<IncidentRow>, id: string)
    requires DistinctIds(table)
    ensures forall k :: 0 <= k < |table| && table[k].id == id ==> Lookup(table, id) == Some(table[k])
    ensures Lookup(table, id).None? ==> forall k :: 0 <= k < |table| ==> table[k].id != id
  {
  }

  /** Replacing the row at `i` by one with the same id leaves other ids' rows alone. */
  lemma ReplaceKeepsOtherIds(table: seq<IncidentRow>, i: nat, row: IncidentRow, id: string)
    requires DistinctIds(table) && i < |table| && row.id == table[i].id && id != row.id
    ensures Lookup(table[i := row], id) == Lookup(table, id)
  {
    var r := table[i := row];
    assert DistinctIds(r);
    LookupByIndex(r, id);
    match IndexOfId(table, id)
    case Some(k) =>
      assert r[k] == table[k];
    case None =>
      assert forall k :: 0 <= k < |r| ==> r[k].id != id;
      NotFoundIsNone(r, id);
  }

  lemma NotFoundIsNone(table: seq<IncidentRow>, id: string)
    requires forall k :: 0 <= k < |table| ==> table[k].id != id
    ensures Lookup(table, id) == None
  {
  }

  /** The incidents table after replaying `db`, rows in first-insert order. */
  function Table(db: Db): (t: seq<IncidentRow>)
    ensures DistinctIds(t)
    decreases |db|
  {
    if |db| == 0 then []
    else
      var t := Table(db[..|db| - 1]);
      match db[|db| - 1]
      case UpsertIncident(rec) => Upsert(t, rec)
      case _ => t
  }

  /** The incident row for `id`, if any. */
  function IncidentOf(db: Db, id: string): Option<IncidentRow> {
    Lookup(Table(db), id)
  }

  /** An upsert replaces payload and status and keeps the first `created_at`;
      rows of other ids are untouched, and no id ever has two rows. */
  lemma UpsertKeepsFirstCreatedAt(db: Db, rec: IncidentRecord, id: string)
    ensures IncidentOf(db + [UpsertIncident(rec)], rec.id)
            == Some(IncidentRow(rec.id, rec, rec.status,
                                match IncidentOf(db, rec.id)
                                case Some(row) => row.createdAt
                                case None => rec.createdAt))
    ensures id != rec.id ==> IncidentOf(db + [UpsertIncident(rec)], id) == IncidentOf(db, id)
    ensures DistinctIds(Table(db + [UpsertIncident(rec)]))
  {
    assert (db + [UpsertIncident(rec)])[..|db|] == db;
  }

  /** Writes other than upserts leave the incidents table alone. */
  lemma OtherWritesKeepTable(db: Db, w: Write)
    requires !w.UpsertIncident?
    ensures Table(db + [w]) == Table(db)
  {
    assert (db + [w])[..|db|] == db;
  }

  // ----- append-only tables -----

  /** Every incident record ever upserted, oldest first: the history the
      `incidents` table keeps only the last of per id. */
  function Snapshots(db: Db): seq<IncidentRecord>
    decreases |db|
  {
    if |db| == 0 then []
    else Snapshots(db[..|db| - 1]) + (if db[|db| - 1].UpsertIncident? then [db[|db| - 1].record] else [])
  }

  function Events(db: Db): (es: seq<Event>)
    ensures |es| <= |db|
    decreases |db|
  {
    if |db| == 0 then []
    else Events(db[..|db| - 1]) + (if db[|db| - 1].InsertEvent? then [db[|db| - 1].event] else [])
  }

  function Plans(db: Db): seq<RepairPlan>
    decreases |db|
  {
    if |db| == 0 then []
    else Plans(db[..|db| - 1]) + (if db[|db| - 1].InsertPlan? then [db[|db| - 1].plan] else [])
  }

  function Validations(db: Db): seq<ValidationResult>
    decreases |db|
  {
    if |db| == 0 then []
    else Validations(db[..|db| - 1]) + (if db[|db| - 1].InsertValidation? then [db[|db| - 1].validation] else [])
  }

  function Rewards(db: Db): seq<RewardSignal>
    decreases |db|
  {
    if |db| == 0 then []
    else Rewards(db[..|db| - 1]) + (if db[|db| - 1].InsertReward? then [db[|db| - 1].signal] else [])
  }

  /** Appending writes appends to every table: nothing is updated in place or
      deduplicated, and a reward for an (incident, attempt) pair already
      present is stored again. */
  lemma AppendOnly(db: Db, more: Db)
    ensures Events(db + more) == Events(db) + Events(more)
    ensures Plans(db + more) == Plans(db) + Plans(more)
    ensures Validations(db + more) == Validations(db) + Validations(more)
    ensures Rewards(db + more) == Rewards(db) + Rewards(more)
    ensures Snapshots(db + more) == Snapshots(db) + Snapshots(more)
  {
    EventsAppend(db, more);
    PlansAppend(db, more);
    ValidationsAppend(db, more);
    RewardsAppend(db, more);
    SnapshotsAppend(db, more);
  }

  lemma {:induction false} EventsAppend(db: Db, more: Db)
    ensures Events(db + more) == Events(db) + Events(more)
    decreases |more|
  {
    if |more| == 0 {
      assert db + more == db;
    } else {
      var init := more[..|more| - 1];
      assert (db + more)[..|db + more| - 1] == db + init;
      EventsAppend(db, init);
    }
  }

  lemma {:induction false} PlansAppend(db: Db, more: Db)
    ensures Plans(db + more) == Plans(db) + Plans(more)
    decreases |more|
  {
    if |more| == 0 {
      assert db + more == db;
    } else {
      var init := more[..|more| - 1];
      assert (db + more)[..|db + more| - 1] == db + init;
      PlansAppend(db, init);
    }
  }

  lemma {:induction false} ValidationsAppend(db: Db, more: Db)
    ensures Validations(db + more) == Validations(db) + Validations(more)
    decreases |more|
  {
    if |more| == 0 {
      assert db + more == db;
    } else {
      var init := more[..|more| - 1];
      assert (db + more)[..|db + more| - 1] == db + init;
      ValidationsAppend(db, init);
    }
  }

  lemma {:induction false} RewardsAppend(db: Db, more: Db)
    ensures Rewards(db + more) == Rewards(db) + Rewards(more)
    decreases |more|
  {
    if |more| == 0 {
      assert db + more == db;
    } else {
      var init := more[..|more| - 1];
      assert (db + more)[..|db + more| - 1] == db + init;
      RewardsAppend(db, init);
    }
  }

  lemma {:induction false} SnapshotsAppend(db: Db, more: Db)
    ensures Snapshots(db + more) == Snapshots(db) + Snapshots(more)
    decreases |more|
  {
    if |more| == 0 {
      assert db + more == db;
    } else {
      var init := more[..|more| - 1];
      assert (db + more)[..|db + more| - 1] == db + init;
      SnapshotsAppend(db, init);
    }
  }

  /** What a single write adds to each table. */
  lemma OneWrite(w: Write)
    ensures Events([w]) == (if w.InsertEvent? then [w.event] else [])
    ensures Plans([w]) == (if w.InsertPlan? then [w.plan] else [])
    ensures Validations([w]) == (if w.InsertValidation? then [w.validation] else [])
    ensures Rewards([w]) == (if w.InsertReward? then [w.signal] else [])
    ensures Snapshots([w]) == (if w.UpsertIncident? then [w.record] else [])
  {
    assert [w][..0] == [];
  }

  /** `listEvents(limit)`: at most `limit` events, newest first. */
  function ListEvents(db: Db, limit: nat): (r: seq<Event>)
    ensures |r| == if limit < |Events(db)| then limit else |Events(db)|
    ensures forall i :: 0 <= i < |r| ==> r[i] == Events(db)[|Events(db)| - 1 - i]
  {
    var es := Events(db);
    var n := if limit < |es| then limit else |es|;
    seq(n, i requires 0 <= i < n => es[|es| - 1 - i])
  }

  /** The default page size of `listEvents` and the fixed one of `listIncidents`. */
  const PageSize: nat := 200

  // ----- latest reward -----

  /** A reward row for `id` with the greatest attempt, if any. */
  function LatestOf(rs: seq<RewardSignal>, id: string): Option<RewardSignal>
    decreases |rs|
  {
    if |rs| == 0 then None
    else
      var rest := LatestOf(rs[..|rs| - 1], id);
      var last := rs[|rs| - 1];
      if last.incidentId != id then rest
      else if rest.Some? && rest.value.attempt >= last.attempt then rest
      else Some(last)
  }

  /** `LatestOf` finds a row of `id` exactly when there is one, and no row of
      `id` has a greater attempt than the one it finds. */
  lemma {:induction false} LatestOfSpec(rs: seq<RewardSignal>, id: string)
    ensures LatestOf(rs, id).None? <==> forall s :: s in rs ==> s.incidentId != id
    ensures LatestOf(rs, id).Some? ==> LatestOf(rs, id).value in rs && LatestOf(rs, id).value.incidentId == id
    ensures LatestOf(rs, id).Some? ==>
              forall s :: s in rs && s.incidentId == id ==> s.attempt <= LatestOf(rs, id).value.attempt
    decreases |rs|
  {
    if |rs| > 0 {
      var init := rs[..|rs| - 1];
      LatestOfSpec(init, id);
      assert rs == init + [rs[|rs| - 1]];
    }
  }

  /** `latestReward(id)`: `ORDER BY attempt DESC LIMIT 1`, or null. */
  function LatestReward(db: Db, id: string): Option<RewardSignal> {
    LatestOf(Rewards(db), id)
  }

  /** The latest reward is a stored reward of the incident with the greatest
      attempt, and there is one exactly when the incident has any reward. */
  lemma LatestRewardSpec(db: Db, id: string)
    ensures LatestReward(db, id).None? <==> forall s :: s in Rewards(db) ==> s.incidentId != id
    ensures LatestReward(db, id).Some? ==> LatestReward(db, id).value in Rewards(db) && LatestReward(db, id).value.incidentId == id
    ensures LatestReward(db, id).Some? ==>
              forall s :: s in Rewards(db) && s.incidentId == id ==> s.attempt <= LatestReward(db, id).value.attempt
  {
    LatestOfSpec(Rewards(db), id);
  }

  // ----- listing incidents -----

  /** Lexicographic order on code points, which for the UTF-8 text SQLite
      compares byte by byte is the same order. */
  predicate TextLe(a: string, b: string)
    decreases |a|
  {
    if |a| == 0 then true
    else if |b| == 0 then false
    else if a[0] != b[0] then a[0] < b[0]
    else TextLe(a[1..], b[1..])
  }

  lemma {:induction false} TextLeTotal(a: string, b: string)
    ensures TextLe(a, b) || TextLe(b, a)
    decreases |a|
  {
    if |a| > 0 && |b| > 0 && a[0] == b[0] {
      TextLeTotal(a[1..], b[1..]);
    }
  }

  /** Each row is created no later than the one before it. */
  predicate NewestFirst(rows: seq<IncidentRow>) {
    forall i :: 0 < i < |rows| ==> TextLe(rows[i].createdAt, rows[i - 1].createdAt)
  }

  function InsertNewestFirst(x: IncidentRow, rows: seq<IncidentRow>): (r: seq<IncidentRow>)
    requires NewestFirst(rows)
    ensures NewestFirst(r)
    ensures multiset(r) == multiset(rows) + multiset{x}
    ensures |rows| > 0 ==> r[0] == x || r[0] == rows[0]
    decreases |rows|
  {
    if |rows| == 0 then [x]
    else if TextLe(rows[0].createdAt, x.createdAt) then [x] + rows
    else
      TextLeTotal(rows[0].createdAt, x.createdAt);
      var rest := InsertNewestFirst(x, rows[1..]);
      assert rows == [rows[0]] + rows[1..];
      assert TextLe(rest[0].createdAt, rows[0].createdAt) by {
        if |rows| > 1 {
          assert rows[1..][0] == rows[1];
        }
      }
      [rows[0]] + rest
  }

  function SortNewestFirst(rows: seq<IncidentRow>): (r: seq<IncidentRow>)
    ensures NewestFirst(r)
    ensures multiset(r) == multiset(rows)
    decreases |rows|
  {
    if |rows| == 0 then []
    else
      assert rows == [rows[0]] + rows[1..];
      InsertNewestFirst(rows[0], SortNewestFirst(rows[1..]))
  }

  /** The rows `listIncidents()` reads: at most 200, ordered by `created_at`
      descending, all rows when there are no more than 200. */
  function ListIncidentRows(db: Db): (rows: seq<IncidentRow>)
    ensures |rows| == if |Table(db)| < PageSize then |Table(db)| else PageSize
    ensures NewestFirst(rows)
    ensures multiset(rows) <= multiset(Table(db))
    ensures |Table(db)| <= PageSize ==> multiset(rows) == multiset(Table(db))
  {
    var sorted := SortNewestFirst(Table(db));
    var n := if |sorted| < PageSize then |sorted| else PageSize;
    assert sorted == sorted[..n] + sorted[n..];
    assert multiset(sorted) == multiset(sorted[..n]) + multiset(sorted[n..]);
    sorted[..n]
  }

  lemma {:induction false} TextLeReflexive(a: string)
    ensures TextLe(a, a)
    decreases |a|
  {
    if |a| > 0 {
      TextLeReflexive(a[1..]);
    }
  }

  lemma {:induction false} TextLeTransitive(a: string, b: string, c: string)
    requires TextLe(a, b) && TextLe(b, c)
    ensures TextLe(a, c)
    decreases |a|
  {
    if |a| > 0 && a[0] == b[0] && b[0] == c[0] {
      TextLeTransitive(a[1..], b[1..], c[1..]);
    }
  }

  /** In a newest-first list every row is created no later than any row before it. */
  lemma {:induction false} NewestFirstOrdered(rows: seq<IncidentRow>, i: nat, j: nat)
    requires NewestFirst(rows) && i <= j < |rows|
    ensures TextLe(rows[j].createdAt, rows[i].createdAt)
    decreases j - i
  {
    if i == j {
      TextLeReflexive(rows[i].createdAt);
    } else {
      NewestFirstOrdered(rows, i, j - 1);
      TextLeTransitive(rows[j].createdAt, rows[j - 1].createdAt, rows[i].createdAt);
    }
  }

  /** The rows listed are the newest: an incident left off the page was
      created no later than any listed one. */
  lemma ListIncidentRowsNewest(db: Db, listed: IncidentRow, unlisted: IncidentRow)
    requires listed in ListIncidentRows(db)
    requires unlisted in Table(db) && unlisted !in ListIncidentRows(db)
    ensures TextLe(unlisted.createdAt, listed.createdAt)
  {
    var sorted := SortNewestFirst(Table(db));
    var n := if |sorted| < PageSize then |sorted| else PageSize;
    assert ListIncidentRows(db) == sorted[..n];
    assert unlisted in multiset(sorted);
    var j :| 0 <= j < |sorted| && sorted[j] == unlisted;
    var i :| 0 <= i < n && sorted[..n][i] == listed;
    NewestFirstOrdered(sorted, i, j);
  }

  /** `listIncidents()`: the stored payloads of those rows. */
  function ListIncidents(db: Db): (r: seq<IncidentRecord>)
    ensures |r| == |ListIncidentRows(db)|
    ensures forall i :: 0 <= i < |r| ==> r[i] == ListIncidentRows(db)[i].payload
  {
    var rows := ListIncidentRows(db);
    seq(|rows|, i requires 0 <= i < |rows| => rows[i].payload)
  }
}

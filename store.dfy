/**
 * The bulk writer: one flush of fetched nodes into the two tables, as a single
 * transaction.
 *
 * `repositories` is a map from the external `repo_id` to its row, plus the
 * counter that hands out surrogate ids; `repository_star_history` is a map
 * from (surrogate id, day) to the star count recorded for that day, the pair
 * being the table's unique key. `now` is the time the flush runs at (the
 * database's NOW() and the fallback of the timestamp parser); `day` is the
 * calendar day that `recorded_at` resolves to.
 */
module Store {
  import opened Common
  import opened Api

  /** A prepared `repositories` record, as built for `executemany`. */
  datatype Record = Record(repoId: string, owner: string, name: string, fullName: string, stars: int, createdAt: int, updatedAt: int)

  /**
   * A `repositories` row. `lastCrawledAt` is None while the column still holds
   * the value its default gave it on insertion.
   */
  datatype Row = Row(id: nat, owner: string, name: string, fullName: string, stars: int, createdAt: int, updatedAt: int, lastCrawledAt: Option<int>)

  /** (repository id, recorded day): the unique key of the history table. */
  type HistoryKey = (nat, int)

  datatype Tables = Tables(repos: map<string, Row>, nextId: nat, history: map<HistoryKey, int>)

  function FullName(owner: string, name: string): string
  {
    owner + "/" + name
  }

  function RowIds(repos: map<string, Row>): set<nat>
  {
    set k | k in repos :: repos[k].id
  }

  /**
   * What the schema and the writer keep true: surrogate ids are unique and below
   * the counter, `full_name` is `owner/name`, and every history row refers to a
   * repository.
   */
  ghost predicate TablesValid(t: Tables)
  {
    && (forall k :: k in t.repos ==> t.repos[k].id < t.nextId)
    && (forall k1, k2 :: k1 in t.repos && k2 in t.repos && k1 != k2 ==> t.repos[k1].id != t.repos[k2].id)
    && (forall k :: k in t.repos ==> t.repos[k].fullName == FullName(t.repos[k].owner, t.repos[k].name))
    && (forall key :: key in t.history ==> key.0 in RowIds(t.repos))
  }

  // ---------------------------------------------------------------------------
  // Record preparation
  // ---------------------------------------------------------------------------

  /** The timestamp parser: a missing, empty or unparseable timestamp becomes the current time. */
  function ParseTime(t: Option<int>, now: int): int
  {
    t.GetOr(now)
  }

  /** One record; None when a key the writer subscripts is missing (a KeyError). */
  function Prepare(n: RepoNode, now: int): Option<Record>
  {
    if n.id.Some? && n.ownerLogin.Some? && n.name.Some? && n.stargazerCount.Some? then
      Some(Record(n.id.value, n.ownerLogin.value, n.name.value, FullName(n.ownerLogin.value, n.name.value),
                  n.stargazerCount.value, ParseTime(n.createdAt, now), ParseTime(n.updatedAt, now)))
    else
      None
  }

  predicate Complete(n: RepoNode)
  {
    n.id.Some? && n.ownerLogin.Some? && n.name.Some? && n.stargazerCount.Some?
  }

  /** The record list; it fails as a whole as soon as one node is incomplete. */
  function PrepareAll(batch: seq<RepoNode>, now: int): (r: Option<seq<Record>>)
    ensures r.Some? <==> forall i :: 0 <= i < |batch| ==> Complete(batch[i])
    ensures r.Some? ==> |r.value| == |batch|
    ensures r.Some? ==> forall i :: 0 <= i < |batch| ==>
              && r.value[i].repoId == batch[i].id.value
              && r.value[i].owner == batch[i].ownerLogin.value
              && r.value[i].name == batch[i].name.value
              && r.value[i].fullName == FullName(r.value[i].owner, r.value[i].name)
              && r.value[i].stars == batch[i].stargazerCount.value
              && r.value[i].createdAt == batch[i].createdAt.GetOr(now)
              && r.value[i].updatedAt == batch[i].updatedAt.GetOr(now)
  {
    if batch == [] then Some([])
    else
      var rest := PrepareAll(batch[1..], now);
      if Complete(batch[0]) && rest.Some? then Some([Prepare(batch[0], now).value] + rest.value)
      else None
  }

  // ---------------------------------------------------------------------------
  // Upsert
  // ---------------------------------------------------------------------------

  /** `INSERT ... ON CONFLICT (repo_id) DO UPDATE SET stars, updated_at, last_crawled_at = NOW()`. */
  function Upsert(t: Tables, r: Record, now: int): Tables
  {
    if r.repoId in t.repos then
      var row := t.repos[r.repoId];
      t.(repos := t.repos[r.repoId := row.(stars := r.stars, updatedAt := r.updatedAt, lastCrawledAt := Some(now))])
    else
      t.(repos := t.repos[r.repoId := Row(t.nextId, r.owner, r.name, r.fullName, r.stars, r.createdAt, r.updatedAt, None)],
         nextId := t.nextId + 1)
  }

  /** The upserts of `executemany`, one statement per record, in order. */
  function UpsertAll(t: Tables, recs: seq<Record>, now: int): Tables
  {
    if recs == [] then t else Upsert(UpsertAll(t, recs[..|recs| - 1], now), recs[|recs| - 1], now)
  }

  function IdSet(recs: seq<Record>): set<string>
  {
    if recs == [] then {} else IdSet(recs[..|recs| - 1]) + {recs[|recs| - 1].repoId}
  }

  /** The last record of `recs` with id `k`. */
  function Latest(recs: seq<Record>, k: string): (r: Record)
    requires k in IdSet(recs)
    ensures r in recs && r.repoId == k
  {
    var last := recs[|recs| - 1];
    if last.repoId == k then last else Latest(recs[..|recs| - 1], k)
  }

  /** The first record of `recs` with id `k`. */
  function Earliest(recs: seq<Record>, k: string): (r: Record)
    requires k in IdSet(recs)
    ensures r in recs && r.repoId == k
  {
    var prefix := recs[..|recs| - 1];
    if k in IdSet(prefix) then Earliest(prefix, k) else recs[|recs| - 1]
  }

  predicate WellFormed(recs: seq<Record>)
  {
    forall i :: 0 <= i < |recs| ==> recs[i].fullName == FullName(recs[i].owner, recs[i].name)
  }

  lemma {:induction false} UpsertAllValid(t: Tables, recs: seq<Record>, now: int)
    requires TablesValid(t) && WellFormed(recs)
    ensures TablesValid(UpsertAll(t, recs, now))
  {
    if recs != [] {
      var prefix, r := recs[..|recs| - 1], recs[|recs| - 1];
      UpsertAllValid(t, prefix, now);
      var u := UpsertAll(t, prefix, now);
      var u' := Upsert(u, r, now);
      assert RowIds(u.repos) <= RowIds(u'.repos) by {
        forall x | x in RowIds(u.repos) ensures x in RowIds(u'.repos) {
          var k :| k in u.repos && u.repos[k].id == x;
          assert u'.repos[k].id == x;
        }
      }
    }
  }

  /** One upsert adds its id as a key and a row only when the id is new. */
  lemma UpsertKeys(t: Tables, r: Record, now: int)
    ensures Upsert(t, r, now).repos.Keys == t.repos.Keys + {r.repoId}
    ensures |Upsert(t, r, now).repos| == if r.repoId in t.repos then |t.repos| else |t.repos| + 1
  {
  }

  /** One upsert hands out the next surrogate id only to a new row and leaves the history alone. */
  lemma UpsertCounter(t: Tables, r: Record, now: int)
    ensures Upsert(t, r, now).nextId == if r.repoId in t.repos then t.nextId else t.nextId + 1
    ensures Upsert(t, r, now).history == t.history
  {
  }

  /** One upsert: an update of three columns for a stored id, a fresh row with the next id otherwise. */
  lemma UpsertStep(t: Tables, r: Record, now: int)
    ensures var u := Upsert(t, r, now);
      && u.repos.Keys == t.repos.Keys + {r.repoId}
      && (r.repoId in t.repos ==>
            u.repos[r.repoId] == t.repos[r.repoId].(stars := r.stars, updatedAt := r.updatedAt, lastCrawledAt := Some(now)))
      && (r.repoId !in t.repos ==>
            u.repos[r.repoId] == Row(t.nextId, r.owner, r.name, r.fullName, r.stars, r.createdAt, r.updatedAt, None))
      && forall k :: k in t.repos && k != r.repoId ==> u.repos[k] == t.repos[k]
  {
  }

  /** The upserts add exactly the batch ids as keys. */
  lemma {:induction false} UpsertAllKeySet(t: Tables, recs: seq<Record>, now: int)
    ensures UpsertAll(t, recs, now).repos.Keys == t.repos.Keys + IdSet(recs)
  {
    if recs != [] {
      var prefix, r := recs[..|recs| - 1], recs[|recs| - 1];
      UpsertAllKeySet(t, prefix, now);
      UpsertKeys(UpsertAll(t, prefix, now), r, now);
    }
  }

  /** The upserts hand out one surrogate id per row they add and leave the history alone. */
  lemma {:induction false} UpsertAllCounter(t: Tables, recs: seq<Record>, now: int)
    ensures UpsertAll(t, recs, now).nextId == t.nextId + (|UpsertAll(t, recs, now).repos| - |t.repos|)
    ensures UpsertAll(t, recs, now).history == t.history
  {
    if recs != [] {
      var prefix, r := recs[..|recs| - 1], recs[|recs| - 1];
      UpsertAllCounter(t, prefix, now);
      UpsertKeys(UpsertAll(t, prefix, now), r, now);
      UpsertCounter(UpsertAll(t, prefix, now), r, now);
    }
  }

  /**
   * The upserts add exactly the batch ids as keys, hand out one surrogate id
   * per new repository and leave the history alone.
   */
  lemma UpsertAllKeys(t: Tables, recs: seq<Record>, now: int)
    ensures var u := UpsertAll(t, recs, now);
      && u.repos.Keys == t.repos.Keys + IdSet(recs)
      && u.nextId == t.nextId + (|u.repos| - |t.repos|)
      && u.history == t.history
  {
    UpsertAllKeySet(t, recs, now);
    UpsertAllCounter(t, recs, now);
  }

  /** The upserts neither read nor write the history. */
  lemma {:induction false} UpsertAllHistoryFree(t: Tables, h: map<HistoryKey, int>, recs: seq<Record>, now: int)
    ensures UpsertAll(t.(history := h), recs, now) == UpsertAll(t, recs, now).(history := h)
  {
    if recs != [] {
      UpsertAllHistoryFree(t, h, recs[..|recs| - 1], now);
    }
  }

  /** On a stored row the upserts change only `stars`, `updated_at` and `last_crawled_at`. */
  lemma {:induction false} UpsertAllKeepsColumns(t: Tables, recs: seq<Record>, now: int)
    ensures var u := UpsertAll(t, recs, now);
      forall k :: k in t.repos ==>
        && k in u.repos
        && u.repos[k].id == t.repos[k].id && u.repos[k].owner == t.repos[k].owner && u.repos[k].name == t.repos[k].name
        && u.repos[k].fullName == t.repos[k].fullName && u.repos[k].createdAt == t.repos[k].createdAt
  {
    if recs != [] {
      var prefix := recs[..|recs| - 1];
      UpsertAllKeepsColumns(t, prefix, now);
      UpsertStep(UpsertAll(t, prefix, now), recs[|recs| - 1], now);
    }
  }

  /**
   * After the upserts a batch id's `stars` and `updated_at` come from its last
   * record, an id that was already stored has `last_crawled_at = NOW()`, and a
   * row the batch does not mention is untouched.
   */
  lemma {:induction false} UpsertAllLatest(t: Tables, recs: seq<Record>, now: int)
    ensures var u := UpsertAll(t, recs, now);
      && (forall k :: k in IdSet(recs) ==>
            k in u.repos && u.repos[k].stars == Latest(recs, k).stars && u.repos[k].updatedAt == Latest(recs, k).updatedAt)
      && (forall k :: k in IdSet(recs) && k in t.repos ==> u.repos[k].lastCrawledAt == Some(now))
      && (forall k :: k !in IdSet(recs) && k in t.repos ==> k in u.repos && u.repos[k] == t.repos[k])
  {
    if recs != [] {
      var prefix := recs[..|recs| - 1];
      var r := recs[|recs| - 1];
      UpsertAllLatest(t, prefix, now);
      UpsertAllKeys(t, prefix, now);
      var u, u' := UpsertAll(t, prefix, now), UpsertAll(t, recs, now);
      UpsertStep(u, r, now);
      forall k | k in IdSet(recs) && k != r.repoId
        ensures u'.repos[k].stars == Latest(recs, k).stars && u'.repos[k].updatedAt == Latest(recs, k).updatedAt
      {
        assert Latest(recs, k) == Latest(prefix, k);
      }
    }
  }

  /** A repository first seen in this batch takes owner, name, `full_name` and `created_at` from its first record. */
  lemma {:induction false} UpsertAllEarliest(t: Tables, recs: seq<Record>, now: int)
    ensures var u := UpsertAll(t, recs, now);
      forall k :: k in IdSet(recs) && k !in t.repos ==>
        && k in u.repos
        && u.repos[k].owner == Earliest(recs, k).owner && u.repos[k].name == Earliest(recs, k).name
        && u.repos[k].fullName == Earliest(recs, k).fullName && u.repos[k].createdAt == Earliest(recs, k).createdAt
  {
    if recs != [] {
      var prefix := recs[..|recs| - 1];
      var r := recs[|recs| - 1];
      UpsertAllEarliest(t, prefix, now);
      UpsertAllKeys(t, prefix, now);
      var u, u' := UpsertAll(t, prefix, now), UpsertAll(t, recs, now);
      UpsertStep(u, r, now);
      forall k | k in IdSet(recs) && k !in t.repos
        ensures && k in u'.repos
                && u'.repos[k].owner == Earliest(recs, k).owner && u'.repos[k].name == Earliest(recs, k).name
                && u'.repos[k].fullName == Earliest(recs, k).fullName && u'.repos[k].createdAt == Earliest(recs, k).createdAt
      {
        if k in IdSet(prefix) {
          assert Earliest(recs, k) == Earliest(prefix, k);
        } else {
          assert k == r.repoId && k !in u.repos;
        }
      }
    }
  }

  // ---------------------------------------------------------------------------
  // Id lookup and history
  // ---------------------------------------------------------------------------

  /** `SELECT repo_id, id FROM repositories WHERE repo_id = ANY(ids)`, as a dictionary. */
  function IdMap(repos: map<string, Row>, ids: set<string>): (m: map<string, nat>)
    ensures m.Keys == ids * repos.Keys
    ensures forall k :: k in m ==> m[k] == repos[k].id
  {
    map k | k in ids && k in repos :: repos[k].id
  }

  /** The star records: one (internal id, stars) per record whose id resolved, in batch order. */
  function StarRecords(idMap: map<string, nat>, recs: seq<Record>): (s: seq<(nat, int)>)
    ensures forall i :: 0 <= i < |s| ==> s[i].0 in idMap.Values
    ensures (forall i :: 0 <= i < |recs| ==> recs[i].repoId in idMap) ==>
              |s| == |recs| && forall i :: 0 <= i < |recs| ==> s[i] == (idMap[recs[i].repoId], recs[i].stars)
  {
    if recs == [] then []
    else
      var prefix, r := StarRecords(idMap, recs[..|recs| - 1]), recs[|recs| - 1];
      if r.repoId in idMap then prefix + [(idMap[r.repoId], r.stars)] else prefix
  }

  /** Looking up every stored name yields every stored id. */
  lemma IdMapCovers(repos: map<string, Row>)
    ensures IdMap(repos, repos.Keys).Values == RowIds(repos)
  {
    var m := IdMap(repos, repos.Keys);
    forall v | v in RowIds(repos) ensures v in m.Values {
      var k :| k in repos && repos[k].id == v;
      assert m[k] == v;
    }
  }

  /** `INSERT INTO repository_star_history ... ON CONFLICT (repository_id, recorded_at) DO NOTHING`, one statement per star record. */
  function InsertHistory(h: map<HistoryKey, int>, stars: seq<(nat, int)>, day: int): map<HistoryKey, int>
  {
    if stars == [] then h
    else
      var h' := InsertHistory(h, stars[..|stars| - 1], day);
      var (id, count) := stars[|stars| - 1];
      if (id, day) in h' then h' else h'[(id, day) := count]
  }

  /** The surrogate ids the star records carry. */
  function SampledIds(stars: seq<(nat, int)>): set<nat>
  {
    if stars == [] then {} else SampledIds(stars[..|stars| - 1]) + {stars[|stars| - 1].0}
  }

  /** The history keys of `ids` on `day`. */
  function DayKeys(ids: set<nat>, day: int): set<HistoryKey>
  {
    set id | id in ids :: (id, day)
  }

  /**
   * The history gains exactly the (id, day) keys of the star records, and a key
   * that was already there keeps its stars: a second sample for the same
   * repository and day is ignored.
   */
  lemma {:induction false} InsertHistoryShape(h: map<HistoryKey, int>, stars: seq<(nat, int)>, day: int)
    ensures var h' := InsertHistory(h, stars, day);
      && h'.Keys == h.Keys + DayKeys(SampledIds(stars), day)
      && forall key :: key in h ==> h'[key] == h[key]
  {
    if stars != [] {
      var prefix := stars[..|stars| - 1];
      InsertHistoryShape(h, prefix, day);
      assert DayKeys(SampledIds(stars), day) == DayKeys(SampledIds(prefix), day) + {(stars[|stars| - 1].0, day)};
    }
  }

  /** The ids the star records carry are the looked-up ids of the batch. */
  lemma {:induction false} StarRecordsIds(m: map<string, nat>, recs: seq<Record>)
    ensures SampledIds(StarRecords(m, recs)) == set k | k in IdSet(recs) && k in m :: m[k]
  {
    if recs != [] {
      var prefix, r := recs[..|recs| - 1], recs[|recs| - 1];
      StarRecordsIds(m, prefix);
      var s := StarRecords(m, prefix);
      if r.repoId in m {
        var x := (m[r.repoId], r.stars);
        assert (s + [x])[..|s + [x]| - 1] == s;
      }
    }
  }

  /** Samples whose (id, day) is already recorded add nothing. */
  lemma {:induction false} InsertHistoryRecorded(h: map<HistoryKey, int>, stars: seq<(nat, int)>, day: int)
    requires forall i :: 0 <= i < |stars| ==> (stars[i].0, day) in h
    ensures InsertHistory(h, stars, day) == h
  {
    if stars != [] {
      InsertHistoryRecorded(h, stars[..|stars| - 1], day);
    }
  }

  // ---------------------------------------------------------------------------
  // The transaction
  // ---------------------------------------------------------------------------

  /** The star records of a flush: those of the records whose id the lookup after the upserts resolves. */
  function StarSamples(t: Tables, recs: seq<Record>, now: int): seq<(nat, int)>
  {
    StarRecords(IdMap(UpsertAll(t, recs, now).repos, IdSet(recs)), recs)
  }

  /** Statements the transaction runs: the upserts, the lookup, the history inserts. */
  function StatementCount(t: Tables, recs: seq<Record>, now: int): nat
  {
    |recs| + 1 + |StarSamples(t, recs, now)|
  }

  /** The tables after the flush of prepared records `recs`, when no statement fails. */
  function Flush(t: Tables, recs: seq<Record>, day: int, now: int): Tables
  {
    var u := UpsertAll(t, recs, now);
    u.(history := InsertHistory(u.history, StarSamples(t, recs, now), day))
  }

  /**
   * One flush. `failAt` is the storage oracle: Some(i) when the store raises on
   * statement number i (from 0) of the transaction. None is the result of a
   * failed transaction, which commits nothing.
   */
  function Write(t: Tables, batch: seq<RepoNode>, day: int, now: int, failAt: Option<nat>): (w: Option<Tables>)
    ensures batch == [] ==> w == Some(t)
    ensures batch != [] && (exists i :: 0 <= i < |batch| && !Complete(batch[i])) ==> w.None?
  {
    if batch == [] then Some(t)
    else
      match PrepareAll(batch, now)
      case None => None
      case Some(recs) =>
        if failAt.Some? && failAt.value < StatementCount(t, recs, now) then None
        else Some(Flush(t, recs, day, now))
  }

  lemma {:induction false} IdSetMembers(recs: seq<Record>)
    ensures forall k :: k in IdSet(recs) <==> exists i :: 0 <= i < |recs| && recs[i].repoId == k
  {
    if recs != [] {
      var prefix := recs[..|recs| - 1];
      IdSetMembers(prefix);
      forall k | k in IdSet(recs) ensures exists i :: 0 <= i < |recs| && recs[i].repoId == k {
        if k in IdSet(prefix) {
          var i :| 0 <= i < |prefix| && prefix[i].repoId == k;
          assert recs[i] == prefix[i];
        } else {
          assert recs[|recs| - 1].repoId == k;
        }
      }
      forall k | exists i :: 0 <= i < |recs| && recs[i].repoId == k ensures k in IdSet(recs) {
        var i :| 0 <= i < |recs| && recs[i].repoId == k;
        if i < |recs| - 1 {
          assert prefix[i] == recs[i];
        }
      }
    }
  }

  /** Every record's id resolves after the upserts, so history gets one sample per record. */
  lemma AllIdsResolve(t: Tables, recs: seq<Record>, now: int)
    ensures var u := UpsertAll(t, recs, now);
      forall i :: 0 <= i < |recs| ==> recs[i].repoId in IdMap(u.repos, IdSet(recs))
  {
    UpsertAllKeys(t, recs, now);
    IdSetMembers(recs);
  }

  /** The external ids of a batch's nodes. */
  function BatchIds(batch: seq<RepoNode>): set<string>
  {
    set n | n in batch && n.id.Some? :: n.id.value
  }

  /** How a flush of a non-empty, complete batch ends, in terms of the statement that fails. */
  lemma WriteOutcome(t: Tables, batch: seq<RepoNode>, day: int, now: int, failAt: Option<nat>)
    requires batch != [] && PrepareAll(batch, now).Some?
    ensures var recs := PrepareAll(batch, now).value;
      Write(t, batch, day, now, failAt)
        == if failAt.Some? && failAt.value < StatementCount(t, recs, now) then None else Some(Flush(t, recs, day, now))
  {
  }

  /** A successful flush keeps the tables' invariants. */
  lemma WritePreservesValid(t: Tables, batch: seq<RepoNode>, day: int, now: int, failAt: Option<nat>)
    requires TablesValid(t)
    ensures var w := Write(t, batch, day, now, failAt); w.Some? ==> TablesValid(w.value)
  {
    if batch != [] && PrepareAll(batch, now).Some? {
      var recs := PrepareAll(batch, now).value;
      UpsertAllValid(t, recs, now);
      var u := UpsertAll(t, recs, now);
      var m := IdMap(u.repos, IdSet(recs));
      var stars := StarRecords(m, recs);
      InsertHistoryShape(u.history, stars, day);
      StarRecordsIds(m, recs);
      forall key | key in InsertHistory(u.history, stars, day) ensures key.0 in RowIds(u.repos) {
        if key !in u.history {
          assert key.0 in SampledIds(stars);
          var k :| k in IdSet(recs) && k in m && m[k] == key.0;
          assert u.repos[k].id == key.0;
        }
      }
    }
  }

  lemma FlushEffect(t: Tables, recs: seq<Record>, day: int, now: int)
    requires WellFormed(recs)
    ensures var w := Flush(t, recs, day, now);
      && w.repos.Keys == t.repos.Keys + IdSet(recs)
      && (forall k :: k in t.repos ==>
            w.repos[k].id == t.repos[k].id && w.repos[k].owner == t.repos[k].owner && w.repos[k].name == t.repos[k].name
            && w.repos[k].fullName == t.repos[k].fullName && w.repos[k].createdAt == t.repos[k].createdAt)
      && (forall k :: k in w.repos && k !in t.repos ==> w.repos[k].fullName == FullName(w.repos[k].owner, w.repos[k].name))
      && w.history.Keys == t.history.Keys + DayKeys(IdMap(w.repos, IdSet(recs)).Values, day)
      && (forall key :: key in t.history ==> w.history[key] == t.history[key])
  {
    var u := UpsertAll(t, recs, now);
    var m := IdMap(u.repos, IdSet(recs));
    var stars := StarRecords(m, recs);
    UpsertAllKeys(t, recs, now);
    UpsertAllKeepsColumns(t, recs, now);
    UpsertAllEarliest(t, recs, now);
    InsertHistoryShape(u.history, stars, day);
    StarRecordsIds(m, recs);
    assert SampledIds(stars) == m.Values;
    forall k | k in u.repos && k !in t.repos ensures u.repos[k].fullName == FullName(u.repos[k].owner, u.repos[k].name) {
      var e := Earliest(recs, k);
      var i :| 0 <= i < |recs| && recs[i] == e;
    }
  }

  /** The ids of records prepared from a batch are the batch's ids. */
  lemma PreparedIds(batch: seq<RepoNode>, now: int)
    requires PrepareAll(batch, now).Some?
    ensures IdSet(PrepareAll(batch, now).value) == BatchIds(batch)
    ensures WellFormed(PrepareAll(batch, now).value)
  {
    var recs := PrepareAll(batch, now).value;
    IdSetMembers(recs);
    forall k | k in IdSet(recs) ensures k in BatchIds(batch) {
      var i :| 0 <= i < |recs| && recs[i].repoId == k;
      assert batch[i] in batch;
    }
    forall k | k in BatchIds(batch) ensures k in IdSet(recs) {
      var n :| n in batch && n.id.Some? && n.id.value == k;
      var i :| 0 <= i < |batch| && batch[i] == n;
      assert recs[i].repoId == k;
    }
  }

  /**
   * A successful flush of a non-empty batch: every node's repository is stored,
   * a repository first seen gets `full_name = owner/name`, a stored one keeps
   * every column but `stars`, `updated_at` and `last_crawled_at`, and the
   * history gains exactly one (id, day) per batch repository without
   * overwriting any sample already there.
   */
  lemma WriteEffect(t: Tables, batch: seq<RepoNode>, day: int, now: int, failAt: Option<nat>)
    requires batch != [] && Write(t, batch, day, now, failAt).Some?
    ensures var w := Write(t, batch, day, now, failAt).value;
      && w.repos.Keys == t.repos.Keys + BatchIds(batch)
      && (forall k :: k in t.repos ==>
            w.repos[k].id == t.repos[k].id && w.repos[k].owner == t.repos[k].owner && w.repos[k].name == t.repos[k].name
            && w.repos[k].fullName == t.repos[k].fullName && w.repos[k].createdAt == t.repos[k].createdAt)
      && (forall k :: k in w.repos && k !in t.repos ==> w.repos[k].fullName == FullName(w.repos[k].owner, w.repos[k].name))
      && w.history.Keys == t.history.Keys + DayKeys(IdMap(w.repos, BatchIds(batch)).Values, day)
      && (forall key :: key in t.history ==> w.history[key] == t.history[key])
  {
    var recs := PrepareAll(batch, now).value;
    assert Write(t, batch, day, now, failAt).value == Flush(t, recs, day, now);
    PreparedIds(batch, now);
    FlushEffect(t, recs, day, now);
  }

  /** Two record lists prepared from the same nodes: same ids, stars and `updated_at`. */
  predicate SameSubmission(recs1: seq<Record>, recs2: seq<Record>)
  {
    && |recs1| == |recs2|
    && forall i :: 0 <= i < |recs1| ==>
         recs1[i].repoId == recs2[i].repoId && recs1[i].stars == recs2[i].stars && recs1[i].updatedAt == recs2[i].updatedAt
  }

  lemma {:induction false} SameSubmissionIds(recs1: seq<Record>, recs2: seq<Record>)
    requires SameSubmission(recs1, recs2)
    ensures IdSet(recs1) == IdSet(recs2)
    ensures forall k :: k in IdSet(recs1) ==>
              Latest(recs1, k).stars == Latest(recs2, k).stars && Latest(recs1, k).updatedAt == Latest(recs2, k).updatedAt
  {
    if recs1 != [] {
      var n := |recs1| - 1;
      SameSubmissionIds(recs1[..n], recs2[..n]);
    }
  }

  /** Upserting the same submission again changes no row but for `last_crawled_at`. */
  lemma UpsertAgain(t: Tables, recs1: seq<Record>, recs2: seq<Record>, now1: int, now2: int)
    requires SameSubmission(recs1, recs2)
    ensures var u1 := UpsertAll(t, recs1, now1);
      var u2 := UpsertAll(u1, recs2, now2);
      && u2.nextId == u1.nextId
      && u2.history == u1.history
      && u2.repos.Keys == u1.repos.Keys
      && forall k :: k in u1.repos ==> u2.repos[k].(lastCrawledAt := None) == u1.repos[k].(lastCrawledAt := None)
  {
    SameSubmissionIds(recs1, recs2);
    var u1 := UpsertAll(t, recs1, now1);
    var u2 := UpsertAll(u1, recs2, now2);
    UpsertAllKeys(t, recs1, now1);
    UpsertAllLatest(t, recs1, now1);
    UpsertAllKeys(u1, recs2, now2);
    UpsertAllKeepsColumns(u1, recs2, now2);
    UpsertAllLatest(u1, recs2, now2);
    assert u2.repos.Keys == u1.repos.Keys;
    assert |u2.repos| == |u2.repos.Keys| == |u1.repos.Keys| == |u1.repos|;
    forall k | k in u1.repos ensures u2.repos[k].(lastCrawledAt := None) == u1.repos[k].(lastCrawledAt := None) {
      if k in IdSet(recs2) {
        assert u2.repos[k].stars == Latest(recs1, k).stars == u1.repos[k].stars;
        assert u2.repos[k].updatedAt == Latest(recs1, k).updatedAt == u1.repos[k].updatedAt;
      }
    }
  }

  /** Upserting ids that are all stored leaves their looked-up surrogate ids as they were. */
  lemma ReupsertIdMap(t: Tables, recs: seq<Record>, now: int)
    requires IdSet(recs) <= t.repos.Keys
    ensures IdMap(UpsertAll(t, recs, now).repos, IdSet(recs)) == IdMap(t.repos, IdSet(recs))
  {
    UpsertAllKeys(t, recs, now);
    UpsertAllKeepsColumns(t, recs, now);
  }

  /** Flushing the same submission again adds no history sample and changes none. */
  lemma FlushAgainHistory(t: Tables, recs1: seq<Record>, recs2: seq<Record>, day: int, now1: int, now2: int)
    requires SameSubmission(recs1, recs2)
    ensures Flush(Flush(t, recs1, day, now1), recs2, day, now2).history == Flush(t, recs1, day, now1).history
  {
    SameSubmissionIds(recs1, recs2);
    var t2 := Flush(t, recs1, day, now1);
    var u1 := UpsertAll(t, recs1, now1);
    var m := IdMap(u1.repos, IdSet(recs1));
    var stars1 := StarRecords(m, recs1);
    UpsertAllKeys(t, recs1, now1);
    InsertHistoryShape(u1.history, stars1, day);
    StarRecordsIds(m, recs1);
    assert t2.history.Keys == u1.history.Keys + DayKeys(SampledIds(stars1), day);

    var u2 := UpsertAll(t2, recs2, now2);
    UpsertAllKeys(t2, recs2, now2);
    ReupsertIdMap(t2, recs2, now2);
    var stars2 := StarRecords(m, recs2);
    StarRecordsIds(m, recs2);
    forall i | 0 <= i < |stars2| ensures (stars2[i].0, day) in u2.history {
      assert stars2[i].0 in SampledIds(stars2);
      assert (stars2[i].0, day) in DayKeys(SampledIds(stars1), day);
    }
    InsertHistoryRecorded(u2.history, stars2, day);
  }

  /**
   * Flushing the same batch again, on the same day, once every node carries its
   * `updatedAt`: no row is added, no history sample is added or changed, and
   * every row is as before apart from `last_crawled_at`.
   */
  lemma WriteIdempotent(t: Tables, batch: seq<RepoNode>, day: int, now1: int, now2: int)
    requires Write(t, batch, day, now1, None).Some?
    requires forall i :: 0 <= i < |batch| ==> batch[i].updatedAt.Some?
    ensures var t2 := Write(t, batch, day, now1, None).value;
      var t3 := Write(t2, batch, day, now2, None);
      && t3.Some?
      && t3.value.nextId == t2.nextId
      && t3.value.history == t2.history
      && t3.value.repos.Keys == t2.repos.Keys
      && forall k :: k in t2.repos ==> t3.value.repos[k].(lastCrawledAt := None) == t2.repos[k].(lastCrawledAt := None)
  {
    if batch != [] {
      var recs1, recs2 := PrepareAll(batch, now1).value, PrepareAll(batch, now2).value;
      assert SameSubmission(recs1, recs2);
      var t2 := Flush(t, recs1, day, now1);
      assert Write(t, batch, day, now1, None).value == t2;
      assert Write(t2, batch, day, now2, None) == Some(Flush(t2, recs2, day, now2));
      UpsertAgain(t, recs1, recs2, now1, now2);
      var u1 := UpsertAll(t, recs1, now1);
      assert UpsertAll(t2, recs2, now2) == UpsertAll(u1, recs2, now2).(history := UpsertAll(t2, recs2, now2).history) by {
        UpsertAllHistoryFree(u1, t2.history, recs2, now2);
      }
      FlushAgainHistory(t, recs1, recs2, day, now1, now2);
    }
  }

  // ---------------------------------------------------------------------------
  // The writer
  // ---------------------------------------------------------------------------

  class Database {
    var repos: map<string, Row>
    var nextId: nat
    var history: map<HistoryKey, int>

    function Snapshot(): Tables
      reads this
    {
      Tables(repos, nextId, history)
    }

    ghost predicate Valid()
      reads this
    {
      TablesValid(Snapshot())
    }

    constructor ()
      ensures Valid() && Snapshot() == Tables(map[], 1, map[])
    {
      repos, nextId, history := map[], 1, map[];
    }

    /**
     * `batch_insert_repos_bulk`: the whole batch or nothing. The statements run
     * against working copies that are committed only when every one succeeded.
     */
    method BulkInsert(batch: seq<RepoNode>, day: int, now: int, failAt: Option<nat>) returns (ok: bool)
      requires Valid()
      modifies this
      ensures Valid()
      ensures var w := Write(old(Snapshot()), batch, day, now, failAt);
        && ok == w.Some?
        && Snapshot() == if ok then w.value else old(Snapshot())
    {
      if batch == [] {
        return true;
      }
      var prepared := PrepareAll(batch, now);
      if prepared.None? {
        return false;
      }
      var recs := prepared.value;
      WriteOutcome(Snapshot(), batch, day, now, failAt);
      WritePreservesValid(Snapshot(), batch, day, now, failAt);
      var t;
      t, ok := RunTransaction(Snapshot(), recs, day, now, failAt);
      if ok {
        repos, nextId, history := t.repos, t.nextId, t.history;
      }
    }
  }

  /**
   * The statements of one flush, in order, on a working copy of the tables: the
   * upserts, the id lookup, the history inserts. `ok` is false when statement
   * number `failAt` raised; the copy is then discarded.
   */
  method RunTransaction(t0: Tables, recs: seq<Record>, day: int, now: int, failAt: Option<nat>) returns (t: Tables, ok: bool)
    ensures ok <==> !(failAt.Some? && failAt.value < StatementCount(t0, recs, now))
    ensures ok ==> t == Flush(t0, recs, day, now)
  {
    var work;
    work, ok := RunUpserts(t0, recs, now, failAt);
    if !ok {
      return work, false;
    }
    // the id lookup is statement number |recs|
    if failAt == Some(|recs|) {
      return work, false;
    }
    var idMap := map k | k in IdSet(recs) && k in work.repos :: work.repos[k].id;
    assert idMap == IdMap(work.repos, IdSet(recs));
    var stars := StarRecords(idMap, recs);
    var h;
    h, ok := RunHistoryInserts(work.history, stars, day, failAt, |recs| + 1);
    t := work.(history := h);
  }

  /**
   * The upsert statements, numbered from 0, on a working copy of the tables;
   * `ok` is false when one of them raised.
   */
  method RunUpserts(t: Tables, recs: seq<Record>, now: int, failAt: Option<nat>) returns (work: Tables, ok: bool)
    ensures ok <==> !(failAt.Some? && failAt.value < |recs|)
    ensures ok ==> work == UpsertAll(t, recs, now)
  {
    work := t;
    for i := 0 to |recs|
      invariant work == UpsertAll(t, recs[..i], now)
      invariant failAt.Some? ==> failAt.value >= i
    {
      if failAt == Some(i) {
        return work, false;
      }
      assert recs[..i + 1][..i] == recs[..i];
      work := Upsert(work, recs[i], now);
    }
    assert recs[..|recs|] == recs;
    ok := true;
  }

  /**
   * The history inserts, numbered from `first`, on a working copy of the
   * history; `ok` is false when one of them raised.
   */
  method RunHistoryInserts(h0: map<HistoryKey, int>, stars: seq<(nat, int)>, day: int, failAt: Option<nat>, first: nat)
    returns (h: map<HistoryKey, int>, ok: bool)
    ensures ok <==> !(failAt.Some? && first <= failAt.value < first + |stars|)
    ensures ok ==> h == InsertHistory(h0, stars, day)
  {
    h := h0;
    for j := 0 to |stars|
      invariant h == InsertHistory(h0, stars[..j], day)
      invariant !(failAt.Some? && first <= failAt.value < first + j)
    {
      if failAt == Some(first + j) {
        return h, false;
      }
      assert stars[..j + 1][..j] == stars[..j];
      var key := (stars[j].0, day);
      if key !in h {
        h := h[key := stars[j].1];
      }
    }
    assert stars[..|stars|] == stars;
    ok := true;
  }
}

module StoreScenario {
  import opened Common
  import opened Api
  import opened Store

  function Node(id: string, stars: int): RepoNode
  {
    RepoNode(Some(id), Some("octo"), Some("r" + id), Some(stars), Some(0), Some(1))
  }

  /** Two pages of three repositories each, sharing "A", as one flush batch. */
  function OverlappingPages(): seq<RepoNode>
  {
    [Node("A", 1), Node("B", 2), Node("C", 3), Node("A", 4), Node("D", 5), Node("E", 6)]
  }

  lemma FiveNames()
    ensures |{"A", "B", "C", "D", "E"}| == 5
  {
    var s: set<string> := {"A"};
    assert "B"[0] != "A"[0] && "C"[0] != "A"[0] && "C"[0] != "B"[0];
    assert "D"[0] != "A"[0] && "D"[0] != "B"[0] && "D"[0] != "C"[0];
    assert "E"[0] != "A"[0] && "E"[0] != "B"[0] && "E"[0] != "C"[0] && "E"[0] != "D"[0];
    assert {"A", "B"} == s + {"B"} && |{"A", "B"}| == 2;
    assert {"A", "B", "C"} == {"A", "B"} + {"C"} && |{"A", "B", "C"}| == 3;
    assert {"A", "B", "C", "D"} == {"A", "B", "C"} + {"D"} && |{"A", "B", "C", "D"}| == 4;
    assert {"A", "B", "C", "D", "E"} == {"A", "B", "C", "D"} + {"E"};
  }

  lemma OverlappingPagesComplete(now: int)
    ensures PrepareAll(OverlappingPages(), now).Some?
  {
    var batch := OverlappingPages();
    assert forall i :: 0 <= i < |batch| ==> Complete(batch[i]);
  }

  lemma OverlappingPagesIds(now: int)
    requires PrepareAll(OverlappingPages(), now).Some?
    ensures IdSet(PrepareAll(OverlappingPages(), now).value) == {"A", "B", "C", "D", "E"}
  {
    PreparedIds(OverlappingPages(), now);
    OverlappingPagesBatchIds();
  }

  lemma OverlappingPagesBatchIds()
    ensures BatchIds(OverlappingPages()) == {"A", "B", "C", "D", "E"}
  {
    var batch := OverlappingPages();
    forall n | n in batch ensures n.id.Some? && n.id.value in {"A", "B", "C", "D", "E"} {
      var i :| 0 <= i < |batch| && batch[i] == n;
    }
    assert batch[0] in batch && batch[1] in batch && batch[2] in batch && batch[4] in batch && batch[5] in batch;
  }

  lemma OverlappingPagesLatest(now: int)
    requires PrepareAll(OverlappingPages(), now).Some?
    ensures var recs := PrepareAll(OverlappingPages(), now).value;
      "A" in IdSet(recs) && Latest(recs, "A").stars == 4
  {
    var recs := PrepareAll(OverlappingPages(), now).value;
    OverlappingPagesIds(now);
    assert recs[5].repoId == "E" && recs[4].repoId == "D" && recs[3].repoId == "A" && recs[3].stars == 4;
    assert recs[..5][..4] == recs[..4];
    assert Latest(recs, "A") == Latest(recs[..5], "A") == Latest(recs[..4], "A") == recs[3];
  }

  /** The batch flushed into empty tables with no storage fault. */
  lemma OverlappingPagesWritten(day: int, now: int)
    ensures PrepareAll(OverlappingPages(), now).Some?
    ensures var recs := PrepareAll(OverlappingPages(), now).value;
      Write(Tables(map[], 1, map[]), OverlappingPages(), day, now, None) == Some(Flush(Tables(map[], 1, map[]), recs, day, now))
  {
    OverlappingPagesComplete(now);
  }

  /** Five repositories are stored, with ids 1 to 5, so the next id is 6. */
  lemma OverlappingPagesStored(day: int, now: int)
    ensures var w := Write(Tables(map[], 1, map[]), OverlappingPages(), day, now, None);
      && w.Some?
      && w.value.repos.Keys == {"A", "B", "C", "D", "E"}
      && w.value.nextId == 6
  {
    var t := Tables(map[], 1, map[]);
    OverlappingPagesWritten(day, now);
    var recs := PrepareAll(OverlappingPages(), now).value;
    var u := UpsertAll(t, recs, now);
    assert u.repos.Keys == {"A", "B", "C", "D", "E"} && u.nextId == 1 + |u.repos| by {
      OverlappingPagesIds(now);
      UpsertAllKeys(t, recs, now);
    }
    assert |u.repos| == 5 by {
      FiveNames();
      assert |u.repos| == |u.repos.Keys|;
    }
    assert Flush(t, recs, day, now).repos == u.repos && Flush(t, recs, day, now).nextId == u.nextId;
  }

  /** The repository on both pages carries the star count of its later occurrence. */
  lemma OverlappingPagesLaterStars(day: int, now: int)
    ensures var w := Write(Tables(map[], 1, map[]), OverlappingPages(), day, now, None);
      w.Some? && "A" in w.value.repos && w.value.repos["A"].stars == 4
  {
    var t := Tables(map[], 1, map[]);
    OverlappingPagesWritten(day, now);
    var recs := PrepareAll(OverlappingPages(), now).value;
    assert Flush(t, recs, day, now).repos == UpsertAll(t, recs, now).repos;
    OverlappingPagesLatest(now);
    UpsertAllLatest(t, recs, now);
  }

  /** Every stored repository has exactly one sample, for the day of the flush. */
  lemma OverlappingPagesSampled(day: int, now: int)
    ensures var w := Write(Tables(map[], 1, map[]), OverlappingPages(), day, now, None);
      w.Some? && w.value.history.Keys == DayKeys(RowIds(w.value.repos), day)
  {
    OverlappingPagesWritten(day, now);
    var recs := PrepareAll(OverlappingPages(), now).value;
    PreparedIds(OverlappingPages(), now);
    FreshFlushSampled(Tables(map[], 1, map[]), recs, day, now);
  }

  /** Flushed into empty tables, each stored repository has one sample, for the flush's day. */
  lemma FreshFlushSampled(t: Tables, recs: seq<Record>, day: int, now: int)
    requires t.repos == map[] && t.history == map[] && WellFormed(recs)
    ensures var w := Flush(t, recs, day, now); w.history.Keys == DayKeys(RowIds(w.repos), day)
  {
    var w := Flush(t, recs, day, now);
    FlushEffect(t, recs, day, now);
    assert w.repos.Keys == IdSet(recs);
    IdMapCovers(w.repos);
  }
}

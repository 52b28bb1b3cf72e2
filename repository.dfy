/**
 * The record store: the table of analysis rows keyed by their generated id, the
 * identity counter, the inherited JpaRepository operations the service uses, and the
 * derived finder, count and delete methods.
 */
module Repository {
  import opened Wrappers
  import opened Fields
  import opened Entity
  import opened Query
  import opened Paging

  /** The table's contents: rows by id, and the next value the identity column hands out. */
  datatype Table = Table(rows: map<int, Row>, nextId: int) {
    /** Each row sits under its own id, and every id handed out so far is below nextId. */
    ghost predicate Valid() {
      && nextId >= 1
      && forall k :: k in rows ==> rows[k].id == k && 1 <= k < nextId
    }
  }

  /** The row is in the table, under its own id, with exactly these contents. */
  ghost predicate Stored(t: Table, r: Row) {
    r.id in t.rows && t.rows[r.id] == r
  }

  /** The number of rows in the table that the criterion selects. */
  ghost function CountWhere(t: Table, c: Criterion): nat {
    |set k | k in t.rows && Matches(t.rows[k], c)|
  }

  // ---------------------------------------------------------------- scanning

  /** The rows whose ids lie in [lo, hi), in ascending id order. */
  function RowsIn(rows: map<int, Row>, lo: int, hi: int): seq<Row>
    decreases hi - lo
  {
    if hi <= lo then []
    else (if lo in rows then [rows[lo]] else []) + RowsIn(rows, lo + 1, hi)
  }

  lemma {:induction false} RowsInExact(rows: map<int, Row>, lo: int, hi: int)
    requires forall k :: k in rows ==> rows[k].id == k
    ensures forall r :: r in RowsIn(rows, lo, hi) <==> r.id in rows && rows[r.id] == r && lo <= r.id < hi
    ensures IdsIncreasing(RowsIn(rows, lo, hi))
    decreases hi - lo
  {
    if lo < hi {
      RowsInExact(rows, lo + 1, hi);
      var head: seq<Row> := if lo in rows then [rows[lo]] else [];
      var rest: seq<Row> := RowsIn(rows, lo + 1, hi);
      assert RowsIn(rows, lo, hi) == head + rest;
      forall i, j | 0 <= i < j < |head + rest|
        ensures (head + rest)[i].id < (head + rest)[j].id
      {
        if i < |head| {
          assert (head + rest)[j] in rest;
        }
      }
    }
  }

  /** A full scan of the table, in primary-key order. */
  function Listing(t: Table): seq<Row> {
    RowsIn(t.rows, 1, t.nextId)
  }

  /** The scan holds every stored row once and nothing else. */
  lemma ListingExact(t: Table)
    requires t.Valid()
    ensures forall r :: r in Listing(t) <==> Stored(t, r)
    ensures IdsIncreasing(Listing(t))
  {
    RowsInExact(t.rows, 1, t.nextId);
  }

  /** The ids occurring in a sequence of rows. */
  function IdsOf(s: seq<Row>): (ids: set<int>)
    ensures forall k :: k in ids <==> exists i :: 0 <= i < |s| && s[i].id == k
  {
    if s == [] then {}
    else
      {s[0].id} + IdsOf(s[1..])
  }

  /** A sequence without repeated ids has as many elements as distinct ids. */
  lemma {:induction false} DistinctIdsCount(s: seq<Row>)
    requires IdsIncreasing(s)
    ensures |IdsOf(s)| == |s|
  {
    if s != [] {
      assert IdsIncreasing(s[1..]) by {
        forall i, j | 0 <= i < j < |s[1..]| ensures s[1..][i].id < s[1..][j].id {
          assert s[1..][i] == s[i + 1] && s[1..][j] == s[j + 1];
        }
      }
      DistinctIdsCount(s[1..]);
      assert s[0].id !in IdsOf(s[1..]);
    }
  }

  /** The number of rows a scan selects is the number of stored rows matching. */
  lemma FilterCountsMatches(t: Table, c: Criterion)
    requires t.Valid()
    ensures |Filter(Listing(t), c)| == CountWhere(t, c)
  {
    ListingExact(t);
    var f := Filter(Listing(t), c);
    DistinctIdsCount(f);
    var keys := set k | k in t.rows && Matches(t.rows[k], c);
    forall k | k in keys ensures k in IdsOf(f) {
      var x := t.rows[k];
      assert x in f;
      var i :| 0 <= i < |f| && f[i] == x;
    }
    forall k | k in IdsOf(f) ensures k in keys {
      var i :| 0 <= i < |f| && f[i].id == k;
      assert f[i] in f;
    }
    assert IdsOf(f) == keys;
  }

  /**
   * The full, ordered result of a query: exactly the stored rows the criterion selects,
   * each once, in the requested order.
   */
  function Matching(t: Table, c: Criterion, sort: Sort): (r: seq<Row>)
    requires t.Valid()
    ensures forall x :: x in r <==> Stored(t, x) && Matches(x, c)
    ensures |r| == CountWhere(t, c)
    ensures sort.SortBy? ==> SortedBy(r, sort.property, sort.direction)
  {
    ListingExact(t);
    FilterCountsMatches(t, c);
    Ordered(Filter(Listing(t), c), sort)
  }

  /** One page of a query over the table. */
  function Select(t: Table, c: Criterion, pageable: Pageable): (p: Page<Row>)
    requires t.Valid()
    ensures p.totalElements == CountWhere(t, c)
    ensures p.number == pageable.page && p.size == pageable.size
    ensures forall x :: x in p.content ==> Stored(t, x) && Matches(x, c)
    ensures pageable.sort.SortBy? ==> SortedBy(p.content, pageable.sort.property, pageable.sort.direction)
    ensures p.content == Matching(t, c, pageable.sort)[PageStart(p.totalElements, p.number, pageable.size)
                                                      ..PageEnd(p.totalElements, p.number, pageable.size)]
  {
    var all := Matching(t, c, pageable.sort);
    var p := PageOf(all, pageable);
    assert forall x :: x in p.content ==> x in all;
    p
  }

  // ---------------------------------------------------------------- finders

  /** Every row selects under no criterion, so the total of findAll is the row count. */
  lemma CountEverything(t: Table)
    ensures CountWhere(t, Everything) == |t.rows|
  {
    assert (set k | k in t.rows && Matches(t.rows[k], Everything)) == t.rows.Keys;
  }

  /** findAll(pageable): one page of the whole table. */
  function FindAll(t: Table, pageable: Pageable): (p: Page<Row>)
    requires t.Valid()
    ensures p.totalElements == |t.rows|
    ensures forall x :: x in p.content ==> Stored(t, x)
    ensures |p.content| == PageEnd(|t.rows|, pageable.page, pageable.size) - PageStart(|t.rows|, pageable.page, pageable.size)
    ensures pageable.sort.SortBy? ==> SortedBy(p.content, pageable.sort.property, pageable.sort.direction)
    ensures p == Select(t, Everything, pageable)
  {
    CountEverything(t);
    Select(t, Everything, pageable)
  }

  /** findByClassification: the rows whose classification equals `classification`. */
  function FindByClassification(t: Table, classification: string, pageable: Pageable): (p: Page<Row>)
    requires t.Valid()
    ensures p.totalElements == CountWhere(t, ClassificationIs(classification))
    ensures forall x :: x in p.content ==> Stored(t, x) && x.fields.classification == Some(classification)
    ensures pageable.sort.SortBy? ==> SortedBy(p.content, pageable.sort.property, pageable.sort.direction)
    ensures p == Select(t, ClassificationIs(classification), pageable)
  {
    Select(t, ClassificationIs(classification), pageable)
  }

  /** findByConfidenceLevel: the rows whose confidence level equals `confidenceLevel`. */
  function FindByConfidenceLevel(t: Table, confidenceLevel: string, pageable: Pageable): (p: Page<Row>)
    requires t.Valid()
    ensures p.totalElements == CountWhere(t, ConfidenceLevelIs(confidenceLevel))
    ensures forall x :: x in p.content ==> Stored(t, x) && x.fields.confidenceLevel == Some(confidenceLevel)
    ensures pageable.sort.SortBy? ==> SortedBy(p.content, pageable.sort.property, pageable.sort.direction)
    ensures p == Select(t, ConfidenceLevelIs(confidenceLevel), pageable)
  {
    Select(t, ConfidenceLevelIs(confidenceLevel), pageable)
  }

  /** findByClassificationAndConfidenceLevel: both labels must be equal. */
  function FindByClassificationAndConfidenceLevel(t: Table, classification: string, confidenceLevel: string,
                                                  pageable: Pageable): (p: Page<Row>)
    requires t.Valid()
    ensures p.totalElements == CountWhere(t, ClassificationAndConfidenceLevelAre(classification, confidenceLevel))
    ensures forall x :: x in p.content ==>
              Stored(t, x) && x.fields.classification == Some(classification) &&
              x.fields.confidenceLevel == Some(confidenceLevel)
    ensures pageable.sort.SortBy? ==> SortedBy(p.content, pageable.sort.property, pageable.sort.direction)
    ensures p == Select(t, ClassificationAndConfidenceLevelAre(classification, confidenceLevel), pageable)
  {
    Select(t, ClassificationAndConfidenceLevelAre(classification, confidenceLevel), pageable)
  }

  /** findByProbabilityGreaterThanEqual: probability at or above the threshold. */
  function FindByProbabilityGreaterThanEqual(t: Table, probability: real, pageable: Pageable): (p: Page<Row>)
    requires t.Valid()
    ensures p.totalElements == CountWhere(t, ProbabilityAtLeast(probability))
    ensures forall x :: x in p.content ==>
              Stored(t, x) && x.fields.probability.Some? && x.fields.probability.value >= probability
    ensures pageable.sort.SortBy? ==> SortedBy(p.content, pageable.sort.property, pageable.sort.direction)
    ensures p == Select(t, ProbabilityAtLeast(probability), pageable)
  {
    Select(t, ProbabilityAtLeast(probability), pageable)
  }

  /** findByDateRange: creation time between the two instants, both ends included. */
  function FindByDateRange(t: Table, startDate: Timestamp, endDate: Timestamp, pageable: Pageable): (p: Page<Row>)
    requires t.Valid()
    ensures p.totalElements == CountWhere(t, CreatedBetween(startDate, endDate))
    ensures forall x :: x in p.content ==> Stored(t, x) && startDate <= x.createdAt <= endDate
    ensures endDate < startDate ==> p.totalElements == 0 && p.content == []
    ensures pageable.sort.SortBy? ==> SortedBy(p.content, pageable.sort.property, pageable.sort.direction)
    ensures p == Select(t, CreatedBetween(startDate, endDate), pageable)
  {
    EmptyDateRange(t, startDate, endDate);
    Select(t, CreatedBetween(startDate, endDate), pageable)
  }

  lemma EmptyDateRange(t: Table, startDate: Timestamp, endDate: Timestamp)
    ensures endDate < startDate ==> CountWhere(t, CreatedBetween(startDate, endDate)) == 0
  {
    if endDate < startDate {
      assert (set k | k in t.rows && Matches(t.rows[k], CreatedBetween(startDate, endDate))) == {};
    }
  }

  /**
   * findHighConfidenceExoplanets: every stored row with probability and accuracy at or
   * above the thresholds; a row with a null probability or accuracy never qualifies.
   * The query has no ORDER BY, so the rows come in scan order.
   */
  function FindHighConfidenceExoplanets(t: Table, minProbability: real, minAccuracy: real): (r: seq<Row>)
    requires t.Valid()
    ensures forall x :: x in r <==>
              Stored(t, x) && AtLeast(x.fields.probability, minProbability) &&
              AtLeast(x.fields.accuracy, minAccuracy)
    ensures forall x :: x in r ==> x.fields.accuracy.Some? && x.fields.probability.Some?
    ensures |r| == CountWhere(t, HighConfidence(minProbability, minAccuracy))
  {
    ListingExact(t);
    FilterCountsMatches(t, HighConfidence(minProbability, minAccuracy));
    Filter(Listing(t), HighConfidence(minProbability, minAccuracy))
  }

  /** countByClassification: how many stored rows carry the classification. */
  function CountByClassification(t: Table, classification: string): (n: nat)
    requires t.Valid()
    ensures n == |set k | k in t.rows && t.rows[k].fields.classification == Some(classification)|
  {
    FilterCountsMatches(t, ClassificationIs(classification));
    assert (set k | k in t.rows && t.rows[k].fields.classification == Some(classification)) ==
           (set k | k in t.rows && Matches(t.rows[k], ClassificationIs(classification)));
    |Filter(Listing(t), ClassificationIs(classification))|
  }

  // ---------------------------------------------------------------- mutation

  /** No row that survives an operation has changed: records are append/delete only. */
  ghost predicate NoRowChanged(before: map<int, Row>, after: map<int, Row>) {
    forall k :: k in after && k in before ==> after[k] == before[k]
  }

  /** Removing a set of ids leaves the rows whose ids are not in it. */
  lemma RemainingCount(rows: map<int, Row>, ids: set<int>)
    ensures |rows - ids| == |rows| - |rows.Keys * ids|
  {
    var gone := rows.Keys * ids;
    assert (rows - ids).Keys == rows.Keys - gone;
    assert rows.Keys == (rows.Keys - gone) + gone;
    assert (rows.Keys - gone) * gone == {};
  }

  /** The ids of a request's id list, as a set. */
  function IdSet(ids: seq<int>): set<int> {
    set id | id in ids
  }

  class AnalysisStore {
    var rows: map<int, Row>
    var nextId: int

    function State(): Table
      reads this
    {
      Table(rows, nextId)
    }

    ghost predicate Valid()
      reads this
    {
      State().Valid()
    }

    /** An empty table whose identity column starts at 1. */
    constructor ()
      ensures Valid() && rows == map[] && nextId == 1
    {
      rows := map[];
      nextId := 1;
    }

    /**
     * save on a new entity: the @PrePersist callback stamps the creation time, the
     * identity column assigns the next id, the entity object is updated in place and
     * returned, and the table gains exactly that one row.
     */
    method Save(e: ExoplanetAnalysis, now: Timestamp) returns (saved: ExoplanetAnalysis)
      requires Valid() && e.id.None?
      modifies this, e
      ensures Valid()
      ensures saved == e && e.Persisted()
      ensures e.id == Some(old(nextId)) && e.createdAt == Some(now)
      ensures e.fields == old(e.fields) && e.chartData == old(e.chartData)
      ensures old(nextId) !in old(rows)
      ensures forall k :: k in old(rows) ==> k < old(nextId)
      ensures rows == old(rows)[old(nextId) := e.AsRow()]
      ensures |rows| == |old(rows)| + 1
      ensures nextId == old(nextId) + 1
      ensures NoRowChanged(old(rows), rows)
    {
      e.OnCreate(now);
      var id := nextId;
      rows := rows[id := Row(id, e.fields, e.chartData, now)];
      nextId := nextId + 1;
      e.id := Some(id);
      saved := e;
    }

    /** existsById */
    function ExistsById(id: int): (b: bool)
      reads this
      ensures b <==> id in rows
    {
      id in rows
    }

    /** findById: the stored row, or None when there is none with that id. */
    function FindById(id: int): (r: Option<Row>)
      reads this
      ensures r.Some? <==> id in rows
      ensures r.Some? ==> r.value == rows[id] && r.value.id == id
      requires Valid()
    {
      if id in rows then Some(rows[id]) else None
    }

    /** count: the number of rows, which is the length of a full scan. */
    function Count(): (n: nat)
      reads this
      requires Valid()
      ensures n == |rows|
      ensures n == |Listing(State())|
    {
      FilterCountsMatches(State(), Everything);
      CountEverything(State());
      assert Filter(Listing(State()), Everything) == Listing(State()) by {
        FilterEverything(Listing(State()));
      }
      |rows|
    }

    /** deleteById: removes the row with that id; an unknown id is ignored. */
    method DeleteById(id: int)
      requires Valid()
      modifies this
      ensures Valid()
      ensures rows == old(rows) - {id} && nextId == old(nextId)
      ensures NoRowChanged(old(rows), rows)
    {
      rows := rows - {id};
    }

    /** deleteAllById: deletes the listed ids one by one; unknown ids are ignored. */
    method DeleteAllById(ids: seq<int>)
      requires Valid()
      modifies this
      ensures Valid()
      ensures rows == old(rows) - IdSet(ids) && nextId == old(nextId)
      ensures forall k :: k in old(rows) && k !in ids ==> k in rows && rows[k] == old(rows)[k]
      ensures NoRowChanged(old(rows), rows)
    {
      var i := 0;
      while i < |ids|
        invariant 0 <= i <= |ids|
        invariant Valid() && nextId == old(nextId)
        invariant rows == old(rows) - IdSet(ids[..i])
      {
        DeleteById(ids[i]);
        assert IdSet(ids[..i + 1]) == IdSet(ids[..i]) + {ids[i]} by {
          assert ids[..i + 1] == ids[..i] + [ids[i]];
        }
        i := i + 1;
      }
      assert ids[..i] == ids;
    }

    /** deleteByIdIn: the derived delete over an id list, with the same effect. */
    method DeleteByIdIn(ids: seq<int>)
      requires Valid()
      modifies this
      ensures Valid()
      ensures rows == old(rows) - IdSet(ids) && nextId == old(nextId)
      ensures NoRowChanged(old(rows), rows)
    {
      rows := map k | k in rows && k !in ids :: rows[k];
    }

    /** deleteAll: the table is left empty; the identity counter is not reset. */
    method DeleteAll()
      requires Valid()
      modifies this
      ensures Valid()
      ensures rows == map[] && nextId == old(nextId)
    {
      rows := map[];
    }
  }

  lemma {:induction false} FilterEverything(s: seq<Row>)
    ensures Filter(s, Everything) == s
  {
    if s != [] {
      FilterEverything(s[1..]);
      assert s == [s[0]] + s[1..];
    }
  }
}

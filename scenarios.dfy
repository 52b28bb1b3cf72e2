/**
 * The behaviours the repository's own tests check, restated for the model: each lemma
 * fixes the shape of the data a test builds and proves the outcome it asserts.
 */
module Scenarios {
  import opened Wrappers
  import opened Fields
  import opened ChartData
  import opened Request
  import opened Entity
  import opened Query
  import opened Paging
  import opened Repository
  import opened Service

  /** A table holding exactly the three given rows, each under its own id. */
  ghost predicate HoldsExactly(t: Table, a: Row, b: Row, c: Row) {
    && t.Valid()
    && a.id != b.id && b.id != c.id && a.id != c.id
    && t.rows.Keys == {a.id, b.id, c.id}
    && t.rows[a.id] == a && t.rows[b.id] == b && t.rows[c.id] == c
  }

  /**
   * Probabilities 95.8, 75.5 and 25.3, threshold 70, ten per page, highest first: the
   * page holds the two qualifying rows, the higher one first, and nothing follows.
   */
  lemma ProbabilityFinderScenario(t: Table, high: Row, medium: Row, low: Row)
    requires HoldsExactly(t, high, medium, low)
    requires high.fields.probability == Some(95.8)
    requires medium.fields.probability == Some(75.5)
    requires low.fields.probability == Some(25.3)
    ensures var p := FindByProbabilityGreaterThanEqual(t, 70.0, Pageable(0, 10, SortBy(Property.Probability, Desc)));
            && p.totalElements == 2 && p.content == [high, medium]
            && p.TotalPages() == 1 && p.IsFirst() && !p.HasNext()
  {
    var sort := SortBy(Property.Probability, Desc);
    QualifyingRowsHighestFirst(t, high, medium, low);
    assert PageStart(2, 0, 10) == 0 && PageEnd(2, 0, 10) == 2;
    assert Select(t, ProbabilityAtLeast(70.0), Pageable(0, 10, sort)).content == [high, medium][0..2];
  }

  lemma QualifyingRowsHighestFirst(t: Table, high: Row, medium: Row, low: Row)
    requires HoldsExactly(t, high, medium, low)
    requires high.fields.probability == Some(95.8)
    requires medium.fields.probability == Some(75.5)
    requires low.fields.probability == Some(25.3)
    ensures CountWhere(t, ProbabilityAtLeast(70.0)) == 2
    ensures Matching(t, ProbabilityAtLeast(70.0), SortBy(Property.Probability, Desc)) == [high, medium]
  {
    var c := ProbabilityAtLeast(70.0);
    TwoQualify(t, high, medium, low, c);
    var all := Matching(t, c, SortBy(Property.Probability, Desc));
    assert high in all && medium in all;
    TwoInOrder(all, high, medium, Property.Probability, Desc);
  }

  /** Of the three rows exactly the first two satisfy the criterion. */
  lemma TwoQualify(t: Table, a: Row, b: Row, c: Row, criterion: Criterion)
    requires HoldsExactly(t, a, b, c)
    requires Matches(a, criterion) && Matches(b, criterion) && !Matches(c, criterion)
    ensures CountWhere(t, criterion) == 2
  {
    assert (set k | k in t.rows && Matches(t.rows[k], criterion)) == {a.id, b.id};
  }

  /** A sorted pair holding two rows of which only one can come first lists that one first. */
  lemma TwoInOrder(s: seq<Row>, x: Row, y: Row, p: Property, d: Direction)
    requires |s| == 2 && x in s && y in s && x != y
    requires SortedBy(s, p, d) && !Precedes(y, x, p, d)
    ensures s == [x, y]
  {
    assert Precedes(s[0], s[1], p, d);
  }

  /**
   * Two of three rows classified "Confirmed Exoplanet": with ten per page the page
   * holds both of them and the total is two.
   */
  lemma ClassificationFinderScenario(t: Table, confirmed1: Row, confirmed2: Row, weak: Row, sort: Sort)
    requires HoldsExactly(t, confirmed1, confirmed2, weak)
    requires confirmed1.fields.classification == Some("Confirmed Exoplanet")
    requires confirmed2.fields.classification == Some("Confirmed Exoplanet")
    requires weak.fields.classification == Some("Weak Signal")
    ensures var p := FindByClassification(t, "Confirmed Exoplanet", Pageable(0, 10, sort));
            && p.totalElements == 2 && |p.content| == 2
            && confirmed1 in p.content && confirmed2 in p.content && weak !in p.content
  {
    var c := ClassificationIs("Confirmed Exoplanet");
    TwoQualify(t, confirmed1, confirmed2, weak, c);
    var all := Matching(t, c, sort);
    assert |all| == 2;
    assert PageStart(2, 0, 10) == 0 && PageEnd(2, 0, 10) == 2;
    assert FindByClassification(t, "Confirmed Exoplanet", Pageable(0, 10, sort)).content == all;
  }

  /**
   * Three records without chart data saved into an empty store, then the first two
   * deleted by their ids: both are reported missing, the third is still found with
   * the fields it was saved with, and the count is one.
   */
  method BatchDeleteScenario(codec: Codec, first: AnalysisFields, second: AnalysisFields,
                             third: AnalysisFields, now: Timestamp)
    returns (found1: Result<AnalysisResponse, ServiceError>, found2: Result<AnalysisResponse, ServiceError>,
             found3: Result<AnalysisResponse, ServiceError>, count: nat)
    ensures found1 == Failure(NotFound(1)) && found2 == Failure(NotFound(2))
    ensures found3.Success? && found3.value.id == 3 && found3.value.fields == third
    ensures found3.value.chartData.None? && found3.value.createdAt == now
    ensures count == 1
  {
    var store := new AnalysisStore();
    var service := new AnalysisService(store, codec);
    var saved1 := service.Save(AnalysisRequest(first, None), now);
    var saved2 := service.Save(AnalysisRequest(second, None), now);
    var saved3 := service.Save(AnalysisRequest(third, None), now);
    assert store.rows.Keys == {1, 2, 3};
    service.DeleteByIds([1, 2]);
    assert store.rows.Keys == {3};
    found1 := service.FindById(1);
    found2 := service.FindById(2);
    found3 := service.FindById(3);
    count := store.Count();
  }

  /**
   * The first record saved into an empty store gets id 1 and answers findById;
   * saving fails only when its chart data cannot be written.
   */
  method FirstSaveScenario(codec: Codec, request: AnalysisRequest, now: Timestamp)
    returns (saved: Result<AnalysisResponse, ServiceError>, found: Result<AnalysisResponse, ServiceError>,
             missing: Result<AnalysisResponse, ServiceError>)
    ensures saved.Failure? <==> EncodeChartData(codec, request.chartData).Failure?
    ensures saved.Success? ==>
              && saved.value.id == 1 && saved.value.fields == request.fields && saved.value.createdAt == now
              && found == saved
              && missing == Failure(NotFound(2))
    ensures saved.Failure? ==> found == Failure(NotFound(1)) && missing == Failure(NotFound(2))
  {
    var store := new AnalysisStore();
    var service := new AnalysisService(store, codec);
    saved := service.Save(request, now);
    found := service.FindById(1);
    missing := service.FindById(2);
  }
}

/**
 * The analysis-record service: maps requests to entities and stored rows to responses,
 * encodes and decodes chart data, and drives the store.
 *
 * Each public operation is one store transaction, so each is modelled as one atomic
 * step. The service does not validate requests itself; the request's constraints are
 * checked before it is called (see the Request module).
 */
module Service {
  import opened Wrappers
  import opened Fields
  import opened ChartData
  import opened Request
  import opened Entity
  import opened Query
  import opened Paging
  import opened Repository

  /** What the service returns for a record. */
  datatype AnalysisResponse =
    AnalysisResponse(id: int, fields: AnalysisFields, chartData: Option<Json>, createdAt: Timestamp)

  /** The RuntimeExceptions the service throws. */
  datatype ServiceError = ChartDataNotProcessable(cause: string) | NotFound(id: int) {
    function Message(): string {
      match this
      case ChartDataNotProcessable(_) => "Failed to process chart data"
      case NotFound(id) => NotFoundPrefix + IntToString(id)
    }
  }

  const NotFoundPrefix := "Exoplanet analysis not found with id: "

  // ---------------------------------------------------------------- decimal ids

  function DigitChar(d: nat): char
    requires d < 10
  {
    "0123456789"[d]
  }

  /** Long.toString for a non-negative value. */
  function NatToString(n: nat): string
  {
    if n < 10 then [DigitChar(n)] else NatToString(n / 10) + [DigitChar(n % 10)]
  }

  /** Long.toString: the decimal form, with a leading minus sign when negative. */
  function IntToString(i: int): string {
    if i < 0 then "-" + NatToString(-i) else NatToString(i)
  }

  predicate IsDigits(s: string) {
    forall k :: 0 <= k < |s| ==> '0' <= s[k] <= '9'
  }

  /** The number a string of decimal digits denotes. */
  function DigitsValue(s: string): nat
    requires IsDigits(s)
  {
    if s == [] then 0 else DigitsValue(s[..|s| - 1]) * 10 + (s[|s| - 1] as int - '0' as int)
  }

  lemma DigitCharDenotes(d: nat)
    requires d < 10
    ensures '0' <= DigitChar(d) <= '9' && DigitChar(d) as int - '0' as int == d
  {
  }

  lemma {:induction false} NatToStringDenotes(n: nat)
    ensures |NatToString(n)| >= 1 && IsDigits(NatToString(n))
    ensures DigitsValue(NatToString(n)) == n
  {
    if n < 10 {
      DigitCharDenotes(n);
    } else {
      var q, d := n / 10, n % 10;
      NatToStringDenotes(q);
      DigitCharDenotes(d);
      var s := NatToString(n);
      assert s == NatToString(q) + [DigitChar(d)];
      assert s[..|s| - 1] == NatToString(q);
      assert IsDigits(s);
      assert DigitsValue(s) == DigitsValue(NatToString(q)) * 10 + d;
      assert q * 10 + d == n;
    }
  }

  /** The first character shows the sign: a minus exactly for negative values. */
  lemma SignShown(i: int)
    ensures |IntToString(i)| >= 1
    ensures IntToString(i)[0] == '-' <==> i < 0
  {
    NatToStringDenotes(if i < 0 then -i else i);
  }

  /** Distinct non-negative values print differently. */
  lemma NatToStringInjective(m: nat, n: nat)
    requires NatToString(m) == NatToString(n)
    ensures m == n
  {
    NatToStringDenotes(m);
    NatToStringDenotes(n);
  }

  /** Distinct ids print differently, so a message names exactly one id. */
  lemma IntToStringInjective(a: int, b: int)
    requires IntToString(a) == IntToString(b)
    ensures a == b
  {
    SignShown(a);
    SignShown(b);
    if a < 0 {
      var s := IntToString(a);
      assert s == "-" + NatToString(-a);
      assert IntToString(b) == "-" + NatToString(-b);
      assert NatToString(-a) == s[1..] == NatToString(-b);
      NatToStringInjective(-a, -b);
    } else {
      NatToStringInjective(a, b);
    }
  }

  /**
   * The not-found message contains "not found with id: " followed by the id, and two
   * not-found messages are equal only for the same id.
   */
  lemma NotFoundMessageNamesId(a: int, b: int)
    ensures var m := NotFound(a).Message();
            var tail := "not found with id: " + IntToString(a);
            |m| >= |tail| && m[|m| - |tail|..] == tail
    ensures NotFound(a).Message() == NotFound(b).Message() ==> a == b
  {
    var m := NotFound(a).Message();
    var tail := "not found with id: " + IntToString(a);
    assert m == "Exoplanet analysis " + tail;
    if NotFound(a).Message() == NotFound(b).Message() {
      var n := |NotFoundPrefix|;
      assert IntToString(a) == m[n..] == IntToString(b);
      IntToStringInjective(a, b);
    }
  }

  // ---------------------------------------------------------------- mapping

  /**
   * mapToResponse: id, every data field and the creation time are copied verbatim;
   * chart-data text that does not parse becomes absent chart data, never an error.
   */
  function MapToResponse(codec: Codec, row: Row): (r: AnalysisResponse)
    ensures r.id == row.id && r.fields == row.fields && r.createdAt == row.createdAt
    ensures r.chartData == DecodeChartData(codec, row.chartData)
    ensures row.chartData.None? ==> r.chartData.None?
  {
    AnalysisResponse(row.id, row.fields, DecodeChartData(codec, row.chartData), row.createdAt)
  }

  /** A stored payload the codec cannot read leaves every other field of the response intact. */
  lemma CorruptChartDataKeepsRecord(codec: Codec, row: Row)
    requires row.chartData.Some? && codec.decode(row.chartData.value).None?
    ensures MapToResponse(codec, row) == AnalysisResponse(row.id, row.fields, None, row.createdAt)
  {
  }

  /** A page mapped from stored rows: each response is the mapped stored row it came from. */
  lemma MappedRowsStored(codec: Codec, t: Table, q: Page<Row>, p: Page<AnalysisResponse>)
    requires forall x :: x in q.content ==> Stored(t, x)
    requires |p.content| == |q.content|
    requires forall i :: 0 <= i < |p.content| ==> p.content[i] == MapToResponse(codec, q.content[i])
    ensures forall i :: 0 <= i < |p.content| ==>
              && q.content[i] in q.content
              && p.content[i].fields == q.content[i].fields
              && p.content[i].id in t.rows
              && p.content[i] == MapToResponse(codec, t.rows[p.content[i].id])
  {
    forall i | 0 <= i < |p.content|
      ensures q.content[i] in q.content && p.content[i].id in t.rows
      ensures p.content[i] == MapToResponse(codec, t.rows[p.content[i].id])
    {
      assert q.content[i] in q.content;
    }
  }

  class AnalysisService {
    const store: AnalysisStore
    const codec: Codec

    constructor (store: AnalysisStore, codec: Codec)
      ensures this.store == store && this.codec == codec
    {
      this.store := store;
      this.codec := codec;
    }

    ghost predicate Valid()
      reads store
    {
      store.Valid()
    }

    function ToResponse(): Row -> AnalysisResponse {
      row => MapToResponse(codec, row)
    }

    /**
     * save: chart data is encoded only when present, and a failed encoding aborts the
     * save before anything is stored. Otherwise the request's fields are copied into a
     * new entity, exactly one row is added under a fresh id, and the response is mapped
     * from the stored row, so it carries the store-assigned id and creation time and is
     * what findById returns afterwards.
     */
    method Save(request: AnalysisRequest, now: Timestamp) returns (r: Result<AnalysisResponse, ServiceError>)
      requires Valid()
      modifies store
      ensures Valid()
      ensures r.Failure? <==> EncodeChartData(codec, request.chartData).Failure?
      ensures r.Failure? ==>
                r.error.ChartDataNotProcessable? &&
                store.rows == old(store.rows) && store.nextId == old(store.nextId)
      ensures r.Success? ==>
                var id := old(store.nextId);
                && id !in old(store.rows)
                && r.value.id == id && r.value.fields == request.fields && r.value.createdAt == now
                && store.rows == old(store.rows)[id := Row(id, request.fields,
                                                          EncodeChartData(codec, request.chartData).value, now)]
                && |store.rows| == |old(store.rows)| + 1
                && store.nextId == id + 1
                && FindById(id) == Success(r.value)
      ensures r.Success? && RoundTrips(codec) ==> r.value.chartData == request.chartData
    {
      var chartDataString := EncodeChartData(codec, request.chartData);
      if chartDataString.Failure? {
        return Failure(ChartDataNotProcessable(chartDataString.error));
      }
      var entity := new ExoplanetAnalysis(request.fields, chartDataString.value);
      var saved := store.Save(entity, now);
      r := Success(MapToResponse(codec, saved.AsRow()));
      if RoundTrips(codec) {
        ChartDataRoundTrip(codec, request.chartData);
      }
    }

    /** findById: the mapped record, or NotFound naming the id when there is none. */
    function FindById(id: int): (r: Result<AnalysisResponse, ServiceError>)
      reads store
      requires Valid()
      ensures r.Failure? <==> id !in store.rows
      ensures r.Failure? ==> r.error == NotFound(id)
      ensures r.Success? ==> r.value.id == id && r.value == MapToResponse(codec, store.rows[id])
    {
      match store.FindById(id)
      case None => Failure(NotFound(id))
      case Some(row) => Success(MapToResponse(codec, row))
    }

    /** findAll: the store's page with each row mapped, totals and order kept. */
    function FindAll(pageable: Pageable): (p: Page<AnalysisResponse>)
      reads store
      requires Valid()
      ensures var q := Repository.FindAll(store.State(), pageable);
              |p.content| == |q.content| &&
              (forall i :: 0 <= i < |p.content| ==> p.content[i] == MapToResponse(codec, q.content[i])) &&
              p.number == q.number && p.size == q.size && p.TotalPages() == q.TotalPages()
      ensures p.totalElements == |store.rows|
      ensures forall i :: 0 <= i < |p.content| ==>
                p.content[i].id in store.rows && p.content[i] == MapToResponse(codec, store.rows[p.content[i].id])
    {
      var q := Repository.FindAll(store.State(), pageable);
      var p := MapPage(q, ToResponse());
      MappedRowsStored(codec, store.State(), q, p);
      p
    }

    /** findByClassification, mapped: every response carries the classification. */
    function FindByClassification(classification: string, pageable: Pageable): (p: Page<AnalysisResponse>)
      reads store
      requires Valid()
      ensures var q := Repository.FindByClassification(store.State(), classification, pageable);
              |p.content| == |q.content| &&
              (forall i :: 0 <= i < |p.content| ==> p.content[i] == MapToResponse(codec, q.content[i])) &&
              p.number == q.number && p.size == q.size && p.TotalPages() == q.TotalPages()
      ensures p.totalElements == CountWhere(store.State(), ClassificationIs(classification))
      ensures forall i :: 0 <= i < |p.content| ==>
                p.content[i].fields.classification == Some(classification) && p.content[i].id in store.rows
    {
      var q := Repository.FindByClassification(store.State(), classification, pageable);
      var p := MapPage(q, ToResponse());
      MappedRowsStored(codec, store.State(), q, p);
      p
    }

    /** findByConfidenceLevel, mapped: every response carries the confidence level. */
    function FindByConfidenceLevel(confidenceLevel: string, pageable: Pageable): (p: Page<AnalysisResponse>)
      reads store
      requires Valid()
      ensures var q := Repository.FindByConfidenceLevel(store.State(), confidenceLevel, pageable);
              |p.content| == |q.content| &&
              (forall i :: 0 <= i < |p.content| ==> p.content[i] == MapToResponse(codec, q.content[i])) &&
              p.number == q.number && p.size == q.size && p.TotalPages() == q.TotalPages()
      ensures p.totalElements == CountWhere(store.State(), ConfidenceLevelIs(confidenceLevel))
      ensures forall i :: 0 <= i < |p.content| ==>
                p.content[i].fields.confidenceLevel == Some(confidenceLevel) && p.content[i].id in store.rows
    {
      var q := Repository.FindByConfidenceLevel(store.State(), confidenceLevel, pageable);
      var p := MapPage(q, ToResponse());
      MappedRowsStored(codec, store.State(), q, p);
      p
    }

    /** findByProbability, mapped: every response's probability is at least the minimum. */
    function FindByProbability(minProbability: real, pageable: Pageable): (p: Page<AnalysisResponse>)
      reads store
      requires Valid()
      ensures var q := Repository.FindByProbabilityGreaterThanEqual(store.State(), minProbability, pageable);
              |p.content| == |q.content| &&
              (forall i :: 0 <= i < |p.content| ==> p.content[i] == MapToResponse(codec, q.content[i])) &&
              p.number == q.number && p.size == q.size && p.TotalPages() == q.TotalPages()
      ensures p.totalElements == CountWhere(store.State(), ProbabilityAtLeast(minProbability))
      ensures forall i :: 0 <= i < |p.content| ==>
                AtLeast(p.content[i].fields.probability, minProbability) && p.content[i].id in store.rows
    {
      var q := Repository.FindByProbabilityGreaterThanEqual(store.State(), minProbability, pageable);
      var p := MapPage(q, ToResponse());
      MappedRowsStored(codec, store.State(), q, p);
      p
    }

    /**
     * deleteById: existence is checked first; a missing id fails with NotFound and no
     * delete is issued. An existing id loses its row and every other row stays as it was.
     */
    method DeleteById(id: int) returns (r: Outcome<ServiceError>)
      requires Valid()
      modifies store
      ensures Valid()
      ensures r == (if id in old(store.rows) then Pass else Fail(NotFound(id)))
      ensures r.Fail? ==> store.rows == old(store.rows)
      ensures store.rows == old(store.rows) - {id} && store.nextId == old(store.nextId)
      ensures forall k :: k in old(store.rows) && k != id ==> k in store.rows && store.rows[k] == old(store.rows)[k]
      ensures FindById(id) == Failure(NotFound(id))
    {
      if !store.ExistsById(id) {
        return Fail(NotFound(id));
      }
      store.DeleteById(id);
      r := Pass;
    }

    /**
     * deleteByIds: exactly the listed ids are removed, unknown ids are ignored, and the
     * remaining rows keep their contents.
     */
    method DeleteByIds(ids: seq<int>)
      requires Valid()
      modifies store
      ensures Valid()
      ensures store.rows == old(store.rows) - IdSet(ids) && store.nextId == old(store.nextId)
      ensures forall k :: k in old(store.rows) && k !in ids ==> k in store.rows && store.rows[k] == old(store.rows)[k]
      ensures forall k :: k in ids ==> FindById(k) == Failure(NotFound(k))
      ensures |store.rows| == |old(store.rows)| - |old(store.rows).Keys * IdSet(ids)|
    {
      store.DeleteAllById(ids);
      RemainingCount(old(store.rows), IdSet(ids));
    }

    /** deleteAll: the store is left empty, whatever it held before. */
    method DeleteAll()
      requires Valid()
      modifies store
      ensures Valid()
      ensures store.rows == map[] && store.Count() == 0
      ensures store.nextId == old(store.nextId)
      ensures forall k :: FindById(k) == Failure(NotFound(k))
    {
      store.DeleteAll();
    }
  }
}

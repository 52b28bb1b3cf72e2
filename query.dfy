/**
 * What a derived query does with the table's rows: keep the rows a criterion selects,
 * order them by the requested property, and cut out the requested page.
 */
module Query {
  import opened Wrappers
  import opened Fields
  import opened Entity

  // ---------------------------------------------------------------- criteria

  /** The WHERE clause of each repository finder. */
  datatype Criterion =
    | Everything
    | ClassificationIs(classification: string)
    | ConfidenceLevelIs(confidenceLevel: string)
    | ClassificationAndConfidenceLevelAre(classification: string, confidenceLevel: string)
    | ProbabilityAtLeast(minProbability: real)
    | CreatedBetween(startDate: Timestamp, endDate: Timestamp)
    | HighConfidence(minProbability: real, minAccuracy: real)

  /** `column >= t` in SQL: a NULL column never satisfies it. */
  predicate AtLeast(v: Option<real>, t: real) {
    v.Some? && v.value >= t
  }

  predicate Matches(r: Row, c: Criterion) {
    match c
    case Everything => true
    case ClassificationIs(x) => r.fields.classification == Some(x)
    case ConfidenceLevelIs(l) => r.fields.confidenceLevel == Some(l)
    case ClassificationAndConfidenceLevelAre(x, l) =>
      r.fields.classification == Some(x) && r.fields.confidenceLevel == Some(l)
    case ProbabilityAtLeast(t) => AtLeast(r.fields.probability, t)
    // BETWEEN includes both ends
    case CreatedBetween(s, e) => s <= r.createdAt <= e
    case HighConfidence(p, a) => AtLeast(r.fields.probability, p) && AtLeast(r.fields.accuracy, a)
  }

  /** Row ids strictly increase along the sequence, so no row occurs twice. */
  ghost predicate IdsIncreasing(s: seq<Row>) {
    forall i, j :: 0 <= i < j < |s| ==> s[i].id < s[j].id
  }

  /** The rows of `s` that the criterion selects, in their order in `s`. */
  function Filter(s: seq<Row>, c: Criterion): (r: seq<Row>)
    ensures forall x :: x in r <==> x in s && Matches(x, c)
    ensures |r| <= |s|
    ensures IdsIncreasing(s) ==> IdsIncreasing(r)
  {
    if s == [] then []
    else
      var rest := Filter(s[1..], c);
      assert IdsIncreasing(s) ==> forall x :: x in s[1..] ==> s[0].id < x.id;
      if Matches(s[0], c) then [s[0]] + rest else rest
  }

  // ---------------------------------------------------------------- ordering

  datatype Direction = Asc | Desc

  /** The entity properties a Sort may name. */
  datatype Property =
    | Id | OrbitalPeriod | TransitDuration | TransitDepth | Snr | PlanetRadius | Probability
    | Accuracy | F1Score | Precision | Recall | FalsePositiveRate
    | Classification | ConfidenceLevel | ChartData | CreatedAt
  {
    function Name(): string {
      match this
      case Id => "id"
      case OrbitalPeriod => "orbitalPeriod"
      case TransitDuration => "transitDuration"
      case TransitDepth => "transitDepth"
      case Snr => "snr"
      case PlanetRadius => "planetRadius"
      case Probability => "probability"
      case Accuracy => "accuracy"
      case F1Score => "f1Score"
      case Precision => "precision"
      case Recall => "recall"
      case FalsePositiveRate => "falsePositiveRate"
      case Classification => "classification"
      case ConfidenceLevel => "confidenceLevel"
      case ChartData => "chartData"
      case CreatedAt => "createdAt"
    }
  }

  /** No ORDER BY, or ORDER BY one property in one direction. */
  datatype Sort = Unsorted | SortBy(property: Property, direction: Direction)

  /** A column value as ORDER BY compares it: NULL, a number or a string. */
  datatype Key = Missing | Num(x: real) | Text(t: string)

  function OptNum(v: Option<real>): Key {
    if v.Some? then Num(v.value) else Missing
  }

  function OptText(v: Option<string>): Key {
    if v.Some? then Text(v.value) else Missing
  }

  function KeyOf(r: Row, p: Property): Key {
    var f := r.fields;
    match p
    case Id => Num(r.id as real)
    case OrbitalPeriod => OptNum(f.orbitalPeriod)
    case TransitDuration => OptNum(f.transitDuration)
    case TransitDepth => OptNum(f.transitDepth)
    case Snr => OptNum(f.snr)
    case PlanetRadius => OptNum(f.planetRadius)
    case Probability => OptNum(f.probability)
    case Accuracy => OptNum(f.accuracy)
    case F1Score => OptNum(f.f1Score)
    case Precision => OptNum(f.precision)
    case Recall => OptNum(f.recall)
    case FalsePositiveRate => OptNum(f.falsePositiveRate)
    case Classification => OptText(f.classification)
    case ConfidenceLevel => OptText(f.confidenceLevel)
    case ChartData => OptText(r.chartData)
    case CreatedAt => Num(r.createdAt as real)
  }

  /** Lexicographic order on strings, character by character. */
  predicate TextLe(a: string, b: string) {
    |a| == 0 || (|b| > 0 && (a[0] < b[0] || (a[0] == b[0] && TextLe(a[1..], b[1..]))))
  }

  lemma {:induction false} TextLeTotal(a: string, b: string)
    ensures TextLe(a, b) || TextLe(b, a)
  {
    if |a| > 0 && |b| > 0 && a[0] == b[0] {
      TextLeTotal(a[1..], b[1..]);
    }
  }

  lemma {:induction false} TextLeTransitive(a: string, b: string, c: string)
    requires TextLe(a, b) && TextLe(b, c)
    ensures TextLe(a, c)
  {
    if |a| > 0 && a[0] == b[0] && b[0] == c[0] {
      TextLeTransitive(a[1..], b[1..], c[1..]);
    }
  }

  /** ORDER BY ascending on one column: NULLs first, then numbers, then strings. */
  predicate KeyLe(a: Key, b: Key) {
    match (a, b)
    case (Missing, _) => true
    case (_, Missing) => false
    case (Num(x), Num(y)) => x <= y
    case (Num(_), Text(_)) => true
    case (Text(_), Num(_)) => false
    case (Text(x), Text(y)) => TextLe(x, y)
  }

  lemma KeyLeTotal(a: Key, b: Key)
    ensures KeyLe(a, b) || KeyLe(b, a)
  {
    if a.Text? && b.Text? {
      TextLeTotal(a.t, b.t);
    }
  }

  lemma KeyLeTransitive(a: Key, b: Key, c: Key)
    requires KeyLe(a, b) && KeyLe(b, c)
    ensures KeyLe(a, c)
  {
    if a.Text? && b.Text? && c.Text? {
      TextLeTransitive(a.t, b.t, c.t);
    }
  }

  /** `a` may come before `b` in a result ordered by `p` in direction `d`. */
  predicate Precedes(a: Row, b: Row, p: Property, d: Direction) {
    if d == Asc then KeyLe(KeyOf(a, p), KeyOf(b, p)) else KeyLe(KeyOf(b, p), KeyOf(a, p))
  }

  lemma PrecedesTotal(a: Row, b: Row, p: Property, d: Direction)
    ensures Precedes(a, b, p, d) || Precedes(b, a, p, d)
  {
    KeyLeTotal(KeyOf(a, p), KeyOf(b, p));
  }

  lemma PrecedesTransitive(a: Row, b: Row, c: Row, p: Property, d: Direction)
    requires Precedes(a, b, p, d) && Precedes(b, c, p, d)
    ensures Precedes(a, c, p, d)
  {
    if d == Asc {
      KeyLeTransitive(KeyOf(a, p), KeyOf(b, p), KeyOf(c, p));
    } else {
      KeyLeTransitive(KeyOf(c, p), KeyOf(b, p), KeyOf(a, p));
    }
  }

  ghost predicate SortedBy(s: seq<Row>, p: Property, d: Direction) {
    forall i, j :: 0 <= i < j < |s| ==> Precedes(s[i], s[j], p, d)
  }

  lemma PrependSorted(y: Row, t: seq<Row>, p: Property, d: Direction)
    requires SortedBy(t, p, d)
    requires forall e :: e in t ==> Precedes(y, e, p, d)
    ensures SortedBy([y] + t, p, d)
  {
    var s := [y] + t;
    forall i, j | 0 <= i < j < |s| ensures Precedes(s[i], s[j], p, d) {
      if i == 0 {
        assert s[j] == t[j - 1];
      } else {
        assert s[i] == t[i - 1] && s[j] == t[j - 1];
      }
    }
  }

  /** Inserting before the first row one does not follow keeps rows in order. */
  function Insert(x: Row, s: seq<Row>, p: Property, d: Direction): (r: seq<Row>)
    requires SortedBy(s, p, d)
    ensures SortedBy(r, p, d)
    ensures multiset(r) == multiset(s) + multiset{x}
  {
    if s == [] then [x]
    else if Precedes(x, s[0], p, d) then
      InsertFrontSorted(x, s, p, d);
      [x] + s
    else
      var rest := Insert(x, s[1..], p, d);
      InsertTailSorted(x, s, rest, p, d);
      assert s == [s[0]] + s[1..];
      [s[0]] + rest
  }

  lemma InsertFrontSorted(x: Row, s: seq<Row>, p: Property, d: Direction)
    requires SortedBy(s, p, d) && s != [] && Precedes(x, s[0], p, d)
    ensures SortedBy([x] + s, p, d)
  {
    forall e | e in s ensures Precedes(x, e, p, d) {
      var k :| 0 <= k < |s| && s[k] == e;
      if k > 0 {
        PrecedesTransitive(x, s[0], e, p, d);
      }
    }
    PrependSorted(x, s, p, d);
  }

  lemma InsertTailSorted(x: Row, s: seq<Row>, rest: seq<Row>, p: Property, d: Direction)
    requires SortedBy(s, p, d) && s != [] && !Precedes(x, s[0], p, d)
    requires SortedBy(rest, p, d) && multiset(rest) == multiset(s[1..]) + multiset{x}
    ensures SortedBy([s[0]] + rest, p, d)
  {
    PrecedesTotal(x, s[0], p, d);
    forall e | e in rest ensures Precedes(s[0], e, p, d) {
      assert e in multiset(rest);
      if e != x {
        assert e in multiset(s[1..]);
        var k :| 0 <= k < |s[1..]| && s[1..][k] == e;
        assert s[k + 1] == e;
      }
    }
    PrependSorted(s[0], rest, p, d);
  }

  /** Insertion sort: a sorted permutation of `s`, equal rows keeping their order. */
  function SortRows(s: seq<Row>, p: Property, d: Direction): (r: seq<Row>)
    ensures SortedBy(r, p, d)
    ensures multiset(r) == multiset(s)
  {
    if s == [] then []
    else
      assert s == [s[0]] + s[1..];
      Insert(s[0], SortRows(s[1..], p, d), p, d)
  }

  /** The rows as the query returns them: unchanged when unsorted, else sorted. */
  function Ordered(s: seq<Row>, sort: Sort): (r: seq<Row>)
    ensures multiset(r) == multiset(s)
    ensures |r| == |s|
    ensures forall x :: x in r <==> x in s
    ensures sort.SortBy? ==> SortedBy(r, sort.property, sort.direction)
  {
    var r := if sort.Unsorted? then s else SortRows(s, sort.property, sort.direction);
    assert |r| == |multiset(r)| == |multiset(s)| == |s|;
    assert forall x :: x in r <==> x in multiset(r);
    r
  }
}

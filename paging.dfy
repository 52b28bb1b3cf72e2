/**
 * Page requests and pages: a zero-based page index, a page size and a sort, and the
 * page of results with its totals.
 */
module Paging {
  import opened Wrappers
  import opened Query

  type PageSize = n: int | n >= 1 witness 1

  datatype Pageable = Pageable(page: nat, size: PageSize, sort: Sort)

  datatype QueryError = NegativePageIndex | PageSizeBelowOne | UnknownProperty(name: string)

  /** The property a sort names, or None when the entity has no such property. */
  function PropertyNamed(name: string): (r: Option<Property>)
    ensures r.Some? ==> r.value.Name() == name
    ensures r.None? ==> forall p: Property :: p.Name() != name
  {
    if name == "id" then Some(Id)
    else if name == "orbitalPeriod" then Some(OrbitalPeriod)
    else if name == "transitDuration" then Some(TransitDuration)
    else if name == "transitDepth" then Some(TransitDepth)
    else if name == "snr" then Some(Snr)
    else if name == "planetRadius" then Some(PlanetRadius)
    else if name == "probability" then Some(Probability)
    else if name == "accuracy" then Some(Accuracy)
    else if name == "f1Score" then Some(F1Score)
    else if name == "precision" then Some(Precision)
    else if name == "recall" then Some(Recall)
    else if name == "falsePositiveRate" then Some(FalsePositiveRate)
    else if name == "classification" then Some(Classification)
    else if name == "confidenceLevel" then Some(ConfidenceLevel)
    else if name == "chartData" then Some(ChartData)
    else if name == "createdAt" then Some(CreatedAt)
    else None
  }

  predicate IsUpper(c: char) {
    'A' <= c <= 'Z'
  }

  function LowerCase(c: char): char {
    if IsUpper(c) then (c as int - 'A' as int + 'a' as int) as char else c
  }

  function UpperCase(c: char): char {
    if 'a' <= c <= 'z' then (c as int - 'a' as int + 'A' as int) as char else c
  }

  /**
   * How a sort property name is read before it is looked up: the first letter is
   * lower-cased, unless the first two letters are both capitals.
   */
  function Decapitalize(name: string): (r: string)
    ensures |r| == |name|
    ensures |name| >= 1 ==> r[1..] == name[1..]
    ensures |name| >= 1 && !IsUpper(name[0]) ==> r == name
    ensures |name| >= 2 && IsUpper(name[0]) && IsUpper(name[1]) ==> r == name
    ensures |name| >= 1 && IsUpper(name[0]) && (|name| == 1 || !IsUpper(name[1])) ==>
              r[0] == LowerCase(name[0]) && !IsUpper(r[0])
  {
    if |name| == 0 then name
    else if |name| >= 2 && IsUpper(name[0]) && IsUpper(name[1]) then name
    else [LowerCase(name[0])] + name[1..]
  }

  /** The name with its first letter in upper case. */
  function Capitalize(name: string): string {
    if |name| == 0 then name else [UpperCase(name[0])] + name[1..]
  }

  /**
   * PageRequest.of(page, size, Sort.by(direction, sortBy)) together with the lookup of
   * the sort property: a negative page index, a page size below one and a sort name
   * that, read with its first letter lower-cased, names no entity property are each
   * refused.
   */
  function PageRequestOf(page: int, size: int, direction: Direction, sortBy: string): (r: Result<Pageable, QueryError>)
    ensures r.Success? <==> 0 <= page && 1 <= size && PropertyNamed(Decapitalize(sortBy)).Some?
    ensures r.Success? ==>
              r.value.page == page && r.value.size == size &&
              r.value.sort == SortBy(PropertyNamed(Decapitalize(sortBy)).value, direction) &&
              r.value.sort.property.Name() == Decapitalize(sortBy)
    ensures page < 0 ==> r == Failure(NegativePageIndex)
    ensures 0 <= page && size < 1 ==> r == Failure(PageSizeBelowOne)
    ensures 0 <= page && 1 <= size && r.Failure? ==> r == Failure(UnknownProperty(sortBy))
  {
    if page < 0 then Failure(NegativePageIndex)
    else if size < 1 then Failure(PageSizeBelowOne)
    else match PropertyNamed(Decapitalize(sortBy))
      case None => Failure(UnknownProperty(sortBy))
      case Some(p) => Success(Pageable(page, size, SortBy(p, direction)))
  }

  /** Every property is found again under its own name. */
  lemma PropertyNamedInverse(p: Property)
    ensures PropertyNamed(p.Name()) == Some(p)
  {
    match p
    case Id =>
    case OrbitalPeriod =>
    case TransitDuration =>
    case TransitDepth =>
    case Snr =>
    case PlanetRadius =>
    case Probability =>
    case Accuracy =>
    case F1Score =>
    case Precision =>
    case Recall =>
    case FalsePositiveRate =>
    case Classification =>
    case ConfidenceLevel =>
    case ChartData =>
    case CreatedAt =>
  }

  /** Every property name starts with a small letter followed by one that is not a capital. */
  lemma NameStartsSmall(p: Property)
    ensures |p.Name()| >= 2 && 'a' <= p.Name()[0] <= 'z' && !IsUpper(p.Name()[1])
  {
    match p
    case Id =>
    case OrbitalPeriod =>
    case TransitDuration =>
    case TransitDepth =>
    case Snr =>
    case PlanetRadius =>
    case Probability =>
    case Accuracy =>
    case F1Score =>
    case Precision =>
    case Recall =>
    case FalsePositiveRate =>
    case Classification =>
    case ConfidenceLevel =>
    case ChartData =>
    case CreatedAt =>
  }

  /** Such a name reads as itself, with or without its first letter capitalised. */
  lemma DecapitalizeUndoesCapitalize(name: string)
    requires |name| >= 2 && 'a' <= name[0] <= 'z' && !IsUpper(name[1])
    ensures Decapitalize(name) == name
    ensures Decapitalize(Capitalize(name)) == name
  {
    var c := Capitalize(name);
    assert IsUpper(c[0]) && c[1] == name[1];
    assert Decapitalize(c) == [LowerCase(c[0])] + name[1..];
    assert name == [name[0]] + name[1..];
  }

  /**
   * Every property can be named as declared or with its first letter capitalised
   * ("probability" or "Probability"); both give the same sort.
   */
  lemma SortNameFirstLetterCase(p: Property, page: nat, size: PageSize, direction: Direction)
    ensures PageRequestOf(page, size, direction, p.Name()) == Success(Pageable(page, size, SortBy(p, direction)))
    ensures PageRequestOf(page, size, direction, Capitalize(p.Name())) ==
            Success(Pageable(page, size, SortBy(p, direction)))
  {
    PropertyNamedInverse(p);
    NameStartsSmall(p);
    DecapitalizeUndoesCapitalize(p.Name());
  }

  /** A page of results: its content, its index and size, and the total match count. */
  datatype Page<T> = Page(content: seq<T>, number: nat, size: nat, totalElements: nat) {
    function TotalPages(): nat {
      if size == 0 then 1 else (totalElements + size - 1) / size
    }
    predicate HasNext() {
      number + 1 < TotalPages()
    }
    predicate IsFirst() {
      number == 0
    }
    predicate IsLast() {
      !HasNext()
    }
  }

  function Min(a: int, b: int): int {
    if a <= b then a else b
  }

  /** Where page `page` of size `size` starts and ends in a list of `n` results. */
  function PageStart(n: nat, page: nat, size: PageSize): nat {
    Min(page * size, n)
  }

  function PageEnd(n: nat, page: nat, size: PageSize): nat {
    Min(page * size + size, n)
  }

  /** Page `pageable.page` of the ordered results `s`, with `s`'s length as the total. */
  function PageOf<T>(s: seq<T>, pageable: Pageable): (p: Page<T>)
    ensures p.number == pageable.page && p.size == pageable.size && p.totalElements == |s|
    ensures p.content == s[PageStart(|s|, pageable.page, pageable.size)..PageEnd(|s|, pageable.page, pageable.size)]
  {
    Page(s[PageStart(|s|, pageable.page, pageable.size)..PageEnd(|s|, pageable.page, pageable.size)],
         pageable.page, pageable.size, |s|)
  }

  /** Page.map: each element transformed, order, length and every total kept. */
  function MapPage<A, B>(p: Page<A>, f: A -> B): (q: Page<B>)
    ensures |q.content| == |p.content|
    ensures forall i :: 0 <= i < |p.content| ==> q.content[i] == f(p.content[i])
    ensures q.number == p.number && q.size == p.size && q.totalElements == p.totalElements
    ensures q.TotalPages() == p.TotalPages() && q.HasNext() == p.HasNext()
  {
    Page(seq(|p.content|, i requires 0 <= i < |p.content| => f(p.content[i])),
         p.number, p.size, p.totalElements)
  }

  /** totalPages is the ceiling of totalElements / size. */
  lemma TotalPagesIsCeiling<T>(p: Page<T>)
    requires p.size >= 1
    ensures p.TotalPages() * p.size >= p.totalElements
    ensures p.TotalPages() == 0 || (p.TotalPages() - 1) * p.size < p.totalElements
    ensures p.TotalPages() == 0 <==> p.totalElements == 0
  {
    var n, s := p.totalElements, p.size;
    var q: int, rem: int := (n + s - 1) / s, (n + s - 1) % s;
    assert n + s - 1 == q * s + rem && 0 <= rem < s;
    assert (q - 1) * s == q * s - s;
  }

  /** A page holds results exactly when its index is below totalPages. */
  lemma PageNonEmptyIff<T>(s: seq<T>, pageable: Pageable)
    ensures |PageOf(s, pageable).content| > 0 <==> pageable.page < PageOf(s, pageable).TotalPages()
  {
    var p := PageOf(s, pageable);
    TotalPagesIsCeiling(p);
    var k, z, tp := pageable.page, pageable.size, p.TotalPages();
    if k < tp {
      assert k <= tp - 1;
      assert k * z <= (tp - 1) * z by { MulMonotone(k, tp - 1, z); }
    } else {
      assert tp * z <= k * z by { MulMonotone(tp, k, z); }
    }
  }

  lemma MulMonotone(a: nat, b: nat, z: nat)
    requires a <= b
    ensures a * z <= b * z
  {
    assert b * z == a * z + (b - a) * z;
  }

  /** The contents of pages 0 .. k-1, one after the other. */
  function PagesUpTo<T>(s: seq<T>, size: PageSize, k: nat): seq<T> {
    if k == 0 then [] else PagesUpTo(s, size, k - 1) + PageOf(s, Pageable(k - 1, size, Unsorted)).content
  }

  lemma NextMultiple(j: nat, size: nat)
    ensures (j + 1) * size == j * size + size
  {
  }

  lemma {:induction false} PagesUpToIsPrefix<T>(s: seq<T>, size: PageSize, k: nat)
    ensures PagesUpTo(s, size, k) == s[..Min(k * size, |s|)]
  {
    if k > 0 {
      PagesUpToIsPrefix(s, size, k - 1);
      var m := (k - 1) * size;
      assert k * size == m + size by { NextMultiple(k - 1, size); }
      var a, b := Min(m, |s|), Min(m + size, |s|);
      assert PageOf(s, Pageable(k - 1, size, Unsorted)).content == s[a..b];
      assert s[..a] + s[a..b] == s[..b];
    }
  }

  /**
   * Walking the pages from 0 to totalPages - 1 yields every result exactly once and
   * in order: the pages partition the ordered result list.
   */
  lemma PagesPartitionResults<T>(s: seq<T>, size: PageSize)
    ensures PagesUpTo(s, size, PageOf(s, Pageable(0, size, Unsorted)).TotalPages()) == s
  {
    var tp := PageOf(s, Pageable(0, size, Unsorted)).TotalPages();
    PagesUpToIsPrefix(s, size, tp);
    TotalPagesIsCeiling(PageOf(s, Pageable(0, size, Unsorted)));
  }

  /** Fifteen results at page size 10: page 0 has ten, there are two pages and a next one. */
  lemma FifteenResultsTwoPages<T>(s: seq<T>, sort: Sort)
    requires |s| == 15
    ensures var first := PageOf(s, Pageable(0, 10, sort));
            |first.content| == 10 && first.totalElements == 15 && first.TotalPages() == 2 &&
            first.IsFirst() && first.HasNext() && first.content == s[..10]
    ensures var second := PageOf(s, Pageable(1, 10, sort));
            |second.content| == 5 && second.content == s[10..] && second.IsLast()
  {
  }

  /** Three results at page size 10 fit on one page. */
  lemma ThreeResultsOnePage<T>(s: seq<T>, sort: Sort)
    requires |s| == 3
    ensures var p := PageOf(s, Pageable(0, 10, sort));
            p.content == s && p.TotalPages() == 1 && p.number == 0 && p.size == 10 && !p.HasNext()
  {
  }
}

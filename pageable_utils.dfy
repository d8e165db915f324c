/** `PageableUtils.of`: the page request built from the raw query parameters. */
module PageableUtils {
  import opened Basics

  /** A Java `int`. */
  type Int32 = x: int | -0x8000_0000 <= x < 0x8000_0000

  datatype Direction = Asc | Desc

  datatype Sort = Unsorted | SortBy(direction: Direction, property: string)

  datatype PageRequest = PageRequest(page: int, size: int, sort: Sort)

  function Max(a: int, b: int): (m: int) { if a < b then b else a }
  function Min(a: int, b: int): (m: int) { if a < b then a else b }

  /** Java's `"desc".equalsIgnoreCase(dir)`: false for null; otherwise four characters, each equal to
      the letter of "desc" after case conversion (U+017F, the long s, upper-cases to 'S'). */
  predicate IsDescIgnoringCase(dir: Option<string>)
  {
    && dir.Some?
    && |dir.value| == 4
    && dir.value[0] in {'d', 'D'}
    && dir.value[1] in {'e', 'E'}
    && dir.value[2] in {'s', 'S', '\U{017F}'}
    && dir.value[3] in {'c', 'C'}
  }

  /** The page index is never negative, the size lies in [1, 100], values already in range pass
      through, a null `sortBy` means unsorted whatever `dir` says, and otherwise the direction is
      descending exactly when `dir` is "desc" ignoring case. */
  function Of(page: Int32, size: Int32, sortBy: Option<string>, dir: Option<string>): (r: PageRequest)
    ensures r.page >= 0 && (page >= 0 ==> r.page == page) && (page < 0 ==> r.page == 0)
    ensures 1 <= r.size <= 100
    ensures 1 <= size <= 100 ==> r.size == size
    ensures size < 1 ==> r.size == 1
    ensures size > 100 ==> r.size == 100
    ensures sortBy.None? <==> r.sort == Unsorted
    ensures sortBy.Some? ==> r.sort.property == sortBy.value
    ensures sortBy.Some? ==> (r.sort.direction == Desc <==> IsDescIgnoringCase(dir))
  {
    var sort := if sortBy.None? then Unsorted
                else SortBy(if IsDescIgnoringCase(dir) then Desc else Asc, sortBy.value);
    PageRequest(Max(0, page), Min(100, Max(1, size)), sort)
  }

  /** Clamping is idempotent: feeding a result's page and size back in gives the same request. */
  lemma OfIdempotent(page: Int32, size: Int32, sortBy: Option<string>, dir: Option<string>)
    ensures var r := Of(page, size, sortBy, dir);
            Of(r.page, r.size, sortBy, dir) == r
  {
  }

  /** `dir` is irrelevant when there is no `sortBy`. */
  lemma UnsortedIgnoresDirection(page: Int32, size: Int32, dir1: Option<string>, dir2: Option<string>)
    ensures Of(page, size, None, dir1) == Of(page, size, None, dir2)
  {
  }

  /** "desc", "DESC" and "Desc" sort descending; "asc", a null or an empty `dir` sort ascending. */
  lemma DirectionExamples(page: Int32, size: Int32, p: string)
    ensures Of(page, size, Some(p), Some("desc")).sort == SortBy(Desc, p)
    ensures Of(page, size, Some(p), Some("DESC")).sort == SortBy(Desc, p)
    ensures Of(page, size, Some(p), Some("Desc")).sort == SortBy(Desc, p)
    ensures Of(page, size, Some(p), Some("asc")).sort == SortBy(Asc, p)
    ensures Of(page, size, Some(p), None).sort == SortBy(Asc, p)
    ensures Of(page, size, Some(p), Some("")).sort == SortBy(Asc, p)
  {
  }
}

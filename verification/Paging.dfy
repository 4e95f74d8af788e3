/** Sorting by name and cutting the result into pages, as every listing does. */
module Paging {

  /** strings.Compare(a, b) <= 0. */
  predicate NameLeq(a: string, b: string) {
    a == "" || (b != "" && (a[0] < b[0] || (a[0] == b[0] && NameLeq(a[1..], b[1..]))))
  }

  ghost predicate Sorted<T>(items: seq<T>, name: T -> string) {
    forall i, j :: 0 <= i < j < |items| ==> NameLeq(name(items[i]), name(items[j]))
  }

  /** What is known of the library's sort, which is not stable: it sorts, and it permutes. */
  ghost predicate IsSort<T(!new)>(sort: seq<T> -> seq<T>, name: T -> string) {
    forall items :: Sorted(sort(items), name) && multiset(sort(items)) == multiset(items)
  }

  lemma SortKeepsLength<T(!new)>(sort: seq<T> -> seq<T>, name: T -> string, items: seq<T>)
    requires IsSort(sort, name)
    ensures |sort(items)| == |items|
  {
    assert |multiset(sort(items))| == |multiset(items)|;
  }

  function Least(a: int, b: int): int {
    if a < b then a else b
  }

  function PageNumber(page: int): int {
    if page < 1 then 1 else page
  }

  function PageSize(size: int): int {
    if size < 1 then 20 else size
  }

  /** Page `page` of `size` items each, with the defaults for numbers below one. */
  function Page<T>(items: seq<T>, page: int, size: int): seq<T> {
    var p, n := PageNumber(page), PageSize(size);
    PageBounds(p, n);
    items[Least((p - 1) * n, |items|)..Least(p * n, |items|)]
  }

  lemma PageBounds(p: int, n: int)
    requires p >= 1 && n >= 1
    ensures 0 <= (p - 1) * n <= p * n
  {
    assert p * n == (p - 1) * n + n;
  }

  function FirstPages<T>(items: seq<T>, pages: nat, size: int): seq<T> {
    if pages == 0 then [] else FirstPages(items, pages - 1, size) + Page(items, pages, size)
  }

  /** Pages follow each other without gap or overlap; enough of them are the whole list. */
  lemma {:induction false} PagesConcatenate<T>(items: seq<T>, pages: nat, size: int)
    requires size >= 1
    ensures pages * size >= 0 && FirstPages(items, pages, size) == items[..Least(pages * size, |items|)]
    ensures pages * size >= |items| ==> FirstPages(items, pages, size) == items
  {
    if pages > 0 {
      PagesConcatenate(items, pages - 1, size);
      PageBounds(pages, size);
    }
  }

  predicate MoreAfter(total: int, page: int, size: int) {
    PageNumber(page) * PageSize(size) < total
  }

  /** Below one, the page is the first and its size is twenty. */
  lemma Defaults<T>(items: seq<T>, page: int, size: int)
    ensures page < 1 ==> Page(items, page, size) == Page(items, 1, size)
    ensures size < 1 ==> Page(items, page, size) == Page(items, page, 20)
    ensures page < 1 && size < 1 ==> Page(items, page, size) == items[..Least(20, |items|)]
  {
  }

  /** There is more exactly when the next page has something on it. */
  lemma MoreIff<T>(items: seq<T>, page: nat, size: int)
    requires page >= 1
    ensures MoreAfter(|items|, page, size) <==> Page(items, page + 1, size) != []
  {
    PageBounds(page, PageSize(size));
    PageBounds(page + 1, PageSize(size));
  }

  /** The page cut the way the listings compute it, and whether there is more. */
  method CutPage<T>(items: seq<T>, page: int, pageSize: int) returns (pageItems: seq<T>, hasMore: bool)
    ensures pageItems == Page(items, page, pageSize)
    ensures hasMore <==> MoreAfter(|items|, page, pageSize)
  {
    var p, n := page, pageSize;
    if p < 1 {
      p := 1;
    }
    if n < 1 {
      n := 20;
    }
    PageBounds(p, n);
    var start := (p - 1) * n;
    var end := start + n;
    assert end == p * n;
    if start > |items| {
      start := |items|;
    }
    if end > |items| {
      end := |items|;
    }
    return items[start..end], end < |items|;
  }
}

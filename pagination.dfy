/**
 * The fixed-size page windows the listings show: page `p` (counting from 1)
 * holds the items at positions (p-1)*PerPage up to, not including,
 * p*PerPage.
 */
module Pagination {

  /** Items per page on both listings. */
  const PerPage := 3

  function Min(a: int, b: int): int { if a <= b then a else b }

  /** The number of items page `page` holds out of `n`. */
  function PageSize(n: nat, page: int): (k: nat)
    ensures k <= PerPage
    ensures page >= 1 && (page - 1) * PerPage < n ==> k >= 1
  {
    if page < 1 || (page - 1) * PerPage >= n then 0
    else Min(PerPage, n - (page - 1) * PerPage)
  }

  /** The items of one page; a page before the first or past the last is empty. */
  function Paginate<T>(items: seq<T>, page: int): (r: seq<T>)
    ensures |r| == PageSize(|items|, page)
    ensures forall i :: 0 <= i < |r| ==>
      (page - 1) * PerPage + i < |items| && r[i] == items[(page - 1) * PerPage + i]
  {
    if page < 1 || (page - 1) * PerPage >= |items| then []
    else items[(page - 1) * PerPage .. Min(page * PerPage, |items|)]
  }

  /** Every item is shown exactly where its position says: page i/PerPage + 1, slot i%PerPage. */
  lemma PageOf<T>(items: seq<T>, i: nat)
    requires i < |items|
    ensures i % PerPage < |Paginate(items, i / PerPage + 1)|
    ensures Paginate(items, i / PerPage + 1)[i % PerPage] == items[i]
  {
    var p := i / PerPage + 1;
    assert (p - 1) * PerPage + i % PerPage == i;
  }

  /** An item shown on some page is shown on no other page. */
  lemma PagesDisjoint<T>(items: seq<T>, p: int, q: int, i: nat, j: nat)
    requires i < |Paginate(items, p)| && j < |Paginate(items, q)|
    requires (p - 1) * PerPage + i == (q - 1) * PerPage + j
    ensures p == q && i == j
  {
  }

  /** Seven items give pages of three, three and one, and an empty fourth page. */
  lemma SevenItems<T>(items: seq<T>)
    requires |items| == 7
    ensures Paginate(items, 1) == items[0..3]
    ensures Paginate(items, 2) == items[3..6]
    ensures Paginate(items, 3) == items[6..7]
    ensures Paginate(items, 4) == []
  {
  }
}

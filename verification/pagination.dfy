/** The students page of the teachers' front end: which view it shows, when it fetches the
    student list, and how the list is cut into pages of ten. */
module Pagination {
  import opened Wrappers
  import opened WebTypes

  const ItemsPerPage: nat := 10

  /** `Math.ceil(n / 10)`: the least number of pages of ten that hold `n` rows. */
  function TotalPages(n: nat): (r: nat)
    ensures r * ItemsPerPage >= n
    ensures r > 0 ==> (r - 1) * ItemsPerPage < n
    ensures r == 0 <==> n == 0
  {
    (n + ItemsPerPage - 1) / ItemsPerPage
  }

  /** The first row of a page, counting pages from 1. */
  function StartIndex(page: int): (r: int)
    ensures page >= 1 ==> r >= 0
  {
    (page - 1) * ItemsPerPage
  }

  /** How `Array.prototype.slice` reads an index: negative counts from the end, and the
      result is clamped to the array. */
  function ClampIndex(i: int, len: nat): (r: nat)
    ensures r <= len
    ensures 0 <= i <= len ==> r == i
    ensures i > len ==> r == len
    ensures i < 0 ==> r == if len + i < 0 then 0 else len + i
  {
    if i < 0 then (if len + i < 0 then 0 else len + i)
    else if i > len then len
    else i
  }

  /** `s.slice(start, end)`. */
  function JsSlice<T>(s: seq<T>, start: int, end: int): (r: seq<T>)
    ensures |r| <= |s|
    ensures 0 <= start <= end ==> r == s[ClampIndex(start, |s|)..ClampIndex(end, |s|)]
  {
    var lo := ClampIndex(start, |s|);
    var hi := ClampIndex(end, |s|);
    if lo < hi then s[lo..hi] else []
  }

  /** The rows the table shows on `page`. */
  function PageSlice<T>(users: seq<T>, page: int): seq<T> {
    JsSlice(users, StartIndex(page), StartIndex(page) + ItemsPerPage)
  }

  function Min(a: int, b: int): int {
    if a <= b then a else b
  }

  /** A page holds at most ten rows: the ten from its start index, cut at the end of the list;
      every page up to the last one holds at least one. */
  lemma PageSliceIsWindow<T>(users: seq<T>, page: int)
    requires page >= 1
    ensures |PageSlice(users, page)| <= ItemsPerPage
    ensures PageSlice(users, page)
         == users[Min(StartIndex(page), |users|)..Min(StartIndex(page) + ItemsPerPage, |users|)]
    ensures page <= TotalPages(|users|) ==> |PageSlice(users, page)| > 0
  {
  }

  /** The first `k` pages laid end to end. */
  function Pages<T>(users: seq<T>, k: nat): seq<T> {
    if k == 0 then [] else Pages(users, k - 1) + PageSlice(users, k)
  }

  lemma {:induction false} PagesArePrefix<T>(users: seq<T>, k: nat)
    ensures Pages(users, k) == users[..Min(k * ItemsPerPage, |users|)]
  {
    if k > 0 {
      PagesArePrefix(users, k - 1);
      PageSliceIsWindow(users, k);
      assert StartIndex(k) == (k - 1) * ItemsPerPage;
    }
  }

  /** Pages 1 through `TotalPages` concatenate back to the whole list, in order: paging loses
      and repeats no row. */
  lemma PagesCoverList<T>(users: seq<T>)
    ensures Pages(users, TotalPages(|users|)) == users
  {
    PagesArePrefix(users, TotalPages(|users|));
  }

  /** The number the table prints in front of the `index`-th row of `page`. */
  function RowNumber(page: int, index: int): int {
    (page - 1) * ItemsPerPage + index + 1
  }

  /** Row numbers run on across pages: the number shown before a row is its 1-based position
      in the whole list. */
  lemma RowNumberIsPosition<T>(users: seq<T>, page: int, index: int)
    requires page >= 1
    requires 0 <= index < |PageSlice(users, page)|
    ensures 1 <= RowNumber(page, index) <= |users|
    ensures users[RowNumber(page, index) - 1] == PageSlice(users, page)[index]
  {
    PageSliceIsWindow(users, page);
  }

  // ---------------------------------------------------------------------------
  // Which view the page shows
  // ---------------------------------------------------------------------------

  datatype View = ListView | DetailView

  /** A student id in the route shows that student's valuation; otherwise the list. */
  function ViewFor(studentId: Option<string>): (r: View)
    ensures r == DetailView <==> Present(studentId)
  {
    if Present(studentId) then DetailView else ListView
  }

  /** The list request the page's effect sends: all students, and only when someone is
      signed in and no student is selected. */
  function ListFetch(signedIn: bool, studentId: Option<string>): (r: Option<GetUsersQuery>)
    ensures r.Some? <==> signedIn && !Present(studentId)
    ensures r.Some? ==> r.value == GetUsersQuery(None, Some("Estudiante"), None)
  {
    if signedIn && !Present(studentId) then Some(GetUsersQuery(None, Some("Estudiante"), None)) else None
  }

  /** The list is only ever fetched while the list is the view shown. */
  lemma FetchOnlyInListView(signedIn: bool, studentId: Option<string>)
    ensures ListFetch(signedIn, studentId).Some? ==> ViewFor(studentId) == ListView
    ensures ViewFor(studentId) == DetailView ==> ListFetch(signedIn, studentId).None?
  {
  }
}

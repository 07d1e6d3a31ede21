/**
  The storefront's product grid: hiding products marked unavailable,
  twelve cards per page, and the page reset when the search changes.
 */
module HomePage {
  import opened Wrappers
  import opened JsText

  /** A product as the grid receives it; only the availability flag matters
      to the grid's logic, and it may be missing from the JSON. */
  datatype Card = Card(id: string, isAvailable: Option<bool>)

  const PerPage := 12

  /** `p.isAvailable !== false`: a missing flag keeps the card. */
  predicate Shown(c: Card) {
    c.isAvailable != Some(false)
  }

  /** The filtered list, in the order received. */
  function Visible(cards: seq<Card>): (r: seq<Card>)
    ensures forall c :: c in r <==> c in cards && Shown(c)
    ensures |r| <= |cards|
  {
    if |cards| == 0 then []
    else (if Shown(cards[0]) then [cards[0]] else []) + Visible(cards[1..])
  }

  /** Filtering a list is filtering its parts in turn, so the grid keeps
      the order the products arrived in. */
  lemma {:induction false} VisibleAppend(a: seq<Card>, b: seq<Card>)
    ensures Visible(a + b) == Visible(a) + Visible(b)
  {
    if |a| > 0 {
      assert (a + b)[1..] == a[1..] + b;
      VisibleAppend(a[1..], b);
    } else {
      assert a + b == b;
    }
  }

  /** A relative index of `Array.prototype.slice`: negative counts from the
      end, and the result is clamped to `[0, len]`. */
  function SliceIndex(i: int, len: nat): (k: nat)
    ensures k <= len
    ensures 0 <= i <= len ==> k == i
  {
    if i < 0 then (if len + i < 0 then 0 else len + i) else if i > len then len else i
  }

  /** `xs.slice(start, end)`. */
  function JsSlice<T>(xs: seq<T>, start: int, end: int): (r: seq<T>)
    ensures 0 <= start <= end <= |xs| ==> r == xs[start..end]
    ensures |r| <= |xs|
  {
    var a := SliceIndex(start, |xs|);
    var b := SliceIndex(end, |xs|);
    if a < b then xs[a..b] else []
  }

  function Min(a: int, b: int): int {
    if a < b then a else b
  }

  /** The cards on page `page`: from `page*12 - 12` up to `page*12`. */
  function Page<T>(xs: seq<T>, page: int): (r: seq<T>)
    ensures |r| <= PerPage
    ensures page >= 1 && (page - 1) * PerPage <= |xs| ==>
      r == xs[(page - 1) * PerPage..Min(page * PerPage, |xs|)]
    ensures page >= 1 && (page - 1) * PerPage >= |xs| ==> r == []
  {
    var last := page * PerPage;
    JsSlice(xs, last - PerPage, last)
  }

  /** `Math.ceil(n / 12) || 1`. */
  function TotalPages(n: nat): (t: nat)
    ensures t >= 1
    ensures n > 0 ==> (t - 1) * PerPage < n <= t * PerPage
    ensures n == 0 ==> t == 1
  {
    if n == 0 then 1 else (n + PerPage - 1) / PerPage
  }

  /** Pages `from..to` laid end to end. */
  function Pages<T>(xs: seq<T>, from: int, to: int): seq<T>
    decreases to - from
  {
    if from > to then [] else Page(xs, from) + Pages(xs, from + 1, to)
  }

  /** Pages `p..TotalPages` together hold exactly the items from `(p-1)*12` on. */
  lemma {:induction false} PagesFrom<T>(xs: seq<T>, p: int)
    requires 1 <= p && (p - 1) * PerPage <= |xs|
    ensures Pages(xs, p, TotalPages(|xs|)) == xs[(p - 1) * PerPage..]
    decreases TotalPages(|xs|) - p
  {
    var t := TotalPages(|xs|);
    if p > t {
      assert (p - 1) * PerPage >= t * PerPage;
    } else if p * PerPage <= |xs| {
      PagesFrom(xs, p + 1);
      assert xs[(p - 1) * PerPage..] == xs[(p - 1) * PerPage..p * PerPage] + xs[p * PerPage..];
    } else {
      assert p == t;
      assert Pages(xs, p + 1, t) == [];
      assert xs[(p - 1) * PerPage..] == xs[(p - 1) * PerPage..|xs|];
    }
  }

  /** Every page from the first to the last, in order, is the whole list:
      no card is skipped or shown twice. */
  lemma {:induction false} PagesCoverList<T>(xs: seq<T>)
    ensures Pages(xs, 1, TotalPages(|xs|)) == xs
  {
    PagesFrom(xs, 1);
  }

  /** The grid's state: the search text and the current page. */
  datatype Grid = Grid(query: string, page: int)

  /** Reading the `q` parameter: absent means `""`, and the text is trimmed. */
  function QueryOf(q: Option<string>): (r: string)
    ensures Trimmed(r)
    ensures q.None? ==> r == ""
  {
    Trim(q.GetOr(""))
  }

  /** Navigating to a location: a different search goes back to page one,
      the same search keeps the page. */
  function Navigate(g: Grid, q: Option<string>): (r: Grid)
    ensures r.query == QueryOf(q)
    ensures r.query != g.query ==> r.page == 1
    ensures r.query == g.query ==> r == g
  {
    var query := QueryOf(q);
    if query != g.query then Grid(query, 1) else g
  }

  /** Choosing a page button, numbered `1..TotalPages`. */
  function ChoosePage(g: Grid, cards: seq<Card>, button: int): (r: Grid)
    requires 1 <= button <= TotalPages(|Visible(cards)|)
    ensures r.query == g.query && r.page == button
    ensures |Page(Visible(cards), r.page)| > 0 || |Visible(cards)| == 0
  {
    Grid(g.query, button)
  }

  /** Searching with padded text and then with the trimmed text is one
      search: the second navigation keeps the page. */
  lemma PaddedQueryIsSameSearch(g: Grid, q: string)
    ensures var a := Navigate(g, Some(q));
      Navigate(a, Some(Trim(q))) == a
  {
    TrimOfTrimmed(Trim(q));
  }
}

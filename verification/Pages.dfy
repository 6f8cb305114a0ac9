/** The page bar and the page slices of the aid movement list. */
module Pages {
  import opened Common

  const PER_PAGE := 25

  /** The number of pages; an empty list has one empty page. */
  function TotalPages(total: nat): (n: nat)
    ensures n >= 1
  {
    if total > 0 then (total + PER_PAGE - 1) / PER_PAGE else 1
  }

  // ----- The page bar -----

  /** How many pages the bar shows at its edges and around the current page (itself counted to the right). */
  datatype Bar = Bar(pages: nat, page: int, leftEdge: nat, leftCurrent: nat, rightCurrent: nat, rightEdge: nat)

  function DefaultBar(pages: nat, page: int): Bar
  {
    Bar(pages, page, 2, 2, 3, 2)
  }

  predicate Shown(b: Bar, num: int)
  {
    || num <= b.leftEdge
    || (num > b.page - b.leftCurrent - 1 && num < b.page + b.rightCurrent)
    || num > b.pages - b.rightEdge
  }

  /** The largest page up to `n` that is shown, zero if there is none. */
  function Last(b: Bar, n: nat): (last: nat)
    ensures last <= n && (last > 0 ==> Shown(b, last))
    ensures forall k :: last < k <= n ==> !Shown(b, k)
  {
    if n == 0 then 0 else if Shown(b, n) then n else Last(b, n - 1)
  }

  /** The entries of the bar for pages 1 to `n`; `None` marks a gap. */
  function Entries(b: Bar, n: nat): seq<Option<nat>>
  {
    if n == 0 then []
    else if Shown(b, n) then Entries(b, n - 1) + (if Last(b, n - 1) + 1 != n then [None] else []) + [Some(n)]
    else Entries(b, n - 1)
  }

  /** Writes the bar from left to right. */
  method IterPages(b: Bar) returns (entries: seq<Option<nat>>)
    ensures entries == Entries(b, b.pages)
  {
    entries := [];
    var last := 0;
    for num := 1 to b.pages + 1
      invariant last == Last(b, num - 1)
      invariant entries == Entries(b, num - 1)
    {
      if Shown(b, num) {
        if last + 1 != num {
          entries := entries + [None];
        }
        entries := entries + [Some(num)];
        last := num;
      }
    }
  }

  function Numbers(entries: seq<Option<nat>>): set<nat>
  {
    set e | e in entries && e.Some? :: e.value
  }

  function ShownUpTo(b: Bar, n: nat): set<nat>
  {
    set k: nat | 1 <= k <= n && Shown(b, k)
  }

  function GapsUpTo(b: Bar, n: nat): set<nat>
  {
    set k: nat | 2 <= k <= n && AfterGap(b, k)
  }

  /** Page `k` is shown and the page before it is not. */
  predicate AfterGap(b: Bar, k: nat)
  {
    k >= 2 && Shown(b, k) && !Shown(b, k - 1)
  }

  function CountNumbers(entries: seq<Option<nat>>): nat
  {
    if entries == [] then 0
    else CountNumbers(entries[..|entries| - 1]) + if entries[|entries| - 1].Some? then 1 else 0
  }

  lemma CountLast(entries: seq<Option<nat>>, e: Option<nat>)
    ensures CountNumbers(entries + [e]) == CountNumbers(entries) + if e.Some? then 1 else 0
  {
    assert (entries + [e])[..|entries|] == entries;
  }

  /** Every selected page is shown and nothing else is. */
  lemma {:induction false} BarExact(b: Bar, n: nat)
    ensures Numbers(Entries(b, n)) == ShownUpTo(b, n)
  {
    if n > 0 {
      BarExact(b, n - 1);
      var before := Entries(b, n - 1);
      if Shown(b, n) {
        assert ShownUpTo(b, n) == ShownUpTo(b, n - 1) + {n};
        NumbersLast(before, None);
        NumbersLast(before, Some(n));
        NumbersLast(before + [None], Some(n));
        assert before + [] == before;
      } else {
        assert ShownUpTo(b, n) == ShownUpTo(b, n - 1);
      }
    }
  }

  lemma ShownNext(b: Bar, n: nat)
    requires n > 0
    ensures |ShownUpTo(b, n)| == |ShownUpTo(b, n - 1)| + if Shown(b, n) then 1 else 0
  {
    var before := ShownUpTo(b, n - 1);
    assert n !in before;
    assert ShownUpTo(b, n) == if Shown(b, n) then before + {n} else before;
  }

  lemma CountNext(b: Bar, n: nat)
    requires n > 0
    ensures CountNumbers(Entries(b, n)) == CountNumbers(Entries(b, n - 1)) + if Shown(b, n) then 1 else 0
  {
    var before := Entries(b, n - 1);
    CountLast(before, None);
    CountLast(before, Some(n));
    CountLast(before + [None], Some(n));
    assert before + [] == before;
  }

  /** Every selected page is shown once. */
  lemma {:induction false} BarCounts(b: Bar, n: nat)
    ensures CountNumbers(Entries(b, n)) == |ShownUpTo(b, n)|
  {
    if n > 0 {
      BarCounts(b, n - 1);
      ShownNext(b, n);
      CountNext(b, n);
    }
  }

  lemma GapIsMarked(b: Bar, n: nat)
    requires n > 0
    ensures Shown(b, n) && Last(b, n - 1) + 1 != n <==> AfterGap(b, n)
    ensures GapsUpTo(b, n) == GapsUpTo(b, n - 1) + if AfterGap(b, n) then {n} else {}
  {
  }

  /** Every gap before a shown page is marked once. */
  lemma {:induction false} BarMarks(b: Bar, n: nat)
    ensures |Entries(b, n)| == CountNumbers(Entries(b, n)) + |GapsUpTo(b, n)|
  {
    if n > 0 {
      BarMarks(b, n - 1);
      GapIsMarked(b, n);
      CountNext(b, n);
    }
  }

  /** The page numbers of the bar: both edges and the window around the page, and no others. */
  lemma BarNumbers(b: Bar, k: nat)
    ensures k in Numbers(Entries(b, b.pages)) <==>
              && 1 <= k <= b.pages
              && (|| k <= b.leftEdge
                  || b.page - b.leftCurrent <= k < b.page + b.rightCurrent
                  || b.pages - b.rightEdge < k)
  {
    BarExact(b, b.pages);
  }

  /** By default these are the first two, the last two, and those within two of the page. */
  lemma DefaultBarNumbers(pages: nat, page: int, k: nat)
    ensures k in Numbers(Entries(DefaultBar(pages, page), pages)) <==>
              1 <= k <= pages && (k <= 2 || page - 2 <= k <= page + 2 || pages - 1 <= k)
  {
    BarNumbers(DefaultBar(pages, page), k);
  }

  lemma NumbersLast(entries: seq<Option<nat>>, e: Option<nat>)
    ensures Numbers(entries + [e]) == Numbers(entries) + if e.Some? then {e.value} else {}
  {
    assert forall x :: x in entries + [e] <==> x in entries || x == e;
  }

  /** Entry `i` fits its predecessor: numbers are consecutive, a marker stands exactly where pages are left out. */
  ghost predicate Fits(b: Bar, entries: seq<Option<nat>>, i: nat)
    requires i < |entries|
  {
    match entries[i]
    case None =>
      i + 1 < |entries| && entries[i + 1].Some?
      && var from := if i == 0 then 0 else if entries[i - 1].Some? then entries[i - 1].value else entries[i + 1].value;
         from + 1 < entries[i + 1].value && forall k :: from < k < entries[i + 1].value ==> !Shown(b, k)
    case Some(num) =>
      if i == 0 then num == 1
      else entries[i - 1].None? || entries[i - 1] == Some(num - 1)
  }

  lemma {:induction false} BarFits(b: Bar, n: nat)
    ensures var e := Entries(b, n);
            && (forall i :: 0 <= i < |e| ==> Fits(b, e, i))
            && (if Last(b, n) == 0 then e == [] else |e| > 0 && e[|e| - 1] == Some(Last(b, n)))
  {
    if n > 0 {
      BarFits(b, n - 1);
      if Shown(b, n) {
        var before, e := Entries(b, n - 1), Entries(b, n);
        forall i | 0 <= i < |e| ensures Fits(b, e, i) {
          if i < |before| {
            assert Fits(b, before, i);
            assert e[i] == before[i];
          }
        }
      }
    }
  }

  /** The bar has at most two gap markers and as many numbers as its edges and the window add up to. */
  lemma BarSize(b: Bar)
    ensures CountNumbers(Entries(b, b.pages)) <= b.leftEdge + b.leftCurrent + b.rightCurrent + b.rightEdge
    ensures |Entries(b, b.pages)| - CountNumbers(Entries(b, b.pages)) <= 2
  {
    BarCounts(b, b.pages);
    BarMarks(b, b.pages);
    FewShown(b);
    FewGaps(b);
  }

  lemma FewShown(b: Bar)
    ensures |ShownUpTo(b, b.pages)| <= b.leftEdge + b.leftCurrent + b.rightCurrent + b.rightEdge
  {
    var left, window, right :=
      Range(1, b.leftEdge), Range(b.page - b.leftCurrent, b.leftCurrent + b.rightCurrent),
      Range(b.pages - b.rightEdge + 1, b.rightEdge);
    Within(ShownUpTo(b, b.pages), left + window + right);
  }

  lemma FewGaps(b: Bar)
    ensures |GapsUpTo(b, b.pages)| <= 2
  {
    Within(GapsUpTo(b, b.pages), {b.page - b.leftCurrent, b.pages - b.rightEdge + 1});
  }

  function Range(from: int, n: nat): (r: set<int>)
    ensures forall k :: k in r <==> from <= k < from + n
    ensures |r| == n
  {
    if n == 0 then {} else Range(from, n - 1) + {from + n - 1}
  }

  lemma {:induction false} Within(a: set<nat>, b: set<int>)
    requires forall k :: k in a ==> k in b
    ensures |a| <= |b|
  {
    if a != {} {
      var k :| k in a;
      Within(a - {k}, b - {k});
    }
  }

  /** With the default sizes: at most nine numbers and two markers, both edges and the current page among them. */
  lemma DefaultBarShows(pages: nat, page: int)
    requires 1 <= page <= pages
    ensures var e := Entries(DefaultBar(pages, page), pages);
            && {1, page, pages} <= Numbers(e)
            && |e| <= 11 && CountNumbers(e) <= 9
            && e[0] == Some(1) && e[|e| - 1] == Some(pages)
  {
    var b := DefaultBar(pages, page);
    BarSize(b);
    BarExact(b, pages);
    BarFits(b, pages);
    var e := Entries(b, pages);
    assert Fits(b, e, 0);
    assert Shown(b, 1);
  }

  // ----- The slices -----

  /** `LIMIT` and `OFFSET` applied to the sorted rows, for a page from 1 on. */
  function Slice<T>(rows: seq<T>, page: nat): seq<T>
    requires page >= 1
  {
    rows[Cut(rows, page - 1)..Cut(rows, page)]
  }

  function Cut<T>(rows: seq<T>, page: nat): (i: nat)
    ensures i <= |rows|
  {
    if page * PER_PAGE <= |rows| then page * PER_PAGE else |rows|
  }

  function Slices<T>(rows: seq<T>, pages: nat): seq<T>
  {
    if pages == 0 then [] else Slices(rows, pages - 1) + Slice(rows, pages)
  }

  lemma {:induction false} SlicesArePrefix<T>(rows: seq<T>, pages: nat)
    ensures Slices(rows, pages) == rows[..Cut(rows, pages)]
  {
    if pages > 0 {
      SlicesArePrefix(rows, pages - 1);
    }
  }

  /** The pages tile the list: every row is on one page, in order; only the last page may be short. */
  lemma PagesTile<T>(rows: seq<T>)
    ensures Slices(rows, TotalPages(|rows|)) == rows
    ensures forall p :: 1 <= p < TotalPages(|rows|) ==> |Slice(rows, p)| == PER_PAGE
    ensures rows != [] ==> 1 <= |Slice(rows, TotalPages(|rows|))| <= PER_PAGE
    ensures forall p :: p > TotalPages(|rows|) ==> Slice(rows, p) == []
  {
    SlicesArePrefix(rows, TotalPages(|rows|));
  }
}

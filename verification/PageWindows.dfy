/** Page windows over a PDF, pages and blocks completing in any order. */
module PageWindows {
  import opened Numbers
  import opened Options
  import opened Sorting

  function SaturatingAdd(a: nat, b: nat): nat {
    if a + b > USIZE_MAX then USIZE_MAX else a + b
  }

  /** First page, last page and next page of one window. */
  function WindowBounds(pageCount: nat, start: nat, end: nat, windowSize: nat): Option<(nat, nat, nat)> {
    if pageCount == 0 || start > end || start >= pageCount then None
    else
      var last := Min(Min(end, pageCount - 1), SaturatingAdd(start, Max(windowSize, 1) - 1));
      Some((start, last, SaturatingAdd(last, 1)))
  }

  /** The pages `first` up to `past`, less one. */
  function Span(first: nat, past: nat): seq<nat>
    requires first <= past
  {
    seq(past - first, i requires i >= 0 => first + i)
  }

  lemma SpanJoin(first: nat, mid: nat, past: nat)
    requires first <= mid <= past
    ensures Span(first, mid) + Span(mid, past) == Span(first, past)
  {
  }

  // -------------------------------------------------------------- one window

  function PageOf<T>(fragment: (nat, T)): int {
    fragment.0
  }

  function Identity(page: nat): int {
    page
  }

  ghost predicate AllOk<T(!new), E(!new)>(pages: seq<nat>, outcome: nat -> Result<T, E>) {
    forall i :: 0 <= i < |pages| ==> outcome(pages[i]).Ok?
  }

  /** What the pages yield, each with its number. */
  function Fragments<T(!new), E(!new)>(pages: seq<nat>, outcome: nat -> Result<T, E>): (r: seq<(nat, T)>)
    requires AllOk(pages, outcome)
    ensures |r| == |pages|
  {
    seq(|pages|, i requires 0 <= i < |pages| => (pages[i], outcome(pages[i]).value))
  }

  lemma {:induction false} InsertFragment<T(!new), E(!new)>(page: nat, pages: seq<nat>, outcome: nat -> Result<T, E>)
    requires AllOk(pages, outcome) && outcome(page).Ok?
    ensures AllOk(Insert(page, pages, Identity), outcome)
    ensures Insert((page, outcome(page).value), Fragments(pages, outcome), PageOf)
         == Fragments(Insert(page, pages, Identity), outcome)
  {
    var fragments := Fragments(pages, outcome);
    if pages != [] && pages[|pages| - 1] > page {
      var rest := pages[..|pages| - 1];
      InsertFragment(page, rest, outcome);
      assert fragments[..|pages| - 1] == Fragments(rest, outcome);
    }
  }

  /** Sorting the fragments by page number is sorting the pages. */
  lemma {:induction false} SortFragments<T(!new), E(!new)>(pages: seq<nat>, outcome: nat -> Result<T, E>)
    requires AllOk(pages, outcome)
    ensures AllOk(Sort(pages, Identity), outcome)
    ensures Sort(Fragments(pages, outcome), PageOf) == Fragments(Sort(pages, Identity), outcome)
  {
    if pages != [] {
      var n := |pages| - 1;
      SortFragments(pages[..n], outcome);
      InsertFragment(pages[n], Sort(pages[..n], Identity), outcome);
      assert Fragments(pages, outcome)[..n] == Fragments(pages[..n], outcome);
    }
  }

  lemma TakeOut(done: seq<nat>, pending: seq<nat>, i: nat)
    requires i < |pending|
    ensures multiset(done + [pending[i]]) + multiset(pending[..i] + pending[i + 1..]) == multiset(done) + multiset(pending)
  {
    assert pending == pending[..i] + [pending[i]] + pending[i + 1..];
  }

  lemma AnyOrderSorts(done: seq<nat>, pages: seq<nat>)
    requires Increasing(pages, Identity) && multiset(done) == multiset(pages)
    ensures Sort(done, Identity) == pages
  {
    SortOrders(done, Identity);
    OneOrder(pages, Sort(done, Identity), Identity);
  }

  /** Runs the pages of one window; they may finish in any order. The result
      lists them in page order whatever that order was, or is the error of a
      page of the window. */
  method ParsePageWindow<T(!new), E(!new)>(pages: seq<nat>, outcome: nat -> Result<T, E>)
    returns (r: Result<seq<(nat, T)>, E>)
    requires Increasing(pages, Identity)
    ensures r.Ok? <==> AllOk(pages, outcome)
    ensures r.Ok? ==> r.value == Fragments(pages, outcome)
    ensures r.Err? ==> exists i :: 0 <= i < |pages| && outcome(pages[i]) == Err(r.error)
  {
    var pending, results := pages, [];
    ghost var done := [];
    while pending != []
      invariant multiset(done) + multiset(pending) == multiset(pages)
      invariant AllOk(done, outcome) && results == Fragments(done, outcome)
      decreases |pending|
    {
      var i: nat :| i < |pending|;
      TakeOut(done, pending, i);
      var page := pending[i];
      match outcome(page) {
        case Ok(fragment) => results := results + [(page, fragment)];
        case Err(error) =>
          assert page in multiset(pages);
          return Err(error);
      }
      done, pending := done + [page], pending[..i] + pending[i + 1..];
    }
    AnyOrderSorts(done, pages);
    SortFragments(done, outcome);
    r := Ok(Sort(results, PageOf));
  }

  // -------------------------------------------------------------- the upload

  /** One past the last page that will be parsed. */
  function PagesEnd(pageCount: nat, start: nat, end: nat): (past: nat)
    ensures past >= start
  {
    if start < pageCount && start <= end then Min(end, pageCount - 1) + 1 else start
  }

  /** The first page of window number `n`, each window a full one. */
  function WindowStart(start: nat, windowSize: nat, n: nat): (first: nat)
    ensures first >= start
  {
    if n == 0 then start else WindowStart(start, windowSize, n - 1) + windowSize
  }

  /** The page fails, it lies in window number `n`, and all earlier windows succeed. */
  ghost predicate FailsAt<T(!new), E(!new)>(
    page: nat, n: nat, start: nat, past: nat, windowSize: nat, outcome: nat -> Result<T, E>, error: E)
  {
    var first := WindowStart(start, windowSize, n);
    && first <= page < first + windowSize && page < past && outcome(page) == Err(error)
    && AllOk(Span(start, first), outcome)
  }

  lemma FirstFailure<T(!new), E(!new)>(
    page: nat, n: nat, start: nat, past: nat, windowSize: nat, outcome: nat -> Result<T, E>, error: E)
    requires FailsAt(page, n, start, past, windowSize, outcome, error)
    ensures start <= past && !AllOk(Span(start, past), outcome)
  {
    assert Span(start, past)[page - start] == page;
  }

  lemma NoPages<T(!new), E(!new)>(start: nat, outcome: nat -> Result<T, E>)
    ensures AllOk(Span(start, start), outcome) && Fragments(Span(start, start), outcome) == []
  {
  }

  lemma SpanIncreases(first: nat, past: nat)
    requires first <= past
    ensures Increasing(Span(first, past), Identity)
  {
  }

  lemma FailingPage<T(!new), E(!new)>(first: nat, past: nat, outcome: nat -> Result<T, E>, error: E) returns (page: nat)
    requires first <= past
    requires exists i :: 0 <= i < |Span(first, past)| && outcome(Span(first, past)[i]) == Err(error)
    ensures first <= page < past && outcome(page) == Err(error)
  {
    var i :| 0 <= i < |Span(first, past)| && outcome(Span(first, past)[i]) == Err(error);
    page := Span(first, past)[i];
  }

  lemma FragmentsJoin<T(!new), E(!new)>(first: nat, mid: nat, past: nat, outcome: nat -> Result<T, E>)
    requires first <= mid <= past && AllOk(Span(first, mid), outcome) && AllOk(Span(mid, past), outcome)
    ensures AllOk(Span(first, past), outcome)
    ensures Fragments(Span(first, mid), outcome) + Fragments(Span(mid, past), outcome)
         == Fragments(Span(first, past), outcome)
  {
    SpanJoin(first, mid, past);
  }

  /** A window is the next pages, at most as many as its size, up to the last
      page; there is none exactly when all pages are done. */
  lemma WindowCovers(pageCount: nat, start: nat, nextPage: nat, end: nat, windowSize: nat)
    requires pageCount <= USIZE_MAX && start <= nextPage <= PagesEnd(pageCount, start, end)
    ensures var past, window := PagesEnd(pageCount, start, end), WindowBounds(pageCount, nextPage, end, windowSize);
            match window
            case None => nextPage == past
            case Some((first, last, next)) =>
              && first == nextPage <= last < past && last < nextPage + Max(windowSize, 1) && next == last + 1
              && (next == past || next == nextPage + Max(windowSize, 1))
              && (next > end ==> next == past)
  {
  }

  /** The window loop: when every page succeeds the fragments are those of the
      pages from `start` to the last one asked for and present, in order, each
      once. Otherwise the error is that of a page of the first window that does
      not succeed. */
  method ParsePdf<T(!new), E(!new)>(pageCount: nat, start: nat, end: nat, windowSize: nat, outcome: nat -> Result<T, E>)
    returns (r: Result<seq<(nat, T)>, E>)
    requires pageCount <= USIZE_MAX && end <= USIZE_MAX
    ensures r.Ok? <==> AllOk(Span(start, PagesEnd(pageCount, start, end)), outcome)
    ensures r.Ok? ==> r.value == Fragments(Span(start, PagesEnd(pageCount, start, end)), outcome)
    ensures r.Err? ==> exists page: nat, n: nat ::
              FailsAt(page, n, start, PagesEnd(pageCount, start, end), Max(windowSize, 1), outcome, r.error)
  {
    hide AllOk, Fragments, Span, WindowBounds, PagesEnd;
    ghost var past, windows := PagesEnd(pageCount, start, end), 0;
    var fragments, nextPage := [], start;
    NoPages(start, outcome);
    while true
      invariant start <= nextPage <= past
      invariant nextPage == past || nextPage == WindowStart(start, Max(windowSize, 1), windows)
      invariant AllOk(Span(start, nextPage), outcome) && fragments == Fragments(Span(start, nextPage), outcome)
      decreases past - nextPage
    {
      WindowCovers(pageCount, start, nextPage, end, windowSize);
      var window := WindowBounds(pageCount, nextPage, end, windowSize);
      if window.None? {
        break;
      }
      var (first, last, next) := window.value;
      SpanIncreases(first, last + 1);
      var windowFragments := ParsePageWindow(Span(first, last + 1), outcome);
      if windowFragments.Err? {
        ghost var page := FailingPage(first, last + 1, outcome, windowFragments.error);
        assert FailsAt(page, windows, start, past, Max(windowSize, 1), outcome, windowFragments.error);
        FirstFailure(page, windows, start, past, Max(windowSize, 1), outcome, windowFragments.error);
        return windowFragments;
      }
      FragmentsJoin(start, nextPage, next, outcome);
      nextPage, windows := next, windows + 1;
      fragments := fragments + windowFragments.value;
      if nextPage > end {
        break;
      }
    }
    r := Ok(fragments);
  }

  // ---------------------------------------------------------- blocks of a page

  function BlockOf(extract: (nat, string)): int {
    extract.0
  }

  /** What a block shows once the answer to its request is known: an empty
      answer leaves it alone, and so does having no request. */
  function Applied<E(!new)>(was: Option<string>, block: nat, jobs: seq<nat>, answer: nat -> Result<string, E>)
    : Option<string>
  {
    if block in jobs && answer(block).Ok? && answer(block).value != "" then Some(answer(block).value) else was
  }

  ghost predicate Extracted<E(!new)>(extracts: seq<(nat, string)>, done: seq<nat>, answer: nat -> Result<string, E>) {
    && (forall i :: 0 <= i < |extracts| ==> extracts[i].0 in done && answer(extracts[i].0) == Ok(extracts[i].1))
    && (forall k :: k in done ==> answer(k).Ok? && (k, answer(k).value) in extracts)
  }

  lemma SortExtracted<E(!new)>(extracts: seq<(nat, string)>, done: seq<nat>, answer: nat -> Result<string, E>)
    requires Extracted(extracts, done, answer)
    ensures Extracted(Sort(extracts, BlockOf), done, answer)
  {
    var sorted := Sort(extracts, BlockOf);
    SortOrders(extracts, BlockOf);
    forall i | 0 <= i < |sorted|
      ensures sorted[i] in extracts
    {
      assert sorted[i] in multiset(sorted);
    }
    forall k | k in done
      ensures (k, answer(k).value) in sorted
    {
      assert (k, answer(k).value) in multiset(extracts);
    }
  }

  lemma AllExtracted<E(!new)>(extracts: seq<(nat, string)>, done: seq<nat>, jobs: seq<nat>, answer: nat -> Result<string, E>)
    requires Extracted(extracts, done, answer) && multiset(done) == multiset(jobs)
    ensures Extracted(extracts, jobs, answer) && forall i :: 0 <= i < |jobs| ==> answer(jobs[i]).Ok?
  {
    assert forall k :: k in jobs <==> k in multiset(jobs);
    assert forall k :: k in done <==> k in multiset(done);
    assert forall i :: 0 <= i < |jobs| ==> jobs[i] in jobs;
  }

  /** Requests the blocks of one page; the answers may arrive in any order. On
      success each block's content depends on its own answer only; the first
      error leaves every block as it was. */
  method ExtractBlocks<E(!new)>(contents: array<Option<string>>, jobs: seq<nat>, answer: nat -> Result<string, E>)
    returns (error: Option<E>)
    requires forall i :: 0 <= i < |jobs| ==> jobs[i] < contents.Length
    modifies contents
    ensures error.None? <==> forall i :: 0 <= i < |jobs| ==> answer(jobs[i]).Ok?
    ensures error.None? ==> forall b :: 0 <= b < contents.Length ==> contents[b] == Applied(old(contents[b]), b, jobs, answer)
    ensures error.Some? ==> contents[..] == old(contents[..])
    ensures error.Some? ==> exists i :: 0 <= i < |jobs| && answer(jobs[i]) == Err(error.value)
  {
    hide Extracted;
    var pending, extracts := jobs, [];
    ghost var done := [];
    assert Extracted(extracts, done, answer) by { NothingExtracted(answer); }
    while pending != []
      invariant multiset(done) + multiset(pending) == multiset(jobs)
      invariant Extracted(extracts, done, answer) && contents[..] == old(contents[..])
      decreases |pending|
    {
      var i: nat :| i < |pending|;
      TakeOut(done, pending, i);
      var block := pending[i];
      ghost var before := extracts;
      match answer(block) {
        case Ok(content) => extracts := extracts + [(block, content)];
        case Err(e) =>
          assert block in multiset(jobs);
          ghost var j :| 0 <= j < |jobs| && jobs[j] == block;
          return Some(e);
      }
      ExtractedGrows(before, done, block, answer);
      done, pending := done + [block], pending[..i] + pending[i + 1..];
    }
    AllExtracted(extracts, done, jobs, answer);
    SortExtracted(extracts, jobs, answer);
    extracts := Sort(extracts, BlockOf);
    ApplyExtracts(contents, jobs, extracts, answer);
    error := None;
  }

  lemma NothingExtracted<E(!new)>(answer: nat -> Result<string, E>)
    ensures Extracted([], [], answer)
  {
  }

  lemma ExtractedGrows<E(!new)>(extracts: seq<(nat, string)>, done: seq<nat>, block: nat, answer: nat -> Result<string, E>)
    requires Extracted(extracts, done, answer) && answer(block).Ok?
    ensures Extracted(extracts + [(block, answer(block).value)], done + [block], answer)
  {
    var more := extracts + [(block, answer(block).value)];
    forall k | k in done + [block]
      ensures answer(k).Ok? && (k, answer(k).value) in more
    {
      if k == block {
        assert more[|extracts|] == (k, answer(k).value);
      } else {
        assert (k, answer(k).value) in extracts;
      }
    }
  }

  method ApplyExtracts<E(!new)>(
    contents: array<Option<string>>, ghost jobs: seq<nat>, extracts: seq<(nat, string)>,
    ghost answer: nat -> Result<string, E>)
    requires forall k :: k in jobs ==> k < contents.Length
    requires Extracted(extracts, jobs, answer)
    modifies contents
    ensures forall b :: 0 <= b < contents.Length ==> contents[b] == Applied(old(contents[b]), b, jobs, answer)
  {
    for i := 0 to |extracts|
      invariant forall b :: 0 <= b < contents.Length ==>
                  contents[b] == if exists j :: 0 <= j < i && extracts[j].0 == b
                                 then Applied(old(contents[b]), b, jobs, answer)
                                 else old(contents[b])
    {
      var (block, content) := extracts[i];
      if content != "" {
        contents[block] := Some(content);
      }
    }
    forall b | 0 <= b < contents.Length && b in jobs
      ensures exists j :: 0 <= j < |extracts| && extracts[j].0 == b
    {
      assert (b, answer(b).value) in extracts;
    }
  }
}

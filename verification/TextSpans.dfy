/** Page spans over a document's full text, and looking an offset up in them
    (apps/api/app/text_extract.py). */
module TextSpans {

  datatype PageSpan = PageSpan(pageNumber: nat, startOffset: nat, endOffset: nat)

  datatype Document = Document(fullText: string, pages: seq<PageSpan>)

  /** str.strip("\f"). */
  function StripLeft(s: string): (stripped: string) {
    if s != [] && s[0] == '\U{000C}' then StripLeft(s[1..]) else s
  }

  function StripRight(s: string): (stripped: string) {
    if s != [] && s[|s| - 1] == '\U{000C}' then StripRight(s[..|s| - 1]) else s
  }

  function Strip(s: string): (stripped: string) {
    StripRight(StripLeft(s))
  }

  predicate FormFeeds(s: string) {
    forall c | c in s :: c == '\U{000C}'
  }

  lemma {:induction false} StripLeftIs(s: string)
    ensures exists a :: FormFeeds(a) && s == a + StripLeft(s)
    ensures StripLeft(s) != [] ==> StripLeft(s)[0] != '\U{000C}'
  {
    if s != [] && s[0] == '\U{000C}' {
      StripLeftIs(s[1..]);
      var a :| FormFeeds(a) && s[1..] == a + StripLeft(s[1..]);
      assert FormFeeds([s[0]] + a) && s == [s[0]] + a + StripLeft(s);
    } else {
      assert FormFeeds([]) && s == [] + StripLeft(s);
    }
  }

  lemma {:induction false} StripRightIs(s: string)
    ensures exists b :: FormFeeds(b) && s == StripRight(s) + b
    ensures StripRight(s) != [] ==>
              StripRight(s)[|StripRight(s)| - 1] != '\U{000C}' && StripRight(s)[0] == s[0]
  {
    if s != [] && s[|s| - 1] == '\U{000C}' {
      var k := |s| - 1;
      StripRightIs(s[..k]);
      var b :| FormFeeds(b) && s[..k] == StripRight(s[..k]) + b;
      assert FormFeeds(b + [s[k]]) && s == StripRight(s) + (b + [s[k]]);
    } else {
      assert FormFeeds([]) && s == StripRight(s) + [];
    }
  }

  /** Stripping takes off form feeds alone, and all of them at either end. */
  lemma StripIs(s: string)
    ensures exists a, b :: FormFeeds(a) && FormFeeds(b) && s == a + Strip(s) + b
    ensures var t := Strip(s); t != [] ==> t[0] != '\U{000C}' && t[|t| - 1] != '\U{000C}'
  {
    StripLeftIs(s);
    StripRightIs(StripLeft(s));
    var a :| FormFeeds(a) && s == a + StripLeft(s);
    var b :| FormFeeds(b) && StripLeft(s) == Strip(s) + b;
    assert s == a + Strip(s) + b;
  }

  function StripAll(raw: seq<string>): (pages: seq<string>) {
    seq(|raw|, i requires 0 <= i < |raw| => Strip(raw[i]))
  }

  /** Characters on the pages before k: where the loop starts page k. */
  function SpanStart(pages: seq<string>, k: nat): (offset: nat)
    requires k <= |pages|
  {
    if k == 0 then 0 else SpanStart(pages, k - 1) + |pages[k - 1]|
  }

  function Spans(pages: seq<string>): (spans: seq<PageSpan>) {
    seq(|pages|, k requires 0 <= k < |pages| => PageSpan(k + 1, SpanStart(pages, k), SpanStart(pages, k) + |pages[k]|))
  }

  /** "\n".join. */
  function Join(pages: seq<string>): (text: string) {
    if pages == [] then ""
    else if |pages| == 1 then pages[0]
    else Join(pages[..|pages| - 1]) + "\n" + pages[|pages| - 1]
  }

  method LoadDocument(rawPages: seq<string>) returns (d: Document)
    ensures d.pages == Spans(StripAll(rawPages)) && d.fullText == Join(StripAll(rawPages))
  {
    var pages: seq<PageSpan>, chunks: seq<string>, offset := [], [], 0;
    ghost var all := StripAll(rawPages);
    for index := 0 to |rawPages|
      invariant chunks == all[..index]
      invariant offset == SpanStart(all, index)
      invariant |pages| == index && forall k | 0 <= k < index :: pages[k] == Spans(all)[k]
    {
      var normalized := Strip(rawPages[index]);
      pages := pages + [PageSpan(index + 1, offset, offset + |normalized|)];
      chunks := chunks + [normalized];
      offset := offset + |normalized|;
    }
    assert chunks == all && pages == Spans(all);
    d := Document(Join(chunks), pages);
  }

  /** The first span around the offset, from span k on. */
  function LocateFrom(pages: seq<PageSpan>, start: nat, k: nat): (located: (nat, nat))
    requires k <= |pages|
    decreases |pages| - k
  {
    if k == |pages| then (0, start)
    else if pages[k].startOffset <= start < pages[k].endOffset then (pages[k].pageNumber, start - pages[k].startOffset)
    else LocateFrom(pages, start, k + 1)
  }

  function Located(pages: seq<PageSpan>, start: nat): (located: (nat, nat)) {
    LocateFrom(pages, start, 0)
  }

  method Locate(d: Document, start: nat) returns (page: nat, offset: nat)
    ensures (page, offset) == Located(d.pages, start)
  {
    for k := 0 to |d.pages|
      invariant LocateFrom(d.pages, start, k) == Located(d.pages, start)
    {
      if d.pages[k].startOffset <= start < d.pages[k].endOffset {
        return d.pages[k].pageNumber, start - d.pages[k].startOffset;
      }
    }
    return 0, start;
  }

  // ----- where a character of a page is in the full text -----

  /** One newline for each page before k. */
  function Position(pages: seq<string>, k: nat, q: nat): (offset: nat)
    requires k < |pages|
  {
    SpanStart(pages, k) + k + q
  }

  lemma {:induction false} SpanStartPrefix(pages: seq<string>, n: nat, k: nat)
    requires k <= n <= |pages|
    ensures SpanStart(pages[..n], k) == SpanStart(pages, k)
  {
    if k > 0 {
      SpanStartPrefix(pages, n, k - 1);
    }
  }

  lemma {:induction false} JoinLength(pages: seq<string>)
    requires pages != []
    ensures |Join(pages)| == SpanStart(pages, |pages|) + |pages| - 1
  {
    var n := |pages| - 1;
    if n == 0 {
      assert SpanStart(pages, 0) == 0;
    } else {
      JoinLength(pages[..n]);
      SpanStartPrefix(pages, n, n);
    }
  }

  lemma {:induction false} PositionIs(pages: seq<string>, k: nat, q: nat)
    requires k < |pages| && q < |pages[k]|
    ensures Position(pages, k, q) < |Join(pages)| && Join(pages)[Position(pages, k, q)] == pages[k][q]
  {
    var n := |pages| - 1;
    if n > 0 {
      JoinLength(pages[..n]);
      SpanStartPrefix(pages, n, n);
      if k < n {
        PositionIs(pages[..n], k, q);
        SpanStartPrefix(pages, n, k);
      }
    }
  }

  /** And what stands before the first character of a later page is a newline. */
  lemma {:induction false} NewlineBefore(pages: seq<string>, k: nat)
    requires 0 < k < |pages|
    ensures 0 < Position(pages, k, 0) <= |Join(pages)| && Join(pages)[Position(pages, k, 0) - 1] == '\n'
  {
    var n := |pages| - 1;
    JoinLength(pages[..n]);
    SpanStartPrefix(pages, n, n);
    if k < n {
      NewlineBefore(pages[..n], k);
      SpanStartPrefix(pages, n, k);
    }
  }

  lemma {:induction false} SpansInOrder(pages: seq<string>, i: nat, j: nat)
    requires i <= j <= |pages|
    ensures SpanStart(pages, i) <= SpanStart(pages, j)
    ensures i < j ==> SpanStart(pages, i) + |pages[i]| <= SpanStart(pages, j)
  {
    if i < j {
      SpansInOrder(pages, i, j - 1);
    }
  }

  /** The spans do not overlap, so the first hit is the only one. */
  lemma {:induction false} LocateFinds(pages: seq<string>, start: nat, from: nat, k: nat)
    requires from <= k < |pages| && SpanStart(pages, k) <= start < SpanStart(pages, k) + |pages[k]|
    ensures LocateFrom(Spans(pages), start, from) == (k + 1, start - SpanStart(pages, k))
    decreases k - from
  {
    if from < k {
      SpansInOrder(pages, from, k);
      LocateFinds(pages, start, from + 1, k);
    }
  }

  lemma {:induction false} LocateNames(pages: seq<string>, start: nat, from: nat)
    requires from <= |pages|
    ensures var (page, offset) := LocateFrom(Spans(pages), start, from);
            page == 0 || (from < page <= |pages| && SpanStart(pages, page - 1) <= start
                          && start < SpanStart(pages, page - 1) + |pages[page - 1]|
                          && offset == start - SpanStart(pages, page - 1))
    decreases |pages| - from
  {
    if from < |pages| {
      LocateNames(pages, start, from + 1);
    }
  }

  /** The full text has the page's character at Position, but the spans do not count the newlines:
      locate names the right page exactly when the k newlines before it still fall inside page k, and the
      right place in it only on the first page. */
  lemma LocateNamesPageIff(rawPages: seq<string>, k: nat, q: nat)
    requires k < |rawPages| && q < |Strip(rawPages[k])|
    ensures var pages := StripAll(rawPages);
            var at := Position(pages, k, q);
            var (page, offset) := Located(Spans(pages), at);
            && at < |Join(pages)| && Join(pages)[at] == pages[k][q]
            && (page == k + 1 <==> q + k < |pages[k]|)
            && (page == k + 1 ==> offset == q + k)
            && ((page, offset) == (k + 1, q) <==> k == 0)
  {
    var pages := StripAll(rawPages);
    var at := Position(pages, k, q);
    PositionIs(pages, k, q);
    LocateNames(pages, at, 0);
    if q + k < |pages[k]| {
      LocateFinds(pages, at, 0, k);
    }
  }

  /** On two one-character pages the second page's character lies past both spans. */
  lemma SecondPageIsMissed(a: char, b: char)
    requires a != '\U{000C}' && b != '\U{000C}'
    ensures var pages := [[a], [b]];
            && StripAll(pages) == pages && Join(pages) == [a, '\n', b]
            && Position(pages, 1, 0) == 2 && Located(Spans(pages), 2) == (0, 2)
  {
    var pages := [[a], [b]];
    assert StripLeft([a]) == [a] && StripLeft([b]) == [b];
    assert StripAll(pages) == pages;
    assert pages[..1] == [[a]];
    assert SpanStart(pages, 1) == 1 && SpanStart(pages, 0) == 0;
    assert LocateFrom(Spans(pages), 2, 2) == (0, 2);
    assert LocateFrom(Spans(pages), 2, 1) == (0, 2);
  }
}

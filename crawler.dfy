/**
 * The crawler's frontier. A queue of (priority, url) entries, product pages
 * at priority 0 and other pages at priority 1, is sorted stably by priority
 * before each pop; a popped url that robots.txt allows is marked visited and
 * fetched, its page is recorded and its links are queued. The robots check
 * and the page fetch (with the HTML extraction behind it) are parameters.
 */
module Crawler {
  import opened Options
  import opened Text
  import opened Ordering
  import opened Tokenizer
  import opened Indexer

  /** `'product' in url.lower()`. */
  function IsProductUrl(url: string): (r: bool)
    ensures r <==> exists i :: OccursAt(Lower(url), "product", i)
  {
    Contains(Lower(url), "product")
  }

  /** The priority `add_urls_to_queue` gives a url. */
  function Priority(url: string): (p: nat)
    ensures p <= 1
    ensures p == 0 <==> IsProductUrl(url)
  {
    if IsProductUrl(url) then 0 else 1
  }

  datatype QueueEntry = QueueEntry(priority: nat, url: string)

  /** `[u for _, u in queue]`. */
  function QueuedUrls(q: seq<QueueEntry>): (r: seq<string>)
    ensures |r| == |q|
    ensures forall i :: 0 <= i < |q| ==> r[i] == q[i].url
  {
    seq(|q|, i requires 0 <= i < |q| => q[i].url)
  }

  // ---------------------------------------------------------------------
  // Stable sort by priority

  /** Insert `e` after every entry whose priority is not larger. */
  function InsertByPriority(sorted: seq<QueueEntry>, e: QueueEntry): seq<QueueEntry> {
    if sorted == [] then [e]
    else if e.priority < sorted[0].priority then [e] + sorted
    else [sorted[0]] + InsertByPriority(sorted[1..], e)
  }

  /** `sorted(queue, key=lambda x: x[0])`, a stable sort. */
  function SortByPriority(q: seq<QueueEntry>): seq<QueueEntry> {
    if q == [] then [] else InsertByPriority(SortByPriority(q[..|q| - 1]), q[|q| - 1])
  }

  /** The entries of priority `p`, in queue order. */
  function WithPriority(q: seq<QueueEntry>, p: nat): seq<QueueEntry> {
    if q == [] then []
    else if q[|q| - 1].priority == p then WithPriority(q[..|q| - 1], p) + [q[|q| - 1]]
    else WithPriority(q[..|q| - 1], p)
  }

  /** Every entry has priority 0 or 1. */
  predicate TwoLevels(q: seq<QueueEntry>) {
    forall i :: 0 <= i < |q| ==> q[i].priority <= 1
  }

  /** Insertion passes over a prefix whose priorities are not larger than the new entry's. */
  lemma {:induction false} InsertSkips(prefix: seq<QueueEntry>, suffix: seq<QueueEntry>, e: QueueEntry)
    requires forall i :: 0 <= i < |prefix| ==> prefix[i].priority <= e.priority
    ensures InsertByPriority(prefix + suffix, e) == prefix + InsertByPriority(suffix, e)
  {
    if prefix != [] {
      var s := prefix + suffix;
      assert s[0] == prefix[0];
      assert s[1..] == prefix[1..] + suffix;
      InsertSkips(prefix[1..], suffix, e);
      assert prefix == [prefix[0]] + prefix[1..];
    } else {
      assert prefix + suffix == suffix;
    }
  }

  lemma InsertTwoLevels(zeros: seq<QueueEntry>, ones: seq<QueueEntry>, e: QueueEntry)
    requires forall i :: 0 <= i < |zeros| ==> zeros[i].priority == 0
    requires forall i :: 0 <= i < |ones| ==> ones[i].priority == 1
    requires e.priority <= 1
    ensures InsertByPriority(zeros + ones, e) ==
              if e.priority == 0 then zeros + [e] + ones else zeros + ones + [e]
  {
    if e.priority == 0 {
      InsertSkips(zeros, ones, e);
      assert InsertByPriority(ones, e) == [e] + ones;
    } else {
      InsertSkips(zeros + ones, [], e);
      assert zeros + ones + [] == zeros + ones;
    }
  }

  lemma {:induction false} WithPriorityOnly(q: seq<QueueEntry>, p: nat)
    ensures forall i :: 0 <= i < |WithPriority(q, p)| ==> WithPriority(q, p)[i].priority == p
  {
    if q != [] {
      WithPriorityOnly(q[..|q| - 1], p);
    }
  }

  /**
   * On a queue of priorities 0 and 1, the stable sort puts the product
   * entries first and the others after them, each group in queue order.
   */
  lemma {:induction false} SortTwoLevels(q: seq<QueueEntry>)
    requires TwoLevels(q)
    ensures SortByPriority(q) == WithPriority(q, 0) + WithPriority(q, 1)
  {
    if q != [] {
      var init := q[..|q| - 1];
      SortTwoLevels(init);
      WithPriorityOnly(init, 0);
      WithPriorityOnly(init, 1);
      InsertTwoLevels(WithPriority(init, 0), WithPriority(init, 1), q[|q| - 1]);
    }
  }

  /** The first entry of priority `p`, in queue order, is `WithPriority(q, p)[0]`. */
  lemma {:induction false} WithPriorityFirst(q: seq<QueueEntry>, p: nat)
    ensures WithPriority(q, p) != [] <==> exists i :: 0 <= i < |q| && q[i].priority == p
    ensures WithPriority(q, p) != [] ==>
              exists i :: 0 <= i < |q| && q[i] == WithPriority(q, p)[0]
                          && q[i].priority == p && forall j :: 0 <= j < i ==> q[j].priority != p
  {
    if q != [] {
      var init := q[..|q| - 1];
      WithPriorityFirst(init, p);
      if WithPriority(init, p) != [] {
        var i :| 0 <= i < |init| && init[i] == WithPriority(init, p)[0]
                 && init[i].priority == p && forall j :: 0 <= j < i ==> init[j].priority != p;
        assert q[i] == init[i];
      } else if q[|q| - 1].priority == p {
        assert forall j :: 0 <= j < |q| - 1 ==> q[j].priority != p by {
          forall j | 0 <= j < |q| - 1 ensures q[j].priority != p {
            assert q[j] == init[j];
          }
        }
      } else {
        forall i | 0 <= i < |q| ensures q[i].priority != p {
          if i < |q| - 1 {
            assert q[i] == init[i];
          }
        }
      }
    }
  }

  /**
   * The entry a crawl step pops: the earliest product entry of the queue
   * when there is one, and otherwise the queue's first entry.
   */
  lemma PopsEarliestProduct(q: seq<QueueEntry>)
    requires TwoLevels(q) && q != []
    ensures var head := SortByPriority(q)[0];
            exists i :: 0 <= i < |q| && q[i] == head
                        && forall j :: 0 <= j < i ==> q[j].priority > head.priority
    ensures (exists i :: 0 <= i < |q| && q[i].priority == 0) <==> SortByPriority(q)[0].priority == 0
  {
    SortTwoLevels(q);
    WithPriorityFirst(q, 0);
    WithPriorityFirst(q, 1);
    WithPriorityOnly(q, 0);
    WithPriorityOnly(q, 1);
    if WithPriority(q, 0) == [] {
      assert q[0].priority == 1;
    }
  }

  /** The sort keeps the entries: the sorted queue is a permutation of the queue. */
  lemma {:induction false} SortByPriorityPermutes(q: seq<QueueEntry>)
    ensures multiset(SortByPriority(q)) == multiset(q)
  {
    if q != [] {
      SortByPriorityPermutes(q[..|q| - 1]);
      InsertPermutes(SortByPriority(q[..|q| - 1]), q[|q| - 1]);
      assert q == q[..|q| - 1] + [q[|q| - 1]];
    }
  }

  lemma {:induction false} InsertPermutes(sorted: seq<QueueEntry>, e: QueueEntry)
    ensures multiset(InsertByPriority(sorted, e)) == multiset(sorted) + multiset{e}
  {
    if sorted != [] && e.priority >= sorted[0].priority {
      InsertPermutes(sorted[1..], e);
      assert sorted == [sorted[0]] + sorted[1..];
    }
  }

  // ---------------------------------------------------------------------
  // Queueing links

  /**
   * `add_urls_to_queue` as a left fold: a url is appended, with its
   * priority, when it is neither visited nor queued by then.
   */
  function Enqueue(q: seq<QueueEntry>, visited: set<string>, urls: seq<string>): seq<QueueEntry> {
    if urls == [] then q
    else
      var init := Enqueue(q, visited, urls[..|urls| - 1]);
      var u := urls[|urls| - 1];
      if u !in visited && u !in QueuedUrls(init) then init + [QueueEntry(Priority(u), u)] else init
  }

  /**
   * The urls of `urls` not in `seen`, first occurrences only, in order: a
   * reference for what `Enqueue` appends.
   */
  function Fresh(urls: seq<string>, seen: set<string>): seq<string> {
    if urls == [] then []
    else if urls[0] in seen then Fresh(urls[1..], seen)
    else [urls[0]] + Fresh(urls[1..], seen + {urls[0]})
  }

  lemma {:induction false} FreshElems(urls: seq<string>, seen: set<string>)
    ensures forall u :: u in Fresh(urls, seen) <==> u in urls && u !in seen
  {
    if urls != [] {
      FreshElems(urls[1..], seen);
      FreshElems(urls[1..], seen + {urls[0]});
    }
  }

  lemma {:induction false} FreshSnoc(urls: seq<string>, u: string, seen: set<string>)
    ensures Fresh(urls + [u], seen) ==
              if u in seen || u in urls then Fresh(urls, seen) else Fresh(urls, seen) + [u]
  {
    if urls == [] {
      assert [] + [u] == [u];
    } else {
      assert (urls + [u])[1..] == urls[1..] + [u];
      assert (urls + [u])[0] == urls[0];
      if urls[0] in seen {
        FreshSnoc(urls[1..], u, seen);
      } else {
        FreshSnoc(urls[1..], u, seen + {urls[0]});
      }
    }
  }

  /** `add_urls_to_queue` removes nothing and gives each appended url its priority. */
  lemma {:induction false} EnqueueExtends(q: seq<QueueEntry>, visited: set<string>, urls: seq<string>)
    ensures var r := Enqueue(q, visited, urls);
            && |q| <= |r| && r[..|q|] == q
            && forall i :: |q| <= i < |r| ==> r[i].priority == Priority(r[i].url)
  {
    if urls != [] {
      EnqueueExtends(q, visited, urls[..|urls| - 1]);
    }
  }

  /**
   * What `add_urls_to_queue` appends is the fresh urls of the input
   * (neither visited nor queued before, first occurrence only), in input
   * order.
   */
  lemma {:induction false} EnqueueAppendsFresh(q: seq<QueueEntry>, visited: set<string>, urls: seq<string>)
    ensures |q| <= |Enqueue(q, visited, urls)|
    ensures QueuedUrls(Enqueue(q, visited, urls)[|q|..]) == Fresh(urls, visited + Elems(QueuedUrls(q)))
  {
    EnqueueExtends(q, visited, urls);
    if urls != [] {
      var seen := visited + Elems(QueuedUrls(q));
      var init := urls[..|urls| - 1];
      var u := urls[|urls| - 1];
      assert urls == init + [u];
      EnqueueAppendsFresh(q, visited, init);
      var prev := Enqueue(q, visited, init);
      EnqueueExtends(q, visited, init);
      EnqueueSnocTail(q, visited, init, u);
      FreshSnoc(init, u, seen);
      FreshElems(init, seen);
      QueuedUrlsSplit(prev, |q|);
      assert prev[..|q|] == q;
      FreshCondition(u, visited, QueuedUrls(q), QueuedUrls(prev), init, seen);
    }
  }

  /** One more url: `Enqueue` appends it exactly when it is neither visited nor queued. */
  lemma EnqueueSnocTail(q: seq<QueueEntry>, visited: set<string>, init: seq<string>, u: string)
    requires |q| <= |Enqueue(q, visited, init)|
    ensures var prev := Enqueue(q, visited, init);
            QueuedUrls(Enqueue(q, visited, init + [u])[|q|..])
            == if u !in visited && u !in QueuedUrls(prev) then QueuedUrls(prev[|q|..]) + [u]
               else QueuedUrls(prev[|q|..])
  {
    var urls := init + [u];
    assert urls[..|urls| - 1] == init;
    var prev := Enqueue(q, visited, init);
    if u !in visited && u !in QueuedUrls(prev) {
      var r := prev + [QueueEntry(Priority(u), u)];
      assert r[|q|..] == prev[|q|..] + [QueueEntry(Priority(u), u)];
    }
  }

  /** The condition under which `Enqueue` appends `u` is the one under which `Fresh` keeps it. */
  lemma FreshCondition(u: string, visited: set<string>, queued: seq<string>, prevUrls: seq<string>,
                       init: seq<string>, seen: set<string>)
    requires seen == visited + Elems(queued)
    requires forall v :: v in prevUrls <==> v in queued || (v in init && v !in seen)
    ensures (u !in visited && u !in prevUrls) <==> !(u in seen || u in init)
  {
  }

  lemma QueuedUrlsSplit(q: seq<QueueEntry>, k: nat)
    requires k <= |q|
    ensures QueuedUrls(q) == QueuedUrls(q[..k]) + QueuedUrls(q[k..])
  {
  }

  /** The appended urls keep the order of the input: they are a subsequence of it. */
  lemma {:induction false} FreshSubsequence(urls: seq<string>, seen: set<string>)
    ensures Subsequence(Fresh(urls, seen), urls)
  {
    if urls != [] {
      if urls[0] in seen {
        FreshSubsequence(urls[1..], seen);
        var r := Fresh(urls[1..], seen);
        FreshElems(urls[1..], seen);
        if r != [] {
          assert r[0] in r;
          SubsequenceSkip(r, urls);
        }
      } else {
        FreshSubsequence(urls[1..], seen + {urls[0]});
      }
    }
  }

  /** A subsequence of the tail whose first element differs from the head is a subsequence of the whole. */
  lemma SubsequenceSkip(xs: seq<string>, ys: seq<string>)
    requires ys != [] && Subsequence(xs, ys[1..])
    requires xs != [] ==> xs[0] != ys[0]
    ensures Subsequence(xs, ys)
  {
  }

  lemma FreshDistinct(urls: seq<string>, seen: set<string>)
    ensures Distinct(Fresh(urls, seen))
    decreases |urls|
  {
    if urls != [] && urls[0] !in seen {
      FreshDistinct(urls[1..], seen + {urls[0]});
      FreshElems(urls[1..], seen + {urls[0]});
      var r := Fresh(urls, seen);
      forall i, j | 0 <= i < j < |r| ensures r[i] != r[j] {
        if i == 0 {
          assert r[j] in Fresh(urls[1..], seen + {urls[0]});
        } else {
          assert r[i] == Fresh(urls[1..], seen + {urls[0]})[i - 1];
        }
      }
    } else if urls != [] {
      FreshDistinct(urls[1..], seen);
    }
  }

  /**
   * Queueing keeps the queue free of duplicate urls and of visited urls,
   * and afterwards every input url is visited or queued.
   */
  lemma EnqueueKeepsDisjoint(q: seq<QueueEntry>, visited: set<string>, urls: seq<string>)
    requires Distinct(QueuedUrls(q)) && forall i :: 0 <= i < |q| ==> q[i].url !in visited
    ensures var r := Enqueue(q, visited, urls);
            && Distinct(QueuedUrls(r))
            && (forall i :: 0 <= i < |r| ==> r[i].url !in visited)
            && (forall u :: u in urls ==> u in visited || u in QueuedUrls(r))
  {
    var seen := visited + Elems(QueuedUrls(q));
    var r := Enqueue(q, visited, urls);
    EnqueueExtends(q, visited, urls);
    EnqueueAppendsFresh(q, visited, urls);
    var added := Fresh(urls, seen);
    FreshElems(urls, seen);
    FreshDistinct(urls, seen);
    assert r == q + r[|q|..];
    forall i | 0 <= i < |r| ensures r[i].url !in visited {
      if i >= |q| {
        assert r[i].url == added[i - |q|];
        assert added[i - |q|] in added;
      }
    }
    forall i, j | 0 <= i < j < |r| ensures r[i].url != r[j].url {
      if j >= |q| {
        assert r[j].url == added[j - |q|];
        if i < |q| {
          assert r[i].url in Elems(QueuedUrls(q));
          assert added[j - |q|] in added;
        } else {
          assert r[i].url == added[i - |q|];
        }
      }
    }
    forall u | u in urls ensures u in visited || u in QueuedUrls(r) {
      if u !in seen {
        assert u in added;
        var k :| 0 <= k < |added| && added[k] == u;
        assert QueuedUrls(r)[|q| + k] == u;
      } else if u !in visited {
        var k :| 0 <= k < |q| && QueuedUrls(q)[k] == u;
        assert QueuedUrls(r)[k] == u;
      }
    }
  }

  // ---------------------------------------------------------------------
  // The crawl loop

  /** The crawler's mutable state, as one value. */
  datatype CrawlState = CrawlState(toVisit: seq<QueueEntry>, visited: set<string>, results: seq<Document>)

  /**
   * The urls of the recorded pages: the same projection as `QueuedUrls`,
   * over documents rather than queue entries.
   */
  function ResultUrls(rs: seq<Document>): (r: seq<string>)
    ensures |r| == |rs|
    ensures forall i :: 0 <= i < |rs| ==> r[i] == rs[i].url
  {
    seq(|rs|, i requires 0 <= i < |rs| => rs[i].url)
  }

  /**
   * What every crawl step keeps: priorities 0 and 1, no url queued twice,
   * no visited url queued, and every recorded page a distinct visited url.
   */
  ghost predicate Invariant(s: CrawlState) {
    && TwoLevels(s.toVisit)
    && Distinct(QueuedUrls(s.toVisit))
    && (forall i :: 0 <= i < |s.toVisit| ==> s.toVisit[i].url !in s.visited)
    && Distinct(ResultUrls(s.results))
    && (forall i :: 0 <= i < |s.results| ==> s.results[i].url in s.visited)
  }

  /**
   * One iteration of the loop of `crawl`: sort, pop the front, skip it if
   * visited or disallowed, otherwise mark it visited and, when the fetch
   * gives a page, record the page and queue its links.
   */
  function Step(s: CrawlState, canFetch: string -> bool, fetch: string -> Option<Document>): CrawlState
    requires s.toVisit != []
  {
    var sorted := SortByPriority(s.toVisit);
    SortByPriorityPermutes(s.toVisit);
    assert |sorted| == |s.toVisit| by {
      assert |multiset(sorted)| == |multiset(s.toVisit)|;
    }
    var url := sorted[0].url;
    var rest := sorted[1..];
    if url in s.visited || !canFetch(url) then CrawlState(rest, s.visited, s.results)
    else
      var visited := s.visited + {url};
      match fetch(url)
      case None => CrawlState(rest, visited, s.results)
      case Some(d) =>
        var page := d.(url := url);
        CrawlState(Enqueue(rest, visited, page.links), visited, s.results + [page])
  }

  /** The url a step pops. */
  function Popped(q: seq<QueueEntry>): string
    requires q != []
  {
    SortByPriorityPermutes(q);
    assert |SortByPriority(q)| == |q| by {
      assert |multiset(SortByPriority(q))| == |multiset(q)|;
    }
    SortByPriority(q)[0].url
  }

  /** Under the invariant the popped url is never already visited, so that branch of `crawl` is never taken. */
  lemma PoppedNotVisited(s: CrawlState)
    requires Invariant(s) && s.toVisit != []
    ensures Popped(s.toVisit) !in s.visited
  {
    SortByPriorityPermutes(s.toVisit);
    var head := SortByPriority(s.toVisit)[0];
    assert head in multiset(s.toVisit);
  }

  /** The sorted queue minus its front holds the queue's other urls, still distinct and unvisited. */
  lemma RestOfSorted(s: CrawlState)
    requires Invariant(s) && s.toVisit != []
    ensures var sorted := SortByPriority(s.toVisit);
            && |sorted| == |s.toVisit|
            && TwoLevels(sorted[1..])
            && Distinct(QueuedUrls(sorted[1..]))
            && (forall i :: 1 <= i < |sorted| ==> sorted[i].url !in s.visited && sorted[i].url != sorted[0].url)
  {
    var q := s.toVisit;
    var sorted := SortByPriority(q);
    SortByPriorityPermutes(q);
    PermutedEntries(sorted, q);
    assert QueuedUrls(sorted[1..]) == QueuedUrls(sorted)[1..];
    forall i | 0 <= i < |sorted| ensures sorted[i].priority <= 1 && sorted[i].url !in s.visited {
      var k :| 0 <= k < |q| && q[k] == sorted[i];
    }
  }

  /** A permutation of a queue holds the queue's entries, and its urls are distinct when the queue's are. */
  lemma PermutedEntries(a: seq<QueueEntry>, b: seq<QueueEntry>)
    requires multiset(a) == multiset(b)
    ensures |a| == |b|
    ensures forall i :: 0 <= i < |a| ==> exists k :: 0 <= k < |b| && b[k] == a[i]
    ensures Distinct(QueuedUrls(b)) ==> Distinct(QueuedUrls(a))
  {
    assert |multiset(a)| == |multiset(b)|;
    forall i | 0 <= i < |a| ensures exists k :: 0 <= k < |b| && b[k] == a[i] {
      assert a[i] in multiset(b);
    }
    if Distinct(QueuedUrls(b)) {
      forall i, j | 0 <= i < j < |a| ensures a[i].url != a[j].url {
        var x :| 0 <= x < |b| && b[x] == a[i];
        var y :| 0 <= y < |b| && b[y] == a[j];
        if x == y {
          MultisetTwice(a, i, j);
          MultisetOnce(b, x);
        }
      }
    }
  }

  /** A sequence holding the same value at two indices counts it at least twice. */
  lemma MultisetTwice<T>(xs: seq<T>, i: int, j: int)
    requires 0 <= i < j < |xs| && xs[i] == xs[j]
    ensures multiset(xs)[xs[i]] >= 2
  {
    assert xs == xs[..i] + [xs[i]] + xs[i + 1..j] + [xs[j]] + xs[j + 1..];
  }

  /** In a queue with distinct urls every entry occurs once. */
  lemma MultisetOnce(q: seq<QueueEntry>, a: int)
    requires Distinct(QueuedUrls(q)) && 0 <= a < |q|
    ensures multiset(q)[q[a]] == 1
  {
    assert q == q[..a] + [q[a]] + q[a + 1..];
    assert q[a] !in q[..a];
    assert q[a] !in q[a + 1..];
    assert multiset(q[..a])[q[a]] == 0;
    assert multiset(q[a + 1..])[q[a]] == 0;
  }

  /**
   * A step keeps the invariant; it visits at most the popped url, and only
   * when robots.txt allows it; it records a page only for that url, and
   * only when the fetch gives one.
   */
  lemma StepKeepsInvariant(s: CrawlState, canFetch: string -> bool, fetch: string -> Option<Document>)
    requires Invariant(s) && s.toVisit != []
    ensures var t := Step(s, canFetch, fetch);
            var url := Popped(s.toVisit);
            && Invariant(t)
            && t.visited == (if canFetch(url) then s.visited + {url} else s.visited)
            && t.results == (if canFetch(url) && fetch(url).Some? then s.results + [fetch(url).value.(url := url)]
                             else s.results)
  {
    PoppedNotVisited(s);
    RestOfSorted(s);
    var sorted := SortByPriority(s.toVisit);
    var url := sorted[0].url;
    var rest := sorted[1..];
    assert QueuedUrls(rest) == QueuedUrls(sorted)[1..];
    if canFetch(url) {
      var visited := s.visited + {url};
      assert forall i :: 0 <= i < |rest| ==> rest[i].url !in visited;
      if fetch(url).Some? {
        var page := fetch(url).value.(url := url);
        EnqueueKeepsDisjoint(rest, visited, page.links);
        EnqueueExtends(rest, visited, page.links);
        var r := Enqueue(rest, visited, page.links);
        assert TwoLevels(r) by {
          forall i | 0 <= i < |r| ensures r[i].priority <= 1 {
            if i < |rest| {
              assert r[i] == rest[i];
            }
          }
        }
        var results := s.results + [page];
        assert ResultUrls(results) == ResultUrls(s.results) + [url];
        assert url !in ResultUrls(s.results);
      }
    }
  }

  /**
   * A step either leaves the visited urls alone and shortens the queue, or
   * visits one new url. This holds in every state, so the crawl loop ends.
   */
  lemma StepProgress(s: CrawlState, canFetch: string -> bool, fetch: string -> Option<Document>)
    requires s.toVisit != []
    ensures var t := Step(s, canFetch, fetch);
            || (t.visited == s.visited && |t.toVisit| < |s.toVisit|)
            || (s.visited <= t.visited && |t.visited| == |s.visited| + 1)
  {
    SortByPriorityPermutes(s.toVisit);
    assert |multiset(SortByPriority(s.toVisit))| == |multiset(s.toVisit)|;
  }

  /**
   * The loop of `crawl`: steps while the queue is not empty and fewer than
   * `maxPages` urls are visited.
   */
  ghost function Run(s: CrawlState, maxPages: int, canFetch: string -> bool,
                     fetch: string -> Option<Document>): CrawlState
    decreases maxPages - |s.visited|, |s.toVisit|
  {
    if s.toVisit == [] || |s.visited| >= maxPages then s
    else
      StepProgress(s, canFetch, fetch);
      Run(Step(s, canFetch, fetch), maxPages, canFetch, fetch)
  }

  /** The loop stops with an empty queue or with the page limit reached. */
  lemma {:induction false} RunStops(s: CrawlState, maxPages: int, canFetch: string -> bool,
                                    fetch: string -> Option<Document>)
    ensures var t := Run(s, maxPages, canFetch, fetch);
            t.toVisit == [] || |t.visited| >= maxPages
    decreases maxPages - |s.visited|, |s.toVisit|
  {
    if s.toVisit != [] && |s.visited| < maxPages {
      StepProgress(s, canFetch, fetch);
      RunStops(Step(s, canFetch, fetch), maxPages, canFetch, fetch);
    }
  }

  /** From a state meeting the invariant, the loop keeps it. */
  lemma {:induction false} RunKeepsInvariant(s: CrawlState, maxPages: int, canFetch: string -> bool,
                                             fetch: string -> Option<Document>)
    requires Invariant(s)
    ensures Invariant(Run(s, maxPages, canFetch, fetch))
    decreases maxPages - |s.visited|, |s.toVisit|
  {
    if s.toVisit != [] && |s.visited| < maxPages {
      StepKeepsInvariant(s, canFetch, fetch);
      StepProgress(s, canFetch, fetch);
      RunKeepsInvariant(Step(s, canFetch, fetch), maxPages, canFetch, fetch);
    }
  }

  /**
   * In every state, a step only adds visited urls, each of which passed
   * the robots check, and appends at most one page, for a url it newly
   * visits.
   */
  lemma StepGrows(s: CrawlState, canFetch: string -> bool, fetch: string -> Option<Document>)
    requires s.toVisit != []
    ensures var t := Step(s, canFetch, fetch);
            && s.visited <= t.visited
            && (forall u :: u in t.visited - s.visited ==> canFetch(u))
            && |s.results| <= |t.results| <= |s.results| + 1 && t.results[..|s.results|] == s.results
            && (|t.results| > |s.results| ==> t.results[|s.results|].url in t.visited - s.visited)
  {
  }

  /**
   * The loop only adds visited urls, each of which passed the robots
   * check, and visits no more than `maxPages` urls unless more already
   * were.
   */
  lemma {:induction false} RunVisits(s: CrawlState, maxPages: int, canFetch: string -> bool,
                                     fetch: string -> Option<Document>)
    ensures var t := Run(s, maxPages, canFetch, fetch);
            && s.visited <= t.visited
            && (forall u :: u in t.visited - s.visited ==> canFetch(u))
            && (|t.visited| <= |s.visited| || |t.visited| <= maxPages)
    decreases maxPages - |s.visited|, |s.toVisit|
  {
    if s.toVisit != [] && |s.visited| < maxPages {
      StepGrows(s, canFetch, fetch);
      StepProgress(s, canFetch, fetch);
      RunVisits(Step(s, canFetch, fetch), maxPages, canFetch, fetch);
    }
  }

  /** The loop only appends pages. */
  lemma {:induction false} RunAppends(s: CrawlState, maxPages: int, canFetch: string -> bool,
                                      fetch: string -> Option<Document>)
    ensures var t := Run(s, maxPages, canFetch, fetch);
            |s.results| <= |t.results| && t.results[..|s.results|] == s.results
    decreases maxPages - |s.visited|, |s.toVisit|
  {
    if s.toVisit != [] && |s.visited| < maxPages {
      var n := Step(s, canFetch, fetch);
      StepGrows(s, canFetch, fetch);
      StepProgress(s, canFetch, fetch);
      RunAppends(n, maxPages, canFetch, fetch);
      var t := Run(n, maxPages, canFetch, fetch);
      assert Run(s, maxPages, canFetch, fetch) == t;
      assert t.results[..|s.results|] == n.results[..|s.results|];
    }
  }

  /** Each page the loop appends is for a url it newly visits. */
  lemma {:induction false} RunRecords(s: CrawlState, maxPages: int, canFetch: string -> bool,
                                      fetch: string -> Option<Document>)
    ensures var t := Run(s, maxPages, canFetch, fetch);
            forall i :: |s.results| <= i < |t.results| ==> t.results[i].url in t.visited - s.visited
    decreases maxPages - |s.visited|, |s.toVisit|
  {
    if s.toVisit != [] && |s.visited| < maxPages {
      var n := Step(s, canFetch, fetch);
      StepGrows(s, canFetch, fetch);
      StepProgress(s, canFetch, fetch);
      RunRecords(n, maxPages, canFetch, fetch);
      RunVisits(n, maxPages, canFetch, fetch);
      RunAppends(n, maxPages, canFetch, fetch);
      var t := Run(n, maxPages, canFetch, fetch);
      assert Run(s, maxPages, canFetch, fetch) == t;
      forall i | |s.results| <= i < |t.results|
        ensures t.results[i].url in t.visited - s.visited
      {
        if i < |n.results| {
          assert t.results[i] == t.results[..|n.results|][i];
        }
      }
    }
  }

  /** The crawler's state. */
  class WebCrawler {
    var startUrl: string
    var maxPages: int
    var toVisit: seq<QueueEntry>
    var visited: set<string>
    var results: seq<Document>

    /** `__init__`: the start url queued at priority 1, nothing visited. */
    constructor(startUrl: string, maxPages: int)
      ensures this.startUrl == startUrl && this.maxPages == maxPages
      ensures toVisit == [QueueEntry(1, startUrl)] && visited == {} && results == []
      ensures Invariant(State())
    {
      this.startUrl := startUrl;
      this.maxPages := maxPages;
      toVisit := [QueueEntry(1, startUrl)];
      visited := {};
      results := [];
    }

    function State(): CrawlState
      reads this
    {
      CrawlState(toVisit, visited, results)
    }

    /** `add_urls_to_queue`. */
    method AddUrlsToQueue(urls: seq<string>)
      modifies this
      ensures toVisit == Enqueue(old(toVisit), old(visited), urls)
      ensures visited == old(visited) && results == old(results)
      ensures startUrl == old(startUrl) && maxPages == old(maxPages)
    {
      for j := 0 to |urls|
        invariant toVisit == Enqueue(old(toVisit), visited, urls[..j])
        invariant visited == old(visited) && results == old(results)
        invariant startUrl == old(startUrl) && maxPages == old(maxPages)
      {
        var url := urls[j];
        assert urls[..j + 1][..j] == urls[..j];
        if url !in visited && url !in QueuedUrls(toVisit) {
          var priority := if IsProductUrl(url) then 0 else 1;
          toVisit := toVisit + [QueueEntry(priority, url)];
        }
      }
      assert urls[..|urls|] == urls;
    }

    /** One iteration of the loop of `crawl`. */
    method CrawlStep(canFetch: string -> bool, fetch: string -> Option<Document>)
      requires toVisit != []
      modifies this
      ensures State() == Step(old(State()), canFetch, fetch)
      ensures startUrl == old(startUrl) && maxPages == old(maxPages)
    {
      SortByPriorityPermutes(toVisit);
      assert |multiset(SortByPriority(toVisit))| == |multiset(toVisit)|;
      toVisit := SortByPriority(toVisit);
      var entry := toVisit[0];
      toVisit := toVisit[1..];
      if entry.url in visited {
        return;
      }
      if !canFetch(entry.url) {
        return;
      }
      visited := visited + {entry.url};
      var html := fetch(entry.url);
      if html.None? {
        return;
      }
      var page := html.value.(url := entry.url);
      results := results + [page];
      AddUrlsToQueue(page.links);
    }

    /**
     * `crawl`: run steps while the queue is not empty and fewer than
     * `max_pages` urls are visited; the final state is `Run` of the
     * initial one. The invariant holds throughout; at the
     * end the queue is empty or the limit is reached; visited urls and
     * recorded pages only grow; every newly visited url passed the robots
     * check; and no more than `max_pages` urls are visited unless more
     * already were.
     */
    method Crawl(canFetch: string -> bool, fetch: string -> Option<Document>)
      requires Invariant(State())
      modifies this
      ensures State() == Run(old(State()), maxPages, canFetch, fetch)
      ensures Invariant(State())
      ensures toVisit == [] || |visited| >= maxPages
      ensures old(visited) <= visited
      ensures forall u :: u in visited - old(visited) ==> canFetch(u)
      ensures |visited| <= |old(visited)| || |visited| <= maxPages
      ensures |old(results)| <= |results| && results[..|old(results)|] == old(results)
      ensures forall i :: |old(results)| <= i < |results| ==> results[i].url in visited - old(visited)
    {
      while toVisit != [] && |visited| < maxPages
        invariant Invariant(State())
        invariant startUrl == old(startUrl) && maxPages == old(maxPages)
        invariant Run(State(), maxPages, canFetch, fetch) == Run(old(State()), maxPages, canFetch, fetch)
        invariant old(visited) <= visited
        invariant forall u :: u in visited - old(visited) ==> canFetch(u)
        invariant |visited| <= |old(visited)| || |visited| <= maxPages
        invariant |old(results)| <= |results| && results[..|old(results)|] == old(results)
        invariant forall i :: |old(results)| <= i < |results| ==> results[i].url in visited - old(visited)
        decreases maxPages - |visited|, |toVisit|
      {
        ghost var before := State();
        StepKeepsInvariant(before, canFetch, fetch);
        CrawlStep(canFetch, fetch);
        ghost var url := Popped(before.toVisit);
        PoppedNotVisited(before);
        assert |toVisit| < |before.toVisit| || |visited| == |before.visited| + 1 by {
          if !canFetch(url) {
            RestOfSorted(before);
          }
        }
      }
    }
  }
}

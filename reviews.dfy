/**
 * The reviews index of the indexer: for every url, the number of reviews,
 * their mean rating and the rating of the last one.
 */
module Reviews {
  import opened Options
  import opened Indexer

  /** `{total_reviews, mean_mark, last_rating}`; the mean is a real number. */
  datatype ReviewStats = ReviewStats(totalReviews: nat, meanMark: real, lastRating: int)

  /** `review.get('rating', 0)`. */
  function Rating(r: Review): int {
    r.rating.GetOr(0)
  }

  /** `sum(ratings)`. */
  function SumRatings(rs: seq<Review>): int
    decreases |rs|
  {
    if rs == [] then 0 else SumRatings(rs[..|rs| - 1]) + Rating(rs[|rs| - 1])
  }

  /** The statistics of one document's review list. */
  function StatsOf(rs: seq<Review>): ReviewStats {
    if |rs| > 0 then ReviewStats(|rs|, SumRatings(rs) as real / |rs| as real, Rating(rs[|rs| - 1]))
    else ReviewStats(0, 0.0, 0)
  }

  /**
   * The statistics count the reviews, their mean times their count is the
   * sum of the ratings, and the last rating is the rating of the last
   * review; an empty list has zeros everywhere.
   */
  lemma StatsMeaning(rs: seq<Review>)
    ensures StatsOf(rs).totalReviews == |rs|
    ensures rs != [] ==> StatsOf(rs).meanMark * |rs| as real == SumRatings(rs) as real
    ensures rs != [] ==> StatsOf(rs).lastRating == Rating(rs[|rs| - 1])
    ensures rs == [] ==> StatsOf(rs) == ReviewStats(0, 0.0, 0)
  {
  }

  /** Ratings between `lo` and `hi` add up to between `|rs| * lo` and `|rs| * hi`. */
  lemma {:induction false} SumBetween(rs: seq<Review>, lo: int, hi: int)
    requires forall i :: 0 <= i < |rs| ==> lo <= Rating(rs[i]) <= hi
    ensures |rs| * lo <= SumRatings(rs) <= |rs| * hi
  {
    if rs != [] {
      var n := |rs| - 1;
      assert forall i :: 0 <= i < n ==> rs[..n][i] == rs[i];
      SumBetween(rs[..n], lo, hi);
      assert SumRatings(rs) == SumRatings(rs[..n]) + Rating(rs[n]);
      assert |rs| * lo == n * lo + lo && |rs| * hi == n * hi + hi;
    }
  }

  /** Dividing by a positive count keeps the bounds of the average. */
  lemma DivBetween(sum: real, n: real, lo: real, hi: real)
    requires n > 0.0 && lo * n <= sum <= hi * n
    ensures lo <= sum / n <= hi
  {
  }

  /** Integer bounds on a sum carry over to reals. */
  lemma RealBounds(sum: int, n: int, lo: int, hi: int)
    requires n * lo <= sum <= n * hi
    ensures lo as real * n as real <= sum as real <= hi as real * n as real
  {
    assert (n * lo) as real == lo as real * n as real;
    assert (n * hi) as real == hi as real * n as real;
  }

  /**
   * When every rating lies between `lo` and `hi` (1 and 5 on the site), so
   * does the mean mark of a non-empty review list.
   */
  lemma MeanBetween(rs: seq<Review>, lo: int, hi: int)
    requires rs != []
    requires forall i :: 0 <= i < |rs| ==> lo <= Rating(rs[i]) <= hi
    ensures lo as real <= StatsOf(rs).meanMark <= hi as real
  {
    var n := |rs|;
    var sum := SumRatings(rs);
    SumBetween(rs, lo, hi);
    RealBounds(sum, n, lo, hi);
    DivBetween(sum as real, n as real, lo as real, hi as real);
  }

  /** A missing rating counts as 0 in the mean and as the last rating. */
  lemma MissingRatingIsZero(rs: seq<Review>, d: string, id: string, text: string)
    ensures StatsOf(rs + [Review(d, id, None, text)]).lastRating == 0
    ensures SumRatings(rs + [Review(d, id, None, text)]) == SumRatings(rs)
  {
    assert (rs + [Review(d, id, None, text)])[..|rs|] == rs;
  }

  /** The reviews index of `docs`, document by document; a later document overwrites. */
  function ReviewsIndexOf(docs: seq<Document>): map<string, ReviewStats>
    decreases |docs|
  {
    if docs == [] then map[]
    else
      var d := docs[|docs| - 1];
      ReviewsIndexOf(docs[..|docs| - 1])[d.url := StatsOf(d.reviews)]
  }

  /** `create_reviews_index(documents)`. */
  method CreateReviewsIndex(docs: seq<Document>) returns (index: map<string, ReviewStats>)
    ensures index == ReviewsIndexOf(docs)
  {
    index := map[];
    for i := 0 to |docs|
      invariant index == ReviewsIndexOf(docs[..i])
    {
      assert docs[..i + 1][..i] == docs[..i];
      var d := docs[i];
      var reviews := d.reviews;
      var total := |reviews|;
      var stats;
      if total > 0 {
        var sum := 0;
        for j := 0 to total
          invariant sum == SumRatings(reviews[..j])
        {
          assert reviews[..j + 1][..j] == reviews[..j];
          sum := sum + Rating(reviews[j]);
        }
        assert reviews[..total] == reviews;
        stats := ReviewStats(total, sum as real / total as real, Rating(reviews[total - 1]));
      } else {
        stats := ReviewStats(0, 0.0, 0);
      }
      index := index[d.url := stats];
    }
    assert docs[..|docs|] == docs;
  }

  /** `docs[k]` is the last document with its url. */
  predicate LastWithUrl(docs: seq<Document>, k: int) {
    0 <= k < |docs| && forall j :: k < j < |docs| ==> docs[j].url != docs[k].url
  }

  /** Every url of the corpus has an entry and nothing else does. */
  lemma {:induction false} ReviewsIndexKeys(docs: seq<Document>)
    ensures forall u :: u in ReviewsIndexOf(docs) <==> exists k :: 0 <= k < |docs| && docs[k].url == u
  {
    if docs != [] {
      var n := |docs| - 1;
      var init := docs[..n];
      ReviewsIndexKeys(init);
      forall u ensures u in ReviewsIndexOf(docs) <==> exists k :: 0 <= k < |docs| && docs[k].url == u {
        if u in ReviewsIndexOf(init) {
          var k :| 0 <= k < n && init[k].url == u;
          assert docs[k].url == u;
        }
        if k :| 0 <= k < |docs| && docs[k].url == u {
          if k < n {
            assert init[k].url == u;
          }
        }
      }
    }
  }

  /** The entry of a url holds the statistics of the last document with that url. */
  lemma {:induction false} ReviewsIndexLast(docs: seq<Document>, k: int)
    requires LastWithUrl(docs, k)
    ensures docs[k].url in ReviewsIndexOf(docs)
    ensures ReviewsIndexOf(docs)[docs[k].url] == StatsOf(docs[k].reviews)
  {
    var n := |docs| - 1;
    if k < n {
      var init := docs[..n];
      assert init[k] == docs[k];
      assert LastWithUrl(init, k) by {
        forall j | k < j < |init| ensures init[j].url != init[k].url {
          assert init[j] == docs[j];
        }
      }
      ReviewsIndexLast(init, k);
    }
  }

  /** With unique urls, every document's entry holds its own statistics. */
  lemma ReviewsIndexUnique(docs: seq<Document>, k: int)
    requires UniqueUrls(docs) && 0 <= k < |docs|
    ensures docs[k].url in ReviewsIndexOf(docs)
    ensures ReviewsIndexOf(docs)[docs[k].url] == StatsOf(docs[k].reviews)
  {
    ReviewsIndexLast(docs, k);
  }

  /** Ratings 4, 2 and 5 give three reviews, mean 11/3 and last rating 5. */
  lemma StatsExample()
    ensures StatsOf([Review("", "", Some(4), ""), Review("", "", Some(2), ""), Review("", "", Some(5), "")])
            == ReviewStats(3, 11.0 / 3.0, 5)
  {
    var rs := [Review("", "", Some(4), ""), Review("", "", Some(2), ""), Review("", "", Some(5), "")];
    assert rs[..2][..1] == [rs[0]] && rs[..2] == [rs[0], rs[1]];
    assert [rs[0]][..0] == [];
    assert SumRatings([rs[0]]) == 4;
    assert SumRatings(rs[..2]) == 6;
    assert SumRatings(rs) == 11;
  }
}

/** `Run` (scraper/scraper.go) with the crawl taken as given: the collector's
    `tr.athing` callback is fed the selected fragments of every listing row,
    in document order over all visited pages, and the collected posts are
    then ranked and the top five printed. */
module Scraper {
  import opened Wrappers
  import opened Models
  import opened Extract
  import opened Ranking

  /** The `posts` slice that the row callback appends to and that the
      ranking step sorts in place and cuts down to five. */
  class Collector {
    var posts: seq<Post>

    constructor ()
      ensures posts == []
    {
      posts := [];
    }

    /** The `tr.athing` callback: builds the row's Post and appends it. Where
        the score text has no match `Run` panics; here the call answers
        false and leaves the collection as it was. */
    method OnRow(row: Row) returns (ok: bool)
      modifies this
      ensures ok <==> AssemblePost(row).Some?
      ensures ok ==> posts == old(posts) + [AssemblePost(row).value]
      ensures !ok ==> posts == old(posts)
    {
      match AssemblePost(row)
      case None =>
        ok := false;
      case Some(post) =>
        posts := posts + [post];
        ok := true;
    }

    /** The final step: `posts` is sorted by upvotes, highest first; when it
        holds more than five posts it is cut to its first five, and those are
        printed in order. Five or fewer print nothing and stay sorted. */
    method Rank() returns (printed: seq<Post>)
      modifies this
      ensures exists r :: && IsRanking(r, old(posts))
                          && printed == Emitted(r)
                          && posts == (if |r| > 5 then r[..5] else r)
    {
      posts := SortByUpvotes(posts);
      ghost var ranked := posts;
      printed := [];
      if |posts| > 5 {
        posts := posts[..5];
        for i := 0 to |posts|
          invariant printed == posts[..i]
        {
          printed := printed + [posts[i]];
        }
      }
      assert IsRanking(ranked, old(posts)) && printed == Emitted(ranked);
    }
  }

  /** How a run ends: `Run` panics on the first row whose score text has
      no match, or it prints the selected posts (possibly none). */
  datatype Outcome = Panicked(row: nat) | Printed(posts: seq<Post>)

  /** What each row yields: its post, or None where `Run` panics. */
  function Attempts(rows: seq<Row>): (out: seq<Option<Post>>)
    ensures |out| == |rows|
    ensures forall k :: 0 <= k < |rows| ==> out[k] == AssemblePost(rows[k])
  {
    seq(|rows|, k requires 0 <= k < |rows| => AssemblePost(rows[k]))
  }

  /** A whole run over the rows of all visited pages: either the first row
      without a score match panics, with every row before it well formed, or
      every row yields a post and what is printed is the top five of some
      ranking of those posts. */
  method Run(rows: seq<Row>) returns (outcome: Outcome)
    ensures outcome.Panicked? ==>
      && outcome.row < |rows|
      && AssemblePost(rows[outcome.row]).None?
      && AllSome(Attempts(rows)[..outcome.row])
    ensures outcome.Printed? ==>
      && AllSome(Attempts(rows))
      && exists r :: IsRanking(r, Values(Attempts(rows))) && outcome.posts == Emitted(r)
  {
    ghost var attempts := Attempts(rows);
    var collector := new Collector();
    for k := 0 to |rows|
      invariant AllSome(attempts[..k])
      invariant collector.posts == Values(attempts[..k])
    {
      var ok := collector.OnRow(rows[k]);
      if !ok {
        return Panicked(k);
      }
      ValuesExtend(attempts, k);
    }
    assert attempts[..|rows|] == attempts;
    var printed := collector.Rank();
    return Printed(printed);
  }
}

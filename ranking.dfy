/** The ranking step at the end of `Run` (scraper/scraper.go): the collected
    posts are sorted by upvotes, highest first, and only when there are more
    than five of them are the first five printed. */
module Ranking {
  import opened Models

  /** Upvotes never increase along `s`: the order `sort.Slice` leaves behind
      with the comparator `posts[i].Upvotes > posts[j].Upvotes`. */
  predicate SortedByUpvotes(s: seq<Post>) {
    forall i, j :: 0 <= i < j < |s| ==> s[i].upvotes >= s[j].upvotes
  }

  /** `r` is a possible result of sorting `all`: the same posts, highest score
      first. Posts with equal scores may come in any order, since
      `sort.Slice` is not stable. */
  ghost predicate IsRanking(r: seq<Post>, all: seq<Post>) {
    multiset(r) == multiset(all) && SortedByUpvotes(r)
  }

  /** A post scoring at least as much as the head of a sorted sequence can
      go in front of it. */
  lemma SortedCons(x: Post, r: seq<Post>)
    requires SortedByUpvotes(r)
    requires r == [] || x.upvotes >= r[0].upvotes
    ensures SortedByUpvotes([x] + r)
  {
    var s := [x] + r;
    forall a, b | 0 <= a < b < |s| ensures s[a].upvotes >= s[b].upvotes {
      if a == 0 && b > 1 {
        assert s[1] == r[0] && s[b] == r[b - 1];
      }
    }
  }

  /** `p` put into a sorted sequence after every post scoring at least as
      much as it: the result is sorted and holds exactly one more post. */
  function Insert(p: Post, r: seq<Post>): (out: seq<Post>)
    requires SortedByUpvotes(r)
    ensures SortedByUpvotes(out)
    ensures multiset(out) == multiset(r) + multiset{p}
    ensures out != [] && out[0] == (if r == [] || r[0].upvotes < p.upvotes then p else r[0])
  {
    if r == [] || r[0].upvotes < p.upvotes then
      SortedCons(p, r);
      [p] + r
    else
      var rest := Insert(p, r[1..]);
      SortedCons(r[0], rest);
      assert multiset([r[0]] + rest) == multiset(r) + multiset{p} by {
        assert r == [r[0]] + r[1..];
      }
      [r[0]] + rest
  }

  /** Sorting the collection by upvotes, highest first. An insertion sort
      stands for `sort.Slice`; any sort meeting this contract will do. */
  function SortByUpvotes(posts: seq<Post>): (r: seq<Post>)
    ensures IsRanking(r, posts)
  {
    if posts == [] then []
    else
      assert posts == [posts[0]] + posts[1..];
      Insert(posts[0], SortByUpvotes(posts[1..]))
  }

  /** The posts printed from a ranked collection: the first five when there
      are more than five, and none otherwise. */
  function Emitted(ranked: seq<Post>): (out: seq<Post>)
  {
    if |ranked| > 5 then ranked[..5] else []
  }

  /** Whatever order ties were put in, the printed posts are five of the
      collected ones, highest first, and none of the posts left out has a
      higher score than a printed one; five posts or fewer print nothing. */
  lemma EmittedAreTopFive(r: seq<Post>, all: seq<Post>)
    requires IsRanking(r, all)
    ensures |all| <= 5 ==> Emitted(r) == []
    ensures |all| > 5 ==> |Emitted(r)| == 5
    ensures SortedByUpvotes(Emitted(r))
    ensures multiset(Emitted(r)) <= multiset(all)
    ensures forall p, q :: p in Emitted(r) && q in multiset(all) - multiset(Emitted(r)) ==> p.upvotes >= q.upvotes
  {
    assert |r| == |all| by {
      assert |r| == |multiset(r)| && |all| == |multiset(all)|;
    }
    var top := Emitted(r);
    var n := |top|;
    assert top == r[..n];
    assert multiset(all) == multiset(top) + multiset(r[n..]) by {
      assert r == r[..n] + r[n..];
    }
    PrefixDominates(r, n);
    forall p, q | p in top && q in multiset(all) - multiset(top) ensures p.upvotes >= q.upvotes {
      assert q in multiset(r[n..]);
    }
  }

  /** In a sorted sequence, every post before a cut scores at least as much
      as every post after it. */
  lemma PrefixDominates(r: seq<Post>, n: nat)
    requires SortedByUpvotes(r) && n <= |r|
    ensures forall p, q :: p in r[..n] && q in r[n..] ==> p.upvotes >= q.upvotes
  {
    forall p, q | p in r[..n] && q in r[n..] ensures p.upvotes >= q.upvotes {
      var a :| 0 <= a < n && r[..n][a] == p;
      var b :| 0 <= b < |r| - n && r[n..][b] == q;
      assert r[a] == p && r[n + b] == q;
    }
  }

  /** The scores along a sequence of posts. */
  function Upvotes(s: seq<Post>): (u: seq<int>)
    ensures |u| == |s| && forall i :: 0 <= i < |s| ==> u[i] == s[i].upvotes
  {
    if s == [] then [] else [s[0].upvotes] + Upvotes(s[1..])
  }

  lemma {:induction false} UpvotesAppend(a: seq<Post>, b: seq<Post>)
    ensures Upvotes(a + b) == Upvotes(a) + Upvotes(b)
  {
    if a != [] {
      assert (a + b)[1..] == a[1..] + b;
      UpvotesAppend(a[1..], b);
    } else {
      assert a + b == b;
    }
  }

  predicate NonIncreasing(u: seq<int>) {
    forall i, j :: 0 <= i < j < |u| ==> u[i] >= u[j]
  }

  /** Taking out the first element takes one copy of it out of the multiset. */
  lemma Behead<T>(s: seq<T>)
    requires s != []
    ensures multiset(s[1..]) == multiset(s) - multiset{s[0]}
    ensures multiset(s) == multiset{s[0]} + multiset(s[1..])
  {
    assert s == [s[0]] + s[1..];
  }

  /** Taking out the post at `m` takes one copy of it out of the multiset. */
  lemma RemoveAt(t: seq<Post>, m: nat)
    requires m < |t|
    ensures multiset(t[..m] + t[m + 1..]) == multiset(t) - multiset{t[m]}
  {
    assert t == t[..m] + [t[m]] + t[m + 1..];
  }

  /** Taking out the post at `m` takes one copy of its score out of the scores. */
  lemma UpvotesRemoveAt(t: seq<Post>, m: nat)
    requires m < |t|
    ensures multiset(Upvotes(t)) == multiset(Upvotes(t[..m] + t[m + 1..])) + multiset{t[m].upvotes}
  {
    assert t == t[..m] + t[m..];
    assert t[m..][1..] == t[m + 1..];
    UpvotesAppend(t[..m], t[m..]);
    UpvotesAppend(t[..m], t[m + 1..]);
  }

  /** The inductive step of UpvotesOfPermutation: matching the head of `s`
      with the post at `m` in `t` carries agreement of the rest over to the
      whole. */
  lemma UpvotesOfPermutationStep(s: seq<Post>, t: seq<Post>, m: nat)
    requires s != [] && m < |t| && t[m] == s[0]
    requires multiset(Upvotes(s[1..])) == multiset(Upvotes(t[..m] + t[m + 1..]))
    ensures multiset(Upvotes(s)) == multiset(Upvotes(t))
  {
    var rest := multiset(Upvotes(s[1..]));
    var v := multiset{s[0].upvotes};
    assert multiset(Upvotes(t)) == rest + v by {
      UpvotesRemoveAt(t, m);
    }
    assert multiset(Upvotes(s)) == rest + v by {
      assert Upvotes(s) == [s[0].upvotes] + Upvotes(s[1..]);
    }
  }

  /** The post at the head of `s` occurs somewhere in a permutation `t`, and
      what is left of the two is again a permutation. */
  lemma MatchHead(s: seq<Post>, t: seq<Post>) returns (m: nat)
    requires s != [] && multiset(s) == multiset(t)
    ensures m < |t| && t[m] == s[0]
    ensures multiset(s[1..]) == multiset(t[..m] + t[m + 1..])
  {
    assert s[0] in multiset(t) by {
      assert s[0] in multiset(s);
    }
    m :| 0 <= m < |t| && t[m] == s[0];
    RemoveAt(t, m);
    Behead(s);
  }

  /** Two sequences of the same posts carry the same scores. */
  lemma {:induction false} UpvotesOfPermutation(s: seq<Post>, t: seq<Post>)
    requires multiset(s) == multiset(t)
    ensures multiset(Upvotes(s)) == multiset(Upvotes(t))
    decreases |s|
  {
    if s == [] {
      assert |t| == |multiset(t)| == 0;
    } else {
      var m := MatchHead(s, t);
      UpvotesOfPermutation(s[1..], t[..m] + t[m + 1..]);
      UpvotesOfPermutationStep(s, t, m);
    }
  }

  /** Two non-increasing sequences holding the same numbers start with the
      same one: each head is the largest number. */
  lemma HeadsAgree(a: seq<int>, b: seq<int>)
    requires a != [] && b != [] && multiset(a) == multiset(b)
    requires NonIncreasing(a) && NonIncreasing(b)
    ensures a[0] == b[0]
  {
    assert a[0] in multiset(a) && b[0] in multiset(b);
    var i :| 0 <= i < |b| && b[i] == a[0];
    var k :| 0 <= k < |a| && a[k] == b[0];
    assert b[0] >= b[i] && a[0] >= a[k];
  }

  /** A non-increasing sequence of numbers is fixed by the numbers it holds. */
  lemma {:induction false} NonIncreasingUnique(a: seq<int>, b: seq<int>)
    requires multiset(a) == multiset(b)
    requires NonIncreasing(a) && NonIncreasing(b)
    ensures a == b
    decreases |a|
  {
    assert |a| == |b| by {
      assert |a| == |multiset(a)| && |b| == |multiset(b)|;
    }
    if a != [] {
      HeadsAgree(a, b);
      assert multiset(a[1..]) == multiset(b[1..]) by {
        Behead(a);
        Behead(b);
      }
      NonIncreasingUnique(a[1..], b[1..]);
      assert a == [a[0]] + a[1..] && b == [b[0]] + b[1..];
    }
  }

  /** Tie order aside, sorting is deterministic: any two rankings of the same
      posts agree on the score at every position, so the printed upvotes do
      not depend on how `sort.Slice` orders equal scores. */
  lemma RankingsAgreeOnUpvotes(r1: seq<Post>, r2: seq<Post>, all: seq<Post>)
    requires IsRanking(r1, all) && IsRanking(r2, all)
    ensures Upvotes(r1) == Upvotes(r2)
    ensures Upvotes(Emitted(r1)) == Upvotes(Emitted(r2))
  {
    UpvotesOfPermutation(r1, r2);
    NonIncreasingUnique(Upvotes(r1), Upvotes(r2));
    assert |r1| == |multiset(r1)| == |r2|;
  }
}

/** The field extractor of the `tr.athing` callback (scraper/scraper.go): it
    turns the text fragments selected from one listing row and the metadata
    row after it into a Post. */
module Extract {
  import opened Wrappers
  import opened Strings
  import opened Strconv
  import opened Models

  /** What the selectors pick out of one listing entry: the title anchor's
      text and `href`, the `span.score` text, the text of the metadata row's
      last link, and the `.age a` text. */
  datatype Row = Row(title: string, href: string, scoreText: string, commentsText: string, ageText: string)

  // ---------------------------------------------------------------- score

  const Points: string := " points"

  /** The regular expression `(\d+) points` matches `s` at `i`, its group
      being `s[i..j]`. */
  predicate PointsMatch(s: string, i: nat, j: nat) {
    i < j <= |s| && AllDigits(s[i..j]) && OccursAt(s, Points, j)
  }

  /** A digit group can only end where its run of digits ends, since the
      space that must follow it is not a digit. */
  lemma PointsMatchEnd(s: string, i: nat)
    requires i <= |s|
    ensures forall j: nat :: PointsMatch(s, i, j) ==> j == i + |LeadingDigits(s[i..])|
  {
    var e := i + |LeadingDigits(s[i..])|;
    assert forall k :: i <= k < e ==> IsDigit(s[k]) by {
      forall k | i <= k < e ensures IsDigit(s[k]) {
        assert s[k] == s[i..][k - i];
      }
    }
    assert e < |s| ==> !IsDigit(s[e]) by {
      if e < |s| {
        assert s[e] == s[i..][e - i];
      }
    }
    forall j: nat | PointsMatch(s, i, j) ensures j == e {
      assert s[j] == s[j..j + |Points|][0] == ' ';
      assert forall k :: i <= k < j ==> IsDigit(s[k]) by {
        forall k | i <= k < j ensures IsDigit(s[k]) {
          assert s[k] == s[i..j][k - i];
        }
      }
    }
  }

  /** The leftmost match of `(\d+) points` starting at `from` or later, as
      the bounds of its group. */
  function FindPointsFrom(s: string, from: nat): (m: Option<(nat, nat)>)
    ensures m.Some? ==> from <= m.value.0 && PointsMatch(s, m.value.0, m.value.1)
    ensures forall i: nat, j: nat :: from <= i && PointsMatch(s, i, j) ==> m.Some? && m.value.0 <= i
    decreases |s| - from
  {
    if from >= |s| then None
    else
      var e := from + |LeadingDigits(s[from..])|;
      PointsMatchEnd(s, from);
      if e > from && OccursAt(s, Points, e) then
        assert s[from..e] == LeadingDigits(s[from..]);
        Some((from, e))
      else FindPointsFrom(s, from + 1)
  }

  /** `s[i..j]` is the group of the leftmost match of `(\d+) points` in `s`. */
  ghost predicate LeftmostPoints(s: string, i: nat, j: nat) {
    PointsMatch(s, i, j) && forall i': nat, j': nat :: PointsMatch(s, i', j') ==> i <= i'
  }

  /** The upvote count of a row: the group of the leftmost `(\d+) points`
      match, through `strconv.Atoi` with its error ignored. None where there
      is no match, the case in which `Run` indexes a nil slice and panics. */
  function ScoreOf(scoreText: string): (r: Option<int>)
    ensures r.None? <==> forall i: nat, j: nat :: !PointsMatch(scoreText, i, j)
    ensures r.Some? ==> exists i: nat, j: nat :: LeftmostPoints(scoreText, i, j) && r.value == Atoi(scoreText[i..j]).value
  {
    match FindPointsFrom(scoreText, 0)
    case None => None
    case Some((i, j)) =>
      assert LeftmostPoints(scoreText, i, j);
      Some(Atoi(scoreText[i..j]).value)
  }

  // ------------------------------------------------------------- comments

  /** The comment count of a row, from the text of the metadata row's last
      link: "discuss" means none; text mentioning "comment" gives the first
      number in it once no-break spaces are deleted and the ends trimmed,
      or 0 when that number is missing or does not fit an `int`; any other
      text gives 0. */
  function CommentCount(text: string): (n: int)
    ensures 0 <= n <= MaxInt
    ensures text == "discuss" ==> n == 0
    ensures !Contains(text, "comment") ==> n == 0
  {
    if text == "discuss" then 0
    else if Contains(text, "comment") then
      var digits := FirstDigitRun(TrimSpace(RemoveAll(text, NoBreakSpace)));
      var parsed := Atoi(digits);
      if parsed.err == NoError then parsed.value else 0
    else 0
  }

  /** The literal "discuss" does not itself mention "comment". */
  lemma DiscussIsNotComment()
    ensures !Contains("discuss", "comment")
  {
    forall i: nat ensures !OccursAt("discuss", "comment", i) {
      if i == 0 {
        assert "discuss"[0..7][0] == 'd';
      }
    }
  }

  /** Trimming plays no part: for text mentioning "comment", the count is the
      value of the first run of digits left after deleting the no-break
      spaces, and 0 when there is none or it exceeds MaxInt. */
  lemma CommentCountIsFirstNumber(text: string)
    requires Contains(text, "comment")
    ensures var d := FirstDigitRun(RemoveAll(text, NoBreakSpace));
      CommentCount(text) == if d != [] && DecimalValue(d) <= MaxInt then DecimalValue(d) else 0
  {
    DiscussIsNotComment();
    TrimSpaceKeepsFirstDigitRun(RemoveAll(text, NoBreakSpace));
  }

  /** Text that mentions "comment" but holds no digit falls back to 0. */
  lemma CommentCountWithoutDigits(text: string)
    requires Contains(text, "comment")
    requires NoDigits(text)
    ensures CommentCount(text) == 0
  {
    CommentCountIsFirstNumber(text);
    var r := RemoveAll(text, NoBreakSpace);
    forall k | 0 <= k < |r| ensures !IsDigit(r[k]) {
      assert r[k] in multiset(r);
    }
  }

  // ------------------------------------------------------------ the record

  /** The Post built from one row: title, link and age copied verbatim, the
      parsed upvote and comment counts; None exactly where the score text
      has no `(\d+) points` match and `Run` panics. */
  function AssemblePost(row: Row): (r: Option<Post>)
    ensures r.None? <==> ScoreOf(row.scoreText).None?
    ensures r.Some? ==>
      && r.value.title == row.title
      && r.value.url == row.href
      && r.value.uploaded == row.ageText
      && 0 <= r.value.upvotes <= MaxInt
      && r.value.upvotes == ScoreOf(row.scoreText).value
      && r.value.comments == CommentCount(row.commentsText)
  {
    match ScoreOf(row.scoreText)
    case None => None
    case Some(upvotes) =>
      Some(Post(row.title, row.href, upvotes, CommentCount(row.commentsText), row.ageText))
  }

  // ------------------------------------------------------ what the site shows

  /** A score the site writes as "<n> points", after any digit-free text and
      followed by anything, is read back as n. */
  lemma ScoreOfPointsText(pre: string, n: nat, post: string)
    requires NoDigits(pre) && n <= MaxInt
    ensures ScoreOf(pre + Itoa(n) + Points + post) == Some(n)
  {
    var d := Itoa(n);
    var s := pre + d + Points + post;
    var i0, j0 := |pre|, |pre| + |d|;
    assert s[i0..j0] == d;
    assert s[j0..j0 + |Points|] == Points;
    assert PointsMatch(s, i0, j0);
    var m := FindPointsFrom(s, 0);
    var i, j := m.value.0, m.value.1;
    assert IsDigit(s[i]) by {
      assert s[i] == s[i..j][0];
    }
    assert forall k :: 0 <= k < i0 ==> !IsDigit(s[k]) by {
      forall k | 0 <= k < i0 ensures !IsDigit(s[k]) {
        assert s[k] == pre[k];
      }
    }
    PointsMatchEnd(s, i0);
    assert i == i0 && j == j0;
    AtoiItoa(n);
    assert ScoreOf(s) == Some(Atoi(d).value);
  }

  /** A count the site writes as "<n>" followed by a digit-free label that
      mentions "comment" (" comments", "\U{00A0}comments", " comment") is
      read back as n. */
  lemma CommentCountOfCountText(n: nat, noun: string)
    requires n <= MaxInt
    requires Contains(noun, "comment") && NoDigits(noun)
    ensures CommentCount(Itoa(n) + noun) == n
  {
    var d := Itoa(n);
    var text := d + noun;
    var i: nat :| OccursAt(noun, "comment", i);
    assert text[|d| + i..|d| + i + 7] == noun[i..i + 7];
    assert OccursAt(text, "comment", |d| + i);
    var rest := RemoveAll(noun, NoBreakSpace);
    assert NoBreakSpace !in d;
    RemoveAllAbsent(d, NoBreakSpace);
    RemoveAllAppend(d, noun, NoBreakSpace);
    assert NoDigits(rest) by {
      forall k | 0 <= k < |rest| ensures !IsDigit(rest[k]) {
        assert rest[k] in multiset(rest);
      }
    }
    FirstDigitRunOfNumber(d, rest);
    DecimalValueOfItoa(n);
    CommentCountIsFirstNumber(text);
  }
}

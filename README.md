# newscraft scraper, modelled in Dafny

newscraft fetches the Hacker News "front" page for the current day. It follows the
"More" links, builds one `Post` per listing row, then sorts the posts by upvotes and
prints the top five. All of this is one Go function, `Run` in `scraper/scraper.go`.
Most of that function wires up the colly scraping library. This project models the
part that makes decisions, split out of `Run`:

- **Score parsing.** The leftmost match of the regular expression `(\d+) points` in
  the `span.score` text is read through `strconv.Atoi`, ignoring its error
  (`Extract.ScoreOf`). When nothing matches, `Run` indexes a nil slice and panics.
  The model returns `None` there.
- **Comment-count parsing** (`Extract.CommentCount`). The text `"discuss"` gives 0.
  Text containing `"comment"` gives the first run of digits, after every U+00A0 is
  deleted and white space is trimmed. When there is no number, or `Atoi` fails, it
  gives 0. Any other text gives 0.
- **Record assembly** (`Extract.AssemblePost`). Title, link and age text are copied
  verbatim and the two counts are parsed.
- **Accumulation** (`Scraper.Collector`). The `posts` slice is a class field. The
  row callback appends to it, and the final step sorts it and cuts it to five.
- **Ranking** (`Ranking`). Posts are sorted by upvotes, highest first. Only when
  there are more than five posts are the first five printed. With exactly five or
  fewer, nothing is printed; the model keeps this behaviour as the code has it.
- **A whole run** (`Scraper.Run`). Its input is the selected text of every listing
  row, in document order over all visited pages. It ends either in the panic or in
  the list of printed posts.

Supporting modules:

- `Strings` models `strings.Contains`, `strings.Replace`, `strings.TrimSpace` with
  the full `unicode.IsSpace` table, and `regexp` `\d+` `FindString`. Strings are
  sequences of Unicode code points.
- `Strconv` models `strconv.Atoi` on digit strings, with a 64-bit `int`. An empty
  string is a syntax error with value 0. A number above 2^63 - 1 is a range error
  with value 2^63 - 1.

The main results:

- Trimming never changes which number the comment parser finds.
- A count written as `<n> points`, `<n> comments`, or `<n>` followed by U+00A0 and
  `comments`, reads back as n.
- The sort gives a permutation with non-increasing upvotes.
- The printed posts are five of the collected ones. None of the posts left out has
  more upvotes than a printed one.
- The upvote column of the output does not depend on how the unstable sort orders
  ties.

## Model

| member | source | states |
|---|---|---|
| `Extract.CommentCount` | scraper/scraper.go:67-91 | the count is between 0 and MaxInt; `"discuss"` gives 0; text without `"comment"` gives 0 |
| `Extract.CommentCountIsFirstNumber` | scraper/scraper.go:71-88 | for text containing `"comment"`, the count is the value of the first maximal digit run once U+00A0 is deleted (trimming plays no part), or 0 when there is none or it exceeds MaxInt |
| `Extract.CommentCountWithoutDigits` | scraper/scraper.go:79-88 | text containing `"comment"` but no digit falls back to 0 |
| `Extract.CommentCountOfCountText` | scraper/scraper.go:71-83 | the decimal form of any n <= MaxInt, followed by a digit-free label that mentions "comment" (such as `" comments"`, or `"comments"` after U+00A0), is read back as n |
| `Extract.DiscussIsNotComment` | scraper/scraper.go:69-71 | the literal `"discuss"` does not contain `"comment"`, so the first two branches never overlap |
| `Extract.PointsMatchEnd` | scraper/scraper.go:42 | at a given start, `(\d+) points` can match with only one group: the whole run of digits there |
| `Extract.FindPointsFrom` | scraper/scraper.go:42 | returns a match of `(\d+) points` at or after `from` that no other such match starts before; `None` only when there is no match |
| `Extract.ScoreOf` | scraper/scraper.go:61-63 | `None` exactly when `(\d+) points` does not match (the panic); otherwise the `Atoi` value of the group of the leftmost match |
| `Extract.ScoreOfPointsText` | scraper/scraper.go:61-63 | `"<n> points"`, after digit-free text and followed by anything, gives upvotes n |
| `Extract.AssemblePost` | scraper/scraper.go:50-95 | title, URL and age are the input fragments verbatim; upvotes and comments are the parsed counts; `None` exactly when the score does not parse |
| `Strings.Contains` | scraper/scraper.go:71 | true exactly when the substring occurs at some index |
| `Strings.ContainsFrom` | scraper/scraper.go:71 | true exactly when the substring occurs at index `from` or later |
| `Strings.RemoveAll` | scraper/scraper.go:74 | the result has no occurrence of the character, and every other character keeps its number of occurrences |
| `Strings.RemoveAllAppend` | scraper/scraper.go:74 | deleting a character commutes with concatenation, so the order of what is kept is preserved |
| `Strings.RemoveAllAbsent` | scraper/scraper.go:74 | a string without the character is unchanged |
| `Strings.TrimSpace` | scraper/scraper.go:75 | the result is a slice of the input with only white space cut from each end, and it neither starts nor ends with white space |
| `Strings.FirstDigitRun` | scraper/scraper.go:79-80 | the result is all digits, and it is empty exactly when the input has no digit |
| `Strings.FirstDigitRunPosition` | scraper/scraper.go:79-80 | the result sits in the input with no digit before it and no digit right after it, so it is the leftmost maximal match of `\d+` |
| `Strings.TrimSpaceKeepsFirstDigitRun` | scraper/scraper.go:74-80 | trimming white space never changes the first digit run |
| `Strconv.Atoi` | scraper/scraper.go:82-88 | a syntax error exactly for the empty string; no error exactly when the value fits in an `int`; a range error gives MaxInt |
| `Strconv.AtoiItoa` | scraper/scraper.go:82-83 | `Atoi` reads back the decimal form of every n <= MaxInt without error |
| `Ranking.Insert` | scraper/scraper.go:120-122 | putting a post into a sequence already sorted by upvotes keeps it sorted and adds exactly that post |
| `Ranking.SortByUpvotes` | scraper/scraper.go:120-122 | the result is a permutation of the input and upvotes never increase along it |
| `Ranking.EmittedAreTopFive` | scraper/scraper.go:124-130 | from any such ranking, more than five posts give five printed posts, and five or fewer give none; the printed posts are sorted and drawn from the collection, and every post left out has at most the upvotes of every printed one |
| `Ranking.RankingsAgreeOnUpvotes` | scraper/scraper.go:120-130 | any two rankings of the same posts have the same upvotes at every position, and so do the posts printed from them |
| `Scraper.Collector.constructor` | scraper/scraper.go:45 | the collection starts empty |
| `Scraper.Collector.OnRow` | scraper/scraper.go:94-97 | a row that parses appends its post and keeps the earlier entries; a row that does not parse leaves the collection unchanged and reports the panic |
| `Scraper.Collector.Rank` | scraper/scraper.go:119-130 | the collection becomes a ranking of its old contents, cut to five when longer than five; what is printed is that ranking's first five, or nothing |
| `Scraper.Run` | scraper/scraper.go:48-130 | either the first row whose score does not parse panics, and every row before it parses; or every row parses, and the output is what some ranking of the rows' posts, taken in row order, emits |

## Left out

- The colly collector, its domain restriction, HTTP fetching and the `OnError` handler (scraper/scraper.go:37-39, 108-113, 117). These are network I/O in a foreign library.
- Pagination through `a.morelink` and `AbsoluteURL` (scraper/scraper.go:102-105). The crawl runs inside the library. The rows of all pages are an input to `Scraper.Run`, in the order the callbacks would see them.
- DOM selection (`ChildText`, `ChildAttr`, `DOM.Next`, `Find(...).Last()`, `.Text()`). Each row arrives as its already-selected text fragments, in whatever form colly returns them.
- The start URL built from `time.Now().UTC()` (scraper/scraper.go:33-34, 116). This is the clock plus I/O.
- Printing and logging (scraper/scraper.go:34, 86, 110-112, 128). "Printed" is the sequence of posts returned. The diagnostic line logged when the comment count does not convert is not modelled; its fallback value of 0 is.
- Go strings are UTF-8 bytes. The model works on code points, so invalid UTF-8 is not modelled. For valid text, deleting the two bytes of U+00A0 is the same as deleting the code point.
- `int` is taken to be 64 bits wide.
- What a panic does to the process beyond stopping `Run` is not modelled. The model stops at the first row whose score does not parse.
- Ranking.SortByUpvotes: states only that the result is a permutation in non-increasing upvote order. It does not give the particular tie order that Go's unstable `sort.Slice` produces. The recursive insertion sort is one function meeting that contract, and `Ranking.RankingsAgreeOnUpvotes` shows that ties cannot change the printed upvotes.
- Scraper.Collector.Rank: promises the ranking only up to the order of posts with equal upvotes, for the same reason.

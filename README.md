# RSS-Digester core in Dafny

This project models the deterministic core of RSS-Digester, a tool that stores RSS articles in
SQLite, has a language model digest each one into four fields (product, organisation, headline,
detail), and writes a weekly Markdown digest. Three pieces are modelled:

- **The summarizer** (`Summarizer`, `summarizer.dfy`). `ArticleJSONParser` checks the model's
  answer for valid JSON before decoding it with the newlines removed. A malformed answer goes to
  the JSON-repair prompt. As written, the repair chain `json_fixer_prompt | llm`
  (src/summarizer.py:56) has no output parser, so its answer reaches `parse` as a message object,
  which `json_check` never accepts; `ParseAsWritten` models that. `Parse` is the parse with a
  repair chain that returns a string, whose answer is parsed again; the digest chain is modelled
  with `Parse` (see Findings). `zh_to_en` maps the four Chinese keys onto the digest
  fields. `summarize` and `batch_summarize` truncate the content to 3500 characters and merge the
  digest into the article, in place. The language model and `json.loads` are oracles passed as
  functions (`llm`, `repair`, `decode`). `json_check` is the total predicate `JsonCheck`: it holds
  exactly when `decode` succeeds, and it never fails.
- **The article table** (`ArticleDatabase`, `database.dfy`). The SQLite table `articles` is a
  sequence of fifteen-column rows in scan order, plus the AUTOINCREMENT counter. It is kept by the
  class `Database`, whose methods insert, update and delete rows in place. The read queries are
  functions over the rows. The table invariant (`ValidTable`) says ids are positive, increase
  along the table and are at most the counter, and titles are unique.
- **The Markdown formatter** (`Formatters`, `formatters.dfy`). It covers `date_format`,
  `format_article`, `sort_articles` (an in-place sort of an `array<Article>`) and `run` without the
  file write.

Supporting modules:

- `Wrappers` holds `Option` and `Result`.
- `Articles` holds the article record of `src/article.py`.
- `Dates` holds the proleptic Gregorian calendar, numbered like `date.toordinal`, plus a
  directive-by-directive `strptime`/`strftime` for the two layouts the program uses:
  `%Y-%m-%d` and the RFC 822 layout `%a, %d %b %Y %H:%M:%S %Z` (section 5 of RFC 822).

Python behaviour that the model spells out:

- Raising is an `Err` result.
- A value of None shows as `None` in an f-string.
- `list.sort(key=...)` computes every key first, in order. A key that raises leaves the list
  untouched.
- `digest_chain.batch` (src/summarizer.py:77) runs each stage of the chain over all inputs before
  the next stage. A model call that raises for any input is raised before any answer is parsed.
  Otherwise the first answer whose `parse` raises, in input order, is raised. Either way no
  article is updated.
- `datetime.today()` is the parameter `today`.

Behaviour of the code that the model keeps:

- The digest input is `article['Content'][:3500]` (src/summarizer.py:68, 74).
- `batch_summarize` updates the articles only after `digest_chain.batch` has returned
  (src/summarizer.py:77-81).
- `summarize` returns the pair of the article and the token counts (src/summarizer.py:71).
- `batch_summarize` sends every list through `digest_chain.batch`, a one-article list included
  (src/summarizer.py:73-83).

## Model

| member | source | states |
|---|---|---|
| Summarizer.RemoveNewlines | src/summarizer.py:31 | the text handed to `json.loads` after `replace("\n", "")` has no newline, is no longer than the input, and equals the input when it had none |
| Summarizer.RemoveNewlinesAppend | src/summarizer.py:31 | removing newlines distributes over concatenation |
| Summarizer.RemoveNewlinesKeeps | src/summarizer.py:31 | a character survives newline removal exactly when it was in the text and is not a newline |
| Summarizer.ZhToEn | src/summarizer.py:21-27 | succeeds exactly when all four keys 产品名称/单位/成果/详情 are present, and then maps them to Product/ProductAuthor/CoreSummary/DetailedSummary; otherwise it raises KeyError for the first missing key, in the dictionary's order, and never returns a partial record |
| Summarizer.JsonCheckDecides | src/summarizer.py:14-19 | with fuel left, `json_check` holds exactly when parse makes no repair call |
| Summarizer.DecodeDigest | src/summarizer.py:31-32 | undecodable text fails with DecodeError and a non-object with NotAnObject; an object gives the digest of its four Chinese keys exactly when all four are present |
| Summarizer.Parse | src/summarizer.py:29-34 | (parse with a repair chain that returns a string) valid JSON is decoded with newlines removed and no repair call; invalid JSON is sent unmodified as the first repair call; the number of repair calls never exceeds the fuel, and with no fuel left the result is OutOfFuel |
| Summarizer.ParseAcceptsRepair | src/summarizer.py:33-34 | with a repair chain that returns a string, a repaired answer that is JSON is decoded after exactly one repair call on the original text |
| Summarizer.ParseAsWritten | src/summarizer.py:29-34 | as written: valid JSON is decoded as in the corrected parse; any other answer ends in a call failure or OutOfFuel, with the answer as the first repair input |
| Summarizer.RepairMessages | src/summarizer.py:33-34 | as written: each step makes one repair call and passes on the message object it returns, so the outcome is always a call failure or OutOfFuel |
| Summarizer.ParseAsWrittenRejectsRepair | src/summarizer.py:56 | as written, even a repair answer that is valid JSON with all four keys leaves parse failing |
| Summarizer.ParseAsWrittenOkDirect | src/summarizer.py:29-34 | as written, every successful parse decoded an answer that was JSON from the start, with no repair call |
| Summarizer.ParseAsWrittenLoops | src/summarizer.py:34 | as written, with repair calls that never raise, parse makes exactly as many repair calls as it has fuel and ends OutOfFuel |
| Summarizer.ParseRepairs | src/summarizer.py:33-34 | (corrected parse) on invalid JSON, parse makes exactly one repair call on the original text and returns the parse of the repaired text, or the call failure |
| Summarizer.ParseGivesUp | src/summarizer.py:29-34 | when the repairer never produces JSON, parse spends all its fuel, one repair call per unit, and gives up |
| Summarizer.ParseFuelMonotone | src/summarizer.py:29-34 | once parse finishes with some fuel, more fuel gives the very same outcome and repair calls |
| Summarizer.ParseSuccessDecoded | src/summarizer.py:30-32 | every successful parse is the decoding of a newline-free text |
| Summarizer.ParseIgnoresNewlines | src/summarizer.py:30-32 | two valid-JSON answers that differ only in newlines parse identically |
| Summarizer.StructTokenCounter | src/summarizer.py:59-64 | the token record holds exactly the callback's total, prompt and completion counts |
| Summarizer.DigestInput | src/summarizer.py:68 | the text sent for digestion is the prefix of `Content` of length min(len(Content), 3500) |
| Summarizer.InvokeDigestChain | src/summarizer.py:57 | (over the corrected parse) one digest call, then parse: a failed call fails the chain with no repair calls, and an answer gives exactly the parse of that answer |
| Summarizer.MergeDigest | src/summarizer.py:70 | `update` sets the four digest fields to the digest and leaves every other field as it was |
| Summarizer.MergeDigestTwice | src/summarizer.py:70 | a second merge replaces the first entirely |
| Summarizer.Summarize | src/summarizer.py:66-71 | (over the corrected parse) on success the same article object comes back with its record merged with the digest, plus the copied token counts; on failure the error is returned and the article is untouched |
| Summarizer.BatchInputs | src/summarizer.py:74 | the batch sends article i's first 3500 characters as input i |
| Summarizer.BatchAnswers | src/summarizer.py:77 | the model-call stage answers exactly when every call does, and then answer i is the answer to input i |
| Summarizer.BatchParses | src/summarizer.py:77 | the parse stage succeeds exactly when every answer parses, and then digest i is answer i's parse |
| Summarizer.BatchResults | src/summarizer.py:77 | (over the corrected parse) the call stage, then the parse stage: the batch succeeds exactly when every input's chain does, and then result i is input i's digest |
| Summarizer.BatchParsesRaiseFirst | src/summarizer.py:77 | a failing parse stage raises the error of its first failing answer, all earlier answers having parsed |
| Summarizer.BatchCallFailureFirst | src/summarizer.py:77 | a model call that raises for any input makes the batch raise the call failure, whatever the other answers would parse to |
| Summarizer.BatchRaisesFirstFailure | src/summarizer.py:77 | when every call answers, a failing batch raises the error of the first answer whose parse raises, all earlier answers having parsed |
| Summarizer.MergeResults | src/summarizer.py:80-81 | after the loop, article i is article i as it was, merged with digest i, at every position |
| Summarizer.BatchSummarize | src/summarizer.py:73-83 | (over the corrected parse) on success article i is merged with result i and the same list comes back with the token counts; on failure no article changes |
| ArticleDatabase.WhereValid | src/database.py:14-29 | any filter of a valid table is valid, so query results stay in id order |
| ArticleDatabase.StructArticle | src/database.py:52-68 | columns 0 to 12 of a row become ID through CompletionTokens, in order |
| ArticleDatabase.StructArticleForgets | src/database.py:52-68 | two rows give the same record exactly when they differ only in `tag` and `drop_article` |
| ArticleDatabase.Records | src/database.py:74 | one record per row, in row order |
| ArticleDatabase.NewRow | src/database.py:45 | the inserted row carries the title, content, date, link and categories, and NULL in every digest, token, tag and drop column |
| ArticleDatabase.HasTitleAfterInsert | src/database.py:39-40 | after an insert, the title query finds exactly the titles it found before plus the inserted one |
| ArticleDatabase.InsertKeepsValid | src/database.py:37-45 | inserting a row with a new title and the next id keeps the table invariant |
| ArticleDatabase.NewIdIsLargest | src/database.py:15 | the AUTOINCREMENT id of a new row exceeds every id in the table |
| ArticleDatabase.UpdateRow | src/database.py:102 | the eight columns product, product_author, core_summary, detailed_summary, token, prompt_token, completion_token and article_date take the record's values, and no other column changes |
| ArticleDatabase.UpdateRows | src/database.py:102 | exactly the rows with the id are rewritten, and the others are kept, at their positions |
| ArticleDatabase.UpdateKeepsValid | src/database.py:100-103 | an update keeps the table invariant |
| ArticleDatabase.UpdateMissingId | src/database.py:102 | an update whose id is in no row changes nothing |
| ArticleDatabase.UpdateSummarizes | src/database.py:100-103 | after an update that writes a core summary, no unsummarized record has that id |
| ArticleDatabase.DeleteRows | src/database.py:107 | a row survives the delete exactly when its id is not the deleted one |
| ArticleDatabase.DeleteMissingId | src/database.py:107 | a delete whose id is in no row changes nothing |
| ArticleDatabase.DeleteRemovesOne | src/database.py:105-108 | on a valid table, a delete removes exactly the row with the id, keeps the others in order, and keeps the invariant |
| ArticleDatabase.SelectUnsummarized | src/database.py:76-80 | every record returned has a NULL core summary, and every row with a NULL core summary is returned |
| ArticleDatabase.SelectById | src/database.py:82-86 | the lookup succeeds exactly when some row has the id; otherwise `struct_article(None)` raises |
| ArticleDatabase.SelectByIdFirst | src/database.py:82-86 | a successful lookup returns the record of the first row carrying the id (`fetchone`) |
| ArticleDatabase.SelectByIdValid | src/database.py:82-86 | on a valid table the lookup of a row's id returns that row |
| ArticleDatabase.WeekStart | src/database.py:95 | the start of the week is a Monday, at most six days before today |
| ArticleDatabase.InWeekSameWeek | src/database.py:94-95 | a parsed date no later than today is within the week exactly when its week's Monday is today's |
| ArticleDatabase.WithinWeek | src/database.py:95-98 | the comprehension succeeds exactly when every date parses, and then keeps the articles dated on or after the week's Monday, in order; otherwise it raises on the first unparsable date |
| ArticleDatabase.SelectPastWeek | src/database.py:88-98 | the past-week query reads dates as `%Y-%m-%d` |
| ArticleDatabase.SelectPastWeekRfc | src/database.py:96 | the variant of the query left commented out, which reads dates in the RFC 822 layout |
| ArticleDatabase.UndroppedDatesParse | src/database.py:92-98 | every date among the undropped records parses exactly when every undropped row's date parses |
| ArticleDatabase.PastWeekSucceeds | src/database.py:88-98 | the query succeeds exactly when every undropped row's date parses |
| ArticleDatabase.PastWeekContents | src/database.py:88-98 | a successful query returns the records of the undropped rows dated on or after today minus `weekday` days, in table order |
| ArticleDatabase.PastWeekDatesParse | src/database.py:95-98 | every article the query returns has a date that parses in the query's layout |
| ArticleDatabase.Database.constructor | src/database.py:9-29 | a new database holds an empty, valid table |
| ArticleDatabase.Database.InsertArticle | src/database.py:37-50 | an article whose title is in the table changes nothing; any other adds exactly its new row with the next id, and the invariant holds |
| ArticleDatabase.Database.GetAllArticles | src/database.py:70-74 | every row as a record, in table order |
| ArticleDatabase.Database.GetUnsummarizedArticles | src/database.py:76-80 | the records of the rows with a NULL core summary, in table order |
| ArticleDatabase.Database.GetArticle | src/database.py:82-86 | the id lookup on the current rows |
| ArticleDatabase.Database.GetArticlesPastWeek | src/database.py:88-98 | the past-week query on the current rows |
| ArticleDatabase.Database.UpdateArticle | src/database.py:100-103 | an article without an ID raises KeyError and changes nothing; otherwise only the rows with that id are rewritten, and the counter and invariant are kept |
| ArticleDatabase.Database.DeleteArticle | src/database.py:105-108 | an article without an ID raises KeyError and changes nothing; otherwise exactly the rows with that id go and the rest keep their order |
| Dates.Strptime | src/formatters.py:52 | a date that parses is a valid calendar datetime |
| Dates.IsoRoundTrip | src/formatters.py:52 | writing a datetime as `%Y-%m-%d` and reading it back gives its date at midnight |
| Dates.FormatsDisjoint | src/database.py:95 | no text parses both as `%Y-%m-%d` and as an RFC 822 date |
| Dates.DigitAndDayFormatsDisjoint | src/database.py:95 | a layout opening with `%Y` and one opening with `%a` have no text in common |
| Dates.OrdinalMonotone | src/formatters.py:20 | an earlier calendar date has a smaller day number |
| Dates.TimestampMonotone | src/formatters.py:20 | the numeric sort key orders datetimes as Python compares them |
| Dates.TimestampOrders | src/formatters.py:20 | a smaller key is exactly an earlier datetime, and an equal key exactly the same datetime |
| Dates.Strftime | src/formatters.py:52 | a layout without `%` is written out unchanged |
| Dates.IsoText | src/formatters.py:52 | `%Y-%m-%d` writes the zero-padded four-digit year, two-digit month and two-digit day with '-' between them |
| Dates.PadValue | src/formatters.py:52 | padding the value of a digit string to its own width gives the string back |
| Dates.ScanRfc | src/formatters.py:55 | a well-formed RFC 822 text matches the RFC layout and sets year, month number, day, hour, minute and second from its fields |
| Dates.RfcParses | src/formatters.py:52-55 | a well-formed RFC 822 text with a real calendar date parses to the datetime of its fields |
| Formatters.DateInput | src/formatters.py:54-55 | the input layout is the RFC 822 layout |
| Formatters.DateOutput | src/formatters.py:57-58 | the output layout is `%Y-%m-%d` |
| Formatters.DateFormat | src/formatters.py:51-52 | succeeds exactly when the date parses; then gives 10 characters, `YYYY-MM-DD` with '-' at positions 4 and 7, holding the parsed year, month number and day, which reads back as that day |
| Formatters.ShownDate | src/formatters.py:61-64 | a date `date_format` rejects is printed verbatim; any other is printed in ISO form and reads back as its day |
| Formatters.DateFormatRfc | src/formatters.py:51-52 | a well-formed RFC 822 date is reformatted to its own year digits, two-digit month number and day digits |
| Formatters.Show | src/formatters.py:66 | a present value prints as itself and a missing one as `None` |
| Formatters.FormatArticle | src/formatters.py:60-66 | the article's paragraph is exactly the template: the bold product link, the core summary, a spaced vertical bar and the author closing the bold line, a blank line, the bracketed shown date, the detailed summary and a blank line; so it starts with the bold product link and ends with the date, detail and blank line |
| Formatters.SortKeyOrders | src/formatters.py:20 | the keys of two keyable articles compare as their parsed datetimes do, ties exactly on equal datetimes |
| Formatters.KeyedRfc | src/formatters.py:20 | an article with a well-formed RFC 822 date can be keyed, and its key is the timestamp of the date's fields |
| Formatters.ParagraphLayout | src/formatters.py:66 | the paragraph starts with `**[Product](Link)：`, ends with `【date】DetailedSummary` and a blank line, and between them holds exactly the core summary, a spaced vertical bar, the author and `**` with a blank line |
| Formatters.FirstUnkeyed | src/formatters.py:20 | no date is reported exactly when every article's date parses; otherwise the first unparsable date, in list order, is reported |
| Formatters.SortedNewestFirst | src/formatters.py:20 | in a list sorted with `reverse=True`, no article comes before one with a later datetime |
| Formatters.InsertionSort | src/formatters.py:20 | the array ends up sorted by key and a permutation of what it held |
| Formatters.SortArticles | src/formatters.py:17-21 | with 'DATE', either an unparsable date raises and the list is untouched, or the same list is sorted in place and is a permutation of the original; any other sort type returns the same list unchanged |
| Formatters.Paragraphs | src/formatters.py:47 | one formatted paragraph per article, in order |
| Formatters.SortAndFormat | src/formatters.py:46-47 | the lines are the paragraphs of a newest-first permutation of the fetched articles, or the sort's error |
| Formatters.Run | src/formatters.py:44-48 | a failed fetch or sort is returned as the error; otherwise one paragraph per fetched article, newest first |
| Formatters.WeekNeverSorts | src/database.py:95 | as written, a nonempty week returned by the query always holds an article the sort cannot key |
| Formatters.RunNeedsEmptyWeek | src/formatters.py:44-47 | as written, `run` gets past the sort only for a week without articles |
| Formatters.CorrectedWeekSorts | src/database.py:96 | with the query reading RFC 822 dates, every article it returns can be sorted |
| Formatters.RunCorrected | src/formatters.py:44-47 | with the corrected query, a successful fetch always produces the week's paragraphs, newest first |

## Findings

| source | as written | input that shows it | evidently intended | confidence | as-written member | corrected member |
|---|---|---|---|---|---|---|
| src/summarizer.py:56 | `json_fixer_chain` pipes the repair prompt into the chat model and no output parser, so `parse` (line 34) receives a message object; `json.loads` of it raises TypeError, the bare `except` (line 18) makes `json_check` False, and the message is sent to the repair prompt again | a digest answer that is not JSON, whose repair answer is a JSON object with the four keys: the repaired answer is never decoded, and parse repeats repair calls until one raises | the repair chain ends with a string output parser, like `digest_chain` (line 57), so that the repaired text is parsed | not executed | Summarizer.ParseAsWrittenRejectsRepair | Summarizer.ParseAcceptsRepair |
| src/database.py:95 | `get_articles_past_week` parses `ArticleDate` with `'%Y-%m-%d'`, while `sort_articles` (src/formatters.py:20, 55) parses the same field as an RFC 822 date | a table with one undropped row dated `2026-10-12` and today 2026-10-14: the query returns that row, and `run` then raises ValueError in the sort key; an RFC-dated row makes the query itself raise | the query reads the date in the RFC 822 layout, like the commented-out `parsedate_to_datetime` line (src/database.py:96), so that every week it returns can be sorted | not executed | Formatters.WeekNeverSorts | Formatters.CorrectedWeekSorts |

`Summarizer.ParseAsWritten` is the parse as written and `Summarizer.ParseAsWrittenLoops` shows it
spending all its fuel; `Summarizer.Parse` is the corrected parse, which the digest chain uses.
`ArticleDatabase.SelectPastWeekRfc` is the corrected query, and `Formatters.RunCorrected` runs
over it. `Formatters.Run` keeps the code as written.

## Left out

- The language model, the prompt templates, `ChatOpenAI` and `get_openai_callback` are foreign
  library calls. They are the oracles `llm`, `repair` and `decode`, plus the callback record `cb`.
  `render` is the text the repair prompt makes of a message object.
  The oracles are deterministic functions, so two calls on the same text give the same answer.
- The concurrency inside `digest_chain.batch` is not modelled. Each stage is a sequential,
  positional map.
- `os.environ`, the logger, `commit`/`close`, `get_URIs` and `Formatter.save` are left out. They
  are configuration and file or network I/O.
- The bare `except: print(article)` of `insert_article` (src/database.py:47-48) is left out. The
  model's record cannot hold a NULL title, content, date or link, so its insert cannot fail. In
  the source the bare `except` also swallows NOT NULL violations, such as a feed item without a
  title (src/digester.py:37).
- `src/digester.py` and `src/rss_digester.py` are not part of this model.
- Decoded JSON objects hold only string members. A JSON value of another type inside the object
  is not modelled.
- Summarizer.Parse: the source's repair recursion has no bound. The model carries `fuel` and
  reports `OutOfFuel` when it runs out, so termination of the source is not claimed.
- Summarizer.InvokeDigestChain, Summarizer.Summarize, Summarizer.BatchResults,
  Summarizer.BatchSummarize, Summarizer.ParseRepairs: these run the corrected parse, whose repair
  chain returns a string. As written, an answer that is not JSON at first always ends in a call
  failure or a RecursionError (see Findings), so `summarize` and `batch_summarize` never merge a
  repaired digest; `ParseAsWritten` states that behaviour.
- Summarizer.ParseAsWritten: the same `fuel` bound stands in for the recursion limit at which
  Python would raise RecursionError.
- Dates.Strptime: each directive accepts its fixed-width form only: four-digit year, two-digit
  day, month, hour, minute and second, and exact-case names. The only zone names are GMT and UTC.
  Python would also take one-digit fields, other case, other whitespace and the local zone names.
- Dates.Strptime: as in Python, `%a` is checked to be a day name but not checked against the
  date, and the zone name is dropped.
- Dates.Strftime: `%Y` is always four zero-padded digits. The C library does not pad years
  below 1000.
- Formatters.InsertionSort, Formatters.SortArticles: the contract states sorted and a permutation. It does not state that
  the sort is stable, although the insertion sort does not reorder equal keys.
- ArticleDatabase.SelectPastWeekRfc: it reads dates with the `strptime` layout that
  `sort_articles` uses. The commented-out `parsedate_to_datetime` also accepts other RFC 2822
  forms, such as numeric zones and a missing day name.
- ArticleDatabase.Database.InsertArticle: ids are unbounded integers; SQLite's 64-bit id limit is
  not modelled.
- ArticleDatabase.Database.constructor: it opens an empty table. A `database.sqlite` file that
  already exists is not modelled.
- `total_cost` and the other callback fields are not modelled. The program never reads them.
- The dictionary aliasing in `batch_summarize` is not modelled. The list holds article values, so
  two list entries that are the same dictionary would not be updated together.

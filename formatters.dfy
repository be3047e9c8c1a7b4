/**
 * The weekly digest writer: `MarkdownFormatter` fetches this week's articles, sorts them by
 * date, newest first, and renders one Markdown paragraph per article.
 */
module Formatters {
  import opened Wrappers
  import opened Articles
  import opened Dates
  import opened ArticleDatabase

  /** Why `run` raises before anything is written. */
  datatype RunError =
    | FetchFailed(error: DbError)  // `get_articles_past_week` raised
    | UnsortableDate(date: string) // a sort key's `strptime` raised ValueError

  /** `date_input`: the layout `ArticleDate` is read with. */
  function DateInput(): (fmt: string)
    ensures fmt == RfcFormat
  {
    RfcFormat
  }

  /** `date_output`: the layout dates are shown in. */
  function DateOutput(): (fmt: string)
    ensures fmt == IsoFormat
  {
    IsoFormat
  }

  // ---------------------------------------------------------------------------
  // Dates and the article paragraph
  // ---------------------------------------------------------------------------

  /**
   * `date_format`: an RFC 822 date rewritten as `YYYY-MM-DD`; None where `strptime` raises.
   * The text it gives reads back, as `%Y-%m-%d`, to the very date it was made from.
   */
  function DateFormat(date: string): (r: Option<string>)
    ensures r.Some? <==> Strptime(date, DateInput()).Some?
    ensures r.Some? ==> |r.value| == 10 && r.value[4] == '-' && r.value[7] == '-'
    ensures r.Some? ==> var d := Strptime(date, DateInput()).value.date;
      r.value == Pad(d.year, 4) + ("-" + (Pad(d.month, 2) + ("-" + Pad(d.day, 2))))
    ensures r.Some? ==>
      Strptime(r.value, DateOutput()) == Some(DateTime(Strptime(date, DateInput()).value.date, 0, 0, 0))
  {
    match Strptime(date, DateInput())
    case None => None
    case Some(t) =>
      IsoText(t);
      IsoRoundTrip(t);
      Some(Strftime(t, DateOutput()))
  }

  /**
   * `date_format` of a well-formed RFC 822 date `Www, DD Mon YYYY HH:MM:SS ZZZ` is
   * `YYYY-MM-DD`: the same year and day digits, and the month name's number, zero-padded.
   */
  lemma DateFormatRfc(w: string, dd: string, k: int, y: string, hh: string, mi: string, ss: string, z: string)
    requires |w| == 3 && w in DayAbbreviations
    requires 0 <= k < 12
    requires |y| == 4 && AllDigits(y) && |dd| == 2 && AllDigits(dd)
    requires ValidDate(Date(Value(y), k + 1, Value(dd)))
    requires |hh| == 2 && AllDigits(hh) && Value(hh) <= 23
    requires |mi| == 2 && AllDigits(mi) && Value(mi) <= 59
    requires |ss| == 2 && AllDigits(ss) && Value(ss) <= 59
    requires |z| == 3 && z in ZoneNames
    ensures DateFormat(RfcText(w, dd, MonthAbbreviations[k], y, hh, mi, ss, z))
         == Some(y + ("-" + (Pad(k + 1, 2) + ("-" + dd))))
  {
    var date := RfcText(w, dd, MonthAbbreviations[k], y, hh, mi, ss, z);
    RfcParses(w, dd, k, y, hh, mi, ss, z);
    assert Strptime(date, DateInput()).value.date == Date(Value(y), k + 1, Value(dd));
    PadValue(y);
    PadValue(dd);
  }

  /** How an f-string shows a value that may be None. */
  function Show(o: Option<string>): (r: string)
    ensures o.Some? ==> r == o.value
    ensures o.None? ==> r == "None"
  {
    match o
    case Some(s) => s
    case None => "None"
  }

  /**
   * The date `format_article` prints: the reformatted date, or the stored text verbatim where
   * `date_format` raises. A printed ISO date reads back as the day of the RFC 822 date.
   */
  function ShownDate(date: string): (r: string)
    ensures Strptime(date, DateInput()).None? ==> r == date
    ensures Strptime(date, DateInput()).Some? ==>
      Strptime(r, DateOutput()) == Some(DateTime(Strptime(date, DateInput()).value.date, 0, 0, 0))
  {
    match DateFormat(date)
    case Some(d) => d
    case None => date
  }

  /** The paragraph template of `format_article`, over the six texts it interpolates. */
  function Paragraph(product: string, link: string, core: string, author: string, date: string, detail: string): string {
    "**[" + product + "](" + link + ")：" + core + " | " + author + "**\n\n【" + date + "】" + detail + "\n\n"
  }

  /** `format_article`: one Markdown paragraph per article. */
  function FormatArticle(a: Article): (r: string)
    ensures r == "**[" + Show(a.product) + "](" + a.link + ")：" + Show(a.coreSummary) + " | " + Show(a.productAuthor)
               + "**\n\n【" + ShownDate(a.articleDate) + "】" + Show(a.detailedSummary) + "\n\n"
    ensures var head := "**[" + Show(a.product) + "](" + a.link + ")：";
      && var tail := "【" + ShownDate(a.articleDate) + "】" + Show(a.detailedSummary) + "\n\n";
      && |head| + |tail| <= |r| && r[..|head|] == head && r[|r| - |tail|..] == tail
  {
    var product, core, author := Show(a.product), Show(a.coreSummary), Show(a.productAuthor);
    var date, detail := ShownDate(a.articleDate), Show(a.detailedSummary);
    ParagraphLayout(product, a.link, core, author, date, detail);
    Paragraph(product, a.link, core, author, date, detail)
  }

  /**
   * The paragraph opens with the bold product link and closes with the bracketed date, the
   * detailed summary and a blank line; between them stand the core summary, " | ", the author
   * and the end of the bold line.
   */
  lemma ParagraphLayout(product: string, link: string, core: string, author: string, date: string, detail: string)
    ensures var r := Paragraph(product, link, core, author, date, detail);
      && var head := "**[" + product + "](" + link + ")：";
      && var tail := "【" + date + "】" + detail + "\n\n";
      && |head| + |tail| <= |r| && r[..|head|] == head && r[|r| - |tail|..] == tail
      && r == head + (core + " | " + author + "**\n\n") + tail
  {
    var head := "**[" + product + "](" + link + ")：";
    var mid := core + " | " + author + "**\n\n";
    var tail := "【" + date + "】" + detail + "\n\n";
    assert Paragraph(product, link, core, author, date, detail) == head + mid + tail;
  }

  // ---------------------------------------------------------------------------
  // Sorting by date
  // ---------------------------------------------------------------------------

  predicate Keyed(a: Article) {
    Strptime(a.articleDate, DateInput()).Some?
  }

  /** The sort key of an article, as a number that orders the parsed datetimes (0 when unparsed). */
  function SortKey(a: Article): int {
    match Strptime(a.articleDate, DateInput())
    case Some(t) => Timestamp(t)
    case None => 0
  }

  /** Sort keys compare as the parsed datetimes do: a smaller key is an earlier datetime, an equal key the same one. */
  lemma SortKeyOrders(a: Article, b: Article)
    requires Keyed(a) && Keyed(b)
    ensures var ta := Strptime(a.articleDate, DateInput()).value;
      && var tb := Strptime(b.articleDate, DateInput()).value;
      && (SortKey(a) < SortKey(b) <==> DateTimeBefore(ta, tb))
      && (SortKey(a) == SortKey(b) <==> ta == tb)
  {
    TimestampOrders(Strptime(a.articleDate, DateInput()).value, Strptime(b.articleDate, DateInput()).value);
  }

  /** An article dated by a well-formed RFC 822 text can be keyed, by the timestamp of that text's fields. */
  lemma KeyedRfc(a: Article, w: string, dd: string, k: int, y: string, hh: string, mi: string, ss: string, z: string)
    requires |w| == 3 && w in DayAbbreviations
    requires 0 <= k < 12
    requires |y| == 4 && AllDigits(y) && |dd| == 2 && AllDigits(dd)
    requires ValidDate(Date(Value(y), k + 1, Value(dd)))
    requires |hh| == 2 && AllDigits(hh) && Value(hh) <= 23
    requires |mi| == 2 && AllDigits(mi) && Value(mi) <= 59
    requires |ss| == 2 && AllDigits(ss) && Value(ss) <= 59
    requires |z| == 3 && z in ZoneNames
    requires a.articleDate == RfcText(w, dd, MonthAbbreviations[k], y, hh, mi, ss, z)
    ensures Keyed(a)
    ensures SortKey(a) == Timestamp(DateTime(Date(Value(y), k + 1, Value(dd)), Value(hh), Value(mi), Value(ss)))
  {
    RfcParses(w, dd, k, y, hh, mi, ss, z);
  }

  /** A key may stand before another: ascending keys, or descending ones when `reverse`. */
  predicate Before(kx: int, ky: int, reverse: bool) {
    if reverse then kx >= ky else kx <= ky
  }

  predicate SortedBy<T>(s: seq<T>, key: T -> int, reverse: bool) {
    forall i, j :: 0 <= i < j < |s| ==> Before(key(s[i]), key(s[j]), reverse)
  }

  /** Sorted by date: ascending, or newest first when `reverse`. */
  predicate Sorted(s: seq<Article>, reverse: bool) {
    SortedBy(s, SortKey, reverse)
  }

  /**
   * The date of the first article whose key cannot be computed: `list.sort` computes every
   * key first, in order, and raises on the first that fails, leaving the list as it was.
   */
  function FirstUnkeyed(s: seq<Article>): (r: Option<string>)
    ensures r.None? <==> forall i :: 0 <= i < |s| ==> Keyed(s[i])
    ensures r.Some? ==> exists k ::
      (0 <= k < |s| && r.value == s[k].articleDate && !Keyed(s[k])
       && forall j :: 0 <= j < k ==> Keyed(s[j]))
  {
    if s == [] then None
    else if !Keyed(s[0]) then Some(s[0].articleDate)
    else
      var rest := FirstUnkeyed(s[1..]);
      if rest.Some? then
        var k :| 0 <= k < |s[1..]| && rest.value == s[1..][k].articleDate && !Keyed(s[1..][k])
          && forall j :: 0 <= j < k ==> Keyed(s[1..][j]);
        assert s[k + 1] == s[1..][k];
        rest
      else
        rest
  }

  /**
   * A list sorted newest first never has an earlier datetime before a later one: the keys
   * order the articles as Python orders their parsed datetimes.
   */
  lemma SortedNewestFirst(s: seq<Article>, i: int, j: int)
    requires Sorted(s, true)
    requires 0 <= i < j < |s| && Keyed(s[i]) && Keyed(s[j])
    ensures !DateTimeBefore(Strptime(s[i].articleDate, DateInput()).value,
                            Strptime(s[j].articleDate, DateInput()).value)
  {
    var ti := Strptime(s[i].articleDate, DateInput()).value;
    var tj := Strptime(s[j].articleDate, DateInput()).value;
    assert Before(SortKey(s[i]), SortKey(s[j]), true);
    if DateTimeBefore(ti, tj) {
      TimestampMonotone(ti, tj);
    }
  }

  /** Sorts `a` in place by key (insertion sort: an element only moves past elements it must precede). */
  method InsertionSort<T>(a: array<T>, key: T -> int, reverse: bool)
    modifies a
    ensures SortedBy(a[..], key, reverse)
    ensures multiset(a[..]) == multiset(old(a[..]))
  {
    var i := 0;
    while i < a.Length
      invariant 0 <= i <= a.Length
      invariant forall p, q :: 0 <= p < q < i ==> Before(key(a[p]), key(a[q]), reverse)
      invariant multiset(a[..]) == multiset(old(a[..]))
    {
      InsertDown(a, key, i, reverse);
      i := i + 1;
    }
  }

  /** Moves `a[i]` down into the sorted prefix `a[..i]`, past the elements it must precede. */
  method InsertDown<T>(a: array<T>, key: T -> int, i: int, reverse: bool)
    requires 0 <= i < a.Length
    requires forall p, q :: 0 <= p < q < i ==> Before(key(a[p]), key(a[q]), reverse)
    modifies a
    ensures forall p, q :: 0 <= p < q <= i ==> Before(key(a[p]), key(a[q]), reverse)
    ensures multiset(a[..]) == multiset(old(a[..]))
  {
    var j := i;
    while j > 0 && !Before(key(a[j - 1]), key(a[j]), reverse)
      invariant 0 <= j <= i
      invariant forall p, q :: 0 <= p < q <= i && p != j && q != j ==> Before(key(a[p]), key(a[q]), reverse)
      invariant forall q :: j < q <= i ==> Before(key(a[j]), key(a[q]), reverse)
      invariant multiset(a[..]) == multiset(old(a[..]))
    {
      Swap(a, j - 1, j);
      j := j - 1;
    }
  }

  /** Exchanges two elements of `a`. */
  method Swap<T>(a: array<T>, i: int, j: int)
    requires 0 <= i < j < a.Length
    modifies a
    ensures a[i] == old(a[j]) && a[j] == old(a[i])
    ensures forall k :: 0 <= k < a.Length && k != i && k != j ==> a[k] == old(a[k])
    ensures multiset(a[..]) == multiset(old(a[..]))
  {
    a[i], a[j] := a[j], a[i];
  }

  /**
   * `sort_articles`: with 'DATE', sorts the list in place by its parsed dates, newest first when
   * `reverse`; a date that does not parse raises and leaves the list unchanged; any other sort
   * type leaves the list unchanged. The list itself is returned.
   */
  method SortArticles(articles: array<Article>, sortType: string, reverse: bool) returns (r: Result<array<Article>, RunError>)
    modifies articles
    ensures sortType != "DATE" ==> r == Ok(articles) && articles[..] == old(articles[..])
    ensures sortType == "DATE" && FirstUnkeyed(old(articles[..])).Some? ==>
      r == Err(UnsortableDate(FirstUnkeyed(old(articles[..])).value)) && articles[..] == old(articles[..])
    ensures sortType == "DATE" && FirstUnkeyed(old(articles[..])).None? ==>
      && r == Ok(articles)
      && Sorted(articles[..], reverse)
      && multiset(articles[..]) == multiset(old(articles[..]))
  {
    if sortType == "DATE" {
      var bad := FirstUnkeyed(articles[..]);
      if bad.Some? {
        return Err(UnsortableDate(bad.value));
      }
      InsertionSort(articles, SortKey, reverse);
    }
    r := Ok(articles);
  }

  // ---------------------------------------------------------------------------
  // The weekly run
  // ---------------------------------------------------------------------------

  /** `[self.format_article(article) for article in articles]`. */
  function Paragraphs(articles: seq<Article>): (r: seq<string>)
    ensures |r| == |articles|
    ensures forall i :: 0 <= i < |articles| ==> r[i] == FormatArticle(articles[i])
  {
    seq(|articles|, i requires 0 <= i < |articles| => FormatArticle(articles[i]))
  }

  /** The body of `run` after the fetch: sort by date, newest first, and render each article. */
  method SortAndFormat(fetched: seq<Article>) returns (r: Result<seq<string>, RunError>)
    ensures FirstUnkeyed(fetched).Some? ==> r == Err(UnsortableDate(FirstUnkeyed(fetched).value))
    ensures FirstUnkeyed(fetched).None? ==> r.Ok? && exists ordered ::
      (Sorted(ordered, true) && multiset(ordered) == multiset(fetched) && r.value == Paragraphs(ordered))
  {
    var articles := new Article[|fetched|](i requires 0 <= i < |fetched| => fetched[i]);
    assert articles[..] == fetched;
    var sorted := SortArticles(articles, "DATE", true);
    if sorted.Err? {
      return Err(sorted.error);
    }
    var ordered := sorted.value[..];
    r := Ok(Paragraphs(ordered));
    assert Sorted(ordered, true) && multiset(ordered) == multiset(fetched);
  }

  /**
   * `run` without `save`: the paragraphs of this week's articles, newest first, which `save`
   * would write to the week's archive file.
   */
  method Run(db: Database, today: Date) returns (r: Result<seq<string>, RunError>)
    requires ValidDate(today)
    ensures db.GetArticlesPastWeek(today).Err? ==> r == Err(FetchFailed(db.GetArticlesPastWeek(today).error))
    ensures db.GetArticlesPastWeek(today).Ok? ==>
      var fetched := db.GetArticlesPastWeek(today).value;
      && (FirstUnkeyed(fetched).Some? ==> r == Err(UnsortableDate(FirstUnkeyed(fetched).value)))
      && (FirstUnkeyed(fetched).None? ==> r.Ok? && exists ordered ::
            (Sorted(ordered, true) && multiset(ordered) == multiset(fetched) && r.value == Paragraphs(ordered)))
  {
    var fetched := db.GetArticlesPastWeek(today);
    if fetched.Err? {
      return Err(FetchFailed(fetched.error));
    }
    r := SortAndFormat(fetched.value);
  }

  /**
   * As written, the week's query only returns articles whose dates are `%Y-%m-%d` text, and
   * no such text is an RFC 822 date: a nonempty week can never be sorted.
   */
  lemma WeekNeverSorts(rows: seq<Row>, today: Date)
    requires ValidDate(today)
    requires SelectPastWeek(rows, today).Ok? && SelectPastWeek(rows, today).value != []
    ensures FirstUnkeyed(SelectPastWeek(rows, today).value).Some?
  {
    var s := SelectPastWeek(rows, today).value;
    PastWeekDatesParse(rows, today, IsoFormat);
    FormatsDisjoint(s[0].articleDate);
  }

  /** As written, `run` produces paragraphs only for a week without articles. */
  lemma RunNeedsEmptyWeek(rows: seq<Row>, today: Date)
    requires ValidDate(today)
    requires SelectPastWeek(rows, today).Ok?
    requires FirstUnkeyed(SelectPastWeek(rows, today).value).None?
    ensures SelectPastWeek(rows, today).value == []
  {
    if SelectPastWeek(rows, today).value != [] {
      WeekNeverSorts(rows, today);
    }
  }

  /** With the week's dates read in the RFC 822 layout, every article the query returns sorts. */
  lemma CorrectedWeekSorts(rows: seq<Row>, today: Date)
    requires ValidDate(today)
    requires SelectPastWeekRfc(rows, today).Ok?
    ensures FirstUnkeyed(SelectPastWeekRfc(rows, today).value).None?
  {
    PastWeekDatesParse(rows, today, RfcFormat);
  }

  /** `run` over the corrected query: once the fetch succeeds, the paragraphs are always produced. */
  method RunCorrected(db: Database, today: Date) returns (r: Result<seq<string>, RunError>)
    requires ValidDate(today)
    ensures SelectPastWeekRfc(db.rows, today).Err? ==> r == Err(FetchFailed(SelectPastWeekRfc(db.rows, today).error))
    ensures SelectPastWeekRfc(db.rows, today).Ok? ==> r.Ok? && exists ordered ::
      (Sorted(ordered, true) && multiset(ordered) == multiset(SelectPastWeekRfc(db.rows, today).value)
       && r.value == Paragraphs(ordered))
  {
    var fetched := SelectPastWeekRfc(db.rows, today);
    if fetched.Err? {
      return Err(FetchFailed(fetched.error));
    }
    CorrectedWeekSorts(db.rows, today);
    r := SortAndFormat(fetched.value);
  }
}

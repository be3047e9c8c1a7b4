/**
 * The `articles` table. The SQLite connection is modelled as the sequence of the table's
 * rows in scan order, plus the AUTOINCREMENT counter, the largest id ever handed out.
 */
module ArticleDatabase {
  import opened Wrappers
  import opened Articles
  import opened Dates

  /** One row of `articles`, its fifteen columns in the order the table declares them. */
  datatype Row = Row(
    id: int,
    title: string,
    content: string,
    articleDate: string,
    link: string,
    categorys: Option<string>,
    product: Option<string>,
    productAuthor: Option<string>,
    coreSummary: Option<string>,
    detailedSummary: Option<string>,
    token: Option<int>,
    promptToken: Option<int>,
    completionToken: Option<int>,
    tag: Option<string>,
    dropArticle: Option<string>)

  /** Why a database call raises. */
  datatype DbError =
    | MissingId             // the article has no 'ID' key: KeyError
    | NoSuchRow             // `fetchone()` found nothing and `struct_article(None)` raises TypeError
    | BadDate(date: string) // `strptime(date, '%Y-%m-%d')` raises ValueError

  /**
   * The table invariant: ids are positive, at most the counter, and increase along the
   * table (so the scan order is id order); no two rows share a title.
   */
  ghost predicate ValidTable(rows: seq<Row>, lastId: int) {
    && (forall i :: 0 <= i < |rows| ==> 1 <= rows[i].id <= lastId)
    && (forall i, j :: 0 <= i < j < |rows| ==> rows[i].id < rows[j].id)
    && (forall i, j :: 0 <= i < j < |rows| ==> rows[i].title != rows[j].title)
  }

  // ---------------------------------------------------------------------------
  // Filtering, in table order
  // ---------------------------------------------------------------------------

  /** The elements of `s` that satisfy `p`, in their order in `s` (a WHERE clause, a list filter). */
  function Where<T>(s: seq<T>, p: T -> bool): (r: seq<T>)
    ensures |r| <= |s|
  {
    if s == [] then []
    else (if p(s[0]) then [s[0]] else []) + Where(s[1..], p)
  }

  /** The filter keeps exactly the elements that pass: each kept one passes, each passing one is kept. */
  lemma {:induction false} WhereKeeps<T>(s: seq<T>, p: T -> bool)
    ensures forall i :: 0 <= i < |Where(s, p)| ==> Where(s, p)[i] in s && p(Where(s, p)[i])
    ensures forall i :: 0 <= i < |s| && p(s[i]) ==> s[i] in Where(s, p)
  {
    if s != [] {
      var tail := s[1..];
      WhereKeeps(tail, p);
      var head: seq<T> := if p(s[0]) then [s[0]] else [];
      var r := Where(s, p);
      assert r == head + Where(tail, p);
      forall i | 0 <= i < |r|
        ensures r[i] in s && p(r[i])
      {
        if i >= |head| {
          assert r[i] == Where(tail, p)[i - |head|];
          assert r[i] in tail;
        }
      }
      forall i | 0 <= i < |s| && p(s[i])
        ensures s[i] in r
      {
        if i > 0 {
          assert s[i] == tail[i - 1];
        }
      }
    }
  }

  /** Filtering keeps the order: the filter of a concatenation is the concatenation of the filters. */
  lemma {:induction false} WhereAppend<T>(a: seq<T>, b: seq<T>, p: T -> bool)
    ensures Where(a + b, p) == Where(a, p) + Where(b, p)
  {
    if a == [] {
      assert a + b == b;
    } else {
      assert (a + b)[0] == a[0];
      assert (a + b)[1..] == a[1..] + b;
      WhereAppend(a[1..], b, p);
      var head := if p(a[0]) then [a[0]] else [];
      assert Where(a + b, p) == head + Where(a[1..] + b, p);
      assert Where(a, p) == head + Where(a[1..], p);
    }
  }

  /** A filter that every element passes keeps the whole sequence. */
  lemma {:induction false} WhereAll<T>(s: seq<T>, p: T -> bool)
    requires forall i :: 0 <= i < |s| ==> p(s[i])
    ensures Where(s, p) == s
  {
    if s != [] {
      WhereAll(s[1..], p);
    }
  }

  /** Filtering a table keeps its invariant, so the rows it keeps are still in id order. */
  lemma {:induction false} WhereValid(rows: seq<Row>, lastId: int, p: Row -> bool)
    requires ValidTable(rows, lastId)
    ensures ValidTable(Where(rows, p), lastId)
  {
    if rows != [] {
      var tail := rows[1..];
      ValidTail(rows, lastId);
      WhereValid(tail, lastId, p);
      WhereKeeps(tail, p);
      var rest := Where(tail, p);
      forall j | 0 <= j < |rest|
        ensures rows[0].id < rest[j].id && rows[0].title != rest[j].title
      {
        assert rest[j] in tail;
        var k :| 0 <= k < |tail| && tail[k] == rest[j];
        assert rows[k + 1] == rest[j];
      }
      if p(rows[0]) {
        ValidCons(rows[0], rest, lastId);
        assert Where(rows, p) == [rows[0]] + rest;
      } else {
        assert Where(rows, p) == rest;
      }
    }
  }

  lemma ValidTail(rows: seq<Row>, lastId: int)
    requires ValidTable(rows, lastId) && rows != []
    ensures ValidTable(rows[1..], lastId)
  {
    var tail := rows[1..];
    assert forall i :: 0 <= i < |tail| ==> tail[i] == rows[i + 1];
  }

  lemma ValidCons(head: Row, rest: seq<Row>, lastId: int)
    requires ValidTable(rest, lastId) && 1 <= head.id <= lastId
    requires forall j :: 0 <= j < |rest| ==> head.id < rest[j].id && head.title != rest[j].title
    ensures ValidTable([head] + rest, lastId)
  {
    var s := [head] + rest;
    assert forall i :: 0 < i < |s| ==> s[i] == rest[i - 1];
  }

  // ---------------------------------------------------------------------------
  // Rows and records
  // ---------------------------------------------------------------------------

  /**
   * `struct_article`: columns 0 to 12 become ID ... CompletionTokens; `tag` and
   * `drop_article` are not part of the record.
   */
  function StructArticle(row: Row): (a: Article)
    ensures a.id == Some(row.id) && a.title == row.title && a.content == row.content
    ensures a.articleDate == row.articleDate && a.link == row.link && a.categorys == row.categorys
    ensures a.product == row.product && a.productAuthor == row.productAuthor
    ensures a.coreSummary == row.coreSummary && a.detailedSummary == row.detailedSummary
    ensures a.tokens == row.token && a.promptTokens == row.promptToken && a.completionTokens == row.completionToken
    ensures a.articleAuthor == None
  {
    Article(Some(row.id), row.title, row.content, row.articleDate, row.link, None, row.categorys,
            row.product, row.productAuthor, row.coreSummary, row.detailedSummary,
            row.token, row.promptToken, row.completionToken)
  }

  /** Two rows give the same record exactly when they differ at most in `tag` and `drop_article`. */
  lemma StructArticleForgets(r1: Row, r2: Row)
    ensures StructArticle(r1) == StructArticle(r2) <==> r1.(tag := r2.tag, dropArticle := r2.dropArticle) == r2
  {
    if StructArticle(r1) == StructArticle(r2) {
      assert StructArticle(r1).id == StructArticle(r2).id;
    }
  }

  /** The records of a list of rows, one per row, in order (`[self.struct_article(row) for row in cursor]`). */
  function Records(rows: seq<Row>): (r: seq<Article>)
    ensures |r| == |rows|
    ensures forall i :: 0 <= i < |rows| ==> r[i] == StructArticle(rows[i])
  {
    seq(|rows|, i requires 0 <= i < |rows| => StructArticle(rows[i]))
  }

  /** The row `insert_article` adds: the five given columns, NULL everywhere else. */
  function NewRow(id: int, a: Article): (r: Row)
    ensures r.id == id && r.title == a.title && r.content == a.content
    ensures r.articleDate == a.articleDate && r.link == a.link && r.categorys == a.categorys
    ensures r.product.None? && r.productAuthor.None? && r.coreSummary.None? && r.detailedSummary.None?
    ensures r.token.None? && r.promptToken.None? && r.completionToken.None?
    ensures r.tag.None? && r.dropArticle.None?
  {
    Row(id, a.title, a.content, a.articleDate, a.link, a.categorys,
        None, None, None, None, None, None, None, None, None)
  }

  predicate HasTitle(rows: seq<Row>, title: string) {
    exists r :: r in rows && r.title == title
  }

  /** After an insert, the title check finds exactly the titles it found before, plus the new one. */
  lemma HasTitleAfterInsert(rows: seq<Row>, id: int, a: Article, title: string)
    ensures HasTitle(rows + [NewRow(id, a)], title) <==> title == a.title || HasTitle(rows, title)
  {
    var rows' := rows + [NewRow(id, a)];
    if title == a.title {
      assert rows'[|rows|] in rows';
    }
    if HasTitle(rows, title) {
      var r :| r in rows && r.title == title;
      assert r in rows';
    }
  }

  /** Adding a row with the next id and a new title keeps the invariant. */
  lemma InsertKeepsValid(rows: seq<Row>, lastId: int, a: Article)
    requires ValidTable(rows, lastId) && lastId >= 0
    requires !HasTitle(rows, a.title)
    ensures ValidTable(rows + [NewRow(lastId + 1, a)], lastId + 1)
  {
    var rows' := rows + [NewRow(lastId + 1, a)];
    forall i | 0 <= i < |rows|
      ensures rows'[i].title != a.title
    {
      assert rows[i] in rows;
    }
  }

  /** A newly inserted row's id is larger than every id in the table. */
  lemma NewIdIsLargest(rows: seq<Row>, lastId: int, a: Article)
    requires ValidTable(rows, lastId)
    ensures forall r :: r in rows ==> r.id < NewRow(lastId + 1, a).id
  {
    forall r | r in rows
      ensures r.id < lastId + 1
    {
      var i :| 0 <= i < |rows| && rows[i] == r;
    }
  }

  // ---------------------------------------------------------------------------
  // Updates and deletes on the rows
  // ---------------------------------------------------------------------------

  /** The eight columns `update_article` writes, taken from the record. */
  function UpdateRow(row: Row, a: Article): (r: Row)
    ensures r.(product := row.product, productAuthor := row.productAuthor,
               coreSummary := row.coreSummary, detailedSummary := row.detailedSummary,
               token := row.token, promptToken := row.promptToken,
               completionToken := row.completionToken, articleDate := row.articleDate) == row
    ensures r.product == a.product && r.productAuthor == a.productAuthor
    ensures r.coreSummary == a.coreSummary && r.detailedSummary == a.detailedSummary
    ensures r.token == a.tokens && r.promptToken == a.promptTokens && r.completionToken == a.completionTokens
    ensures r.articleDate == a.articleDate
  {
    row.(product := a.product, productAuthor := a.productAuthor,
         coreSummary := a.coreSummary, detailedSummary := a.detailedSummary,
         token := a.tokens, promptToken := a.promptTokens,
         completionToken := a.completionTokens, articleDate := a.articleDate)
  }

  /** `UPDATE articles SET ... WHERE id=?`: the rows with that id are rewritten, the others kept. */
  function UpdateRows(rows: seq<Row>, id: int, a: Article): (r: seq<Row>)
    ensures |r| == |rows|
    ensures forall i :: 0 <= i < |rows| && rows[i].id != id ==> r[i] == rows[i]
    ensures forall i :: 0 <= i < |rows| && rows[i].id == id ==> r[i] == UpdateRow(rows[i], a)
  {
    seq(|rows|, i requires 0 <= i < |rows| => if rows[i].id == id then UpdateRow(rows[i], a) else rows[i])
  }

  /** An update keeps ids and titles, hence the invariant. */
  lemma UpdateKeepsValid(rows: seq<Row>, lastId: int, id: int, a: Article)
    requires ValidTable(rows, lastId)
    ensures ValidTable(UpdateRows(rows, id, a), lastId)
  {
  }

  /** An update whose id is in no row changes nothing. */
  lemma UpdateMissingId(rows: seq<Row>, id: int, a: Article)
    requires forall r :: r in rows ==> r.id != id
    ensures UpdateRows(rows, id, a) == rows
  {
    var r := UpdateRows(rows, id, a);
    forall i | 0 <= i < |rows|
      ensures r[i] == rows[i]
    {
      assert rows[i] in rows;
    }
  }

  /** `DELETE FROM articles WHERE id=?`. */
  function DeleteRows(rows: seq<Row>, id: int): (r: seq<Row>)
    ensures forall row :: row in r <==> row in rows && row.id != id
  {
    var p := (row: Row) => row.id != id;
    WhereKeeps(rows, p);
    assert forall row :: row in rows ==> exists i :: 0 <= i < |rows| && rows[i] == row;
    Where(rows, p)
  }

  /** A delete whose id is in no row changes nothing. */
  lemma DeleteMissingId(rows: seq<Row>, id: int)
    requires forall r :: r in rows ==> r.id != id
    ensures DeleteRows(rows, id) == rows
  {
    var p := (row: Row) => row.id != id;
    forall i | 0 <= i < |rows|
      ensures p(rows[i])
    {
      assert rows[i] in rows;
    }
    WhereAll(rows, p);
  }

  /** A filter that only the element at `k` fails removes exactly that element. */
  lemma {:induction false} WhereDropsOne<T>(s: seq<T>, p: T -> bool, k: int)
    requires 0 <= k < |s|
    requires forall i :: 0 <= i < |s| ==> (p(s[i]) <==> i != k)
    ensures Where(s, p) == s[..k] + s[k + 1..]
  {
    var tail := s[1..];
    assert forall i :: 0 <= i < |tail| ==> tail[i] == s[i + 1];
    if k == 0 {
      assert Where(s, p) == Where(tail, p);
      WhereAll(tail, p);
    } else {
      WhereDropsOne(tail, p, k - 1);
      assert Where(s, p) == [s[0]] + Where(tail, p);
      assert tail[..k - 1] + tail[k..] == s[1..k] + s[k + 1..];
      assert [s[0]] + s[1..k] == s[..k];
    }
  }

  /** A delete removes exactly the row with that id, keeping the others in order. */
  lemma DeleteRemovesOne(rows: seq<Row>, lastId: int, k: int)
    requires ValidTable(rows, lastId)
    requires 0 <= k < |rows|
    ensures DeleteRows(rows, rows[k].id) == rows[..k] + rows[k + 1..]
    ensures ValidTable(DeleteRows(rows, rows[k].id), lastId)
  {
    var p := (row: Row) => row.id != rows[k].id;
    forall i | 0 <= i < |rows|
      ensures p(rows[i]) <==> i != k
    {
      if i < k {
        assert rows[i].id < rows[k].id;
      } else if i > k {
        assert rows[k].id < rows[i].id;
      }
    }
    WhereDropsOne(rows, p, k);
    WhereValid(rows, lastId, p);
  }

  // ---------------------------------------------------------------------------
  // Queries
  // ---------------------------------------------------------------------------

  predicate Unsummarized(row: Row) {
    row.coreSummary.None?
  }

  predicate Undropped(row: Row) {
    row.dropArticle.None?
  }

  /** `get_unsummarized_articles` on a table: the rows whose `core_summary` is NULL, in table order. */
  function SelectUnsummarized(rows: seq<Row>): (r: seq<Article>)
    ensures forall a :: a in r ==> a.coreSummary.None?
    ensures forall i :: 0 <= i < |rows| && rows[i].coreSummary.None? ==> StructArticle(rows[i]) in r
  {
    var kept := Where(rows, Unsummarized);
    WhereKeeps(rows, Unsummarized);
    assert forall i :: 0 <= i < |rows| && rows[i].coreSummary.None? ==> rows[i] in kept;
    Records(kept)
  }

  /** Once an update writes a core summary, the updated row is no longer listed as unsummarized. */
  lemma UpdateSummarizes(rows: seq<Row>, id: int, a: Article)
    requires a.coreSummary.Some?
    ensures forall r :: r in SelectUnsummarized(UpdateRows(rows, id, a)) ==> r.id != Some(id)
  {
    var rows' := UpdateRows(rows, id, a);
    var kept := Where(rows', Unsummarized);
    WhereKeeps(rows', Unsummarized);
    forall r | r in SelectUnsummarized(rows')
      ensures r.id != Some(id)
    {
      var k :| 0 <= k < |kept| && r == StructArticle(kept[k]);
      assert kept[k] in rows';
    }
  }

  /** `get_article` on a table: the first row with that id, or the TypeError of `struct_article(None)`. */
  function SelectById(rows: seq<Row>, id: int): (r: Result<Article, DbError>)
    ensures r.Ok? <==> exists row :: row in rows && row.id == id
    ensures r.Err? ==> r.error == NoSuchRow
  {
    if rows == [] then Err(NoSuchRow)
    else if rows[0].id == id then Ok(StructArticle(rows[0]))
    else SelectById(rows[1..], id)
  }

  /** A successful id lookup returns the record of the first row with that id. */
  lemma {:induction false} SelectByIdFirst(rows: seq<Row>, id: int)
    requires SelectById(rows, id).Ok?
    ensures exists k ::
      (0 <= k < |rows| && rows[k].id == id && SelectById(rows, id).value == StructArticle(rows[k])
       && forall j :: 0 <= j < k ==> rows[j].id != id)
  {
    var k := FirstWithId(rows, id);
    assert 0 <= k < |rows| && rows[k].id == id && SelectById(rows, id).value == StructArticle(rows[k]);
  }

  /** The index of the first row with the id, found by the same walk as `SelectById`. */
  lemma {:induction false} FirstWithId(rows: seq<Row>, id: int) returns (k: int)
    requires SelectById(rows, id).Ok?
    ensures 0 <= k < |rows| && rows[k].id == id
    ensures SelectById(rows, id).value == StructArticle(rows[k])
    ensures forall j :: 0 <= j < k ==> rows[j].id != id
  {
    if rows[0].id == id {
      k := 0;
    } else {
      var rest := rows[1..];
      assert SelectById(rows, id) == SelectById(rest, id);
      var k' := FirstWithId(rest, id);
      k := k' + 1;
      assert rows[k] == rest[k'];
      assert forall j :: 1 <= j < k ==> rows[j] == rest[j - 1];
    }
  }

  /** On a valid table, id lookups find the one row that has the id. */
  lemma SelectByIdValid(rows: seq<Row>, lastId: int, k: int)
    requires ValidTable(rows, lastId) && 0 <= k < |rows|
    ensures SelectById(rows, rows[k].id) == Ok(StructArticle(rows[k]))
  {
    var r := SelectById(rows, rows[k].id);
    assert rows[k] in rows;
    SelectByIdFirst(rows, rows[k].id);
    var k' :| 0 <= k' < |rows| && rows[k'].id == rows[k].id && r.value == StructArticle(rows[k']);
    assert k' == k;
  }

  /** The Monday of the week of `today`: `today - timedelta(days=today.weekday())`. */
  function WeekStart(today: Date): (r: int)
    requires ValidDate(today)
    ensures Weekday(r) == 0
    ensures r <= Ordinal(today) < r + 7
  {
    var o := Ordinal(today);
    MondayBefore(o);
    o - Weekday(o)
  }

  /** `within_week` for a date read with the layout `fmt`: false where the date does not parse. */
  predicate InWeek(date: string, weekStart: int, fmt: string) {
    match Strptime(date, fmt)
    case Some(t) => Ordinal(t.date) >= weekStart
    case None => false
  }

  /**
   * An article dated no later than today is within the week exactly when its date falls in the
   * same Monday-to-Sunday week as today.
   */
  lemma InWeekSameWeek(date: string, today: Date, fmt: string)
    requires ValidDate(today)
    requires Strptime(date, fmt).Some? && Ordinal(Strptime(date, fmt).value.date) <= Ordinal(today)
    ensures InWeek(date, WeekStart(today), fmt) <==> WeekStart(Strptime(date, fmt).value.date) == WeekStart(today)
  {
    var d := Strptime(date, fmt).value.date;
    if InWeek(date, WeekStart(today), fmt) {
      MondayOfWeek(Ordinal(d), WeekStart(today));
    }
  }

  /**
   * `[article for article in articles if within_week(article)]`: the list comprehension
   * raises on the first article whose date does not parse.
   */
  function WithinWeek(articles: seq<Article>, weekStart: int, fmt: string): (r: Result<seq<Article>, DbError>)
    ensures r.Ok? <==> forall i :: 0 <= i < |articles| ==> Strptime(articles[i].articleDate, fmt).Some?
    ensures r.Ok? ==> r.value == Where(articles, (a: Article) => InWeek(a.articleDate, weekStart, fmt))
    ensures r.Err? ==> exists k ::
      (0 <= k < |articles| && r.error == BadDate(articles[k].articleDate)
       && Strptime(articles[k].articleDate, fmt).None?
       && forall j :: 0 <= j < k ==> Strptime(articles[j].articleDate, fmt).Some?)
  {
    if articles == [] then Ok([])
    else
      var a := articles[0];
      match Strptime(a.articleDate, fmt)
      case None => Err(BadDate(a.articleDate))
      case Some(t) =>
        var rest := WithinWeek(articles[1..], weekStart, fmt);
        if rest.Err? then
          var k :| 0 <= k < |articles[1..]| && rest.error == BadDate(articles[1..][k].articleDate)
            && Strptime(articles[1..][k].articleDate, fmt).None?
            && forall j :: 0 <= j < k ==> Strptime(articles[1..][j].articleDate, fmt).Some?;
          assert articles[k + 1] == articles[1..][k];
          rest
        else
          Ok((if Ordinal(t.date) >= weekStart then [a] else []) + rest.value)
  }

  /**
   * The records of the undropped rows dated on or after this week's Monday, their dates read
   * with the layout `fmt`.
   */
  function PastWeekBy(rows: seq<Row>, today: Date, fmt: string): Result<seq<Article>, DbError>
    requires ValidDate(today)
  {
    WithinWeek(Records(Where(rows, Undropped)), WeekStart(today), fmt)
  }

  /** `get_articles_past_week` on a table, with `today` for `datetime.today()`: dates are read as `%Y-%m-%d`. */
  function SelectPastWeek(rows: seq<Row>, today: Date): (r: Result<seq<Article>, DbError>)
    requires ValidDate(today)
    ensures r == PastWeekBy(rows, today, IsoFormat)
  {
    PastWeekBy(rows, today, IsoFormat)
  }

  /**
   * The past-week query with the dates read in the RFC 822 layout that the formatter reads
   * `ArticleDate` with (the variant of the query left commented out in the source).
   */
  function SelectPastWeekRfc(rows: seq<Row>, today: Date): (r: Result<seq<Article>, DbError>)
    requires ValidDate(today)
    ensures r == PastWeekBy(rows, today, RfcFormat)
  {
    PastWeekBy(rows, today, RfcFormat)
  }

  /** Filtering records is filtering the rows they come from. */
  lemma {:induction false} WhereRecords(rows: seq<Row>, q: Article -> bool, p: Row -> bool)
    requires forall row :: p(row) == q(StructArticle(row))
    ensures Where(Records(rows), q) == Records(Where(rows, p))
  {
    if rows != [] {
      WhereRecords(rows[1..], q, p);
      assert Records(rows)[1..] == Records(rows[1..]);
      if p(rows[0]) {
        assert Records([rows[0]] + Where(rows[1..], p)) == [StructArticle(rows[0])] + Records(Where(rows[1..], p));
      }
    }
  }

  /** Two filters in a row are one filter by both conditions. */
  lemma {:induction false} WhereWhere<T>(s: seq<T>, p1: T -> bool, p2: T -> bool, p: T -> bool)
    requires forall x :: p(x) == (p1(x) && p2(x))
    ensures Where(Where(s, p1), p2) == Where(s, p)
  {
    if s != [] {
      WhereWhere(s[1..], p1, p2, p);
      if p1(s[0]) {
        assert Where(s, p1) == [s[0]] + Where(s[1..], p1);
        assert Where(s, p1)[1..] == Where(s[1..], p1);
      } else {
        assert Where(s, p1) == Where(s[1..], p1);
      }
    }
  }

  /** The rows the past-week query keeps: undropped, dated on or after `weekStart`. */
  predicate InPastWeek(row: Row, weekStart: int, fmt: string) {
    Undropped(row) && InWeek(row.articleDate, weekStart, fmt)
  }

  /** The records of the undropped rows all have dates that parse exactly when the undropped rows do. */
  lemma UndroppedDatesParse(rows: seq<Row>, fmt: string)
    ensures (forall i :: 0 <= i < |Records(Where(rows, Undropped))| ==>
               Strptime(Records(Where(rows, Undropped))[i].articleDate, fmt).Some?) <==>
            (forall i :: 0 <= i < |rows| && Undropped(rows[i]) ==> Strptime(rows[i].articleDate, fmt).Some?)
  {
    if forall i :: 0 <= i < |rows| && Undropped(rows[i]) ==> Strptime(rows[i].articleDate, fmt).Some? {
      KeptDatesParse(rows, fmt);
    } else {
      var i :| 0 <= i < |rows| && Undropped(rows[i]) && Strptime(rows[i].articleDate, fmt).None?;
      KeptDateFails(rows, fmt, i);
    }
  }

  lemma KeptDatesParse(rows: seq<Row>, fmt: string)
    requires forall i :: 0 <= i < |rows| && Undropped(rows[i]) ==> Strptime(rows[i].articleDate, fmt).Some?
    ensures forall i :: 0 <= i < |Records(Where(rows, Undropped))| ==>
      Strptime(Records(Where(rows, Undropped))[i].articleDate, fmt).Some?
  {
    var kept := Where(rows, Undropped);
    WhereKeeps(rows, Undropped);
    forall i | 0 <= i < |kept|
      ensures Strptime(kept[i].articleDate, fmt).Some?
    {
      var k :| 0 <= k < |rows| && rows[k] == kept[i];
    }
  }

  lemma KeptDateFails(rows: seq<Row>, fmt: string, i: int)
    requires 0 <= i < |rows| && Undropped(rows[i]) && Strptime(rows[i].articleDate, fmt).None?
    ensures exists k ::
      (0 <= k < |Records(Where(rows, Undropped))| &&
       Strptime(Records(Where(rows, Undropped))[k].articleDate, fmt).None?)
  {
    var kept := Where(rows, Undropped);
    WhereKeeps(rows, Undropped);
    assert rows[i] in kept;
    var k :| 0 <= k < |kept| && kept[k] == rows[i];
    assert Records(kept)[k].articleDate == rows[i].articleDate;
  }

  /** The past-week query succeeds exactly when every undropped row's date parses with `fmt`. */
  lemma PastWeekSucceeds(rows: seq<Row>, today: Date, fmt: string)
    requires ValidDate(today)
    ensures PastWeekBy(rows, today, fmt).Ok? <==>
      forall i :: 0 <= i < |rows| && Undropped(rows[i]) ==> Strptime(rows[i].articleDate, fmt).Some?
  {
    UndroppedDatesParse(rows, fmt);
  }

  /**
   * When it succeeds, the past-week query lists the undropped rows dated on or after this
   * week's Monday, in table order.
   */
  lemma PastWeekContents(rows: seq<Row>, today: Date, fmt: string)
    requires ValidDate(today)
    requires PastWeekBy(rows, today, fmt).Ok?
    ensures PastWeekBy(rows, today, fmt).value
         == Records(Where(rows, (row: Row) => InPastWeek(row, WeekStart(today), fmt)))
  {
    var ws := WeekStart(today);
    var kept := Where(rows, Undropped);
    var q := (a: Article) => InWeek(a.articleDate, ws, fmt);
    var p := (row: Row) => InWeek(row.articleDate, ws, fmt);
    WhereRecords(kept, q, p);
    WhereWhere(rows, Undropped, p, (row: Row) => InPastWeek(row, ws, fmt));
  }

  /** Every article the past-week query returns has a date that parses with `fmt`. */
  lemma PastWeekDatesParse(rows: seq<Row>, today: Date, fmt: string)
    requires ValidDate(today)
    requires PastWeekBy(rows, today, fmt).Ok?
    ensures forall i :: 0 <= i < |PastWeekBy(rows, today, fmt).value| ==>
      Strptime(PastWeekBy(rows, today, fmt).value[i].articleDate, fmt).Some?
  {
    var ws := WeekStart(today);
    var s := PastWeekBy(rows, today, fmt).value;
    var recs := Records(Where(rows, Undropped));
    WhereKeeps(recs, (a: Article) => InWeek(a.articleDate, ws, fmt));
    forall i | 0 <= i < |s|
      ensures Strptime(s[i].articleDate, fmt).Some?
    {
      assert InWeek(s[i].articleDate, ws, fmt);
    }
  }

  // ---------------------------------------------------------------------------
  // The database object
  // ---------------------------------------------------------------------------

  class Database {
    /** The rows of `articles`, in scan order. */
    var rows: seq<Row>
    /** The AUTOINCREMENT counter: the largest id ever handed out, 0 for a new table. */
    var lastId: int

    ghost predicate Valid()
      reads this
    {
      ValidTable(rows, lastId) && lastId >= 0
    }

    /** Opens the database on a newly created, empty `articles` table. */
    constructor ()
      ensures Valid() && rows == [] && lastId == 0
    {
      rows := [];
      lastId := 0;
    }

    /**
     * `insert_article`: an article whose title is already in the table is skipped; any other
     * is added as one new row with the next id and its five columns, all else NULL.
     */
    method InsertArticle(article: Article)
      requires Valid()
      modifies this
      ensures Valid()
      ensures HasTitle(old(rows), article.title) ==> rows == old(rows) && lastId == old(lastId)
      ensures !HasTitle(old(rows), article.title) ==>
        rows == old(rows) + [NewRow(old(lastId) + 1, article)] && lastId == old(lastId) + 1
    {
      if HasTitle(rows, article.title) {
        return;
      }
      InsertKeepsValid(rows, lastId, article);
      var id := lastId + 1;
      rows := rows + [NewRow(id, article)];
      lastId := id;
    }

    /** `get_all_articles`: every row, as a record, in table order. */
    function GetAllArticles(): (r: seq<Article>)
      reads this
      ensures |r| == |rows|
      ensures forall i :: 0 <= i < |rows| ==> r[i] == StructArticle(rows[i])
    {
      Records(rows)
    }

    /** `get_unsummarized_articles`: the rows whose `core_summary` is NULL, in table order. */
    function GetUnsummarizedArticles(): (r: seq<Article>)
      reads this
      ensures r == Records(Where(rows, Unsummarized))
    {
      SelectUnsummarized(rows)
    }

    /** `get_article`. */
    function GetArticle(id: int): (r: Result<Article, DbError>)
      reads this
      ensures r == SelectById(rows, id)
    {
      SelectById(rows, id)
    }

    /** `get_articles_past_week`, with `today` for `datetime.today()`. */
    function GetArticlesPastWeek(today: Date): (r: Result<seq<Article>, DbError>)
      reads this
      requires ValidDate(today)
      ensures r == SelectPastWeek(rows, today)
    {
      SelectPastWeek(rows, today)
    }

    /**
     * `update_article`: the eight columns of the row with the article's id are rewritten from
     * the article, and nothing else changes; an article without an id raises KeyError first.
     */
    method UpdateArticle(article: Article) returns (r: Result<(), DbError>)
      requires Valid()
      modifies this
      ensures Valid() && lastId == old(lastId)
      ensures article.id.None? ==> r == Err(MissingId) && rows == old(rows)
      ensures article.id.Some? ==> r == Ok(()) && rows == UpdateRows(old(rows), article.id.value, article)
    {
      if article.id.None? {
        return Err(MissingId);
      }
      UpdateKeepsValid(rows, lastId, article.id.value, article);
      rows := UpdateRows(rows, article.id.value, article);
      r := Ok(());
    }

    /** `delete_article`: the row with the article's id goes, the others stay in order. */
    method DeleteArticle(article: Article) returns (r: Result<(), DbError>)
      requires Valid()
      modifies this
      ensures Valid() && lastId == old(lastId)
      ensures article.id.None? ==> r == Err(MissingId) && rows == old(rows)
      ensures article.id.Some? ==> r == Ok(()) && rows == DeleteRows(old(rows), article.id.value)
    {
      if article.id.None? {
        return Err(MissingId);
      }
      WhereValid(rows, lastId, (row: Row) => row.id != article.id.value);
      rows := DeleteRows(rows, article.id.value);
      r := Ok(());
    }
  }
}

/**
 * The article record handed between the database, the summarizer and the formatter.
 * In the program it is a dictionary; here it is a record with one field per key.
 */
module Articles {
  import opened Wrappers

  /**
   * One article. `id == None` stands for a record that has never been stored (no 'ID' key);
   * every other `None` stands for a key whose value is None (an SQL NULL).
   * `articleAuthor` is only present on freshly fetched articles: the table has no column for it.
   */
  datatype Article = Article(
    id: Option<int>,
    title: string,
    content: string,
    articleDate: string,
    link: string,
    articleAuthor: Option<string>,
    categorys: Option<string>,
    product: Option<string>,
    productAuthor: Option<string>,
    coreSummary: Option<string>,
    detailedSummary: Option<string>,
    tokens: Option<int>,
    promptTokens: Option<int>,
    completionTokens: Option<int>)

  /** The four digest fields the summarizer extracts from the model's answer. */
  datatype Digest = Digest(
    product: string,
    productAuthor: string,
    coreSummary: string,
    detailedSummary: string)
}

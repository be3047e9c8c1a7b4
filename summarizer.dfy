/**
 * The summarizer: the model's answer is turned into the four digest fields, a malformed
 * answer is sent back to the model for repair, and the digest is merged into the article.
 *
 * The language model and `json.loads` are not modelled; they are oracles passed in as
 * functions:
 *   - `llm(text)`: the answer of the digest prompt for `text`, or None when the call raises;
 *   - `repair(text)`: the answer of the JSON-fixing prompt for `text`, or None when it raises;
 *   - `decode(text)`: what `json.loads(text)` returns, or None when it raises.
 * The source's repair recursion has no bound; here it carries `fuel`, the number of repair
 * calls still allowed, and running out of it is the outcome `OutOfFuel`.
 */
module Summarizer {
  import opened Wrappers
  import opened Articles

  /** A decoded JSON value: an object whose members are strings, or anything else. */
  datatype Json = JObject(members: map<string, string>) | JOther

  /** Why a digest could not be produced. */
  datatype Failure =
    | CallFailure            // a model call raised
    | DecodeError            // json.loads raised on the newline-free text
    | NotAnObject            // the JSON value cannot be indexed by key
    | MissingKey(key: string) // zh_to_en raised KeyError for this key
    | OutOfFuel              // every allowed repair call was made and the text is still not JSON

  /** The Chinese keys the digest prompt asks for. */
  const ProductKey: string := "产品名称"
  const AuthorKey: string := "单位"
  const CoreKey: string := "成果"
  const DetailKey: string := "详情"

  /** Articles are truncated to this many characters before they are sent to the model. */
  const MaxContentChars: nat := 3500

  // ---------------------------------------------------------------------------
  // ArticleJSONParser
  // ---------------------------------------------------------------------------

  /** `json_check`: true exactly when decoding the raw text does not raise. */
  predicate JsonCheck(output: string, decode: string -> Option<Json>) {
    decode(output).Some?
  }

  /** `output.replace("\n", "")`. */
  function RemoveNewlines(s: string): (r: string)
    ensures '\n' !in r
    ensures |r| <= |s|
    ensures '\n' !in s ==> r == s
  {
    if s == [] then []
    else (if s[0] == '\n' then [] else [s[0]]) + RemoveNewlines(s[1..])
  }

  /** Removing newlines works piece by piece: it is `replace` on each part. */
  lemma {:induction false} RemoveNewlinesAppend(a: string, b: string)
    ensures RemoveNewlines(a + b) == RemoveNewlines(a) + RemoveNewlines(b)
  {
    if a != [] {
      assert (a + b)[1..] == a[1..] + b;
      RemoveNewlinesAppend(a[1..], b);
      var head := if a[0] == '\n' then [] else [a[0]];
      assert RemoveNewlines(a + b) == head + RemoveNewlines(a[1..] + b);
      assert RemoveNewlines(a) == head + RemoveNewlines(a[1..]);
    } else {
      assert a + b == b;
    }
  }

  /** Removing newlines keeps every other character, in order, and only those. */
  lemma {:induction false} RemoveNewlinesKeeps(s: string, c: char)
    ensures c in RemoveNewlines(s) <==> c in s && c != '\n'
  {
    if s != [] {
      RemoveNewlinesKeeps(s[1..], c);
      assert s == [s[0]] + s[1..];
    }
  }

  /** `zh_to_en`: the four Chinese keys become the four English digest fields. */
  function ZhToEn(zh: map<string, string>): (r: Result<Digest, Failure>)
    ensures r.Ok? <==> ProductKey in zh && AuthorKey in zh && CoreKey in zh && DetailKey in zh
    ensures r.Ok? ==>
      r.value.product == zh[ProductKey] && r.value.productAuthor == zh[AuthorKey] &&
      r.value.coreSummary == zh[CoreKey] && r.value.detailedSummary == zh[DetailKey]
    ensures r.Err? ==> r.error.MissingKey? && r.error.key !in zh
    // the KeyError names the first missing key in the order the dictionary display reads them
    ensures r.Err? && r.error.key == AuthorKey ==> ProductKey in zh
    ensures r.Err? && r.error.key == CoreKey ==> ProductKey in zh && AuthorKey in zh
    ensures r.Err? && r.error.key == DetailKey ==> ProductKey in zh && AuthorKey in zh && CoreKey in zh
    ensures r.Err? ==> r.error.key in {ProductKey, AuthorKey, CoreKey, DetailKey}
  {
    if ProductKey !in zh then Err(MissingKey(ProductKey))
    else if AuthorKey !in zh then Err(MissingKey(AuthorKey))
    else if CoreKey !in zh then Err(MissingKey(CoreKey))
    else if DetailKey !in zh then Err(MissingKey(DetailKey))
    else Ok(Digest(zh[ProductKey], zh[AuthorKey], zh[CoreKey], zh[DetailKey]))
  }

  /** `zh_to_en(json.loads(text))`, with the ways it can raise. */
  function DecodeDigest(text: string, decode: string -> Option<Json>): (r: Result<Digest, Failure>)
    ensures decode(text).None? ==> r == Err(DecodeError)
    ensures decode(text) == Some(JOther) ==> r == Err(NotAnObject)
    ensures decode(text).Some? && decode(text).value.JObject? ==>
      var m := decode(text).value.members;
      && (r.Ok? <==> ProductKey in m && AuthorKey in m && CoreKey in m && DetailKey in m)
      && (r.Ok? ==> r.value == Digest(m[ProductKey], m[AuthorKey], m[CoreKey], m[DetailKey]))
  {
    match decode(text)
    case None => Err(DecodeError)
    case Some(JOther) => Err(NotAnObject)
    case Some(JObject(m)) => ZhToEn(m)
  }

  /** The outcome of `parse`, with the texts sent to the repair prompt, in call order. */
  datatype ParseRun = ParseRun(result: Result<Digest, Failure>, repairInputs: seq<string>)

  /** `parse`: decode a JSON answer, or have it repaired and parse the repaired answer. */
  function Parse(output: string, decode: string -> Option<Json>, repair: string -> Option<string>, fuel: nat)
    : (r: ParseRun)
    ensures |r.repairInputs| <= fuel
    ensures JsonCheck(output, decode) ==>
      r.repairInputs == [] && r.result == DecodeDigest(RemoveNewlines(output), decode)
    ensures !JsonCheck(output, decode) && fuel > 0 ==>
      |r.repairInputs| >= 1 && r.repairInputs[0] == output
    ensures !JsonCheck(output, decode) && fuel == 0 ==> r == ParseRun(Err(OutOfFuel), [])
    decreases fuel
  {
    if JsonCheck(output, decode) then
      ParseRun(DecodeDigest(RemoveNewlines(output), decode), [])
    else if fuel == 0 then
      ParseRun(Err(OutOfFuel), [])
    else
      match repair(output)
      case None => ParseRun(Err(CallFailure), [output])
      case Some(fixed) =>
        var rest := Parse(fixed, decode, repair, fuel - 1);
        ParseRun(rest.result, [output] + rest.repairInputs)
  }

  /** A call that cannot be decoded and is repaired parses the repaired text, with one call fewer. */
  lemma ParseRepairs(output: string, decode: string -> Option<Json>, repair: string -> Option<string>, fuel: nat)
    requires !JsonCheck(output, decode) && fuel > 0
    ensures repair(output).None? ==> Parse(output, decode, repair, fuel) == ParseRun(Err(CallFailure), [output])
    ensures repair(output).Some? ==>
      var rest := Parse(repair(output).value, decode, repair, fuel - 1);
      Parse(output, decode, repair, fuel) == ParseRun(rest.result, [output] + rest.repairInputs)
  {
  }

  /**
   * With a repair prompt that always answers and never answers JSON, parsing a malformed
   * text makes exactly `fuel` repair calls and then gives up.
   */
  lemma {:induction false} ParseGivesUp(output: string, decode: string -> Option<Json>, repair: string -> Option<string>, fuel: nat)
    requires !JsonCheck(output, decode)
    requires forall s :: repair(s).Some? && !JsonCheck(repair(s).value, decode)
    ensures Parse(output, decode, repair, fuel).result == Err(OutOfFuel)
    ensures |Parse(output, decode, repair, fuel).repairInputs| == fuel
    decreases fuel
  {
    if fuel > 0 {
      ParseGivesUp(repair(output).value, decode, repair, fuel - 1);
    }
  }

  /**
   * More fuel changes nothing once a parse has ended without running out: the bound only
   * cuts the source's unbounded recursion short, it never changes an outcome.
   */
  lemma {:induction false} ParseFuelMonotone(output: string, decode: string -> Option<Json>, repair: string -> Option<string>, fuel: nat, more: nat)
    requires fuel <= more
    requires Parse(output, decode, repair, fuel).result != Err(OutOfFuel)
    ensures Parse(output, decode, repair, more) == Parse(output, decode, repair, fuel)
    decreases fuel
  {
    if !JsonCheck(output, decode) && fuel > 0 && repair(output).Some? {
      ParseFuelMonotone(repair(output).value, decode, repair, fuel - 1, more - 1);
    }
  }

  /** A successful parse decoded a text without newlines, which the decoder accepted. */
  lemma {:induction false} ParseSuccessDecoded(output: string, decode: string -> Option<Json>, repair: string -> Option<string>, fuel: nat)
    requires Parse(output, decode, repair, fuel).result.Ok?
    ensures exists text :: '\n' !in text && DecodeDigest(text, decode) == Parse(output, decode, repair, fuel).result
    decreases fuel
  {
    if JsonCheck(output, decode) {
      var text := RemoveNewlines(output);
      assert '\n' !in text && DecodeDigest(text, decode) == Parse(output, decode, repair, fuel).result;
    } else {
      ParseSuccessDecoded(repair(output).value, decode, repair, fuel - 1);
    }
  }

  /** Newlines in an answer that is already JSON do not change what it parses to. */
  lemma ParseIgnoresNewlines(s1: string, s2: string, decode: string -> Option<Json>, repair: string -> Option<string>, fuel: nat)
    requires JsonCheck(s1, decode) && JsonCheck(s2, decode)
    requires RemoveNewlines(s1) == RemoveNewlines(s2)
    ensures Parse(s1, decode, repair, fuel) == Parse(s2, decode, repair, fuel)
  {
  }

  /** With fuel to spare, `json_check` alone decides whether parse calls the repair prompt. */
  lemma JsonCheckDecides(output: string, decode: string -> Option<Json>, repair: string -> Option<string>, fuel: nat)
    requires fuel > 0
    ensures JsonCheck(output, decode) <==> Parse(output, decode, repair, fuel).repairInputs == []
  {
  }

  /**
   * A repaired answer that is JSON is decoded, with the one repair call that produced it:
   * what the repair chain is for once it ends with a string output parser.
   */
  lemma ParseAcceptsRepair(output: string, decode: string -> Option<Json>, repair: string -> Option<string>, fuel: nat)
    requires !JsonCheck(output, decode) && fuel > 0
    requires repair(output).Some? && JsonCheck(repair(output).value, decode)
    ensures Parse(output, decode, repair, fuel)
         == ParseRun(DecodeDigest(RemoveNewlines(repair(output).value), decode), [output])
  {
    var rest := Parse(repair(output).value, decode, repair, fuel - 1);
    assert rest.repairInputs == [];
    assert [output] + [] == [output];
  }

  /**
   * `parse` as the source wires it. `json_fixer_chain` ends with the chat model and no output
   * parser, so a repair answer reaches `parse` as a message object; `json.loads` of it raises
   * TypeError, the bare `except` turns that into False, and the message is sent to the repair
   * prompt again. `render(c)` is the text the prompt template makes of a message whose content
   * is `c`.
   */
  function ParseAsWritten(output: string, decode: string -> Option<Json>, repair: string -> Option<string>,
                          render: string -> string, fuel: nat)
    : (r: ParseRun)
    ensures |r.repairInputs| <= fuel
    ensures JsonCheck(output, decode) ==> r == Parse(output, decode, repair, fuel)
    ensures !JsonCheck(output, decode) ==> r.result == Err(CallFailure) || r.result == Err(OutOfFuel)
    ensures !JsonCheck(output, decode) && fuel > 0 ==> |r.repairInputs| >= 1 && r.repairInputs[0] == output
  {
    if JsonCheck(output, decode) then
      ParseRun(DecodeDigest(RemoveNewlines(output), decode), [])
    else
      RepairMessages(output, repair, render, fuel)
  }

  /** `parse` of a text that is not JSON, and then of each message object the repair chain returns. */
  function RepairMessages(text: string, repair: string -> Option<string>, render: string -> string, fuel: nat)
    : (r: ParseRun)
    ensures |r.repairInputs| <= fuel
    ensures r.result == Err(CallFailure) || r.result == Err(OutOfFuel)
    ensures fuel > 0 ==> |r.repairInputs| >= 1 && r.repairInputs[0] == text
    decreases fuel
  {
    if fuel == 0 then
      ParseRun(Err(OutOfFuel), [])
    else
      match repair(text)
      case None => ParseRun(Err(CallFailure), [text])
      case Some(message) =>
        var rest := RepairMessages(render(message), repair, render, fuel - 1);
        ParseRun(rest.result, [text] + rest.repairInputs)
  }

  /**
   * As written, the repair answer that the corrected parse decodes (`ParseAcceptsRepair`) is
   * never decoded: the parse fails.
   */
  lemma ParseAsWrittenRejectsRepair(output: string, decode: string -> Option<Json>, repair: string -> Option<string>,
                                    render: string -> string, fuel: nat)
    requires !JsonCheck(output, decode) && fuel > 0
    requires repair(output).Some? && JsonCheck(repair(output).value, decode)
    ensures ParseAsWritten(output, decode, repair, render, fuel).result.Err?
  {
  }

  /** As written, every successful parse decoded the answer itself, with no repair call. */
  lemma ParseAsWrittenOkDirect(output: string, decode: string -> Option<Json>, repair: string -> Option<string>,
                               render: string -> string, fuel: nat)
    ensures ParseAsWritten(output, decode, repair, render, fuel).result.Ok? ==>
      JsonCheck(output, decode) && ParseAsWritten(output, decode, repair, render, fuel).repairInputs == []
  {
  }

  /**
   * As written, once an answer is not JSON, parse calls the repair prompt until a call raises:
   * with calls that never raise, it spends all its fuel.
   */
  lemma {:induction false} ParseAsWrittenLoops(text: string, repair: string -> Option<string>, render: string -> string, fuel: nat)
    requires forall s :: repair(s).Some?
    ensures RepairMessages(text, repair, render, fuel).result == Err(OutOfFuel)
    ensures |RepairMessages(text, repair, render, fuel).repairInputs| == fuel
    decreases fuel
  {
    if fuel > 0 {
      ParseAsWrittenLoops(render(repair(text).value), repair, render, fuel - 1);
    }
  }

  // ---------------------------------------------------------------------------
  // Token accounting
  // ---------------------------------------------------------------------------

  /** The counts an OpenAI callback handler holds at the end of a `with` block. */
  datatype Callback = Callback(totalTokens: nat, promptTokens: nat, completionTokens: nat)

  /** The token record: exactly the three counts, under their own names. */
  datatype TokenCounter = TokenCounter(totalTokens: nat, promptTokens: nat, completionTokens: nat)

  /** `struct_token_counter`: copies the three token counts, and nothing else, out of the callback. */
  function StructTokenCounter(cb: Callback): (r: TokenCounter)
    ensures r.totalTokens == cb.totalTokens && r.promptTokens == cb.promptTokens
    ensures r.completionTokens == cb.completionTokens
  {
    TokenCounter(cb.totalTokens, cb.promptTokens, cb.completionTokens)
  }

  // ---------------------------------------------------------------------------
  // summarize and batch_summarize
  // ---------------------------------------------------------------------------

  /** The text sent for digestion: `article['Content'][:3500]`. */
  function DigestInput(a: Article): (r: string)
    ensures r <= a.content
    ensures |r| == if |a.content| < MaxContentChars then |a.content| else MaxContentChars
  {
    a.content[..if |a.content| < MaxContentChars then |a.content| else MaxContentChars]
  }

  /** `digest_chain.invoke`: one model call, then `parse` of its answer. */
  function InvokeDigestChain(text: string, llm: string -> Option<string>,
                             decode: string -> Option<Json>, repair: string -> Option<string>, fuel: nat)
    : (r: ParseRun)
    ensures |r.repairInputs| <= fuel
    ensures llm(text).None? ==> r.result == Err(CallFailure) && r.repairInputs == []
    ensures llm(text).Some? ==> r == Parse(llm(text).value, decode, repair, fuel)
  {
    match llm(text)
    case None => ParseRun(Err(CallFailure), [])
    case Some(answer) => Parse(answer, decode, repair, fuel)
  }

  /** `article.update(result)`: the four digest keys are overwritten, every other key is kept. */
  function MergeDigest(a: Article, d: Digest): (r: Article)
    ensures r.product == Some(d.product) && r.productAuthor == Some(d.productAuthor)
    ensures r.coreSummary == Some(d.coreSummary) && r.detailedSummary == Some(d.detailedSummary)
    ensures r.(product := a.product, productAuthor := a.productAuthor,
               coreSummary := a.coreSummary, detailedSummary := a.detailedSummary) == a
  {
    a.(product := Some(d.product), productAuthor := Some(d.productAuthor),
       coreSummary := Some(d.coreSummary), detailedSummary := Some(d.detailedSummary))
  }

  /** Merging a second digest replaces the first one entirely: the four fields move together. */
  lemma MergeDigestTwice(a: Article, d1: Digest, d2: Digest)
    ensures MergeDigest(MergeDigest(a, d1), d2) == MergeDigest(a, d2)
  {
  }

  /** The article dictionary that `summarize` updates in place. */
  class ArticleObject {
    var record: Article

    constructor (record: Article)
      ensures this.record == record
    {
      this.record := record;
    }
  }

  /**
   * `summarize`: on success the article's four digest fields hold the parsed digest and the
   * same article object is returned with the token counts; when the chain raises, the error
   * is returned and the article is left exactly as it was.
   * `cb` is what the callback handler counted during the chain's calls.
   */
  method Summarize(article: ArticleObject, llm: string -> Option<string>, decode: string -> Option<Json>,
                   repair: string -> Option<string>, fuel: nat, cb: Callback)
    returns (r: Result<(ArticleObject, TokenCounter), Failure>)
    modifies article
    ensures var run := InvokeDigestChain(DigestInput(old(article.record)), llm, decode, repair, fuel);
      match run.result
      case Ok(d) => r == Ok((article, StructTokenCounter(cb))) && article.record == MergeDigest(old(article.record), d)
      case Err(e) => r == Err(e) && article.record == old(article.record)
  {
    var run := InvokeDigestChain(DigestInput(article.record), llm, decode, repair, fuel);
    match run.result
    case Err(e) =>
      r := Err(e);
    case Ok(d) =>
      var tokenCounter := StructTokenCounter(cb);
      article.record := MergeDigest(article.record, d);
      r := Ok((article, tokenCounter));
  }

  /** The texts sent by `batch_summarize`, article by article. */
  function BatchInputs(articles: seq<Article>): (r: seq<string>)
    ensures |r| == |articles|
    ensures forall i :: 0 <= i < |articles| ==> r[i] == DigestInput(articles[i])
  {
    seq(|articles|, i requires 0 <= i < |articles| => DigestInput(articles[i]))
  }

  /** Answer `i` is the first of `answers` whose parse raises, and it raises `e`. */
  ghost predicate FirstFailure(answers: seq<string>, i: int, decode: string -> Option<Json>,
                               repair: string -> Option<string>, fuel: nat, e: Failure)
    requires 0 <= i < |answers|
  {
    && Parse(answers[i], decode, repair, fuel).result == Err(e)
    && forall j :: 0 <= j < i ==> Parse(answers[j], decode, repair, fuel).result.Ok?
  }

  /**
   * The first stage of `digest_chain.batch`: the model call of every input, before any answer
   * is parsed. None when any call raises.
   */
  function BatchAnswers(texts: seq<string>, llm: string -> Option<string>): (r: Option<seq<string>>)
    ensures r.Some? <==> forall i :: 0 <= i < |texts| ==> llm(texts[i]).Some?
    ensures r.Some? ==> |r.value| == |texts|
    ensures r.Some? ==> forall i :: 0 <= i < |texts| ==> llm(texts[i]) == Some(r.value[i])
  {
    if texts == [] then Some([])
    else
      match llm(texts[0])
      case None => None
      case Some(a) =>
        match BatchAnswers(texts[1..], llm)
        case None => None
        case Some(rest) => Some([a] + rest)
  }

  /** The last stage: `parse` of every answer; the first parse that raises, in input order, is raised. */
  function BatchParses(answers: seq<string>, decode: string -> Option<Json>, repair: string -> Option<string>, fuel: nat)
    : (r: Result<seq<Digest>, Failure>)
    ensures r.Ok? <==> forall i :: 0 <= i < |answers| ==> Parse(answers[i], decode, repair, fuel).result.Ok?
    ensures r.Ok? ==> |r.value| == |answers|
    ensures r.Ok? ==> forall i :: 0 <= i < |answers| ==> Parse(answers[i], decode, repair, fuel).result == Ok(r.value[i])
  {
    if answers == [] then Ok([])
    else
      match Parse(answers[0], decode, repair, fuel).result
      case Err(e) => Err(e)
      case Ok(d) =>
        match BatchParses(answers[1..], decode, repair, fuel)
        case Err(e) => Err(e)
        case Ok(ds) => Ok([d] + ds)
  }

  /**
   * `digest_chain.batch`: the chain runs stage by stage over all inputs, so a raising model call
   * anywhere is raised before any answer is parsed; otherwise the first parse that raises is.
   * On success there is one digest per input, in input order.
   */
  function BatchResults(texts: seq<string>, llm: string -> Option<string>, decode: string -> Option<Json>,
                        repair: string -> Option<string>, fuel: nat)
    : (r: Result<seq<Digest>, Failure>)
    ensures r.Ok? <==> forall i :: 0 <= i < |texts| ==> InvokeDigestChain(texts[i], llm, decode, repair, fuel).result.Ok?
    ensures r.Ok? ==> |r.value| == |texts|
    ensures r.Ok? ==>
      forall i :: 0 <= i < |texts| ==> InvokeDigestChain(texts[i], llm, decode, repair, fuel).result == Ok(r.value[i])
  {
    match BatchAnswers(texts, llm)
    case None =>
      assert exists i :: 0 <= i < |texts| && llm(texts[i]).None?;
      Err(CallFailure)
    case Some(answers) =>
      assert forall i :: 0 <= i < |texts| ==>
        InvokeDigestChain(texts[i], llm, decode, repair, fuel) == Parse(answers[i], decode, repair, fuel);
      BatchParses(answers, decode, repair, fuel)
  }

  /** A failed parse stage raises the error of its first failing answer. */
  lemma {:induction false} BatchParsesRaiseFirst(answers: seq<string>, decode: string -> Option<Json>,
                                                 repair: string -> Option<string>, fuel: nat)
    requires BatchParses(answers, decode, repair, fuel).Err?
    ensures exists i ::
      (0 <= i < |answers| && FirstFailure(answers, i, decode, repair, fuel, BatchParses(answers, decode, repair, fuel).error))
  {
    var e := BatchParses(answers, decode, repair, fuel).error;
    if Parse(answers[0], decode, repair, fuel).result.Err? {
      assert FirstFailure(answers, 0, decode, repair, fuel, e);
    } else {
      BatchParsesRaiseFirst(answers[1..], decode, repair, fuel);
      var i :| 0 <= i < |answers[1..]| && FirstFailure(answers[1..], i, decode, repair, fuel, e);
      assert FirstFailure(answers, i + 1, decode, repair, fuel, e);
    }
  }

  /**
   * A raising model call anywhere in the batch is the batch's failure, whatever the other
   * answers would parse to: the call stage ends before any parse starts.
   */
  lemma BatchCallFailureFirst(texts: seq<string>, llm: string -> Option<string>, decode: string -> Option<Json>,
                              repair: string -> Option<string>, fuel: nat, k: int)
    requires 0 <= k < |texts| && llm(texts[k]).None?
    ensures BatchResults(texts, llm, decode, repair, fuel) == Err(CallFailure)
  {
    assert BatchAnswers(texts, llm).None?;
  }

  /**
   * When every model call answers and the batch fails, it raises the error of the first answer
   * whose parse raises, all earlier answers having parsed.
   */
  lemma BatchRaisesFirstFailure(texts: seq<string>, llm: string -> Option<string>, decode: string -> Option<Json>,
                                repair: string -> Option<string>, fuel: nat)
    requires forall i :: 0 <= i < |texts| ==> llm(texts[i]).Some?
    requires BatchResults(texts, llm, decode, repair, fuel).Err?
    ensures BatchAnswers(texts, llm).Some?
    ensures exists i :: (0 <= i < |texts| &&
      FirstFailure(BatchAnswers(texts, llm).value, i, decode, repair, fuel, BatchResults(texts, llm, decode, repair, fuel).error))
  {
    var answers := BatchAnswers(texts, llm).value;
    var e := BatchParses(answers, decode, repair, fuel).error;
    assert BatchResults(texts, llm, decode, repair, fuel).error == e;
    BatchParsesRaiseFirst(answers, decode, repair, fuel);
    var i :| 0 <= i < |answers| && FirstFailure(answers, i, decode, repair, fuel, e);
    assert 0 <= i < |texts|;
  }

  /**
   * `batch_summarize`: when every article's chain succeeds, article i is merged with result i
   * and the same list is returned with the token counts; otherwise no article is changed.
   * `cb` is what the callback handler counted during the batch.
   */
  method BatchSummarize(articles: array<Article>, llm: string -> Option<string>, decode: string -> Option<Json>,
                        repair: string -> Option<string>, fuel: nat, cb: Callback)
    returns (r: Result<(array<Article>, TokenCounter), Failure>)
    modifies articles
    ensures match BatchResults(BatchInputs(old(articles[..])), llm, decode, repair, fuel)
      case Ok(ds) =>
        && r == Ok((articles, StructTokenCounter(cb)))
        && |ds| == articles.Length
        && forall i :: 0 <= i < articles.Length ==> articles[i] == MergeDigest(old(articles[i]), ds[i])
      case Err(e) => r == Err(e) && articles[..] == old(articles[..])
  {
    var invokeList := BatchInputs(articles[..]);
    var resultList := BatchResults(invokeList, llm, decode, repair, fuel);
    match resultList
    case Err(e) =>
      r := Err(e);
    case Ok(ds) =>
      var tokenCounter := StructTokenCounter(cb);
      MergeResults(articles, ds);
      r := Ok((articles, tokenCounter));
  }

  /** `for index, result in enumerate(result_list): articles[index].update(result)`. */
  method MergeResults(articles: array<Article>, ds: seq<Digest>)
    requires |ds| == articles.Length
    modifies articles
    ensures forall i :: 0 <= i < articles.Length ==> articles[i] == MergeDigest(old(articles[i]), ds[i])
  {
    var index := 0;
    while index < articles.Length
      invariant 0 <= index <= articles.Length
      invariant forall i :: 0 <= i < index ==> articles[i] == MergeDigest(old(articles[i]), ds[i])
      invariant forall i :: index <= i < articles.Length ==> articles[i] == old(articles[i])
    {
      articles[index] := MergeDigest(articles[index], ds[index]);
      index := index + 1;
    }
  }
}

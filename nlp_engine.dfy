/**
 * The comment pipeline of the NLP engine: each comment is normalised and translated from Malay,
 * rephrased, given a category and a sentiment by the language model, and the first four
 * comments of a CSV file are analysed together. The models are parameters; what is modelled is
 * the handling of their replies and failures.
 */
module NlpEngine {
  import opened Wrappers
  import opened PyText

  // ---------------------------------------------------------------- sentiment labels

  /** `get_sentiment_label`. */
  function SentimentLabel(score: int): (r: string)
    ensures r == "negative" <==> score <= 4
    ensures r == "neutral" <==> 5 <= score <= 6
    ensures r == "positive" <==> 7 <= score
  {
    if score <= 4 then "negative" else if score <= 6 then "neutral" else "positive"
  }

  /** The position of a label on the scale negative < neutral < positive. */
  function LabelRank(name: string): int
  {
    if name == "negative" then 0 else if name == "neutral" then 1 else 2
  }

  /** A higher score never gets a lower label. */
  lemma SentimentLabelMonotone(a: int, b: int)
    requires a <= b
    ensures LabelRank(SentimentLabel(a)) <= LabelRank(SentimentLabel(b))
  {
  }

  // ---------------------------------------------------------------- markdown fences

  const Fence: string := "```"

  /** `s.split("```")[0]`: the text before the first fence. */
  function UntilFence(s: string): (r: string)
    ensures |r| <= |s| && r == s[..|r|]
    ensures forall k :: 0 <= k < |r| ==> !StartsWith(s[k..], Fence)
    ensures |r| == |s| || StartsWith(s[|r|..], Fence)
    decreases |s|
  {
    if s == [] || StartsWith(s, Fence) then []
    else
      var rest := UntilFence(s[1..]);
      assert forall k :: 1 <= k <= |rest| ==> s[k..] == s[1..][k - 1..];
      [s[0]] + rest
  }

  /** The fence handling of `ai_extract_categories` and `ai_evaluate_sentiment` on the stripped
   *  reply: after an opening fence, the text up to the next fence, without a leading "json",
   *  stripped. */
  function FencedContent(content: string): (r: string)
    ensures !StartsWith(content, Fence) ==> r == content
    ensures StartsWith(content, Fence) ==> |r| <= |content| - 3
  {
    if StartsWith(content, Fence) then
      var inner := UntilFence(content[3..]);
      Strip(if StartsWith(inner, "json") then inner[4..] else inner)
    else content
  }

  /** A fenced reply `"```" + x + "```" + y` with no backquote in `x` is reduced to `x`, without a
   *  leading "json", stripped. */
  lemma FencedContentBetween(x: string, y: string)
    requires '`' !in x
    ensures FencedContent(Fence + x + Fence + y) == Strip(if StartsWith(x, "json") then x[4..] else x)
  {
    var content := Fence + x + Fence + y;
    assert content[..3] == Fence;
    assert content[3..] == x + (Fence + y);
    UntilFenceStops(x, Fence + y);
    FencedContentOf(content, x);
  }

  lemma FencedContentOf(content: string, inner: string)
    requires StartsWith(content, Fence) && UntilFence(content[3..]) == inner
    ensures FencedContent(content) == Strip(if StartsWith(inner, "json") then inner[4..] else inner)
  {
  }

  lemma {:induction false} UntilFenceStops(x: string, y: string)
    requires '`' !in x
    requires StartsWith(y, Fence)
    ensures UntilFence(x + y) == x
    decreases |x|
  {
    if x == [] {
      assert x + y == y;
    } else {
      assert (x + y)[1..] == x[1..] + y;
      assert x[1..] == x[1..];
      assert '`' !in x[1..] by { assert forall c :: c in x[1..] ==> c in x; }
      UntilFenceStops(x[1..], y);
      assert x[0] != '`';
    }
  }

  /** A reply without an opening fence is kept as it is. */
  lemma FencedContentUnfenced(content: string)
    requires !StartsWith(content, Fence)
    ensures FencedContent(content) == content
  {
  }

  // ---------------------------------------------------------------- model replies

  /** A JSON value as far as the analysis reads it. */
  datatype Json = JString(text: string) | JInt(number: int) | JOther

  /** What a language-model call gives for a prompt, and `json.loads` followed by the dictionary
   *  lookups: `None` when the text is not a JSON object. */
  datatype Models = Models(
    normalize: string -> Outcome<string>,
    translate: string -> Outcome<string>,
    rephrase: (string, string) -> Outcome<string>,
    categorize: string -> Outcome<string>,
    evaluate: string -> Outcome<string>,
    loads: string -> Option<map<string, Json>>)

  /** `ai_rephrase`: the stripped reply, or the translation when the call fails. */
  function Rephrase(reply: Outcome<string>, translated: string): (r: string)
    ensures reply.Done? ==> r == Strip(reply.value)
    ensures reply.Raised? ==> r == translated
  {
    match reply
    case Done(text) => Strip(text)
    case Raised(_) => translated
  }

  /** `ai_extract_categories`: the "categories" string of the decoded reply ("" when absent);
   *  any failure (the call, the decoding, a value that is not a string) gives "". */
  function ExtractCategories(reply: Outcome<string>, loads: string -> Option<map<string, Json>>): (r: string)
    ensures reply.Raised? ==> r == ""
    ensures reply.Done? && loads(FencedContent(Strip(reply.value))).None? ==> r == ""
    ensures r != "" ==>
      reply.Done? && var data := loads(FencedContent(Strip(reply.value)));
      data.Some? && "categories" in data.value && data.value["categories"] == JString(r)
    ensures reply.Done? ==> var data := loads(FencedContent(Strip(reply.value)));
      data.Some? && "categories" in data.value && data.value["categories"].JString? ==>
      r == data.value["categories"].text
  {
    if reply.Raised? then ""
    else
      match loads(FencedContent(Strip(reply.value)))
      case None => ""
      case Some(data) =>
        if "categories" !in data then ""
        else match data["categories"]
          case JString(t) => t
          case _ => ""
  }

  /** The answer of `ai_evaluate_sentiment`. */
  datatype Sentiment = Sentiment(score: int, name: string)

  const NeutralSentiment := Sentiment(5, "neutral")

  /** `ai_evaluate_sentiment`: the decoded score (5 when absent) and label ("neutral" when
   *  absent); a failure, a score that is not an integer from 1 to 10 or a label that is not a
   *  string gives score 5, "neutral". */
  function EvaluateSentiment(reply: Outcome<string>, loads: string -> Option<map<string, Json>>): (r: Sentiment)
    ensures 1 <= r.score <= 10
  {
    if reply.Raised? then NeutralSentiment
    else
      match loads(FencedContent(Strip(reply.value)))
      case None => NeutralSentiment
      case Some(data) =>
        var score := if "sentiment_score" in data then data["sentiment_score"] else JInt(5);
        var given := if "sentiment_label" in data then data["sentiment_label"] else JString("neutral");
        if score.JInt? && 1 <= score.number <= 10 && given.JString? then Sentiment(score.number, given.text)
        else NeutralSentiment
  }

  /** A sentiment answer is the decoded one exactly when it is valid; otherwise it is 5,
   *  "neutral". */
  lemma EvaluateSentimentCases(reply: Outcome<string>, loads: string -> Option<map<string, Json>>)
    ensures reply.Raised? ==> EvaluateSentiment(reply, loads) == NeutralSentiment
    ensures reply.Done? && loads(FencedContent(Strip(reply.value))).None? ==> EvaluateSentiment(reply, loads) == NeutralSentiment
    ensures reply.Done? && loads(FencedContent(Strip(reply.value))).Some? ==>
      var data := loads(FencedContent(Strip(reply.value))).value;
      forall n, t :: data == map["sentiment_score" := JInt(n), "sentiment_label" := JString(t)] ==>
        EvaluateSentiment(reply, loads) == (if 1 <= n <= 10 then Sentiment(n, t) else NeutralSentiment)
  {
    if reply.Done? {
      var data := loads(FencedContent(Strip(reply.value)));
      if data.Some? {
        forall n, t | data.value == map["sentiment_score" := JInt(n), "sentiment_label" := JString(t)]
          ensures EvaluateSentiment(reply, loads) == (if 1 <= n <= 10 then Sentiment(n, t) else NeutralSentiment)
        {
          assert data.value["sentiment_score"] == JInt(n);
          assert data.value["sentiment_label"] == JString(t);
        }
      }
    }
  }

  // ---------------------------------------------------------------- one comment

  /** A value of the "Comments" column: a string, or another value (a number, or NaN for an
   *  empty cell) with its truthiness. */
  datatype Cell = Text(s: string) | Other(truthy: bool)

  /** A `CommentAnalysis`. */
  datatype Analysis = Analysis(original: string, rephrased: string, categories: string, score: int, sentiment: string)

  predicate IsBlank(c: Cell)
  {
    c.Other? || Strip(c.s) == ""
  }

  /** Steps 1 to 6 of `process_single_comment` on a non-blank comment: an exception of the
   *  normaliser or the translator gives the fallback analysis. */
  function Analyse(text: string, m: Models): (r: Analysis)
    ensures 1 <= r.score <= 10
  {
    match m.normalize(text)
    case Raised(_) => Analysis(text, text, "Error", 5, "neutral")
    case Done(normalized) =>
      match m.translate(normalized)
      case Raised(_) => Analysis(text, text, "Error", 5, "neutral")
      case Done(translated) =>
        var rephrased := Rephrase(m.rephrase(text, translated), translated);
        var sentiment := EvaluateSentiment(m.evaluate(rephrased), m.loads);
        Analysis(text, rephrased, ExtractCategories(m.categorize(rephrased), m.loads), sentiment.score, sentiment.name)
  }

  /** `process_single_comment` with every non-string value treated as an empty comment. */
  function ProcessSingleComment(c: Cell, m: Models): (r: Analysis)
    ensures 1 <= r.score <= 10
  {
    if IsBlank(c) then Analysis(if c.Text? then c.s else "", "", "", 5, "neutral")
    else Analyse(c.s, m)
  }

  /** `process_single_comment` as written: the same, except that a truthy value that is not a
   *  string (NaN for an empty CSV cell) is put in `original`, which `CommentAnalysis` rejects
   *  with a validation error (`invalid` stands for its message), raised outside the handler. */
  function ProcessSingleCommentAsWritten(c: Cell, m: Models, invalid: string): (r: Outcome<Analysis>)
    ensures c.Text? || !c.truthy ==> r == Done(ProcessSingleComment(c, m))
    ensures c.Other? && c.truthy ==> r == Raised(invalid)
  {
    if c.Other? && c.truthy then Raised(invalid)
    else Done(ProcessSingleComment(c, m))
  }

  /** A blank comment gets the defaults with original kept; a failing normaliser or translator
   *  gives the comment back as its own rephrasing, category "Error", 5, "neutral"; otherwise
   *  the analysis joins the answers of the three model calls. */
  lemma ProcessSingleCommentCases(c: Cell, m: Models)
    ensures IsBlank(c) ==> ProcessSingleComment(c, m) == Analysis(if c.Text? then c.s else "", "", "", 5, "neutral")
    ensures !IsBlank(c) && (m.normalize(c.s).Raised? || m.translate(m.normalize(c.s).value).Raised?) ==>
      ProcessSingleComment(c, m) == Analysis(c.s, c.s, "Error", 5, "neutral")
    ensures !IsBlank(c) && m.normalize(c.s).Done? && m.translate(m.normalize(c.s).value).Done? ==>
      var translated := m.translate(m.normalize(c.s).value).value;
      var rephrased := Rephrase(m.rephrase(c.s, translated), translated);
      var r := ProcessSingleComment(c, m);
      r.original == c.s && r.rephrased == rephrased
      && r.categories == ExtractCategories(m.categorize(rephrased), m.loads)
      && Sentiment(r.score, r.sentiment) == EvaluateSentiment(m.evaluate(rephrased), m.loads)
  {
  }

  // ---------------------------------------------------------------- combined_nlp_pipeline

  /** What `pd.read_csv` gives: a missing file, another error, or the columns and the values of
   *  the "Comments" column (empty when there is none). */
  datatype Csv = FileMissing | Unreadable(message: string) | Table(columns: set<string>, comments: seq<Cell>)

  /** The pipeline's JSON answer: an error object or the list of analyses. */
  datatype PipelineOutput = Failure(error: string) | Analyses(results: seq<Analysis>)

  const HeadRows := 4

  function Head<T>(s: seq<T>): (r: seq<T>)
    ensures |r| <= HeadRows && |r| <= |s| && r == s[..|r|]
    ensures |s| <= HeadRows ==> r == s
    ensures |s| >= HeadRows ==> |r| == HeadRows
  {
    if |s| <= HeadRows then s else s[..HeadRows]
  }

  /** The analyses of the first four comments, as `combined_nlp_pipeline` intends. */
  function PipelineOf(csv: Csv, m: Models): (r: PipelineOutput)
    ensures csv.FileMissing? ==> r == Failure("File not found")
    ensures csv.Unreadable? ==> r == Failure(csv.message)
    ensures csv.Table? ==> (r.Failure? <==> "Comments" !in csv.columns)
    ensures r.Analyses? ==>
      |r.results| <= HeadRows && |r.results| <= |csv.comments|
      && (|csv.comments| >= HeadRows ==> |r.results| == HeadRows)
      && forall k :: 0 <= k < |r.results| ==>
        r.results[k] == ProcessSingleComment(csv.comments[k], m) && 1 <= r.results[k].score <= 10
  {
    match csv
    case FileMissing => Failure("File not found")
    case Unreadable(message) => Failure(message)
    case Table(columns, comments) =>
      if "Comments" !in columns then Failure("Column 'Comments' not found")
      else
        var h := Head(comments);
        assert forall k :: 0 <= k < |h| ==> h[k] == comments[k];
        Analyses(Processed(h, m))
  }

  /** The analyses of the comments, one by one. */
  function Processed(comments: seq<Cell>, m: Models): (r: seq<Analysis>)
    ensures |r| == |comments|
    ensures forall k :: 0 <= k < |r| ==> r[k] == ProcessSingleComment(comments[k], m)
    decreases |comments|
  {
    if comments == [] then []
    else Processed(comments[..|comments| - 1], m) + [ProcessSingleComment(comments[|comments| - 1], m)]
  }

  lemma ProcessedStep(comments: seq<Cell>, m: Models, i: nat)
    requires i < |comments|
    ensures Processed(comments[..i + 1], m) == Processed(comments[..i], m) + [ProcessSingleComment(comments[i], m)]
  {
    assert comments[..i + 1][..i] == comments[..i];
  }

  /** The first truthy non-string among the first four comments, if any. */
  function FirstInvalid(comments: seq<Cell>): (r: Option<nat>)
    ensures r.Some? ==> r.value < |comments| && comments[r.value].Other? && comments[r.value].truthy
    ensures r.None? <==> forall k :: 0 <= k < |comments| ==> comments[k].Text? || !comments[k].truthy
  {
    if comments == [] then None
    else if comments[0].Other? && comments[0].truthy then Some(0)
    else match FirstInvalid(comments[1..])
      case None => None
      case Some(k) => Some(k + 1)
  }

  /** `combined_nlp_pipeline` as written: a truthy non-string among the first four comments
   *  makes the validation error escape to the outer handler, which answers its message. */
  function PipelineAsWrittenOf(csv: Csv, m: Models, invalid: string): (r: PipelineOutput)
    ensures r == PipelineOf(csv, m) || r == Failure(invalid)
    ensures csv.Table? && "Comments" in csv.columns
            && (exists k :: 0 <= k < |csv.comments| && k < HeadRows && csv.comments[k] == Other(true)) ==>
      r == Failure(invalid)
    ensures csv.Table? && (forall k :: 0 <= k < |csv.comments| && k < HeadRows ==> Accepted(csv.comments[k])) ==>
      r == PipelineOf(csv, m)
    ensures !csv.Table? ==> r == PipelineOf(csv, m)
  {
    HeadInvalid(csv);
    if csv.Table? && "Comments" in csv.columns && FirstInvalid(Head(csv.comments)).Some? then Failure(invalid)
    else PipelineOf(csv, m)
  }

  /** The first four comments hold a truthy non-string exactly when one of them is. */
  lemma HeadInvalid(csv: Csv)
    ensures csv.Table? ==>
      (FirstInvalid(Head(csv.comments)).Some? <==> exists k :: 0 <= k < |csv.comments| && k < HeadRows && !Accepted(csv.comments[k]))
  {
    if csv.Table? {
      var h := Head(csv.comments);
      assert forall k :: 0 <= k < |h| ==> h[k] == csv.comments[k];
    }
  }

  /** A blank CSV cell (read as NaN) among the first four comments fails the whole pipeline as
   *  written, though the comment is one the corrected pipeline gives the default analysis. */
  lemma BlankCellFailsAsWritten(m: Models, invalid: string)
    ensures PipelineAsWrittenOf(Table({"Comments"}, [Other(true)]), m, invalid) == Failure(invalid)
    ensures PipelineOf(Table({"Comments"}, [Other(true)]), m) == Analyses([Analysis("", "", "", 5, "neutral")])
  {
    var h := Head([Other(true)]);
    assert h == [Other(true)];
    assert FirstInvalid(h) == Some(0);
  }

  /** A comment `CommentAnalysis` accepts as `original` (directly or through `or ""`). */
  predicate Accepted(c: Cell)
  {
    c.Text? || !c.truthy
  }

  /** The loop of the pipeline as written: the comments are processed in order, and the first
   *  truthy non-string stops it with the validation error. */
  method AnalyseAll(comments: seq<Cell>, m: Models, invalid: string) returns (r: Outcome<seq<Analysis>>)
    ensures FirstInvalid(comments).Some? ==> r == Raised(invalid)
    ensures FirstInvalid(comments).None? ==> r == Done(Processed(comments, m))
  {
    var results: seq<Analysis> := [];
    var i := 0;
    while i < |comments|
      invariant 0 <= i <= |comments|
      invariant forall k :: 0 <= k < i ==> Accepted(comments[k])
      invariant results == Processed(comments[..i], m)
    {
      var analysis := ProcessSingleCommentAsWritten(comments[i], m, invalid);
      if analysis.Raised? {
        assert !Accepted(comments[i]);
        return Raised(analysis.message);
      }
      ProcessedStep(comments, m, i);
      results := results + [analysis.value];
      i := i + 1;
    }
    assert comments[..i] == comments;
    return Done(results);
  }

  /** `combined_nlp_pipeline` as written. */
  method PipelineAsWritten(csv: Csv, m: Models, invalid: string) returns (r: PipelineOutput)
    ensures r == PipelineAsWrittenOf(csv, m, invalid)
  {
    match csv
    case FileMissing => return Failure("File not found");
    case Unreadable(message) => return Failure(message);
    case Table(columns, comments) =>
      if "Comments" !in columns {
        return Failure("Column 'Comments' not found");
      }
      var analyses := AnalyseAll(Head(comments), m, invalid);
      match analyses
      case Raised(message) => return Failure(message);
      case Done(results) => return Analyses(results);
  }

  /** `combined_nlp_pipeline` with every non-string comment treated as empty. */
  method Pipeline(csv: Csv, m: Models) returns (r: PipelineOutput)
    ensures r == PipelineOf(csv, m)
  {
    match csv
    case FileMissing => return Failure("File not found");
    case Unreadable(message) => return Failure(message);
    case Table(columns, comments) =>
      if "Comments" !in columns {
        return Failure("Column 'Comments' not found");
      }
      var subset := Head(comments);
      var results: seq<Analysis> := [];
      for i := 0 to |subset|
        invariant results == Processed(subset[..i], m)
      {
        ProcessedStep(subset, m, i);
        results := results + [ProcessSingleComment(subset[i], m)];
      }
      assert subset[..|subset|] == subset;
      return Analyses(results);
  }
}

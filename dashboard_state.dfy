/**
 * What the two dashboards share outside the rubric: the uploaded file and the
 * text extracted from it, the generative model seen as a function of what it
 * is asked, and the suggestion shown in the correction modal.
 */
module DashboardState {
  import opened Wrappers
  import opened ModelReply
  import opened Rubric

  /** The only accepted upload type, a Word document. */
  const DocxMime := "application/vnd.openxmlformats-officedocument.wordprocessingml.document"

  const UnsupportedFormat := "Formato de arquivo não suportado. Use .docx"

  /**
   * A selected file: its MIME type, and what reading it and extracting its raw
   * text would give (the text, or the reader's or the extractor's failure).
   */
  datatype Upload = Upload(mimeType: string, contents: Attempt<string>)

  /** `extractTextFromFile`: the document's text, refused unless the file is a Word document. */
  function ExtractText(file: Upload): (r: Attempt<string>)
    ensures r.Ok? <==> file.mimeType == DocxMime && file.contents.Ok?
    ensures r.Ok? ==> r == file.contents
    ensures file.mimeType != DocxMime ==> r == Fail(UnsupportedFormat)
  {
    if file.mimeType == DocxMime then file.contents else Fail(UnsupportedFormat)
  }

  /**
   * The analysis call to the model: its reply (or the failure of the call),
   * given the criteria list that goes into the prompt and the document's text.
   */
  type Model = (string, string) -> Attempt<string>

  /**
   * The correction call to the model: its reply (or the failure of the call),
   * given the report row being corrected and the document's text.
   */
  type Advisor = (Entry, string) -> Attempt<string>

  /**
   * What an analysis handler makes of the extracted text: the model is asked
   * with the criteria list of the catalogue, and its reply goes through the
   * bracket scan, `JSON.parse` and the merge; None when any of them fails.
   */
  function AnalyzeDocument(cat: seq<Criterion>, prose: Prose, text: string, model: Model, parse: JsonParser, markUnedited: bool): Option<Report>
  {
    match model(CriteriaPrompt(cat, prose), text)
    case Fail(_) => None
    case Ok(reply) => AnalyzeReply(cat, prose, reply, parse, markUnedited)
  }

  /** The model call and the reading of its reply, as an analysis handler runs them. */
  method RunAnalysis(cat: seq<Criterion>, prose: Prose, text: string, model: Model, parse: JsonParser, markUnedited: bool)
    returns (report: Option<Report>)
    ensures report == AnalyzeDocument(cat, prose, text, model, parse, markUnedited)
    ensures report.Some? ==> Aligned(report.value.analise, cat)
  {
    report := None;
    var response := model(CriteriaPrompt(cat, prose), text);
    if response.Ok? {
      report := ReadReport(cat, prose, response.value, parse, markUnedited);
      AnalyzeReplyIff(cat, prose, response.value, parse, markUnedited);
    }
  }

  /** The `suggestion` state: what `JSON.parse` returned, or the fixed `{ error: … }` object. */
  datatype Suggestion = Parsed(value: Json) | ErrorObject(message: string)
}

/**
 * The professor dashboard (`ProfessorDashboard`): the professor catalogue of
 * 23 criteria and the handlers that analyse a document, override one verdict
 * (without rescoring), ask the model for corrections of criterion 15, and lay
 * out the rows of the PDF report. As on the student side, React state
 * becomes the fields of a class and each handler runs to completion.
 */
module ProfessorDashboard {
  import opened Wrappers
  import opened Text
  import opened ModelReply
  import opened Rubric
  import opened DashboardState

  // --------------------------------------------------------------- catalogue

  const Part1: seq<Criterion> := [
    Criterion(1, Manual, false), Criterion(3, Auto, true), Criterion(4, Auto, true), Criterion(5, Auto, true),
    Criterion(6, Auto, false), Criterion(7, Auto, true), Criterion(8, Auto, false), Criterion(9, Manual, false)]
  const Part2: seq<Criterion> := [
    Criterion(10, Auto, false), Criterion(11, Manual, false), Criterion(12, Auto, false), Criterion(13, Auto, false),
    Criterion(14, Auto, false), Criterion(15, Auto, false), Criterion(16, Auto, false), Criterion(17, Auto, false)]
  const Part3: seq<Criterion> := [
    Criterion(18, Auto, false), Criterion(19, Auto, true), Criterion(20, Manual, false), Criterion(21, Auto, false),
    Criterion(22, Manual, false), Criterion(23, Manual, false), Criterion(24, Manual, false)]

  /** `fullCriteriaList`: ids (1, then 3 to 24), kinds and which criteria have a `textForAI`. */
  const Catalogue: seq<Criterion> := Part1 + Part2 + Part3

  /** The criteria whose correction the model is asked for. */
  const CriteriaWithSuggestions: seq<nat> := [15]

  const AnalysisFailed := "Ocorreu um erro ao analisar o documento."
  const SuggestionFailed := "Erro ao gerar sugestões de correção."

  /** The catalogue holds criterion 1 and then criteria 3 to 24, in order; there is no criterion 2. */
  lemma CatalogueIds()
    ensures |Catalogue| == 23 && Catalogue[0].id == 1
    ensures forall i :: 1 <= i < 23 ==> Catalogue[i].id == i + 2
  {
  }

  /** Ids increase along the catalogue, so no two criteria share one. */
  lemma CatalogueUnique()
    ensures IncreasingIds(Catalogue) && UniqueIds(Catalogue)
  {
    CatalogueIds();
    IncreasingIdsUnique(Catalogue);
  }

  lemma Part1Autos() ensures |AutoCriteria(Part1)| == 6 {}
  lemma Part2Autos() ensures |AutoCriteria(Part2)| == 7 {}
  lemma Part3Autos() ensures |AutoCriteria(Part3)| == 3 {}

  /** 16 of the 23 criteria are automatic: the score's denominator. */
  lemma AutoCount()
    ensures |AutoCriteria(Catalogue)| == 16
  {
    Part1Autos();
    Part2Autos();
    Part3Autos();
    AutoCriteriaAppend(Part1, Part2);
    AutoCriteriaAppend(Part1 + Part2, Part3);
  }

  /** The one criterion offered a suggestion, 15, is an automatic criterion of the catalogue. */
  lemma SuggestionsAreAutomatic()
    ensures forall id :: id in CriteriaWithSuggestions ==>
              2 <= id <= |Catalogue| + 1 && Catalogue[id - 2].id == id && Catalogue[id - 2].kind == Auto
  {
  }

  // --------------------------------------------------------------- analysis

  /**
   * A professor report has one row per catalogue criterion, in catalogue
   * order, every one of them marked `manualEdit: false`; its score counts the
   * raw reply's "Aprovado" items out of the 16 automatic criteria.
   */
  lemma ProfessorReportRows(prose: Prose, text: string, model: Model, parse: JsonParser)
    requires AnalyzeDocument(Catalogue, prose, text, model, parse, true).Some?
    ensures var r := AnalyzeDocument(Catalogue, prose, text, model, parse, true).value;
            |r.analise| == 23 && Aligned(r.analise, Catalogue)
            && (forall i :: 0 <= i < 23 ==> r.analise[i].manualEdit == Some(false))
    ensures var reply := model(CriteriaPrompt(Catalogue, prose), text).value;
            var r := AnalyzeDocument(Catalogue, prose, text, model, parse, true).value;
            r.pontuacaoFinal == Score(CountApproved(parse(ExtractJson(reply).value).value.analise.value), 16)
  {
    var reply := model(CriteriaPrompt(Catalogue, prose), text).value;
    AnalyzeReplyIff(Catalogue, prose, reply, parse, true);
    CatalogueIds();
    AutoCount();
    forall i | 0 <= i < 23
      ensures AnalyzeDocument(Catalogue, prose, text, model, parse, true).value.analise[i].manualEdit == Some(false)
    {
      MergeRows(Catalogue, parse(ExtractJson(reply).value).value.analise.value, prose, true, i);
    }
  }

  // ------------------------------------------------------------ suggestions

  /**
   * What `handleGenerateCorrection` leaves in `suggestion`: `JSON.parse` of
   * the whole stripped reply, with no bracket scan, or the fixed error object
   * when the call or the parse fails.
   */
  function ProfessorSuggestion(row: Entry, content: string, advisor: Advisor, parse: JsonParser): Suggestion
  {
    match advisor(row, content)
    case Fail(_) => ErrorObject(SuggestionFailed)
    case Ok(reply) =>
      match parse(StripFences(reply))
      case None => ErrorObject(SuggestionFailed)
      case Some(v) => Parsed(v)
  }

  /**
   * The parsed value is what `JSON.parse` makes of the whole stripped reply;
   * every failure, of the call or of the parse, leaves the one fixed error
   * object.
   */
  lemma SuggestionOutcome(row: Entry, content: string, advisor: Advisor, parse: JsonParser)
    ensures var s, reply := ProfessorSuggestion(row, content, advisor, parse), advisor(row, content);
            (s.Parsed? <==> reply.Ok? && parse(StripFences(reply.value)).Some?)
            && (s.Parsed? ==> s.value == parse(StripFences(reply.value)).value)
            && (s.ErrorObject? ==> s.message == SuggestionFailed)
  {
  }

  /**
   * A reply that is one fenced object, with no surrounding whitespace, is
   * parsed as exactly that object; it is what the analysis handlers' scan
   * would have cut as well.
   */
  lemma FencedSuggestion(row: Entry, content: string, advisor: Advisor, parse: JsonParser, obj: string)
    requires advisor(row, content) == Ok("```json" + obj + Fence)
    requires '`' !in obj && |obj| >= 2 && obj[0] == '{' && obj[|obj| - 1] == '}'
    ensures ProfessorSuggestion(row, content, advisor, parse) ==
              (if parse(obj).Some? then Parsed(parse(obj).value) else ErrorObject(SuggestionFailed))
    ensures ExtractJson("```json" + obj + Fence) == Some(obj)
  {
    StripFencedText(obj);
    FencedObject(obj);
  }

  // -------------------------------------------------------------------- PDF

  /** One body row of the PDF table: ID, Critério, Status, Justificativa. */
  datatype PdfRow = PdfRow(id: nat, criterion: string, status: string, justification: string)

  const EditedSuffix := " (Editado)"
  const NoJustification := "N/A"

  /**
   * A row of the exported table: id, criterion, the status marked " (Editado)"
   * when the row was changed by hand, and the justification or "N/A".
   */
  function PdfRowOf(e: Entry): (r: PdfRow)
    ensures r.id == e.criterio && r.criterion == e.descricao
    ensures e.manualEdit == Some(true) ==> r.status == e.status + EditedSuffix
    ensures e.manualEdit != Some(true) ==> r.status == e.status
    ensures |r.status| > |e.status| <==> e.manualEdit == Some(true)
    ensures e.justificativa == "" ==> r.justification == NoJustification
    ensures e.justificativa != "" ==> r.justification == e.justificativa
    ensures r.justification != ""
  {
    PdfRow(e.criterio, e.descricao,
           if e.manualEdit == Some(true) then e.status + EditedSuffix else e.status,
           if e.justificativa != "" then e.justificativa else NoJustification)
  }

  /** The body of the PDF table: one row per report row, in order. */
  function PdfRows(report: Report): (r: seq<PdfRow>)
    ensures |r| == |report.analise|
    ensures forall i :: 0 <= i < |r| ==> r[i] == PdfRowOf(report.analise[i])
  {
    seq(|report.analise|, i requires 0 <= i < |report.analise| => PdfRowOf(report.analise[i]))
  }

  /**
   * In the PDF of a professor report after any series of overrides, a row's
   * status carries " (Editado)" exactly when its criterion was overridden,
   * and then reads the last status chosen for it followed by that suffix.
   */
  lemma PdfMarksOverridden(report: Report, overrides: seq<(nat, string)>, i: nat)
    requires forall k :: 0 <= k < |report.analise| ==> report.analise[k].manualEdit == Some(false)
    requires i < |report.analise|
    ensures var rows := PdfRows(Report(report.pontuacaoFinal, ApplyOverrides(report.analise, overrides)));
            var id := report.analise[i].criterio;
            rows[i].id == id
            && (|rows[i].status| > |ApplyOverrides(report.analise, overrides)[i].status|
                <==> exists k :: 0 <= k < |overrides| && overrides[k].0 == id)
    ensures var rows := PdfRows(Report(report.pontuacaoFinal, ApplyOverrides(report.analise, overrides)));
            var id := report.analise[i].criterio;
            forall k ::
              (0 <= k < |overrides| && overrides[k].0 == id
               && forall m :: k < m < |overrides| ==> overrides[m].0 != id) ==>
                rows[i].status == overrides[k].1 + EditedSuffix
  {
    OverridesMarkEdited(report.analise, overrides, i);
  }

  // ------------------------------------------------------------------ state

  /**
   * The state of the `ProfessorDashboard` component, minus the selected file,
   * which each analysis takes as a parameter. `criteria` is the component's
   * `fullCriteriaList`.
   */
  class Dashboard {
    const criteria: seq<Criterion>
    var analysisResult: Option<Report>
    var isLoading: bool
    var error: Option<string>
    var isModalOpen: bool
    var isCorrectionModalOpen: bool
    var correctionTarget: Option<Entry>
    var fileContent: string
    var isGeneratingSuggestion: bool
    var suggestion: Option<Suggestion>

    /** A report, when there is one, follows the catalogue row by row. */
    predicate Valid()
      reads this
    {
      analysisResult.Some? ==> Aligned(analysisResult.value.analise, criteria)
    }

    /** The initial `useState` values. */
    constructor()
      ensures Valid() && criteria == Catalogue
      ensures analysisResult == None && !isLoading && error == None && !isModalOpen
      ensures !isCorrectionModalOpen && correctionTarget == None && fileContent == ""
      ensures !isGeneratingSuggestion && suggestion == None
    {
      criteria := Catalogue;
      analysisResult := None;
      isLoading := false;
      error := None;
      isModalOpen := false;
      isCorrectionModalOpen := false;
      correctionTarget := None;
      fileContent := "";
      isGeneratingSuggestion := false;
      suggestion := None;
    }

    /**
     * `handleProfessorAnalysis`: with no file nothing happens; otherwise the
     * report, every row marked unedited, (or the error message) replaces the
     * previous one, the extracted text is kept, and the results open.
     */
    method ProfessorAnalysis(file: Option<Upload>, prose: Prose, model: Model, parse: JsonParser)
      requires Valid()
      modifies this
      ensures Valid()
      ensures file.None? ==> unchanged(this)
      ensures file.Some? ==>
        var text := ExtractText(file.value);
        && analysisResult == (if text.Ok? then AnalyzeDocument(criteria, prose, text.value, model, parse, true) else None)
        && fileContent == (if text.Ok? then text.value else old(fileContent))
        && error == (if analysisResult.None? then Some(AnalysisFailed) else None)
        && isModalOpen == (analysisResult.Some? || old(isModalOpen))
        && !isLoading
      ensures isCorrectionModalOpen == old(isCorrectionModalOpen) && correctionTarget == old(correctionTarget)
      ensures isGeneratingSuggestion == old(isGeneratingSuggestion) && suggestion == old(suggestion)
    {
      if file.None? {
        return;
      }
      isLoading := true;
      analysisResult := None;
      error := None;
      var extracted := ExtractText(file.value);
      var report: Option<Report> := None;
      if extracted.Ok? {
        fileContent := extracted.value;
        report := RunAnalysis(criteria, prose, extracted.value, model, parse, true);
      }
      analysisResult := report;
      isModalOpen := isModalOpen || report.Some?;
      error := if report.Some? then None else Some(AnalysisFailed);
      isLoading := false;
    }

    /**
     * `handleStatusUpdate`: the rows of the criterion take the new status and
     * `manualEdit: true`, the score is left as it was, and the correction
     * modal closes.
     */
    method StatusUpdate(criterionId: nat, newStatus: string)
      requires Valid()
      modifies this
      ensures Valid()
      ensures old(analysisResult).None? ==> analysisResult.None?
      ensures old(analysisResult).Some? ==>
        analysisResult == Some(Report(old(analysisResult).value.pontuacaoFinal,
                                      UpdateStatus(old(analysisResult).value.analise, criterionId, newStatus)))
      ensures !isCorrectionModalOpen
      ensures isLoading == old(isLoading) && error == old(error) && isModalOpen == old(isModalOpen)
      ensures correctionTarget == old(correctionTarget) && fileContent == old(fileContent)
      ensures isGeneratingSuggestion == old(isGeneratingSuggestion) && suggestion == old(suggestion)
    {
      if analysisResult.Some? {
        var prev := analysisResult.value;
        var newAnalise := UpdateStatus(prev.analise, criterionId, newStatus);
        UpdateStatusAligned(prev.analise, criteria, criterionId, newStatus);
        analysisResult := Some(prev.(analise := newAnalise));
      }
      isCorrectionModalOpen := false;
    }

    /**
     * `handleGenerateCorrection`: the previous suggestion is cleared and
     * replaced by what the whole stripped reply parses to (or the error
     * object); the spinner is off again at the end.
     */
    method GenerateCorrection(row: Entry, advisor: Advisor, parse: JsonParser)
      requires Valid()
      modifies this
      ensures Valid()
      ensures suggestion == Some(ProfessorSuggestion(row, old(fileContent), advisor, parse))
      ensures !isGeneratingSuggestion
      ensures analysisResult == old(analysisResult) && isLoading == old(isLoading) && error == old(error)
      ensures isModalOpen == old(isModalOpen) && isCorrectionModalOpen == old(isCorrectionModalOpen)
      ensures correctionTarget == old(correctionTarget) && fileContent == old(fileContent)
    {
      isGeneratingSuggestion := true;
      suggestion := None;
      var response := advisor(row, fileContent);
      var outcome := ErrorObject(SuggestionFailed);
      if response.Ok? {
        var text := StripFences(response.value);
        var jsonSuggestion := parse(text);
        if jsonSuggestion.Some? {
          outcome := Parsed(jsonSuggestion.value);
        }
      }
      suggestion := Some(outcome);
      isGeneratingSuggestion := false;
    }

    /**
     * `handleEditClick`: the row becomes the correction target, the
     * correction modal opens, and a suggestion is generated for criterion 15
     * and cleared for the others.
     */
    method EditClick(row: Entry, advisor: Advisor, parse: JsonParser)
      requires Valid()
      modifies this
      ensures Valid()
      ensures correctionTarget == Some(row) && isCorrectionModalOpen
      ensures suggestion == if row.criterio in CriteriaWithSuggestions then Some(ProfessorSuggestion(row, old(fileContent), advisor, parse)) else None
      ensures isGeneratingSuggestion == (old(isGeneratingSuggestion) && row.criterio !in CriteriaWithSuggestions)
      ensures analysisResult == old(analysisResult) && isLoading == old(isLoading) && error == old(error)
      ensures isModalOpen == old(isModalOpen) && fileContent == old(fileContent)
    {
      correctionTarget := Some(row);
      isCorrectionModalOpen := true;
      if row.criterio in CriteriaWithSuggestions {
        GenerateCorrection(row, advisor, parse);
      } else {
        suggestion := None;
      }
    }
  }
}

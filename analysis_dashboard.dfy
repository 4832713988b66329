/**
 * The student dashboard (`AnalysisDashboard`): the student catalogue of 32
 * criteria and the handlers that analyse a document, override one verdict
 * (and rescore), and ask the model for corrections of criteria 2, 18 and 22.
 * The component's React state becomes the fields of a class; each handler
 * runs to completion, with what it awaits given as parameters.
 */
module AnalysisDashboard {
  import opened Wrappers
  import opened Text
  import opened ModelReply
  import opened Rubric
  import opened DashboardState

  // --------------------------------------------------------------- catalogue

  const Part1: seq<Criterion> := [
    Criterion(1, Manual, false), Criterion(2, Auto, false), Criterion(3, Auto, false), Criterion(4, Auto, false),
    Criterion(5, Auto, true), Criterion(6, Auto, false), Criterion(7, Manual, false), Criterion(8, Auto, false)]
  const Part2: seq<Criterion> := [
    Criterion(9, Auto, false), Criterion(10, Auto, false), Criterion(11, Manual, false), Criterion(12, Manual, false),
    Criterion(13, Manual, false), Criterion(14, Auto, false), Criterion(15, Auto, true), Criterion(16, Auto, false)]
  const Part3: seq<Criterion> := [
    Criterion(17, Auto, false), Criterion(18, Auto, false), Criterion(19, Auto, true), Criterion(20, Auto, false),
    Criterion(21, Auto, false), Criterion(22, Auto, false), Criterion(23, Auto, false), Criterion(24, Auto, true)]
  const Part4: seq<Criterion> := [
    Criterion(25, Auto, true), Criterion(26, Auto, true), Criterion(27, Manual, false), Criterion(28, Auto, false),
    Criterion(29, Manual, false), Criterion(30, Manual, false), Criterion(31, Manual, false), Criterion(32, Manual, false)]

  /** `fullCriteriaList`: ids, kinds and which criteria have a `textForAI`. */
  const Catalogue: seq<Criterion> := Part1 + Part2 + Part3 + Part4

  /** The criteria whose correction the model is asked for. */
  const CriteriaWithSuggestions: seq<nat> := [2, 18, 22]

  const AnalysisFailed := "Ocorreu um erro ao analisar o documento. Se o problema persistir, verifique sua chave de API e as permissões do modelo."
  const SuggestionFailed := "Não foi possível gerar uma sugestão estruturada."

  /** The catalogue numbers its criteria 1 to 32 in order. */
  lemma CatalogueIds()
    ensures |Catalogue| == 32 && forall i :: 0 <= i < 32 ==> Catalogue[i].id == i + 1
  {
  }

  /** Ids increase along the catalogue, so no two criteria share one and the lookup by id is well defined. */
  lemma CatalogueUnique()
    ensures IncreasingIds(Catalogue) && UniqueIds(Catalogue)
  {
    CatalogueIds();
    IncreasingIdsUnique(Catalogue);
  }

  lemma Part1Autos() ensures |AutoCriteria(Part1)| == 6 {}
  lemma Part2Autos() ensures |AutoCriteria(Part2)| == 5 {}
  lemma Part3Autos() ensures |AutoCriteria(Part3)| == 8 {}
  lemma Part4Autos() ensures |AutoCriteria(Part4)| == 3 {}

  /** 22 of the 32 criteria are automatic: the score's denominator. */
  lemma AutoCount()
    ensures |AutoCriteria(Catalogue)| == 22
  {
    Part1Autos();
    Part2Autos();
    Part3Autos();
    Part4Autos();
    AutoCriteriaAppend(Part1, Part2);
    AutoCriteriaAppend(Part1 + Part2, Part3);
    AutoCriteriaAppend(Part1 + Part2 + Part3, Part4);
  }

  /** Every criterion offered a suggestion is an automatic criterion of the catalogue, found at position id - 1. */
  lemma SuggestionsAreAutomatic()
    ensures forall id :: id in CriteriaWithSuggestions ==>
              1 <= id <= |Catalogue| && Catalogue[id - 1].id == id && Catalogue[id - 1].kind == Auto
  {
  }

  // --------------------------------------------------------------- analysis

  /**
   * A student report has one row per catalogue criterion, ids 1 to 32 in
   * order, none of them carrying `manualEdit`; its score counts the raw
   * reply's "Aprovado" items out of the 22 automatic criteria.
   */
  lemma StudentReportRows(prose: Prose, text: string, model: Model, parse: JsonParser)
    requires AnalyzeDocument(Catalogue, prose, text, model, parse, false).Some?
    ensures var r := AnalyzeDocument(Catalogue, prose, text, model, parse, false).value;
            |r.analise| == 32 && Aligned(r.analise, Catalogue)
            && (forall i :: 0 <= i < 32 ==> r.analise[i].criterio == i + 1 && r.analise[i].manualEdit.None?)
    ensures var reply := model(CriteriaPrompt(Catalogue, prose), text).value;
            var r := AnalyzeDocument(Catalogue, prose, text, model, parse, false).value;
            r.pontuacaoFinal == Score(CountApproved(parse(ExtractJson(reply).value).value.analise.value), 22)
  {
    var reply := model(CriteriaPrompt(Catalogue, prose), text).value;
    AnalyzeReplyIff(Catalogue, prose, reply, parse, false);
    CatalogueIds();
    AutoCount();
    forall i | 0 <= i < 32
      ensures AnalyzeDocument(Catalogue, prose, text, model, parse, false).value.analise[i].manualEdit.None?
    {
      MergeRows(Catalogue, parse(ExtractJson(reply).value).value.analise.value, prose, false, i);
    }
  }

  // --------------------------------------------------------------- override

  /**
   * On a report that follows the catalogue, the override's rescoring always
   * succeeds, gives a percentage, and repeating the override gives the same
   * report and score.
   */
  lemma OverrideRescore(entries: seq<Entry>, id: nat, newStatus: string)
    requires Aligned(entries, Catalogue)
    ensures var updated := UpdateStatus(entries, id, newStatus);
            Aligned(updated, Catalogue) && Rescore(Catalogue, updated).Some? && Rescore(Catalogue, updated).value <= 100
    ensures var updated := UpdateStatus(entries, id, newStatus);
            UpdateStatus(updated, id, newStatus) == updated
  {
    CatalogueUnique();
    UpdateStatusAligned(entries, Catalogue, id, newStatus);
    RescoreBounded(Catalogue, UpdateStatus(entries, id, newStatus));
    UpdateStatusIdempotent(entries, id, newStatus);
  }

  // ------------------------------------------------------------ suggestions

  /**
   * What `handleGenerateCorrection` leaves in `suggestion`: nothing for a
   * criterion without suggestions; otherwise what `JSON.parse` makes of the
   * reply's span from the first '{' to the last '}', or the fixed error object
   * when the call fails, a brace is missing or the parse fails.
   */
  function StudentSuggestion(row: Entry, content: string, advisor: Advisor, parse: JsonParser): Option<Suggestion>
  {
    if row.criterio !in CriteriaWithSuggestions then None
    else
      match advisor(row, content)
      case Fail(_) => Some(ErrorObject(SuggestionFailed))
      case Ok(reply) => Some(ParseSuggestion(reply, parse))
  }

  /** The suggestion made of a reply: what `JSON.parse` makes of its cut, or the error object. */
  function ParseSuggestion(reply: string, parse: JsonParser): Suggestion
  {
    match SuggestionSlice(reply)
    case None => ErrorObject(SuggestionFailed)
    case Some(payload) =>
      match parse(payload)
      case None => ErrorObject(SuggestionFailed)
      case Some(v) => Parsed(v)
  }

  /** The suggestion handler's reading of the reply, step by step: strip, find both braces, cut, parse. */
  method ReadSuggestion(reply: string, parse: JsonParser) returns (outcome: Suggestion)
    ensures outcome == ParseSuggestion(reply, parse)
  {
    var text := StripFences(reply);
    var startIndex := IndexOf(text, '{');
    var endIndex := LastIndexOf(text, '}');
    LooseScanAt(text, startIndex, endIndex);
    if startIndex > -1 && endIndex > -1 {
      var parsed := parse(JsSubstring(text, startIndex, endIndex + 1));
      outcome := if parsed.Some? then Parsed(parsed.value) else ErrorObject(SuggestionFailed);
    } else {
      outcome := ErrorObject(SuggestionFailed);
    }
  }

  /** The `try` block of the suggestion handler: ask the model, then read its reply; any failure gives the error object. */
  method AskAdvisor(row: Entry, content: string, advisor: Advisor, parse: JsonParser) returns (outcome: Suggestion)
    requires row.criterio in CriteriaWithSuggestions
    ensures Some(outcome) == StudentSuggestion(row, content, advisor, parse)
  {
    var response := advisor(row, content);
    outcome := ErrorObject(SuggestionFailed);
    if response.Ok? {
      outcome := ReadSuggestion(response.value, parse);
    }
  }

  /** Outside criteria 2, 18 and 22 the model is never asked: no reply of it matters and no suggestion is set. */
  lemma SuggestionOnlyForListed(row: Entry, content: string, a: Advisor, b: Advisor, parse: JsonParser)
    requires row.criterio != 2 && row.criterio != 18 && row.criterio != 22
    ensures StudentSuggestion(row, content, a, parse).None?
    ensures StudentSuggestion(row, content, a, parse) == StudentSuggestion(row, content, b, parse)
  {
  }

  /**
   * For criteria 2, 18 and 22 a suggestion is always set: the parsed value
   * exactly when the call succeeds, its stripped reply holds both a '{' and a
   * '}' and the parse of the cut succeeds; the fixed error object otherwise.
   */
  lemma SuggestionOutcome(row: Entry, content: string, advisor: Advisor, parse: JsonParser)
    requires row.criterio in CriteriaWithSuggestions
    ensures var s := StudentSuggestion(row, content, advisor, parse);
            s.Some? && (s.value.ErrorObject? ==> s.value.message == SuggestionFailed)
    ensures var s, reply := StudentSuggestion(row, content, advisor, parse), advisor(row, content);
            s.value.Parsed? <==>
              reply.Ok? && '{' in StripFences(reply.value) && '}' in StripFences(reply.value)
              && parse(SuggestionSlice(reply.value).value).Some?
  {
  }

  /**
   * With its braces in reverse order the reply still reaches `JSON.parse`:
   * what is parsed is the brace-free text between the last '}' and the first
   * '{', never the object the analysis scan would have refused.
   */
  lemma SuggestionReversedBraces(row: Entry, content: string, advisor: Advisor, parse: JsonParser)
    requires row.criterio in CriteriaWithSuggestions && advisor(row, content).Ok?
    requires var t := StripFences(advisor(row, content).value);
             '{' in t && '}' in t && ExtractJson(advisor(row, content).value).None?
    ensures var reply := advisor(row, content).value;
            var v := SuggestionSlice(reply).value;
            '{' !in v && '}' !in v
            && StudentSuggestion(row, content, advisor, parse) ==
                 (if parse(v).Some? then Some(Parsed(parse(v).value)) else Some(ErrorObject(SuggestionFailed)))
  {
    SuggestionSliceReversed(advisor(row, content).value);
  }

  // ------------------------------------------------------------------ state

  /**
   * The state of the `AnalysisDashboard` component, minus the selected file,
   * which each analysis takes as a parameter. `criteria` is the component's
   * `fullCriteriaList`.
   */
  class Dashboard {
    const criteria: seq<Criterion>
    var analysisResult: Option<Report>
    var isLoading: bool
    var error: Option<string>
    var isModalOpen: bool
    var isCorrectionModalOpen: bool
    var correctionTarget: Option<Entry>
    var fileContent: string
    var isGeneratingSuggestion: bool
    var suggestion: Option<Suggestion>

    /** The catalogue's ids are unique, and a report, when there is one, follows the catalogue row by row. */
    predicate Valid()
      reads this
    {
      UniqueIds(criteria) && (analysisResult.Some? ==> Aligned(analysisResult.value.analise, criteria))
    }

    /** The initial `useState` values. */
    constructor()
      ensures Valid() && criteria == Catalogue
      ensures analysisResult == None && !isLoading && error == None && !isModalOpen
      ensures !isCorrectionModalOpen && correctionTarget == None && fileContent == ""
      ensures !isGeneratingSuggestion && suggestion == None
    {
      criteria := Catalogue;
      analysisResult := None;
      isLoading := false;
      error := None;
      isModalOpen := false;
      isCorrectionModalOpen := false;
      correctionTarget := None;
      fileContent := "";
      isGeneratingSuggestion := false;
      suggestion := None;
      CatalogueUnique();
    }

    /**
     * `handleStudentAnalysis`: with no file nothing happens; otherwise the
     * report (or the error message) replaces the previous one, the extracted
     * text is kept for the correction prompts, and the results open.
     */
    method StudentAnalysis(file: Option<Upload>, prose: Prose, model: Model, parse: JsonParser)
      requires Valid()
      modifies this
      ensures Valid()
      ensures file.None? ==> unchanged(this)
      ensures file.Some? ==>
        var text := ExtractText(file.value);
        && analysisResult == (if text.Ok? then AnalyzeDocument(criteria, prose, text.value, model, parse, false) else None)
        && fileContent == (if text.Ok? then text.value else old(fileContent))
        && error == (if analysisResult.None? then Some(AnalysisFailed) else None)
        && isModalOpen == (analysisResult.Some? || old(isModalOpen))
        && !isLoading
      ensures isCorrectionModalOpen == old(isCorrectionModalOpen) && correctionTarget == old(correctionTarget)
      ensures isGeneratingSuggestion == old(isGeneratingSuggestion) && suggestion == old(suggestion)
    {
      if file.None? {
        return;
      }
      isLoading := true;
      analysisResult := None;
      error := None;
      var extracted := ExtractText(file.value);
      var report: Option<Report> := None;
      if extracted.Ok? {
        fileContent := extracted.value;
        report := RunAnalysis(criteria, prose, extracted.value, model, parse, false);
      }
      analysisResult := report;
      isModalOpen := isModalOpen || report.Some?;
      error := if report.Some? then None else Some(AnalysisFailed);
      isLoading := false;
    }

    /**
     * `handleStatusUpdate`: the rows of the criterion take the new status and
     * `manualEdit: true`, the score is recomputed over the automatic rows, and
     * the correction modal closes. Without a report the handler throws and
     * nothing changes.
     */
    method StatusUpdate(criterionId: nat, newStatus: string)
      requires Valid()
      modifies this
      ensures Valid()
      ensures old(analysisResult).None? ==> unchanged(this)
      ensures old(analysisResult).Some? ==>
        var updated := UpdateStatus(old(analysisResult).value.analise, criterionId, newStatus);
        && Rescore(criteria, updated).Some?
        && analysisResult == Some(Report(Rescore(criteria, updated).value, updated))
        && analysisResult.value.pontuacaoFinal <= 100
        && !isCorrectionModalOpen
      ensures isLoading == old(isLoading) && error == old(error) && isModalOpen == old(isModalOpen)
      ensures correctionTarget == old(correctionTarget) && fileContent == old(fileContent)
      ensures isGeneratingSuggestion == old(isGeneratingSuggestion) && suggestion == old(suggestion)
    {
      if analysisResult.None? {
        return;
      }
      var updatedAnalysis := UpdateStatus(analysisResult.value.analise, criterionId, newStatus);
      UpdateStatusAligned(analysisResult.value.analise, criteria, criterionId, newStatus);
      RescoreBounded(criteria, updatedAnalysis);
      var newScore := Rescore(criteria, updatedAnalysis).value;
      analysisResult := Some(Report(newScore, updatedAnalysis));
      isCorrectionModalOpen := false;
    }

    /**
     * `handleGenerateCorrection`: the previous suggestion is cleared and, for
     * criteria 2, 18 and 22, replaced by what the model's reply parses to (or
     * the error object); the spinner is off again at the end.
     */
    method GenerateCorrection(row: Entry, advisor: Advisor, parse: JsonParser)
      requires Valid()
      modifies this
      ensures Valid()
      ensures suggestion == StudentSuggestion(row, old(fileContent), advisor, parse)
      ensures !isGeneratingSuggestion
      ensures analysisResult == old(analysisResult) && isLoading == old(isLoading) && error == old(error)
      ensures isModalOpen == old(isModalOpen) && isCorrectionModalOpen == old(isCorrectionModalOpen)
      ensures correctionTarget == old(correctionTarget) && fileContent == old(fileContent)
    {
      suggestion := None;
      isGeneratingSuggestion := true;
      if row.criterio != 2 && row.criterio != 18 && row.criterio != 22 {
        isGeneratingSuggestion := false;
        return;
      }
      var outcome := AskAdvisor(row, fileContent, advisor, parse);
      suggestion := Some(outcome);
      isGeneratingSuggestion := false;
    }

    /**
     * `handleEditClick`: the row becomes the correction target, the
     * correction modal opens, and a suggestion is generated for criteria 2,
     * 18 and 22 and cleared for the others.
     */
    method EditClick(row: Entry, advisor: Advisor, parse: JsonParser)
      requires Valid()
      modifies this
      ensures Valid()
      ensures correctionTarget == Some(row) && isCorrectionModalOpen
      ensures suggestion == StudentSuggestion(row, old(fileContent), advisor, parse)
      ensures isGeneratingSuggestion == (old(isGeneratingSuggestion) && row.criterio !in CriteriaWithSuggestions)
      ensures analysisResult == old(analysisResult) && isLoading == old(isLoading) && error == old(error)
      ensures isModalOpen == old(isModalOpen) && fileContent == old(fileContent)
    {
      correctionTarget := Some(row);
      isCorrectionModalOpen := true;
      if row.criterio in CriteriaWithSuggestions {
        GenerateCorrection(row, advisor, parse);
      } else {
        suggestion := None;
      }
    }
  }
}

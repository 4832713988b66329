/**
 * The rubric logic both dashboards share: the criterion catalogue, the list of
 * automatic criteria written into the prompt, the percentage score, the merge
 * of a model's verdicts with the whole catalogue, and the manual override of
 * one verdict. The two dashboards differ only in their catalogue and in
 * whether merged entries carry `manualEdit: false`; those are parameters here.
 */
module Rubric {
  import opened Wrappers
  import opened Text
  import opened ModelReply

  /** `type: 'auto'` criteria are judged by the model; `'manual'` ones by a person. */
  datatype Kind = Auto | Manual

  /** A catalogue entry: its id, its kind, and whether it has a `textForAI` of its own. */
  datatype Criterion = Criterion(id: nat, kind: Kind, hasTextForAI: bool)

  /** The wording of the criteria, by id: `textForAI` for the prompt and `displayText` for the report. */
  datatype Prose = Prose(textForAI: nat -> string, displayText: nat -> string)

  /** One row of the report: `{criterio, descricao, status, justificativa, manualEdit}`; `manualEdit` None when the property is absent. */
  datatype Entry = Entry(criterio: nat, descricao: string, status: string, justificativa: string, manualEdit: Option<bool>)

  /** `{pontuacaoFinal, analise}` */
  datatype Report = Report(pontuacaoFinal: nat, analise: seq<Entry>)

  const Approved := "Aprovado"
  const ManualReview := "Análise Manual"
  const Missing := "Erro"

  /** No two criteria share an id. */
  predicate UniqueIds(cat: seq<Criterion>) {
    forall i, j :: 0 <= i < j < |cat| ==> cat[i].id != cat[j].id
  }

  /** Ids increase along the catalogue. */
  predicate IncreasingIds(cat: seq<Criterion>) {
    forall i :: 0 <= i < |cat| - 1 ==> cat[i].id < cat[i + 1].id
  }

  lemma {:induction false} IncreasingIdsUnique(cat: seq<Criterion>)
    requires IncreasingIds(cat)
    ensures UniqueIds(cat)
    decreases |cat|
  {
    if |cat| > 1 {
      IncreasingIdsUnique(cat[1..]);
      assert forall j :: 0 < j < |cat| ==> cat[0].id < cat[j].id by {
        forall j | 0 < j < |cat|
          ensures cat[0].id < cat[j].id
        {
          IncreasingFromHead(cat, j);
        }
      }
      forall i, j | 0 <= i < j < |cat|
        ensures cat[i].id != cat[j].id
      {
        if i > 0 {
          assert cat[1..][i - 1] == cat[i] && cat[1..][j - 1] == cat[j];
        }
      }
    }
  }

  lemma {:induction false} IncreasingFromHead(cat: seq<Criterion>, j: nat)
    requires IncreasingIds(cat) && 0 < j < |cat|
    ensures cat[0].id < cat[j].id
    decreases j
  {
    if j > 1 {
      IncreasingFromHead(cat, j - 1);
    }
  }

  // ------------------------------------------------------ criteria for the model

  /** The automatic criteria of the catalogue, in catalogue order. */
  function AutoCriteria(cat: seq<Criterion>): (r: seq<Criterion>)
    ensures |r| <= |cat|
    ensures forall c :: c in r <==> c in cat && c.kind == Auto
  {
    if cat == [] then []
    else (if cat[0].kind == Auto then [cat[0]] else []) + AutoCriteria(cat[1..])
  }

  /** The filter keeps catalogue order: filtering a concatenation concatenates the filtered parts. */
  lemma {:induction false} AutoCriteriaAppend(a: seq<Criterion>, b: seq<Criterion>)
    ensures AutoCriteria(a + b) == AutoCriteria(a) + AutoCriteria(b)
    decreases |a|
  {
    if a == [] {
      assert a + b == b;
    } else {
      assert (a + b)[0] == a[0];
      assert (a + b)[1..] == a[1..] + b;
      AutoCriteriaAppend(a[1..], b);
    }
  }

  /** A criterion's line in the analysis prompt: its id, a dot, and its prompt text (its display text when it has none). */
  function PromptLine(c: Criterion, prose: Prose): string
  {
    IntToString(c.id) + ". " + OrElse(if c.hasTextForAI then Some(prose.textForAI(c.id)) else None, prose.displayText(c.id))
  }

  function PromptLines(cs: seq<Criterion>, prose: Prose): (r: seq<string>)
    ensures |r| == |cs|
    ensures forall k :: 0 <= k < |cs| ==> r[k] == PromptLine(cs[k], prose)
  {
    if cs == [] then [] else [PromptLine(cs[0], prose)] + PromptLines(cs[1..], prose)
  }

  /** The criteria list of the analysis prompt: one line per automatic criterion, joined by line feeds. */
  function CriteriaPrompt(cat: seq<Criterion>, prose: Prose): string
  {
    Join(PromptLines(AutoCriteria(cat), prose), "\n")
  }

  /** No criterion text spans lines. */
  ghost predicate SingleLineProse(prose: Prose) {
    (forall n: nat :: '\n' !in prose.textForAI(n)) && (forall n: nat :: '\n' !in prose.displayText(n))
  }

  /**
   * Read back line by line, the criteria list holds exactly the automatic
   * criteria in catalogue order, each as its id, ". " and its `textForAI`
   * when it has a non-empty one, its `displayText` otherwise.
   */
  lemma CriteriaPromptLines(cat: seq<Criterion>, prose: Prose)
    requires SingleLineProse(prose)
    requires AutoCriteria(cat) != []
    ensures var lines, autos := SplitLines(CriteriaPrompt(cat, prose)), AutoCriteria(cat);
            |lines| == |autos| &&
            forall k :: 0 <= k < |autos| ==>
              lines[k] == IntToString(autos[k].id) + ". " +
                (if autos[k].hasTextForAI && prose.textForAI(autos[k].id) != "" then prose.textForAI(autos[k].id) else prose.displayText(autos[k].id))
  {
    var autos := AutoCriteria(cat);
    var lines := PromptLines(autos, prose);
    forall k | 0 <= k < |lines|
      ensures '\n' !in lines[k]
    {
      var c := autos[k];
      var text := OrElse(if c.hasTextForAI then Some(prose.textForAI(c.id)) else None, prose.displayText(c.id));
      assert '\n' !in text;
      assert lines[k] == IntToString(c.id) + ". " + text;
    }
    SplitJoin(lines);
  }

  // ------------------------------------------------------------------- score

  /**
   * The percentage score: the integer nearest to 100·approved/total, halves
   * rounded up as `Math.round` does, and 0 when there is nothing to count.
   */
  function Score(approved: nat, total: nat): (r: nat)
    ensures total == 0 ==> r == 0
    ensures total > 0 ==> 2 * total * r <= 200 * approved + total < 2 * total * (r + 1)
  {
    if total > 0 then (200 * approved + total) / (2 * total) else 0
  }

  lemma MulMonotone(x: nat, a: nat, b: nat)
    requires a <= b
    ensures x * a <= x * b
  {
  }

  /** The score is a percentage whenever no more criteria are approved than there are. */
  lemma ScoreBounded(approved: nat, total: nat)
    requires approved <= total
    ensures Score(approved, total) <= 100
  {
    if total > 0 {
      var r := Score(approved, total);
      if r > 100 {
        MulMonotone(2 * total, 101, r);
      }
    }
  }

  /** More approvals never lower the score. */
  lemma ScoreMonotone(a: nat, b: nat, total: nat)
    requires a <= b
    ensures Score(a, total) <= Score(b, total)
  {
    if total > 0 {
      var ra, rb := Score(a, total), Score(b, total);
      if ra > rb {
        MulMonotone(2 * total, rb + 1, ra);
      }
    }
  }

  /** Ten criteria of which six are automatic, four of those approved: 67. */
  lemma ScoreFourOfSix()
    ensures Score(4, 6) == 67
  {
  }

  /** How many items of the raw reply are "Aprovado", duplicates and unknown ids included. */
  function CountApproved(items: seq<ReplyItem>): (n: nat)
    ensures n <= |items|
  {
    if items == [] then 0 else (if items[0].status == Approved then 1 else 0) + CountApproved(items[1..])
  }

  /** The score computed right after the analysis, from the raw reply and the number of automatic criteria. */
  function InitialScore(cat: seq<Criterion>, items: seq<ReplyItem>): nat
  {
    Score(CountApproved(items), |AutoCriteria(cat)|)
  }

  // ------------------------------------------------------------------- merge

  /** `items[k]` is the first item whose `criterio` is `id`: what `find` returns. */
  predicate FirstFor(items: seq<ReplyItem>, id: nat, k: nat) {
    k < |items| && items[k].criterio == Some(id) && forall m :: 0 <= m < k ==> items[m].criterio != Some(id)
  }

  /** The position of the first item at or after `from` whose `criterio` is `id`. */
  function FindFrom(items: seq<ReplyItem>, id: nat, from: nat): (r: Option<nat>)
    requires from <= |items|
    ensures r.None? <==> forall k :: from <= k < |items| ==> items[k].criterio != Some(id)
    ensures r.Some? ==> from <= r.value < |items| && items[r.value].criterio == Some(id)
    ensures r.Some? ==> forall m :: from <= m < r.value ==> items[m].criterio != Some(id)
    decreases |items| - from
  {
    if from == |items| then None
    else if items[from].criterio == Some(id) then Some(from)
    else FindFrom(items, id, from + 1)
  }

  /** The first item of the reply about criterion `id`, as `find` returns it. */
  function Find(items: seq<ReplyItem>, id: nat): (r: Option<ReplyItem>)
    ensures r.None? <==> forall k :: 0 <= k < |items| ==> items[k].criterio != Some(id)
    ensures r.Some? ==> exists k: nat :: FirstFor(items, id, k) && items[k] == r.value
  {
    match FindFrom(items, id, 0)
    case None => None
    case Some(k) =>
      assert FirstFor(items, id, k);
      Some(items[k])
  }

  /** The report row of one criterion, given the reply. */
  function MergeEntry(c: Criterion, items: seq<ReplyItem>, prose: Prose, markUnedited: bool): Entry
  {
    var found := Find(items, c.id);
    Entry(c.id, prose.displayText(c.id),
          if c.kind == Manual then ManualReview else if found.Some? then found.value.status else Missing,
          if found.Some? then found.value.justificativa else "",
          if markUnedited then Some(false) else None)
  }

  /** The merge of the reply with the catalogue: one row per catalogue criterion, in catalogue order. */
  function Merge(cat: seq<Criterion>, items: seq<ReplyItem>, prose: Prose, markUnedited: bool): (r: seq<Entry>)
    ensures |r| == |cat|
    ensures forall i :: 0 <= i < |cat| ==> r[i] == MergeEntry(cat[i], items, prose, markUnedited)
  {
    if cat == [] then [] else [MergeEntry(cat[0], items, prose, markUnedited)] + Merge(cat[1..], items, prose, markUnedited)
  }

  /** The rows follow the catalogue: same length, same ids, same order. */
  predicate Aligned(entries: seq<Entry>, cat: seq<Criterion>) {
    |entries| == |cat| && forall i :: 0 <= i < |cat| ==> entries[i].criterio == cat[i].id
  }

  /**
   * The merged report has one row per catalogue criterion, in catalogue
   * order: a manual criterion reads "Análise Manual"; an automatic one the
   * status of the first reply item with its id, or "Erro" when there is
   * none; every row takes the justification of that first item, or "".
   */
  lemma MergeRows(cat: seq<Criterion>, items: seq<ReplyItem>, prose: Prose, markUnedited: bool, i: nat)
    requires i < |cat|
    ensures var r := Merge(cat, items, prose, markUnedited);
            Aligned(r, cat) && r[i].descricao == prose.displayText(cat[i].id)
    ensures var e := Merge(cat, items, prose, markUnedited)[i];
            (cat[i].kind == Manual ==> e.status == ManualReview) &&
            (e.manualEdit == if markUnedited then Some(false) else None)
    ensures var e := Merge(cat, items, prose, markUnedited)[i];
            (forall k :: 0 <= k < |items| ==> items[k].criterio != Some(cat[i].id)) ==>
              e.justificativa == "" && (cat[i].kind == Auto ==> e.status == Missing)
    ensures var e := Merge(cat, items, prose, markUnedited)[i];
            forall k: nat :: FirstFor(items, cat[i].id, k) ==>
              e.justificativa == items[k].justificativa && (cat[i].kind == Auto ==> e.status == items[k].status)
  {
    var r := Merge(cat, items, prose, markUnedited);
    var found := Find(items, cat[i].id);
    forall k: nat | FirstFor(items, cat[i].id, k)
      ensures found == Some(items[k])
    {
      var k': nat :| FirstFor(items, cat[i].id, k') && items[k'] == found.value;
      assert k == k';
    }
  }

  // ---------------------------------------------------------------- override

  /** The rows once every row with the given id takes the new status and is marked as edited by hand. */
  function UpdateStatus(entries: seq<Entry>, id: nat, newStatus: string): (r: seq<Entry>)
    ensures |r| == |entries|
    ensures forall i :: 0 <= i < |entries| && entries[i].criterio != id ==> r[i] == entries[i]
    ensures forall i :: 0 <= i < |entries| && entries[i].criterio == id ==>
              r[i] == entries[i].(status := newStatus, manualEdit := Some(true))
  {
    if entries == [] then []
    else
      var e := entries[0];
      [if e.criterio == id then e.(status := newStatus, manualEdit := Some(true)) else e]
        + UpdateStatus(entries[1..], id, newStatus)
  }

  /** Repeating an override changes nothing. */
  lemma UpdateStatusIdempotent(entries: seq<Entry>, id: nat, newStatus: string)
    ensures UpdateStatus(UpdateStatus(entries, id, newStatus), id, newStatus) == UpdateStatus(entries, id, newStatus)
  {
  }

  /** An override keeps the report aligned with the catalogue. */
  lemma UpdateStatusAligned(entries: seq<Entry>, cat: seq<Criterion>, id: nat, newStatus: string)
    requires Aligned(entries, cat)
    ensures Aligned(UpdateStatus(entries, id, newStatus), cat)
  {
  }

  /** The rows after a series of overrides, applied in order. */
  function ApplyOverrides(entries: seq<Entry>, overrides: seq<(nat, string)>): (r: seq<Entry>)
    ensures |r| == |entries|
    decreases |overrides|
  {
    if overrides == [] then entries
    else
      var last := overrides[|overrides| - 1];
      UpdateStatus(ApplyOverrides(entries, overrides[..|overrides| - 1]), last.0, last.1)
  }

  /**
   * Starting from rows none of which is marked as edited, after any series of
   * overrides a row is marked `manualEdit: true` exactly when its criterion
   * was overridden at least once, and it then shows the status of the last
   * override of that criterion; rows keep their ids.
   */
  lemma {:induction false} OverridesMarkEdited(entries: seq<Entry>, overrides: seq<(nat, string)>, i: nat)
    requires forall k :: 0 <= k < |entries| ==> entries[k].manualEdit != Some(true)
    requires i < |entries|
    ensures var r := ApplyOverrides(entries, overrides);
            r[i].criterio == entries[i].criterio
            && (r[i].manualEdit == Some(true) <==> exists k :: 0 <= k < |overrides| && overrides[k].0 == entries[i].criterio)
    ensures var r := ApplyOverrides(entries, overrides);
            forall k ::
              (0 <= k < |overrides| && overrides[k].0 == entries[i].criterio
               && forall m :: k < m < |overrides| ==> overrides[m].0 != entries[i].criterio) ==>
                r[i].status == overrides[k].1
    ensures var r := ApplyOverrides(entries, overrides);
            (forall k :: 0 <= k < |overrides| ==> overrides[k].0 != entries[i].criterio) ==> r[i] == entries[i]
    decreases |overrides|
  {
    if overrides != [] {
      var init := overrides[..|overrides| - 1];
      OverridesMarkEdited(entries, init, i);
      var n := |overrides| - 1;
      forall k | 0 <= k < n
        ensures init[k] == overrides[k]
      {
      }
      if overrides[n].0 != entries[i].criterio {
        if exists k :: 0 <= k < |overrides| && overrides[k].0 == entries[i].criterio {
          var k :| 0 <= k < |overrides| && overrides[k].0 == entries[i].criterio;
          assert init[k].0 == entries[i].criterio;
        }
      }
    }
  }

  /** The first catalogue criterion with the given id. */
  function Lookup(cat: seq<Criterion>, id: nat): (r: Option<Criterion>)
    ensures r.None? <==> forall i :: 0 <= i < |cat| ==> cat[i].id != id
    ensures r.Some? ==> r.value in cat && r.value.id == id
  {
    if cat == [] then None
    else if cat[0].id == id then Some(cat[0])
    else Lookup(cat[1..], id)
  }

  /** With unique ids, the lookup finds the criterion at that id's position. */
  lemma LookupUnique(cat: seq<Criterion>, i: nat)
    requires UniqueIds(cat) && i < |cat|
    ensures Lookup(cat, cat[i].id) == Some(cat[i])
  {
    var r := Lookup(cat, cat[i].id);
    var j :| 0 <= j < |cat| && cat[j] == r.value;
  }

  /** Every row's id is in the catalogue; otherwise `originalCriterion.type` throws. */
  predicate AllKnown(cat: seq<Criterion>, entries: seq<Entry>) {
    forall i :: 0 <= i < |entries| ==> Lookup(cat, entries[i].criterio).Some?
  }

  /** The rows whose catalogue criterion is automatic and whose status is "Aprovado". */
  function CountAutoApproved(cat: seq<Criterion>, entries: seq<Entry>): (n: nat)
    requires AllKnown(cat, entries)
    ensures n <= |entries|
  {
    if entries == [] then 0
    else
      (if Lookup(cat, entries[0].criterio).value.kind == Auto && entries[0].status == Approved then 1 else 0)
        + CountAutoApproved(cat, entries[1..])
  }

  /** The student dashboard's rescoring: None when a row's id is not in the catalogue (the handler throws). */
  function Rescore(cat: seq<Criterion>, entries: seq<Entry>): (r: Option<nat>)
    ensures r.Some? <==> AllKnown(cat, entries)
  {
    if AllKnown(cat, entries) then Some(Score(CountAutoApproved(cat, entries), |AutoCriteria(cat)|)) else None
  }

  /** Counting over rows aligned with a part of the catalogue counts at most that part's automatic criteria. */
  lemma {:induction false} CountAutoApprovedBounded(cat: seq<Criterion>, part: seq<Criterion>, entries: seq<Entry>)
    requires Aligned(entries, part)
    requires forall i :: 0 <= i < |part| ==> Lookup(cat, part[i].id) == Some(part[i])
    ensures AllKnown(cat, entries)
    ensures CountAutoApproved(cat, entries) <= |AutoCriteria(part)|
    decreases |part|
  {
    if part != [] {
      CountAutoApprovedBounded(cat, part[1..], entries[1..]);
      assert Lookup(cat, entries[0].criterio) == Some(part[0]);
      assert AutoCriteria(part) == (if part[0].kind == Auto then [part[0]] else []) + AutoCriteria(part[1..]);
    }
  }

  /**
   * For a report aligned with a catalogue of unique ids (what the merge
   * builds, and what overrides keep), rescoring succeeds and gives a
   * percentage.
   */
  lemma RescoreBounded(cat: seq<Criterion>, entries: seq<Entry>)
    requires UniqueIds(cat) && Aligned(entries, cat)
    ensures Rescore(cat, entries).Some? && Rescore(cat, entries).value <= 100
  {
    forall i | 0 <= i < |cat|
      ensures Lookup(cat, cat[i].id) == Some(cat[i])
    {
      LookupUnique(cat, i);
    }
    CountAutoApprovedBounded(cat, cat, entries);
    ScoreBounded(CountAutoApproved(cat, entries), |AutoCriteria(cat)|);
  }

  /** Counting depends only on the rows' ids and statuses. */
  lemma {:induction false} CountAutoApprovedOverride(cat: seq<Criterion>, entries: seq<Entry>, id: nat, newStatus: string)
    requires AllKnown(cat, entries)
    requires Lookup(cat, id).Some? && Lookup(cat, id).value.kind == Manual
    ensures AllKnown(cat, UpdateStatus(entries, id, newStatus))
    ensures CountAutoApproved(cat, UpdateStatus(entries, id, newStatus)) == CountAutoApproved(cat, entries)
    decreases |entries|
  {
    if entries != [] {
      var u := UpdateStatus(entries, id, newStatus);
      assert u[1..] == UpdateStatus(entries[1..], id, newStatus);
      CountAutoApprovedOverride(cat, entries[1..], id, newStatus);
    }
  }

  /** Overriding a manual criterion never moves the score. */
  lemma ManualOverrideKeepsScore(cat: seq<Criterion>, entries: seq<Entry>, id: nat, newStatus: string)
    requires AllKnown(cat, entries)
    requires Lookup(cat, id).Some? && Lookup(cat, id).value.kind == Manual
    ensures Rescore(cat, UpdateStatus(entries, id, newStatus)) == Rescore(cat, entries)
  {
    CountAutoApprovedOverride(cat, entries, id, newStatus);
  }

  /** Counting after approving a row never gives less than before. */
  lemma {:induction false} CountAutoApprovedApprove(cat: seq<Criterion>, entries: seq<Entry>, id: nat)
    requires AllKnown(cat, entries)
    ensures AllKnown(cat, UpdateStatus(entries, id, Approved))
    ensures CountAutoApproved(cat, entries) <= CountAutoApproved(cat, UpdateStatus(entries, id, Approved))
    decreases |entries|
  {
    if entries != [] {
      var u := UpdateStatus(entries, id, Approved);
      assert u[1..] == UpdateStatus(entries[1..], id, Approved);
      CountAutoApprovedApprove(cat, entries[1..], id);
    }
  }

  /** Overriding any criterion to "Aprovado" never lowers the score. */
  lemma ApproveNeverLowersScore(cat: seq<Criterion>, entries: seq<Entry>, id: nat)
    requires AllKnown(cat, entries)
    ensures Rescore(cat, UpdateStatus(entries, id, Approved)).Some?
    ensures Rescore(cat, entries).value <= Rescore(cat, UpdateStatus(entries, id, Approved)).value
  {
    CountAutoApprovedApprove(cat, entries, id);
    ScoreMonotone(CountAutoApproved(cat, entries), CountAutoApproved(cat, UpdateStatus(entries, id, Approved)), |AutoCriteria(cat)|);
  }

  /** Counting over rows of which no automatic one reads "Aprovado" gives 0. */
  lemma {:induction false} CountAutoApprovedNone(cat: seq<Criterion>, part: seq<Criterion>, entries: seq<Entry>)
    requires Aligned(entries, part)
    requires forall i :: 0 <= i < |part| ==> Lookup(cat, part[i].id) == Some(part[i])
    requires forall i :: 0 <= i < |entries| ==> entries[i].status != Approved || part[i].kind == Manual
    ensures AllKnown(cat, entries) && CountAutoApproved(cat, entries) == 0
    decreases |part|
  {
    if part != [] {
      CountAutoApprovedNone(cat, part[1..], entries[1..]);
      assert Lookup(cat, entries[0].criterio) == Some(part[0]);
    }
  }

  /** A report following the catalogue in which no automatic row reads "Aprovado" rescores to 0. */
  lemma NoAutoApprovalScoresZero(cat: seq<Criterion>, entries: seq<Entry>)
    requires UniqueIds(cat) && Aligned(entries, cat)
    requires forall i :: 0 <= i < |entries| ==> entries[i].status != Approved || cat[i].kind == Manual
    ensures Rescore(cat, entries) == Some(0)
  {
    forall i | 0 <= i < |cat|
      ensures Lookup(cat, cat[i].id) == Some(cat[i])
    {
      LookupUnique(cat, i);
    }
    CountAutoApprovedNone(cat, cat, entries);
  }

  /**
   * The first score and the rescoring count different things. A reply that
   * approves one manual criterion and nothing else scores as one approval
   * out of the automatic criteria; rescoring the merged report, as the first
   * override of a manual criterion does, gives 0 although no automatic
   * verdict changed.
   */
  lemma ManualApprovalCountedOnlyFirst(cat: seq<Criterion>, prose: Prose, markUnedited: bool, m: nat, newStatus: string)
    requires UniqueIds(cat) && m < |cat| && cat[m].kind == Manual
    ensures var items := [ReplyItem(Some(cat[m].id), Approved, "")];
            InitialScore(cat, items) == Score(1, |AutoCriteria(cat)|)
    ensures var merged := Merge(cat, [ReplyItem(Some(cat[m].id), Approved, "")], prose, markUnedited);
            Rescore(cat, merged) == Some(0) && Rescore(cat, UpdateStatus(merged, cat[m].id, newStatus)) == Some(0)
  {
    var items := [ReplyItem(Some(cat[m].id), Approved, "")];
    assert CountApproved(items) == 1 by {
      assert items[1..] == [];
    }
    var merged := Merge(cat, items, prose, markUnedited);
    forall i | 0 <= i < |merged|
      ensures merged[i].status != Approved || cat[i].kind == Manual
    {
      MergeRows(cat, items, prose, markUnedited, i);
      if cat[i].kind == Auto {
        assert i != m;
        assert items[0].criterio != Some(cat[i].id);
      }
    }
    MergeRows(cat, items, prose, markUnedited, m);
    NoAutoApprovalScoresZero(cat, merged);
    LookupUnique(cat, m);
    ManualOverrideKeepsScore(cat, merged, cat[m].id, newStatus);
  }

  // ------------------------------------------------------- analysis handlers

  /**
   * What the analysis handlers make of the model's reply: the report, or None
   * when they throw (no braced payload, `JSON.parse` fails, or the value has
   * no `analise` array).
   */
  function AnalyzeReply(cat: seq<Criterion>, prose: Prose, reply: string, parse: JsonParser, markUnedited: bool): (r: Option<Report>)
  {
    match ExtractJson(reply)
    case None => None
    case Some(payload) =>
      match parse(payload)
      case Some(JObject(_, _, Some(items))) =>
        Some(Report(InitialScore(cat, items), Merge(cat, items, prose, markUnedited)))
      case _ => None
  }

  /**
   * A report comes back exactly when the stripped reply has a braced span
   * whose widest one parses to an object with an `analise` array; its rows
   * are then the merge of that array with the catalogue and its score counts
   * the array's "Aprovado" items against the automatic criteria.
   */
  lemma AnalyzeReplyIff(cat: seq<Criterion>, prose: Prose, reply: string, parse: JsonParser, markUnedited: bool)
    ensures AnalyzeReply(cat, prose, reply, parse, markUnedited).Some? <==>
      HasBracedSpan(StripFences(reply)) && parse(ExtractJson(reply).value).Some?
      && parse(ExtractJson(reply).value).value.JObject? && parse(ExtractJson(reply).value).value.analise.Some?
    ensures var r := AnalyzeReply(cat, prose, reply, parse, markUnedited);
            r.Some? ==>
              var items := parse(ExtractJson(reply).value).value.analise.value;
              Aligned(r.value.analise, cat) && r.value.analise == Merge(cat, items, prose, markUnedited)
              && r.value.pontuacaoFinal == Score(CountApproved(items), |AutoCriteria(cat)|)
  {
    ExtractJsonDefined(reply);
  }

  /**
   * The first score is not bounded by 100: it counts every "Aprovado" item of
   * the raw reply, including repeated ids and ids of manual criteria. A reply
   * that approves the one automatic criterion twice scores 200.
   */
  lemma InitialScoreCanExceedHundred()
    ensures var item := ReplyItem(Some(1), Approved, "");
            InitialScore([Criterion(1, Auto, false)], [item, item]) == 200
  {
    var item := ReplyItem(Some(1), Approved, "");
    assert [item, item][1..] == [item];
    assert CountApproved([item, item]) == 2;
    assert AutoCriteria([Criterion(1, Auto, false)]) == [Criterion(1, Auto, false)];
  }

  /**
   * The extraction and merge of the analysis handlers, step by step: the
   * reply is stripped of its fences, cut from its first '{' to its last '}'
   * when that comes later, parsed, scored and merged with the catalogue.
   */
  method ReadReport(cat: seq<Criterion>, prose: Prose, reply: string, parse: JsonParser, markUnedited: bool)
    returns (report: Option<Report>)
    ensures report == AnalyzeReply(cat, prose, reply, parse, markUnedited)
  {
    report := None;
    var text := StripFences(reply);
    var startIndex := IndexOf(text, '{');
    var endIndex := LastIndexOf(text, '}');
    BraceScanAt(text, startIndex, endIndex);
    if startIndex > -1 && endIndex > -1 && endIndex > startIndex {
      var jsonResponse := parse(JsSubstring(text, startIndex, endIndex + 1));
      if jsonResponse.Some? && jsonResponse.value.JObject? && jsonResponse.value.analise.Some? {
        var items := jsonResponse.value.analise.value;
        var score := Score(CountApproved(items), |AutoCriteria(cat)|);
        report := Some(Report(score, Merge(cat, items, prose, markUnedited)));
      }
    }
  }
}

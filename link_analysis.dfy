/**
 * The `/api/analyze-links` endpoint of the backend. The request is validated,
 * then every link is cleaned and classified: a link that mentions YouTube has
 * its video metadata fetched (with retries), a social-network link is refused
 * at once, and any other link is summarised by Perplexity; fetched content is
 * then condensed by Gemini. Each link ends as a record `{link, status,
 * descricao, displayText}`, in the order of the request.
 *
 * The three services are functions of their requests; `Promise.all` over the
 * links becomes a loop over them, since only the order of the results and the
 * independence of the links are observable.
 */
module LinkAnalysis {
  import opened Wrappers
  import opened Text
  import opened Retry
  import opened UrlHelpers
  import opened ModelReply

  /** `response.data.items[0].snippet` of the YouTube Data API. */
  datatype Snippet = Snippet(title: string, description: string)

  /**
   * The collaborators of the handler: what `new URL(link).hostname` gives
   * (None when it throws), attempt `k` of the YouTube lookup of a video id
   * (the first item, or None when `items` is empty), the Perplexity summary of
   * a link, Gemini's reply to a content excerpt, and `JSON.parse`.
   */
  datatype Services = Services(
    hostname: string -> Option<string>,
    youtube: (string, nat) -> Attempt<Option<Snippet>>,
    perplexity: string -> Attempt<string>,
    gemini: string -> Attempt<string>,
    parse: JsonParser)

  /** A request to a remote service. */
  datatype Call = YouTubeCall(videoId: string, attempt: nat) | PerplexityCall(link: string) | GeminiCall(excerpt: string)

  /** `{link, status, descricao, displayText}` */
  datatype LinkResult = LinkResult(link: string, status: string, descricao: string, displayText: string)

  /** What handling one link amounts to: its record, the remote calls made, and the sleeps of the retry helper. */
  datatype LinkRun = LinkRun(result: LinkResult, calls: seq<Call>, sleeps: seq<int>)

  const Rejected := "Reprovado"
  const InvalidVideoId := "ID do vídeo inválido ou não encontrado."
  const VideoNotFound := "Vídeo não encontrado na API do YouTube."
  /** The words the `catch` block looks for to tell a social-network failure. */
  const SocialNetworkTag := "rede social"
  const SocialNetworkError := "Conteúdo de " + SocialNetworkTag + " requer verificação manual."
  /** The message of the TypeError thrown by reading `descricao` of `null`. */
  const NullPropertyError := "Cannot read properties of null (reading 'descricao')"
  const DefaultDescription := "Não foi possível acessar ou analisar o conteúdo do link."

  /** The description of a link that failed on a social-network error. */
  function SocialDescription(link: string): string {
    "Conteúdo de " + SocialNetworkTag + " requer verificação manual: " + link
  }

  /** The description of a link that failed for any other reason. */
  function UnreachableDescription(link: string): string {
    "Conteúdo inacessível após tentativas. Verifique manualmente o link: " + link
  }

  /** `${link}\nDescrição: ${description}` */
  function DisplayText(link: string, description: string): string {
    link + "\nDescrição: " + description
  }

  /** The content built from a video's snippet: its title and the first 500 characters of its description. */
  function VideoContent(sn: Snippet): string {
    "Título: " + sn.title + "\nDescrição: " + JsSubstring(sn.description, 0, 500) + "..."
  }

  /** Attempt `k` of `fetchYouTubeMetadata`, given the YouTube lookup: an empty `items` array is an error too. */
  function FetchVideo(youtube: (string, nat) -> Attempt<Option<Snippet>>, videoId: string, k: nat): (r: Attempt<string>)
    ensures youtube(videoId, k).Fail? ==> r == Fail(youtube(videoId, k).error)
    ensures youtube(videoId, k) == Ok(None) ==> r == Fail(VideoNotFound)
    ensures youtube(videoId, k).Ok? && youtube(videoId, k).value.Some? ==>
      var sn := youtube(videoId, k).value.value;
      var cut := if |sn.description| < 500 then |sn.description| else 500;
      r == Ok("Título: " + sn.title + "\nDescrição: " + sn.description[..cut] + "...")
  {
    match youtube(videoId, k)
    case Fail(e) => Fail(e)
    case Ok(None) => Fail(VideoNotFound)
    case Ok(Some(sn)) => Ok(VideoContent(sn))
  }

  /** `fetchYouTubeMetadata` as the retry helper sees it: attempt number to settled promise. */
  function VideoAttempts(youtube: (string, nat) -> Attempt<Option<Snippet>>, videoId: string): nat -> Attempt<string> {
    (k: nat) => FetchVideo(youtube, videoId, k)
  }

  /** The lookups of attempts 1 to `n`. */
  function YouTubeCalls(videoId: string, n: nat): (r: seq<Call>)
    ensures |r| == n && forall k :: 0 <= k < n ==> r[k] == YouTubeCall(videoId, k + 1)
  {
    seq(n, k requires 0 <= k => YouTubeCall(videoId, k + 1))
  }

  /** The three ways a link is handled, tested in this order. */
  datatype Category = Video | Social | Generic

  /** YouTube is recognised by a plain substring test, before the social test. */
  function Classify(svc: Services, link: string): Category {
    if Contains(link, "youtube.com") || Contains(link, "youtu.be") then Video
    else if IsSocialMediaLink(svc.hostname(link)) then Social
    else Generic
  }

  /** Step 1 for a video: up to three lookups of the id, one second apart and then two. */
  function VideoFetch(youtube: (string, nat) -> Attempt<Option<Snippet>>, id: string): (Attempt<string>, seq<Call>, seq<int>)
  {
    var run := RetryRun(VideoAttempts(youtube, id), 3, 1000);
    var calls := YouTubeCalls(id, run.calls);
    match run.outcome
    case Returned(v) => (Ok(v), calls, run.sleeps)
    case Thrown(e) => (Fail(e), calls, run.sleeps)
    case Undefined => (Fail(""), calls, run.sleeps)
  }

  /** Step 1: the content of a cleaned link, or the error it failed with; with the calls and sleeps. */
  function FetchContent(svc: Services, link: string): (Attempt<string>, seq<Call>, seq<int>)
  {
    match Classify(svc, link)
    case Video =>
      (match GetYouTubeVideoId(link)
       case None => (Fail(InvalidVideoId), [], [])
       case Some(id) => VideoFetch(svc.youtube, id))
    case Social => (Fail(SocialNetworkError), [], [])
    case Generic => (svc.perplexity(link), [PerplexityCall(link)], [])
  }

  /**
   * Step 2: the status and description Gemini's reply gives for fetched
   * content, or the error it failed with. A reply that does not parse counts
   * as `{descricao: content, status: 'Reprovado'}`; a `null` reply throws.
   */
  function Summarise(svc: Services, content: string): Attempt<(string, string)>
  {
    match svc.gemini(JsSubstring(content, 0, 4000))
    case Fail(e) => Fail(e)
    case Ok(text) =>
      match svc.parse(StripFences(text))
      case None => Ok((Rejected, content))
      case Some(JNull) => Fail(NullPropertyError)
      case Some(JOther) => Ok((Rejected, content))
      case Some(JObject(d, st, _)) => Ok((OrElse(st, Rejected), OrElse(d, content)))
  }

  /** The record of a link whose handling threw `error`. */
  function FailedResult(link: string, error: string): LinkResult {
    var description := if Contains(error, SocialNetworkTag) then SocialDescription(link) else UnreachableDescription(link);
    LinkResult(link, Rejected, description, DisplayText(link, description))
  }

  /** The run of a link, given the outcome of its step 1: step 2 if content was fetched, then the `catch` block if anything threw. */
  function Conclude(svc: Services, link: string, step1: (Attempt<string>, seq<Call>, seq<int>)): LinkRun
  {
    var (fetched, calls, sleeps) := step1;
    match fetched
    case Fail(e) => LinkRun(FailedResult(link, e), calls, sleeps)
    case Ok(content) =>
      var excerpt := JsSubstring(content, 0, 4000);
      var result := match Summarise(svc, content)
        case Fail(e) => FailedResult(link, e)
        case Ok((status, description)) => LinkResult(link, status, description, DisplayText(link, description));
      LinkRun(result, calls + [GeminiCall(excerpt)], sleeps)
  }

  /** A link whose step 1 threw is concluded by the `catch` block alone: no Gemini call, no further sleep. */
  lemma ConcludeFailed(svc: Services, link: string, step1: (Attempt<string>, seq<Call>, seq<int>))
    requires step1.0.Fail?
    ensures Conclude(svc, link, step1) == LinkRun(FailedResult(link, step1.0.error), step1.1, step1.2)
  {
  }

  /** Concluding a link keeps the calls and sleeps of step 1, and adds at most the Gemini call. */
  lemma ConcludeCalls(svc: Services, link: string, step1: (Attempt<string>, seq<Call>, seq<int>))
    ensures var run := Conclude(svc, link, step1);
            run.sleeps == step1.2 && |run.calls| <= |step1.1| + 1 && run.calls[..|step1.1|] == step1.1 &&
            (forall k :: |step1.1| <= k < |run.calls| ==> run.calls[k].GeminiCall?)
  {
    var run := Conclude(svc, link, step1);
    assert run.calls[..|step1.1|] == step1.1;
  }

  /** A link whose content was fetched is concluded by Gemini's summary, or by the `catch` block when that throws. */
  lemma ConcludeFetched(svc: Services, link: string, step1: (Attempt<string>, seq<Call>, seq<int>))
    requires step1.0.Ok?
    ensures Conclude(svc, link, step1).result ==
      match Summarise(svc, step1.0.value)
      case Fail(e) => FailedResult(link, e)
      case Ok((status, description)) => LinkResult(link, status, description, DisplayText(link, description))
  {
  }

  /** What the handler does with a link once it is cleaned. */
  function RunLink(svc: Services, link: string): LinkRun
  {
    Conclude(svc, link, FetchContent(svc, link))
  }

  /** What the handler does with one element of `links`. */
  function HandleLink(svc: Services, raw: string): LinkRun
  {
    RunLink(svc, CleanUrl(raw))
  }

  /** Step 1 of the callback: classify the cleaned link and fetch its content, or throw. */
  method FetchLinkContent(svc: Services, link: string) returns (fetched: Attempt<string>, calls: seq<Call>, sleeps: seq<int>)
    ensures (fetched, calls, sleeps) == FetchContent(svc, link)
  {
    calls, sleeps := [], [];
    if Contains(link, "youtube.com") || Contains(link, "youtu.be") {
      var videoId := GetYouTubeVideoId(link);
      if videoId.None? {
        return Fail(InvalidVideoId), [], [];
      }
      var outcome, n, waits := Retry.Retry(VideoAttempts(svc.youtube, videoId.value), 3, 1000);
      calls, sleeps := YouTubeCalls(videoId.value, n), waits;
      match outcome {
        case Returned(v) => fetched := Ok(v);
        case Thrown(e) => fetched := Fail(e);
        case Undefined => assert false;
      }
    } else if IsSocialMediaLink(svc.hostname(link)) {
      fetched := Fail(SocialNetworkError);
    } else {
      calls := [PerplexityCall(link)];
      fetched := svc.perplexity(link);
    }
  }

  /**
   * The per-link callback of the handler: `content`,
   * `status` and `description` start with their defaults and are reassigned
   * as the link goes through the fetch, Gemini's summary and, when something
   * throws, the `catch` block.
   */
  method AnalyzeLink(svc: Services, raw: string) returns (run: LinkRun)
    ensures run == HandleLink(svc, raw)
  {
    var link := CleanUrl(raw);
    var content := "";
    var status := Rejected;
    var description := DefaultDescription;
    var fetched, calls, sleeps := FetchLinkContent(svc, link);
    // The exception in flight, if any.
    var error: Option<string> := None;

    if fetched.Fail? {
      error := Some(fetched.error);
    } else {
      content := fetched.value;
      var excerpt := JsSubstring(content, 0, 4000);
      calls := calls + [GeminiCall(excerpt)];
      var generated := svc.gemini(excerpt);
      if generated.Fail? {
        error := Some(generated.error);
      } else {
        var responseText := StripFences(generated.value);
        var parsed := svc.parse(responseText);
        var parsedResult := if parsed.Some? then parsed.value else JObject(Some(content), Some(Rejected), None);
        if parsedResult.JNull? {
          error := Some(NullPropertyError);
        } else {
          description := OrElse(if parsedResult.JObject? then parsedResult.descricao else None, content);
          status := OrElse(if parsedResult.JObject? then parsedResult.status else None, Rejected);
        }
      }
      assert error.None? <==> Summarise(svc, content).Ok?;
      assert error.None? ==> Summarise(svc, content).value == (status, description);
    }

    if error.Some? {
      description := if Contains(error.value, SocialNetworkTag) then SocialDescription(link) else UnreachableDescription(link);
      status := Rejected;
    }
    var displayText := DisplayText(link, description);
    run := LinkRun(LinkResult(link, status, description, displayText), calls, sleeps);
  }

  // ----------------------------------------------------- per-link properties

  /** Every record carries the cleaned link, and its display text is the link, a line feed, "Descrição: " and the description. */
  lemma RecordShape(svc: Services, raw: string)
    ensures var r := HandleLink(svc, raw).result;
            r.link == CleanUrl(raw) && r.displayText == r.link + "\nDescrição: " + r.descricao
  {
    var link := CleanUrl(raw);
    var step1 := FetchContent(svc, link);
    assert HandleLink(svc, raw) == Conclude(svc, link, step1);
  }

  /** A failure of step 1 gives "Reprovado", and the social-network description exactly when the error mentions "rede social". */
  lemma FetchFailure(svc: Services, link: string)
    requires FetchContent(svc, link).0.Fail?
    ensures var e, r := FetchContent(svc, link).0.error, RunLink(svc, link).result;
            r.status == Rejected &&
            (r.descricao == SocialDescription(link) <==> Contains(e, SocialNetworkTag)) &&
            (!Contains(e, SocialNetworkTag) <==> r.descricao == UnreachableDescription(link))
  {
    SocialUnreachableDiffer(link);
  }

  /** The two failure descriptions are never the same text. */
  lemma SocialUnreachableDiffer(link: string)
    ensures SocialDescription(link) != UnreachableDescription(link)
  {
    assert |SocialDescription(link)| < |UnreachableDescription(link)|;
  }

  /** The error thrown for a social-network link mentions "rede social". */
  lemma SocialErrorMentionsItself()
    ensures Contains(SocialNetworkError, SocialNetworkTag)
  {
    ContainsInfix("Conteúdo de ", SocialNetworkTag, " requer verificação manual.");
  }

  /**
   * A link with no YouTube in it whose host is a social network: no remote
   * call, no sleep, status "Reprovado" and the social-network description.
   */
  lemma SocialLinkNotFetched(svc: Services, link: string)
    requires Classify(svc, link) == Social
    ensures var run := RunLink(svc, link);
            run.calls == [] && run.sleeps == [] &&
            run.result.status == Rejected && run.result.descricao == SocialDescription(link)
  {
    assert FetchContent(svc, link) == (Fail(SocialNetworkError), [], []);
    SocialErrorMentionsItself();
  }

  /**
   * A link that mentions YouTube never reaches the social test: the host
   * the URL parser would report has no influence on its record or calls.
   */
  lemma VideoBeforeSocial(svc: Services, link: string, hostname: string -> Option<string>)
    requires Contains(link, "youtube.com") || Contains(link, "youtu.be")
    ensures RunLink(svc.(hostname := hostname), link) == RunLink(svc, link)
  {
    var svc' := svc.(hostname := hostname);
    assert Classify(svc', link) == Classify(svc, link) == Video;
    assert FetchContent(svc', link) == FetchContent(svc, link);
    ConcludeUsesGeminiAndParser(svc', svc, link, FetchContent(svc, link));
  }

  /** Step 2 and the `catch` block consult only Gemini and the JSON parser. */
  lemma ConcludeUsesGeminiAndParser(svc: Services, svc': Services, link: string, step1: (Attempt<string>, seq<Call>, seq<int>))
    requires svc.gemini == svc'.gemini && svc.parse == svc'.parse
    ensures Conclude(svc, link, step1) == Conclude(svc', link, step1)
  {
    if step1.0.Ok? {
      assert Summarise(svc, step1.0.value) == Summarise(svc', step1.0.value);
    }
  }

  /** A generic link is summarised by exactly one Perplexity request, with no retry and no sleep. */
  lemma GenericFetchedOnce(svc: Services, link: string)
    requires Classify(svc, link) == Generic
    ensures var run := RunLink(svc, link);
            run.sleeps == [] && |run.calls| >= 1 && run.calls[0] == PerplexityCall(link) &&
            (forall k :: 1 <= k < |run.calls| ==> run.calls[k].GeminiCall?) &&
            (svc.perplexity(link).Fail? ==> |run.calls| == 1)
  {
    assert FetchContent(svc, link) == (svc.perplexity(link), [PerplexityCall(link)], []);
  }

  /**
   * A YouTube link whose id is found: the lookup is retried up to three
   * times, the sleeps between attempts are 1000 and then 2000 ms, and the
   * calls are the attempts 1, 2, … in order, then one Gemini request if an
   * attempt succeeded.
   */
  lemma VideoRetried(svc: Services, link: string, id: string)
    requires Classify(svc, link) == Video && GetYouTubeVideoId(link) == Some(id)
    ensures var run, n := RunLink(svc, link), RetryRun(VideoAttempts(svc.youtube, id), 3, 1000).calls;
            1 <= n <= 3 && run.sleeps == Backoff(1000, n - 1) && run.calls[..n] == YouTubeCalls(id, n) &&
            |run.calls| <= n + 1 && (forall k :: n <= k < |run.calls| ==> run.calls[k].GeminiCall?)
  {
    VideoFetchRetried(svc.youtube, id);
    assert FetchContent(svc, link) == VideoFetch(svc.youtube, id);
    ConcludeCalls(svc, link, VideoFetch(svc.youtube, id));
  }

  /** The lookups of a video: one to three of them, in order, with the backoff sleeps between them. */
  lemma VideoFetchRetried(youtube: (string, nat) -> Attempt<Option<Snippet>>, id: string)
    ensures var n := RetryRun(VideoAttempts(youtube, id), 3, 1000).calls;
            1 <= n <= 3 && VideoFetch(youtube, id).1 == YouTubeCalls(id, n) && VideoFetch(youtube, id).2 == Backoff(1000, n - 1)
  {
    var fn := VideoAttempts(youtube, id);
    var a := FirstSuccess(fn, 1, 3);
    if a <= 3 {
      RetrySucceedsAfterFailures(fn, 3, 1000, a - 1);
    } else {
      RetryExhausted(fn, 3, 1000);
    }
  }

  /**
   * When all three lookups fail, including by an empty `items` array, the
   * link is rejected as unreachable after exactly three lookups and two
   * sleeps, provided the last error does not mention "rede social".
   */
  lemma VideoUnreachable(svc: Services, link: string, id: string)
    requires Classify(svc, link) == Video && GetYouTubeVideoId(link) == Some(id)
    requires forall k :: 1 <= k <= 3 ==> FetchVideo(svc.youtube, id, k).Fail?
    requires !Contains(FetchVideo(svc.youtube, id, 3).error, SocialNetworkTag)
    ensures var run := RunLink(svc, link);
            run.calls == [YouTubeCall(id, 1), YouTubeCall(id, 2), YouTubeCall(id, 3)] &&
            run.sleeps == [1000, 2000] &&
            run.result.status == Rejected && run.result.descricao == UnreachableDescription(link)
  {
    VideoFetchExhausted(svc.youtube, id);
    assert FetchContent(svc, link) == VideoFetch(svc.youtube, id);
    ConcludeFailed(svc, link, VideoFetch(svc.youtube, id));
  }

  /** Three failed lookups: the last error, three calls and two sleeps. */
  lemma VideoFetchExhausted(youtube: (string, nat) -> Attempt<Option<Snippet>>, id: string)
    requires forall k :: 1 <= k <= 3 ==> FetchVideo(youtube, id, k).Fail?
    ensures VideoFetch(youtube, id) ==
      (Fail(FetchVideo(youtube, id, 3).error), [YouTubeCall(id, 1), YouTubeCall(id, 2), YouTubeCall(id, 3)], [1000, 2000])
  {
    var fn := VideoAttempts(youtube, id);
    RetryExhausted(fn, 3, 1000);
    DefaultSchedule();
    assert fn(3) == FetchVideo(youtube, id, 3);
    assert YouTubeCalls(id, 3) == [YouTubeCall(id, 1), YouTubeCall(id, 2), YouTubeCall(id, 3)];
  }

  /** The video errors of the backend never read as a social-network error. */
  lemma VideoErrorsAreNotSocial()
    ensures !Contains(VideoNotFound, SocialNetworkTag) && !Contains(InvalidVideoId, SocialNetworkTag)
  {
    NoLetterS(VideoNotFound);
    NoLetterS(InvalidVideoId);
  }

  /** A text without the letter 's' cannot contain "rede social". */
  lemma NoLetterS(s: string)
    requires 's' !in s
    ensures !Contains(s, SocialNetworkTag)
  {
    MissingCharNotContained(s, SocialNetworkTag, 5);
  }

  /**
   * When content was fetched and Gemini answered, the record takes the
   * object's `status` (else "Reprovado") and its `descricao` (else the
   * content itself); a reply that does not parse, or parses to a value other
   * than an object or `null`, gives the content and "Reprovado"; a `null`
   * reply fails the link like an unreachable one.
   */
  lemma SummaryFields(svc: Services, link: string)
    requires FetchContent(svc, link).0.Ok?
    requires svc.gemini(JsSubstring(FetchContent(svc, link).0.value, 0, 4000)).Ok?
    ensures var content := FetchContent(svc, link).0.value;
            var parsed := svc.parse(StripFences(svc.gemini(JsSubstring(content, 0, 4000)).value));
            var r := RunLink(svc, link).result;
            ((parsed.None? || parsed == Some(JOther)) ==> r.status == Rejected && r.descricao == content) &&
            (parsed.Some? && parsed.value.JObject? ==>
              r.status == OrElse(parsed.value.status, Rejected) && r.descricao == OrElse(parsed.value.descricao, content)) &&
            (parsed == Some(JNull) ==>
              r.status == Rejected &&
              (r.descricao == UnreachableDescription(link) || r.descricao == SocialDescription(link)))
  {
    ConcludeFetched(svc, link, FetchContent(svc, link));
  }

  // ------------------------------------------------------------ the endpoint

  /** An element of the `links` array of the request body. */
  datatype LinkValue = Str(s: string) | NonString

  /** The `links` property of the body: falsy or absent, present but not an array, or an array. */
  datatype LinksField = Absent | NotArray | Array(items: seq<LinkValue>)

  /** The three API keys read from the environment; "" when unset. */
  datatype Keys = Keys(gemini: string, perplexity: string, youtube: string)

  /** The HTTP answer: 400, 500, or 200 with `{analysis}`. */
  datatype Response = BadRequest(error: string) | ServerError(error: string) | Analysis(analysis: seq<LinkResult>)

  const LinksRequired := "A lista de links é obrigatória."
  const MissingKeys := "Configuração do servidor incompleta: chaves de API faltando."
  const InternalError := "Erro interno do servidor ao analisar links."

  /** Some element of the array is not a string. */
  predicate HasNonString(items: seq<LinkValue>) {
    exists i :: 0 <= i < |items| && items[i].NonString?
  }

  /** The handling of one element of `links`, as a function. */
  function Handler(svc: Services): string -> LinkRun {
    raw => HandleLink(svc, raw)
  }

  /**
   * The records of the string elements of an array, in order, and the remote
   * calls made for them, element after element, when each string is handled
   * by `handle`. A non-string element makes no call and has no record.
   */
  function Batch(handle: string -> LinkRun, items: seq<LinkValue>): (seq<LinkResult>, seq<Call>)
  {
    if items == [] then ([], [])
    else
      var (results, calls) := Batch(handle, items[..|items| - 1]);
      match items[|items| - 1]
      case Str(s) => var run := handle(s); (results + [run.result], calls + run.calls)
      case NonString => (results, calls)
  }

  /** A prefix of an array of strings is one too. */
  lemma PrefixOfStrings(items: seq<LinkValue>, n: nat)
    requires n <= |items| && !HasNonString(items)
    ensures !HasNonString(items[..n])
  {
    forall i | 0 <= i < n
      ensures !items[..n][i].NonString?
    {
      assert items[..n][i] == items[i];
    }
  }

  /** An array of strings gets one record per element. */
  lemma {:induction false} BatchLength(handle: string -> LinkRun, items: seq<LinkValue>)
    requires !HasNonString(items)
    ensures |Batch(handle, items).0| == |items|
  {
    if items != [] {
      var n := |items| - 1;
      PrefixOfStrings(items, n);
      BatchLength(handle, items[..n]);
      assert !items[n].NonString?;
    }
  }

  /** ... and the record at each position is that of the element at the same position. */
  lemma {:induction false} BatchRecordAt(handle: string -> LinkRun, items: seq<LinkValue>, i: nat)
    requires !HasNonString(items) && i < |items|
    ensures |Batch(handle, items).0| == |items|
    ensures Batch(handle, items).0[i] == handle(items[i].s).result
  {
    var n := |items| - 1;
    BatchLength(handle, items);
    PrefixOfStrings(items, n);
    BatchLength(handle, items[..n]);
    assert !items[n].NonString?;
    if i < n {
      BatchRecordAt(handle, items[..n], i);
      assert items[..n][i] == items[i];
    }
  }

  /**
   * What the endpoint answers and which remote calls it makes. A non-string
   * element makes `cleanUrl` throw in its callback, so `Promise.all` rejects
   * and the answer is a 500, although the other links are still processed.
   */
  function Endpoint(svc: Services, keys: Keys, links: LinksField): (Response, seq<Call>)
  {
    if !links.Array? || links.items == [] then (BadRequest(LinksRequired), [])
    else if keys.gemini == "" || keys.perplexity == "" || keys.youtube == "" then (ServerError(MissingKeys), [])
    else
      var (results, calls) := Batch(Handler(svc), links.items);
      (if HasNonString(links.items) then ServerError(InternalError) else Analysis(results), calls)
  }

  /**
   * The handler's loop over `links`: every element is handled in turn, and the
   * records are collected in order.
   */
  method AnalyzeAll(svc: Services, items: seq<LinkValue>) returns (results: seq<LinkResult>, calls: seq<Call>)
    ensures (results, calls) == Batch(Handler(svc), items)
  {
    results, calls := [], [];
    var i := 0;
    while i < |items|
      invariant 0 <= i <= |items|
      invariant (results, calls) == Batch(Handler(svc), items[..i])
    {
      assert items[..i + 1][..i] == items[..i];
      match items[i] {
        case NonString =>
        case Str(s) =>
          var run := AnalyzeLink(svc, s);
          assert run == Handler(svc)(s);
          results, calls := results + [run.result], calls + run.calls;
      }
      i := i + 1;
    }
    assert items[..i] == items;
  }

  /** The handler: validation, the key check, then every link. */
  method AnalyzeLinks(svc: Services, keys: Keys, links: LinksField) returns (response: Response, calls: seq<Call>)
    ensures (response, calls) == Endpoint(svc, keys, links)
  {
    if !links.Array? || links.items == [] {
      return BadRequest(LinksRequired), [];
    }
    if keys.gemini == "" || keys.perplexity == "" || keys.youtube == "" {
      return ServerError(MissingKeys), [];
    }
    var results;
    results, calls := AnalyzeAll(svc, links.items);
    // A non-string makes its callback throw, and `Promise.all` then rejects.
    if HasNonString(links.items) {
      response := ServerError(InternalError);
    } else {
      response := Analysis(results);
    }
  }

  // --------------------------------------------------- endpoint properties

  /** A missing, non-array or empty `links` is a 400 before anything else, whatever the keys. */
  lemma InvalidLinksRejected(svc: Services, keys: Keys, links: LinksField)
    requires !links.Array? || links.items == []
    ensures Endpoint(svc, keys, links) == (BadRequest(LinksRequired), [])
  {
  }

  /** With a non-empty array but a key unset, the answer is a 500 and no link is touched. */
  lemma MissingKeyRejected(svc: Services, keys: Keys, items: seq<LinkValue>)
    requires items != []
    requires keys.gemini == "" || keys.perplexity == "" || keys.youtube == ""
    ensures Endpoint(svc, keys, Array(items)) == (ServerError(MissingKeys), [])
  {
  }

  /**
   * A valid request of string links gets exactly one record per link, in
   * request order, each depending on its own link alone: repeated links are
   * kept and get equal records.
   */
  lemma OneRecordPerLink(svc: Services, keys: Keys, items: seq<LinkValue>)
    requires items != [] && forall i :: 0 <= i < |items| ==> items[i].Str?
    requires keys.gemini != "" && keys.perplexity != "" && keys.youtube != ""
    ensures var response := Endpoint(svc, keys, Array(items)).0;
            response.Analysis? && |response.analysis| == |items| &&
            forall i :: 0 <= i < |items| ==> response.analysis[i] == HandleLink(svc, items[i].s).result
  {
    var records := Batch(Handler(svc), items).0;
    assert Endpoint(svc, keys, Array(items)).0 == Analysis(records);
    BatchLength(Handler(svc), items);
    forall i | 0 <= i < |items|
      ensures records[i] == HandleLink(svc, items[i].s).result
    {
      BatchRecordAt(Handler(svc), items, i);
    }
  }

  /** One non-string element turns the whole answer into a 500. */
  lemma NonStringRejected(svc: Services, keys: Keys, items: seq<LinkValue>, i: nat)
    requires i < |items| && items[i].NonString?
    requires keys.gemini != "" && keys.perplexity != "" && keys.youtube != ""
    ensures Endpoint(svc, keys, Array(items)).0 == ServerError(InternalError)
  {
  }
}

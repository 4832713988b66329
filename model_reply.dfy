/**
 * Reading JSON out of a language model's free text. Every handler first
 * removes Markdown code fences ("```json" then "```") and trims; the analysis
 * handlers then cut the text from the first '{' to the last '}'. `JSON.parse`
 * itself is a parameter: a partial function from text to the JSON values the
 * core looks at.
 */
module ModelReply {
  import opened Wrappers
  import opened Text

  /** One element of the `analise` array a model returns for the rubric. `criterio` is None when it is not an integer. */
  datatype ReplyItem = ReplyItem(criterio: Option<int>, status: string, justificativa: string)

  /**
   * A parsed JSON value, seen through the properties the core reads: `null`;
   * an object with (or without) `descricao`, `status` and an `analise` array;
   * or any other value (number, string, boolean, array), all of whose
   * properties read as `undefined`.
   */
  datatype Json =
    | JNull
    | JObject(descricao: Option<string>, status: Option<string>, analise: Option<seq<ReplyItem>>)
    | JOther

  /** `JSON.parse`: None when it throws. */
  type JsonParser = string -> Option<Json>

  /** `text.replace(/```json/g, '').replace(/```/g, '').trim()` */
  function StripFences(text: string): (r: string)
    ensures r == "" || (!IsJsWhitespace(r[0]) && !IsJsWhitespace(r[|r| - 1]))
  {
    Trim(ReplaceAll(ReplaceAll(text, "```json", ""), Fence, ""))
  }

  /** No code fence survives the stripping. */
  lemma NoFenceLeft(text: string)
    ensures !Contains(StripFences(text), Fence)
  {
    var unfenced := ReplaceAll(ReplaceAll(text, "```json", ""), Fence, "");
    NoFenceAfterRemoval(ReplaceAll(text, "```json", ""));
    TrimContained(unfenced);
    if Contains(StripFences(text), Fence) {
      ContainsTransitive(unfenced, StripFences(text), Fence);
    }
  }

  /** Some '{' comes before some '}'. */
  predicate HasBracedSpan(t: string) {
    exists i, j :: 0 <= i < j < |t| && t[i] == '{' && t[j] == '}'
  }

  /**
   * The bracket scan of both analysis handlers, on the stripped text: the
   * substring from the first '{' to the last '}' inclusive, or None (the
   * handler throws) when a brace is missing or the last '}' is not after the
   * first '{'.
   */
  function BraceScan(t: string): (r: Option<string>)
  {
    var start := IndexOf(t, '{');
    var end := LastIndexOf(t, '}');
    if start > -1 && end > -1 && end > start then Some(JsSubstring(t, start, end + 1)) else None
  }

  /** What the analysis handlers hand to `JSON.parse`, if anything. */
  function ExtractJson(text: string): (r: Option<string>)
  {
    BraceScan(StripFences(text))
  }

  /** The scan, read off the two positions it looks up. */
  lemma BraceScanAt(t: string, start: int, end: int)
    requires start == IndexOf(t, '{') && end == LastIndexOf(t, '}')
    ensures BraceScan(t) == if start > -1 && end > -1 && end > start then Some(JsSubstring(t, start, end + 1)) else None
  {
  }

  /** The scan finds a payload exactly when the text has a '{' followed, somewhere later, by a '}'. */
  lemma BraceScanDefined(t: string)
    ensures BraceScan(t).Some? <==> HasBracedSpan(t)
  {
    var start := IndexOf(t, '{');
    var end := LastIndexOf(t, '}');
    if HasBracedSpan(t) {
      var i, j :| 0 <= i < j < |t| && t[i] == '{' && t[j] == '}';
      assert start != -1 && start <= i;
      assert end != -1 && j <= end;
    }
    if BraceScan(t).Some? {
      assert t[start] == '{' && t[end] == '}';
    }
  }

  /**
   * The payload is an infix of the text that starts with '{' and ends with
   * '}'; and it is the longest such infix: every span of the text that opens
   * with '{' and closes with '}' lies inside it.
   */
  lemma BraceScanPayload(t: string)
    requires BraceScan(t).Some?
    ensures var v := BraceScan(t).value;
            |v| >= 2 && v[0] == '{' && v[|v| - 1] == '}' && Contains(t, v)
    ensures var v := BraceScan(t).value;
            forall i, j :: 0 <= i < j < |t| && t[i] == '{' && t[j] == '}' ==> Contains(v, t[i..j + 1])
  {
    var start := IndexOf(t, '{');
    var end := LastIndexOf(t, '}');
    BraceScanAt(t, start, end);
    assert BraceScan(t).value == t[start..end + 1];
    WidestSpan(t, start, end);
  }

  /** Every span from a '{' to a later '}' lies between the first '{' and the last '}'. */
  lemma WidestSpan(t: string, start: int, end: int)
    requires start == IndexOf(t, '{') && end == LastIndexOf(t, '}') && -1 < start < end
    ensures forall i, j :: 0 <= i < j < |t| && t[i] == '{' && t[j] == '}' ==> Contains(t[start..end + 1], t[i..j + 1])
  {
    forall i, j | 0 <= i < j < |t| && t[i] == '{' && t[j] == '}'
      ensures Contains(t[start..end + 1], t[i..j + 1])
    {
      InnerSlice(t, start, end + 1, i, j + 1);
    }
  }

  /** A slice of a slice is a slice of the whole. */
  lemma InnerSlice(t: string, lo: nat, hi: nat, i: nat, j: nat)
    requires lo <= i <= j <= hi <= |t|
    ensures HasAt(t[lo..hi], i - lo, t[i..j])
  {
    forall k | 0 <= k < j - i
      ensures t[lo..hi][i - lo..j - lo][k] == t[i..j][k]
    {
      assert t[lo..hi][i - lo..j - lo][k] == t[i + k];
    }
  }

  /** The analysis handlers parse exactly when the stripped reply has a '{' before a '}'. */
  lemma ExtractJsonDefined(text: string)
    ensures ExtractJson(text).Some? <==> HasBracedSpan(StripFences(text))
  {
    BraceScanDefined(StripFences(text));
  }

  /** ... and what they parse is the widest braced span of the stripped reply, with no code fence in it. */
  lemma ExtractJsonPayload(text: string)
    requires ExtractJson(text).Some?
    ensures var t, v := StripFences(text), ExtractJson(text).value;
            |v| >= 2 && v[0] == '{' && v[|v| - 1] == '}' && Contains(t, v) && !Contains(v, Fence)
    ensures var t, v := StripFences(text), ExtractJson(text).value;
            forall i, j :: 0 <= i < j < |t| && t[i] == '{' && t[j] == '}' ==> Contains(v, t[i..j + 1])
  {
    var t := StripFences(text);
    BraceScanPayload(t);
    NoFenceLeft(text);
    ScanKeepsNoFence(t);
  }

  /** A text without a code fence has none in its scanned span either. */
  lemma ScanKeepsNoFence(t: string)
    requires BraceScan(t).Some? && !Contains(t, Fence)
    ensures !Contains(BraceScan(t).value, Fence)
  {
    BraceScanPayload(t);
    if Contains(BraceScan(t).value, Fence) {
      ContainsTransitive(t, BraceScan(t).value, Fence);
    }
  }

  /**
   * The scan of the student dashboard's suggestion handler, on the stripped
   * text: it asks only that both braces exist, and `substring` swaps its
   * bounds when the last '}' comes before the first '{'.
   */
  function LooseScan(t: string): (r: Option<string>)
    ensures r.Some? <==> '{' in t && '}' in t
  {
    var start := IndexOf(t, '{');
    var end := LastIndexOf(t, '}');
    if start > -1 && end > -1 then Some(JsSubstring(t, start, end + 1)) else None
  }

  /** The loose scan, read off the two positions it looks up. */
  lemma LooseScanAt(t: string, start: int, end: int)
    requires start == IndexOf(t, '{') && end == LastIndexOf(t, '}')
    ensures LooseScan(t) == if start > -1 && end > -1 then Some(JsSubstring(t, start, end + 1)) else None
  {
  }

  /** What the suggestion handler hands to `JSON.parse`, if anything. */
  function SuggestionSlice(text: string): (r: Option<string>)
    ensures r.Some? <==> '{' in StripFences(text) && '}' in StripFences(text)
  {
    LooseScan(StripFences(text))
  }

  /** Where the guarded scan succeeds, the unguarded one cuts the same payload. */
  lemma SuggestionSliceAgrees(text: string)
    requires ExtractJson(text).Some?
    ensures SuggestionSlice(text) == ExtractJson(text)
  {
  }

  /**
   * Where the guarded scan refuses although both braces exist, the loose one
   * cuts the text strictly between the last '}' and the first '{', which
   * holds no brace at all.
   */
  lemma LooseScanReversed(t: string)
    requires LooseScan(t).Some? && BraceScan(t).None?
    ensures var v := LooseScan(t).value;
            '{' !in v && '}' !in v && Contains(t, v)
  {
    var start := IndexOf(t, '{');
    var end := LastIndexOf(t, '}');
    LooseScanAt(t, start, end);
    BraceScanAt(t, start, end);
    assert 0 <= end < start < |t|;
    JsSubstringSwapped(t, start, end + 1);
    var v := t[end + 1..start];
    forall k | 0 <= k < |v|
      ensures v[k] != '{' && v[k] != '}'
    {
      assert v[k] == t[end + 1 + k];
    }
  }

  /**
   * Where the guarded scan would refuse although both braces exist, the
   * unguarded one hands `JSON.parse` the text strictly between the last '}'
   * and the first '{', which holds no brace at all: never the object the
   * handler expects.
   */
  lemma SuggestionSliceReversed(text: string)
    requires SuggestionSlice(text).Some? && ExtractJson(text).None?
    ensures var t, v := StripFences(text), SuggestionSlice(text).value;
            '{' !in v && '}' !in v && Contains(t, v)
  {
    LooseScanReversed(StripFences(text));
  }

  /** Text without braces on either side of an object does not disturb the scan. */
  lemma BraceScanFramed(x: string, obj: string, y: string)
    requires '{' !in x && '}' !in x && '{' !in y && '}' !in y
    requires |obj| >= 2 && obj[0] == '{' && obj[|obj| - 1] == '}'
    ensures BraceScan(x + obj + y) == Some(obj)
  {
    var t := x + obj + y;
    var o, c := |x|, |x| + |obj| - 1;
    assert t[o] == '{' && t[c] == '}';
    assert forall k :: 0 <= k < o ==> t[k] == x[k];
    assert forall k :: c < k < |t| ==> t[k] == y[k - c - 1];
    assert IndexOf(t, '{') == o;
    assert LastIndexOf(t, '}') == c;
    assert t[o..c + 1] == obj;
  }

  /** A slice of `a + b + c` that covers all of `b`. */
  lemma SliceAcross(a: string, b: string, c: string, i: nat, j: nat)
    requires i <= |a| && |a| + |b| <= j <= |a| + |b| + |c|
    ensures (a + b + c)[i..j] == a[i..] + b + c[..j - |a| - |b|]
  {
    var u, w := a + b + c, a[i..] + b + c[..j - |a| - |b|];
    assert |u[i..j]| == |w|;
    forall k | 0 <= k < |w|
      ensures u[i..j][k] == w[k]
    {
      if i + k < |a| {
        assert w[k] == a[i + k];
      } else if i + k < |a| + |b| {
        assert w[k] == b[i + k - |a|];
      } else {
        assert w[k] == c[i + k - |a| - |b|];
      }
    }
  }

  /** Stripping a text without backticks only trims it. */
  lemma StripPlainText(u: string)
    requires '`' !in u
    ensures StripFences(u) == Trim(u)
  {
    ReplaceAllNoTick(u, "```json", "");
    ReplaceAllNoTick(u, Fence, "");
  }

  /** Trimming prose without braces around an object leaves braceless prose around it. */
  lemma TrimmedScan(pre: string, obj: string, post: string)
    requires '{' !in pre && '}' !in pre && '{' !in post && '}' !in post
    requires |obj| >= 2 && obj[0] == '{' && obj[|obj| - 1] == '}'
    ensures BraceScan(Trim(pre + obj + post)) == Some(obj)
  {
    var u := pre + obj + post;
    var o, c := |pre|, |pre| + |obj| - 1;
    assert u[o] == '{' && u[c] == '}';
    TrimKeeps(u, o, c);
    var i := TrimStartIndex(u, 0);
    var j := TrimEndIndex(u, i, |u|);
    var x, y := pre[i..], post[..j - c - 1];
    SliceAcross(pre, obj, post, i, j);
    assert Trim(u) == x + obj + y;
    assert '{' !in x && '}' !in x by {
      assert forall k :: 0 <= k < |x| ==> x[k] == pre[i + k];
    }
    assert '{' !in y && '}' !in y by {
      assert forall k :: 0 <= k < |y| ==> y[k] == post[k];
    }
    BraceScanFramed(x, obj, y);
  }

  /**
   * A reply that wraps one object in prose: the scan cuts exactly the object,
   * whatever whitespace surrounds the reply.
   */
  lemma ProseAroundObject(pre: string, obj: string, post: string)
    requires '`' !in pre && '`' !in obj && '`' !in post
    requires '{' !in pre && '}' !in pre && '{' !in post && '}' !in post
    requires |obj| >= 2 && obj[0] == '{' && obj[|obj| - 1] == '}'
    ensures ExtractJson(pre + obj + post) == Some(obj)
  {
    StripPlainText(pre + obj + post);
    TrimmedScan(pre, obj, post);
  }

  /** Stripping a fenced text that has no backtick and no surrounding whitespace leaves exactly that text. */
  lemma StripFencedText(obj: string)
    requires '`' !in obj
    requires |obj| > 0 && !IsJsWhitespace(obj[0]) && !IsJsWhitespace(obj[|obj| - 1])
    ensures StripFences("```json" + obj + Fence) == obj
  {
    var s := "```json" + obj + Fence;
    assert s == "```json" + (obj + Fence);
    assert s[..7] == "```json";
    assert s[7..] == obj + Fence;
    ReplaceAllSkipsHead(obj, Fence, "```json", "");
    var once := ReplaceAll(s, "```json", "");
    assert once == obj + Fence;
    ReplaceAllSkipsHead(obj, Fence, Fence, "");
    assert ReplaceAll(Fence, Fence, "") == "";
    assert obj + "" == obj;
    var t := ReplaceAll(once, Fence, "");
    assert t == obj;
    assert TrimStartIndex(obj, 0) == 0;
    assert TrimEndIndex(obj, 0, |obj|) == |obj|;
    assert obj[0..|obj|] == obj;
  }

  /** A reply that is one fenced object: stripping the fences leaves the object, which the scan keeps whole. */
  lemma FencedObject(obj: string)
    requires '`' !in obj
    requires |obj| >= 2 && obj[0] == '{' && obj[|obj| - 1] == '}'
    ensures ExtractJson("```json" + obj + Fence) == Some(obj)
  {
    StripFencedText(obj);
    BraceScanFramed("", obj, "");
    assert "" + obj + "" == obj;
  }
}

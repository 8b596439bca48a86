/**
 * The OpenAI provider: the chat-completion request, reading the reply's
 * content, cutting the JSON text out of it, parsing and sanitizing it.
 */
module OpenAiProvider {
  import opened Wrappers
  import opened JsValues
  import JsStrings
  import Schema

  const DefaultModel := "gpt-4o-mini"
  const MissingKeyMessage := "Missing OPENAI_API_KEY"
  const InvalidJsonMessage := "Model returned invalid JSON"

  // ---------------------------------------------------------------------
  // `extractJson`, whose first step is the case-insensitive regular
  // expression  ```(?:json)?\s*([\s\S]*?)```
  // ---------------------------------------------------------------------

  /** `json` in any letter case (the pattern has the `i` flag; ASCII case only, no `u` flag). */
  predicate IsJsonTag(s: string) {
    && |s| == 4
    && JsStrings.LowerChar(s[0]) == 'j' && JsStrings.LowerChar(s[1]) == 's'
    && JsStrings.LowerChar(s[2]) == 'o' && JsStrings.LowerChar(s[3]) == 'n'
  }

  /** The length of the optional `json` tag at `i`: 4 or 0. */
  function JsonTagLength(t: string, i: nat): (n: nat)
    ensures n == 4 <==> i + 4 <= |t| && IsJsonTag(t[i..i + 4])
    ensures n != 4 ==> n == 0
    ensures forall k :: i <= k < i + n ==> t[k] != '`'
  {
    if i + 4 <= |t| && IsJsonTag(t[i..i + 4]) then
      assert t[i..i + 4][0] == t[i] && t[i..i + 4][1] == t[i + 1];
      assert t[i..i + 4][2] == t[i + 2] && t[i..i + 4][3] == t[i + 3];
      4
    else 0
  }

  /** Where the greedy `\s*` starting at `i` stops. */
  function WsRunEnd(t: string, i: nat): (e: nat)
    requires i <= |t|
    decreases |t| - i
    ensures i <= e <= |t|
    ensures forall k :: i <= k < e ==> JsStrings.IsWs(t[k])
    ensures e < |t| ==> !JsStrings.IsWs(t[e])
  {
    if i < |t| && JsStrings.IsWs(t[i]) then WsRunEnd(t, i + 1) else i
  }

  /**
   * A match of the fence pattern: the opening fence at `open`, the capture
   * `t[start..close]`, the closing fence at `close`.
   */
  datatype Fenced = Fenced(open: nat, start: nat, close: nat)

  /**
   * The leftmost match of the fence pattern. It starts at the first fence,
   * and the lazy capture ends at the first fence after that one. The tag
   * and the whitespace before the capture cannot contain a backtick, so the
   * backtracking alternatives never give a different match.
   */
  function FindFenced(t: string): (m: Option<Fenced>)
    ensures m.Some? ==> m.value.open + 3 <= m.value.start <= m.value.close && m.value.close + 3 <= |t|
    ensures m.Some? ==> m.value.start == WsRunEnd(t, m.value.open + 3 + JsonTagLength(t, m.value.open + 3))
  {
    match JsStrings.IndexOfFrom(t, JsStrings.Fence, 0)
    case None => None
    case Some(p) =>
      match JsStrings.IndexOfFrom(t, JsStrings.Fence, p + 3)
      case None => None
      case Some(q) =>
        var tag := JsonTagLength(t, p + 3);
        var s := WsRunEnd(t, p + 3 + tag);
        assert t[q] == JsStrings.Fence[0];
        assert s <= q;
        Some(Fenced(p, s, q))
  }

  /**
   * The match is the leftmost one: it opens at the first fence and closes
   * at the first fence that does not overlap it; there is none exactly when
   * the text lacks two non-overlapping fences.
   */
  lemma FencePatternMatch(t: string)
    ensures var m := FindFenced(t);
      m.Some? ==>
        && JsStrings.OccursAt(t, JsStrings.Fence, m.value.open)
        && (forall j :: 0 <= j < m.value.open ==> !JsStrings.OccursAt(t, JsStrings.Fence, j))
        && JsStrings.OccursAt(t, JsStrings.Fence, m.value.close)
        && (forall j :: m.value.open + 3 <= j < m.value.close ==> !JsStrings.OccursAt(t, JsStrings.Fence, j))
    ensures FindFenced(t).None? <==>
      forall p, q :: JsStrings.OccursAt(t, JsStrings.Fence, p) && JsStrings.OccursAt(t, JsStrings.Fence, q) ==> q < p + 3
  {
    match JsStrings.IndexOfFrom(t, JsStrings.Fence, 0)
    case None =>
    case Some(p) =>
      match JsStrings.IndexOfFrom(t, JsStrings.Fence, p + 3)
      case None =>
        forall p', q' | JsStrings.OccursAt(t, JsStrings.Fence, p') && JsStrings.OccursAt(t, JsStrings.Fence, q')
          ensures q' < p' + 3
        {
          assert p <= p';
        }
      case Some(q) =>
        assert JsStrings.OccursAt(t, JsStrings.Fence, p) && JsStrings.OccursAt(t, JsStrings.Fence, q);
  }

  /**
   * `extractJson`: the fenced block's content when there is one and it is
   * not empty; otherwise everything from the first `{`; otherwise the whole
   * text; trimmed in every case.
   */
  function ExtractJson(t: string): (r: string)
    ensures JsStrings.Trimmed(r)
    ensures |r| <= |t|
  {
    var fenced := FindFenced(t);
    if fenced.Some? && fenced.value.start < fenced.value.close then
      JsStrings.Trim(t[fenced.value.start..fenced.value.close])
    else
      match JsStrings.IndexOfChar(t, '{')
      case Some(i) => JsStrings.Trim(t[i..])
      case None => JsStrings.Trim(t)
  }

  /**
   * A reply of prose, a fence (tagged `json` in any case, or untagged around
   * an object), a body and a closing fence gives the trimmed body, whatever
   * follows.
   */
  lemma FencedReplyGivesBody(pre: string, tag: string, body: string, post: string)
    requires '`' !in pre && '`' !in body
    requires IsJsonTag(tag) || (tag == "" && |body| > 0 && body[0] == '{')
    requires !JsStrings.AllWs(body)
    ensures ExtractJson(pre + JsStrings.Fence + tag + body + JsStrings.Fence + post) == JsStrings.Trim(body)
  {
    var t := pre + JsStrings.Fence + tag + body + JsStrings.Fence + post;
    ReplyLayout(pre, tag, body, post);
    FencedTextGivesBody(t, |pre|, |pre| + 3 + |tag| + |body|, tag, body);
  }

  /** Where the pieces of a fenced reply sit. */
  lemma ReplyLayout(pre: string, tag: string, body: string, post: string)
    ensures var t := pre + JsStrings.Fence + tag + body + JsStrings.Fence + post;
      var p := |pre|;
      var q := p + 3 + |tag| + |body|;
      && q + 3 <= |t|
      && t[..p] == pre && t[p..p + 3] == JsStrings.Fence && t[p + 3..q] == tag + body && t[q..q + 3] == JsStrings.Fence
  {
    var t := pre + JsStrings.Fence + tag + body + JsStrings.Fence + post;
    assert t == pre + JsStrings.Fence + (tag + body) + JsStrings.Fence + post;
  }

  /** `FencedReplyGivesBody`, stated on the positions of the two fences. */
  lemma FencedTextGivesBody(t: string, p: nat, q: nat, tag: string, body: string)
    requires p + 3 <= q && q + 3 <= |t|
    requires t[p..p + 3] == JsStrings.Fence && t[q..q + 3] == JsStrings.Fence
    requires '`' !in t[..p] && t[p + 3..q] == tag + body && '`' !in body
    requires IsJsonTag(tag) || (tag == "" && |body| > 0 && body[0] == '{')
    requires !JsStrings.AllWs(body)
    ensures ExtractJson(t) == JsStrings.Trim(body)
  {
    assert '`' !in tag;
    assert '`' !in t[p + 3..q];
    FindFencedAt(t, p, q);
    var m := FindFenced(t).value;
    if tag == "" {
      UntaggedCapture(t, m, body);
    } else {
      TaggedCapture(t, m, tag, body);
    }
  }

  /** Untagged, the match captures the whole body. */
  lemma UntaggedCapture(t: string, m: Fenced, body: string)
    requires FindFenced(t) == Some(m)
    requires t[m.open + 3..m.close] == body && |body| > 0 && body[0] == '{'
    ensures ExtractJson(t) == JsStrings.Trim(body)
  {
    UntaggedStart(t, m.open, m.close, body);
    assert m.start == m.open + 3;
    assert m.open + 3 < m.close;
    CaptureOfMatch(t, m, m.open + 3);
  }

  /** Tagged, the match captures the body after its leading whitespace. */
  lemma TaggedCapture(t: string, m: Fenced, tag: string, body: string)
    requires FindFenced(t) == Some(m)
    requires IsJsonTag(tag) && !JsStrings.AllWs(body)
    requires t[m.open + 3..m.close] == tag + body
    ensures ExtractJson(t) == JsStrings.Trim(body)
  {
    var w := TaggedStart(t, m.open, m.close, tag, body);
    var start := m.open + 7 + w;
    assert start == m.start;
    assert t[start..m.close] == body[w..];
    assert start < m.close;
    CaptureOfMatch(t, m, start);
    TrimDropsLeadingWs(body, w);
  }

  /** Dropping leading whitespace does not change the trimmed text. */
  lemma TrimDropsLeadingWs(s: string, w: nat)
    requires w <= |s| && JsStrings.AllWs(s[..w])
    ensures JsStrings.Trim(s[w..]) == JsStrings.Trim(s)
  {
    JsStrings.SplitAt(s, w);
    JsStrings.TrimSkipsLeadingWs(s[..w], s[w..]);
  }

  /** The leftmost match is fixed by the first two backtick-separated fences. */
  lemma FindFencedAt(t: string, p: nat, q: nat)
    requires p + 3 <= q && q + 3 <= |t|
    requires t[p..p + 3] == JsStrings.Fence && t[q..q + 3] == JsStrings.Fence
    requires '`' !in t[..p] && '`' !in t[p + 3..q]
    ensures FindFenced(t).Some? && FindFenced(t).value.open == p && FindFenced(t).value.close == q
  {
    forall j | 0 <= j < p ensures t[j] != '`' {
      assert t[..p][j] == t[j];
    }
    forall j | p + 3 <= j < q ensures t[j] != '`' {
      assert t[p + 3..q][j - p - 3] == t[j];
    }
    NoFenceWithout(t, 0, p);
    NoFenceWithout(t, p + 3, q);
    assert JsStrings.OccursAt(t, JsStrings.Fence, p) && JsStrings.OccursAt(t, JsStrings.Fence, q);
    assert JsStrings.IndexOfFrom(t, JsStrings.Fence, 0) == Some(p);
    assert JsStrings.IndexOfFrom(t, JsStrings.Fence, p + 3) == Some(q);
  }

  /** Untagged, a body opening with `{` is captured from its first character. */
  lemma UntaggedStart(t: string, p: nat, q: nat, body: string)
    requires p + 3 <= q <= |t|
    requires t[p + 3..q] == body && |body| > 0 && body[0] == '{'
    ensures WsRunEnd(t, p + 3 + JsonTagLength(t, p + 3)) == p + 3
  {
    assert t[p + 3] == body[0];
    assert JsonTagLength(t, p + 3) == 0 by {
      if p + 3 + 4 <= |t| {
        assert t[p + 3..p + 7][0] == '{';
      }
    }
  }

  /** After a `json` tag, the capture starts at the body's first non-blank character. */
  lemma TaggedStart(t: string, p: nat, q: nat, tag: string, body: string) returns (w: nat)
    requires p + 3 <= q <= |t|
    requires IsJsonTag(tag)
    requires t[p + 3..q] == tag + body && !JsStrings.AllWs(body)
    ensures p + 7 + w <= q
    ensures WsRunEnd(t, p + 3 + JsonTagLength(t, p + 3)) == p + 7 + w
    ensures w < |body| && t[p + 7 + w..q] == body[w..] && JsStrings.AllWs(body[..w])
  {
    TagThenBody(t, p, q, tag, body);
    w := LeadingWsOf(t, p + 7, q, body);
  }

  /** The `json` tag is matched, and the body follows it character for character. */
  lemma TagThenBody(t: string, p: nat, q: nat, tag: string, body: string)
    requires p + 3 <= q <= |t|
    requires IsJsonTag(tag)
    requires t[p + 3..q] == tag + body
    ensures JsonTagLength(t, p + 3) == 4
    ensures p + 7 + |body| == q
    ensures forall k :: 0 <= k < |body| ==> t[p + 7 + k] == body[k]
  {
    assert |tag + body| == q - (p + 3);
    assert t[p + 3..p + 7] == tag by {
      forall k | 0 <= k < 4 ensures t[p + 3..p + 7][k] == tag[k] {
        assert t[p + 3 + k] == t[p + 3..q][k] == (tag + body)[k];
      }
    }
    forall k | 0 <= k < |body| ensures t[p + 7 + k] == body[k] {
      assert t[p + 7 + k] == t[p + 3..q][4 + k] == (tag + body)[4 + k];
    }
  }

  /**
   * Where `body` sits at `i` and is not all whitespace, the whitespace run
   * at `i` stops inside it, after a blank prefix of it.
   */
  lemma LeadingWsOf(t: string, i: nat, q: nat, body: string) returns (w: nat)
    requires i + |body| == q <= |t|
    requires forall k :: 0 <= k < |body| ==> t[i + k] == body[k]
    requires !JsStrings.AllWs(body)
    ensures WsRunEnd(t, i) == i + w
    ensures w < |body| && t[i + w..q] == body[w..] && JsStrings.AllWs(body[..w])
  {
    var e := WsRunEnd(t, i);
    var k :| 0 <= k < |body| && !JsStrings.IsWs(body[k]);
    assert e <= i + k;
    w := e - i;
    assert t[e..q] == body[w..];
    assert JsStrings.AllWs(body[..w]) by {
      forall j | 0 <= j < w ensures JsStrings.IsWs(body[..w][j]) {
        assert body[..w][j] == t[i + j];
      }
    }
  }

  /** A non-empty capture is what `extractJson` returns, trimmed. */
  lemma CaptureOfMatch(t: string, m: Fenced, start: nat)
    requires FindFenced(t) == Some(m) && start == m.start && start < m.close
    ensures ExtractJson(t) == JsStrings.Trim(t[start..m.close])
  {
  }

  /** No fence starts in `[from, to)` when no backtick does. */
  lemma NoFenceWithout(t: string, from: nat, to: nat)
    requires to <= |t|
    requires forall j :: from <= j < to ==> t[j] != '`'
    ensures forall j :: from <= j < to ==> !JsStrings.OccursAt(t, JsStrings.Fence, j)
  {
    forall j | from <= j < to
      ensures !JsStrings.OccursAt(t, JsStrings.Fence, j)
    {
      if j + 3 <= |t| {
        assert t[j..j + 3][0] == t[j];
      }
    }
  }

  /** A text without a backtick has no fenced block. */
  lemma NoBacktickNoFence(t: string)
    requires '`' !in t
    ensures FindFenced(t).None?
  {
    NoFenceWithout(t, 0, |t|);
  }

  /** Without a fence, prose before the first `{` is dropped. */
  lemma ProseBeforeObject(pre: string, obj: string)
    requires FindFenced(pre + "{" + obj).None? && '{' !in pre
    ensures ExtractJson(pre + "{" + obj) == JsStrings.Trim("{" + obj)
  {
    var t := pre + "{" + obj;
    assert t == pre + ("{" + obj);
    assert t[|pre|] == '{';
    var i := JsStrings.IndexOfChar(t, '{');
    assert i.Some?;
    assert i.value == |pre|;
    assert t[|pre|..] == "{" + obj;
  }

  /** Text with neither a fence nor a `{` is only trimmed. */
  lemma PlainTextIsTrimmed(t: string)
    requires FindFenced(t).None? && '{' !in t
    ensures ExtractJson(t) == JsStrings.Trim(t)
  {
  }

  /**
   * An empty fenced block does not count (the capture is the empty string,
   * which is falsy): the object after it is found through its `{`.
   */
  lemma EmptyFenceFallsBack(obj: string)
    requires |obj| > 0 && obj[0] == '{'
    ensures ExtractJson(JsStrings.Fence + JsStrings.Fence + obj) == JsStrings.Trim(obj)
  {
    var t := JsStrings.Fence + JsStrings.Fence + obj;
    assert t[..3] == JsStrings.Fence && t[3..6] == JsStrings.Fence && t[6..] == obj;
    assert JsStrings.OccursAt(t, JsStrings.Fence, 0);
    assert JsStrings.OccursAt(t, JsStrings.Fence, 3);
    assert JsStrings.IndexOfFrom(t, JsStrings.Fence, 0) == Some(0);
    assert JsStrings.IndexOfFrom(t, JsStrings.Fence, 3) == Some(3);
    assert JsonTagLength(t, 3) == 0 by {
      assert t[3..7][0] == '`';
    }
    assert !JsStrings.IsWs(t[3]);
    assert FindFenced(t) == Some(Fenced(0, 3, 3));
    assert '{' !in t[..6];
    assert t[6] == '{';
    assert JsStrings.IndexOfChar(t, '{') == Some(6);
  }

  // ---------------------------------------------------------------------
  // `parseContent`
  // ---------------------------------------------------------------------

  /** One array item of the message content: a string, or an object's string `text`. */
  function ItemText(item: JsValue): (r: string)
    ensures item.Str? ==> r == item.s
    ensures item.Obj? && "text" in item.props && item.props["text"].Str? ==> r == item.props["text"].s
    ensures !item.Str? && !(item.Obj? && "text" in item.props && item.props["text"].Str?) ==> r == ""
  {
    if item.Str? then item.s
    else if IsObject(item) && Get(item, "text").Str? then Get(item, "text").s
    else ""
  }

  /** `parseContent`: a string as is, an array as its item texts joined by spaces, anything else as "". */
  function ParseContent(content: JsValue): (r: string)
    ensures content.Str? ==> r == content.s
    ensures !content.Str? && !content.Arr? ==> r == ""
  {
    match content
    case Str(s) => s
    case Arr(items) => JsStrings.Join(seq(|items|, i requires 0 <= i < |items| => ItemText(items[i])), " ")
    case _ => ""
  }

  /** An array of strings reads as those strings joined by single spaces. */
  lemma ParseContentOfStrings(parts: seq<string>)
    ensures ParseContent(Arr(seq(|parts|, i requires 0 <= i < |parts| => Str(parts[i])))) == JsStrings.Join(parts, " ")
  {
    var items := seq(|parts|, i requires 0 <= i < |parts| => Str(parts[i]));
    assert seq(|items|, i requires 0 <= i < |items| => ItemText(items[i])) == parts;
  }

  /** The parts of an array are all kept: the text is as long as their lengths plus one space between each two. */
  lemma ParseContentLength(items: seq<JsValue>)
    requires |items| > 0
    ensures |ParseContent(Arr(items))| ==
      JsStrings.TotalLength(seq(|items|, i requires 0 <= i < |items| => ItemText(items[i]))) + |items| - 1
  {
    JsStrings.JoinLength(seq(|items|, i requires 0 <= i < |items| => ItemText(items[i])), " ");
  }

  // ---------------------------------------------------------------------
  // `extractWithOpenAI`
  // ---------------------------------------------------------------------

  /** The environment the provider reads: `OPENAI_API_KEY` and `OPENAI_MODEL`. */
  datatype OpenAiEnv = OpenAiEnv(apiKey: Option<string>, model: Option<string>)

  /**
   * A chat-completion request: besides the fixed system message, a user
   * message of a text part and an image part.
   */
  datatype ChatRequest = ChatRequest(
    apiKey: string,
    model: string,
    temperature: int,
    userText: string,
    imageUrl: string)

  /**
   * The collaborators: the SDK call, resolving to the first choice's
   * `message.content` (`undefined` when a link of that chain is missing) or
   * rejecting; `JSON.parse`, `None` when it throws; and the string and
   * object cases of `Number()` used by the sanitizer.
   */
  datatype OpenAiServices = OpenAiServices(
    complete: ChatRequest -> Result<JsValue, Thrown>,
    parse: string -> Option<JsValue>,
    coerce: JsValue -> Num)

  /**
   * The request for an image: the configured model, or `gpt-4o-mini` when
   * `OPENAI_MODEL` is unset or empty; temperature 0; the extraction prompt
   * and the data URL passed on unchanged.
   */
  function Request(apiKey: string, env: OpenAiEnv, prompt: string, imageDataUrl: string): (req: ChatRequest)
    ensures req.apiKey == apiKey && req.imageUrl == imageDataUrl && req.userText == prompt
    ensures req.temperature == 0
    ensures !Given(env.model) ==> req.model == DefaultModel
    ensures Given(env.model) ==> req.model == env.model.value
  {
    ChatRequest(apiKey, GivenOr(env.model, DefaultModel), 0, prompt, imageDataUrl)
  }

  /** The text handed to `JSON.parse` for a reply's content. */
  function JsonText(content: JsValue): (r: string)
    ensures JsStrings.Trimmed(r)
  {
    ExtractJson(ParseContent(content))
  }

  /**
   * `extractWithOpenAI`: the key is checked before anything is sent; a
   * rejected request propagates; unparsable text is "Model returned invalid
   * JSON"; otherwise the parsed value, sanitized. Every card it returns is
   * well-formed.
   */
  function ExtractWithOpenAi(env: OpenAiEnv, prompt: string, imageDataUrl: string, services: OpenAiServices)
    : (r: Result<Schema.CarCardData, Thrown>)
    ensures !Given(env.apiKey) ==> r == Failure(ErrorObject(MissingKeyMessage))
    ensures Given(env.apiKey) && services.complete(Request(env.apiKey.value, env, prompt, imageDataUrl)).Failure?
            ==> r == Failure(services.complete(Request(env.apiKey.value, env, prompt, imageDataUrl)).error)
    ensures Given(env.apiKey) && services.complete(Request(env.apiKey.value, env, prompt, imageDataUrl)).Success?
            && services.parse(JsonText(services.complete(Request(env.apiKey.value, env, prompt, imageDataUrl)).value)).None?
            ==> r == Failure(ErrorObject(InvalidJsonMessage))
    ensures r.Success? <==>
      && Given(env.apiKey)
      && services.complete(Request(env.apiKey.value, env, prompt, imageDataUrl)).Success?
      && services.parse(JsonText(services.complete(Request(env.apiKey.value, env, prompt, imageDataUrl)).value)).Some?
    ensures r.Success? ==> r.value == Schema.Normalized(
      services.parse(JsonText(services.complete(Request(env.apiKey.value, env, prompt, imageDataUrl)).value)).value,
      services.coerce)
    ensures r.Success? ==> Schema.WellFormed(r.value)
  {
    if !Given(env.apiKey) then Failure(ErrorObject(MissingKeyMessage))
    else
      match services.complete(Request(env.apiKey.value, env, prompt, imageDataUrl))
      case Failure(e) => Failure(e)
      case Success(content) =>
        match services.parse(JsonText(content))
        case None => Failure(ErrorObject(InvalidJsonMessage))
        case Some(parsed) =>
          Schema.NormalizedWellFormed(parsed, services.coerce);
          Success(Schema.Normalized(parsed, services.coerce))
  }

  /**
   * End to end: a reply whose content is a fenced JSON block yields the
   * sanitized value of the block's trimmed body, whatever prose surrounds it.
   */
  lemma FencedReplyIsSanitized(env: OpenAiEnv, prompt: string, imageDataUrl: string, services: OpenAiServices,
                               pre: string, body: string, post: string, parsed: JsValue)
    requires Given(env.apiKey)
    requires '`' !in pre && '`' !in body && !JsStrings.AllWs(body)
    requires services.complete(Request(env.apiKey.value, env, prompt, imageDataUrl))
             == Success(Str(pre + JsStrings.Fence + "json" + body + JsStrings.Fence + post))
    requires services.parse(JsStrings.Trim(body)) == Some(parsed)
    ensures ExtractWithOpenAi(env, prompt, imageDataUrl, services) == Success(Schema.Normalized(parsed, services.coerce))
  {
    FencedReplyGivesBody(pre, "json", body, post);
  }

  /** A reply that already is a well-formed card, as JSON, comes back unchanged. */
  lemma WellFormedReplyKept(env: OpenAiEnv, prompt: string, imageDataUrl: string, services: OpenAiServices,
                            card: Schema.CarCardData)
    requires Given(env.apiKey) && Schema.WellFormed(card)
    requires services.complete(Request(env.apiKey.value, env, prompt, imageDataUrl)).Success?
    requires services.parse(JsonText(services.complete(Request(env.apiKey.value, env, prompt, imageDataUrl)).value))
             == Some(Schema.ToJs(card))
    ensures ExtractWithOpenAi(env, prompt, imageDataUrl, services) == Success(card)
  {
    Schema.NormalizeFixesWellFormed(card, services.coerce);
  }
}

/** `AiService` (src/ai/ai.service.ts): the configuration it reads once, the
    request it sends for a code generation, the clean-up of the completion
    text, and the filtered, ordered and cached model list. The OpenAI calls
    themselves are inputs: the completion text and the fetched model list are
    parameters. */
module Ai {
  import opened JsValues
  import opened Seqs
  import opened Text

  /** The model used when neither the request nor the environment names one. */
  const DefaultModel := "google/gemini-3-pro-preview"

  /** The keywords a model id must contain when the environment names none. */
  const DefaultKeywords := ["gpt-5", "gemini-3"]

  /** The environment variables the service reads. */
  datatype Config = Config(
    modelDefault: Option<string>,  // OPENAI_MODEL_DEFAULT
    modelAllowed: Option<string>,  // OPENAI_MODEL_ALLOWED
    apiKey: Option<string>)        // OPENAI_API_KEY

  /** An entry of the provider's model list; only its id is used. */
  datatype ModelInfo = ModelInfo(id: string)

  /** The chat request sent for a generation: the user message and the model
      (the system prompt is fixed text). */
  datatype ChatRequest = ChatRequest(userMessage: string, model: string)

  /** What `generateCode` returns, together with the request it sent. */
  datatype Generation = Generation(request: ChatRequest, code: string)

  /** `items.split(',').map(k => k.trim())`. */
  function ParseKeywords(items: string): (keywords: seq<string>)
    ensures |keywords| == |Split(items, ',')|
    ensures forall k :: 0 <= k < |keywords| ==> keywords[k] == Trim(Split(items, ',')[k])
    ensures forall k :: 0 <= k < |keywords| ==> StripsOnlySpace(keywords[k], Split(items, ',')[k])
  {
    var pieces := Split(items, ',');
    var keywords := seq(|pieces|, k requires 0 <= k < |pieces| => Trim(pieces[k]));
    TrimsAreTrimmed(pieces, keywords);
    keywords
  }

  lemma TrimsAreTrimmed(pieces: seq<string>, keywords: seq<string>)
    requires |keywords| == |pieces|
    requires forall k :: 0 <= k < |pieces| ==> keywords[k] == Trim(pieces[k])
    ensures forall k :: 0 <= k < |keywords| ==> StripsOnlySpace(keywords[k], pieces[k])
  {
    forall k | 0 <= k < |keywords| ensures StripsOnlySpace(keywords[k], pieces[k]) {
      var i :| TrimmedAt(pieces[k], Trim(pieces[k]), i);
    }
  }

  /** One keyword per comma-separated item, none holding a comma or starting
      or ending with white space; a list written without white space is read
      back exactly. */
  lemma {:induction false} ParseKeywordsItems(items: string)
    ensures |ParseKeywords(items)| == multiset(items)[','] + 1
    ensures forall k :: 0 <= k < |ParseKeywords(items)| ==> ',' !in ParseKeywords(items)[k]
    ensures forall k :: 0 <= k < |ParseKeywords(items)| ==>
      var w := ParseKeywords(items)[k];
      w == [] || (!IsSpace(w[0]) && !IsSpace(w[|w| - 1]))
    ensures (forall i :: 0 <= i < |items| ==> !IsSpace(items[i])) ==> Join(ParseKeywords(items), ',') == items
  {
    var pieces := Split(items, ',');
    var keywords := ParseKeywords(items);
    SplitCount(items, ',');
    forall k | 0 <= k < |keywords| ensures ',' !in keywords[k] {
      var i :| TrimmedAt(pieces[k], keywords[k], i);
      assert keywords[k] == pieces[k][i..i + |keywords[k]|];
    }
    if forall i :: 0 <= i < |items| ==> !IsSpace(items[i]) {
      forall k | 0 <= k < |pieces| ensures keywords[k] == pieces[k] {
        var p := pieces[k];
        assert forall c :: c in p ==> c in items;
        assert p == [] || (p[0] in p && p[|p| - 1] in p);
        TrimFixed(p);
      }
      assert keywords == pieces;
      SplitJoin(items, ',');
    }
  }

  /** `keywords.some(am => s.includes(am))`. */
  function AnyContained(s: string, keywords: seq<string>): (b: bool)
    ensures b <==> exists k :: 0 <= k < |keywords| && Contains(s, keywords[k])
  {
    if keywords == [] then false
    else
      assert forall k :: 1 <= k < |keywords| ==> keywords[k] == keywords[1..][k - 1];
      Contains(s, keywords[0]) || AnyContained(s, keywords[1..])
  }

  /** The filter of `getModels`: a model is kept when its lower-cased id
      contains one of the keywords. */
  predicate Allowed(m: ModelInfo, keywords: seq<string>) {
    AnyContained(ToLower(m.id), keywords)
  }

  function FilterModels(list: seq<ModelInfo>, keywords: seq<string>): (r: seq<ModelInfo>)
    ensures forall m :: multiset(r)[m] == if Allowed(m, keywords) then multiset(list)[m] else 0
  {
    Filter(list, (m: ModelInfo) => Allowed(m, keywords))
  }

  /** An empty keyword, as an item list such as `"a,,b"` produces, admits
      every model. */
  lemma EmptyKeywordAdmitsAll(list: seq<ModelInfo>, keywords: seq<string>)
    requires "" in keywords
    ensures FilterModels(list, keywords) == list
  {
    var k :| 0 <= k < |keywords| && keywords[k] == "";
    forall i | 0 <= i < |list| ensures Allowed(list[i], keywords) {
      ContainsEmpty(ToLower(list[i].id));
    }
    FilterKeepsAll(list, (m: ModelInfo) => Allowed(m, keywords));
  }

  /** Keywords are not lower-cased, so one holding an upper-case letter
      matches no model id. */
  lemma UpperCaseKeywordMatchesNothing(id: string, keyword: string, j: int)
    requires 0 <= j < |keyword| && 'A' <= keyword[j] <= 'Z'
    ensures !Contains(ToLower(id), keyword)
  {
    var s := ToLower(id);
    ContainsIffOccurs(s, keyword);
    ToLowerIdempotent(id);
    forall i | OccursAt(s, keyword, i) ensures false {
    }
  }

  predicate IsDefault(m: ModelInfo, defaultModel: string) {
    m.id == defaultModel
  }

  /** `models.sort(...)` with the comparator that puts `defaultModel` in
      front and leaves every other pair in place: the sort is stable, so the
      default models come first and the rest keep their order. */
  function OrderModels(list: seq<ModelInfo>, defaultModel: string): (r: seq<ModelInfo>)
    ensures multiset(r) == multiset(list)
    ensures forall i, j :: 0 <= i < j < |r| && IsDefault(r[j], defaultModel) ==> IsDefault(r[i], defaultModel)
  {
    var front := Filter(list, (m: ModelInfo) => IsDefault(m, defaultModel));
    var back := Filter(list, (m: ModelInfo) => !IsDefault(m, defaultModel));
    DefaultsBeforeOthers(front, back, defaultModel);
    assert multiset(front + back) == multiset(front) + multiset(back);
    front + back
  }

  /** Defaults followed by non-defaults are in the order `OrderModels`
      promises. */
  lemma DefaultsBeforeOthers(front: seq<ModelInfo>, back: seq<ModelInfo>, defaultModel: string)
    requires forall m :: m in front ==> IsDefault(m, defaultModel)
    requires forall m :: m in back ==> !IsDefault(m, defaultModel)
    ensures var r := front + back;
      forall i, j :: 0 <= i < j < |r| && IsDefault(r[j], defaultModel) ==> IsDefault(r[i], defaultModel)
  {
    var r := front + back;
    forall i, j | 0 <= i < j < |r| && IsDefault(r[j], defaultModel) ensures IsDefault(r[i], defaultModel) {
      if j < |front| {
        assert r[i] == front[i];
      }
    }
  }

  /** The models other than the default keep their relative order. */
  lemma OrderModelsKeepsOthers(list: seq<ModelInfo>, defaultModel: string)
    ensures Filter(OrderModels(list, defaultModel), (m: ModelInfo) => !IsDefault(m, defaultModel))
         == Filter(list, (m: ModelInfo) => !IsDefault(m, defaultModel))
  {
    var isDefault := (m: ModelInfo) => IsDefault(m, defaultModel);
    var other := (m: ModelInfo) => !IsDefault(m, defaultModel);
    FilterAppend(Filter(list, isDefault), Filter(list, other), other);
    FilterExcluded(list, isDefault, other);
    FilterTwice(list, other);
  }

  /** A list holding the default model starts with it. */
  lemma OrderModelsDefaultFirst(list: seq<ModelInfo>, defaultModel: string)
    requires exists i :: 0 <= i < |list| && IsDefault(list[i], defaultModel)
    ensures IsDefault(OrderModels(list, defaultModel)[0], defaultModel)
  {
    var r := OrderModels(list, defaultModel);
    var i :| 0 <= i < |list| && IsDefault(list[i], defaultModel);
    assert list[i] in multiset(r);
    var j :| 0 <= j < |r| && r[j] == list[i];
  }

  /** The list `getModels` computes from a fetched list. */
  function Listed(list: seq<ModelInfo>, keywords: seq<string>, defaultModel: string): seq<ModelInfo> {
    OrderModels(FilterModels(list, keywords), defaultModel)
  }

  /** The listed models are exactly the allowed ones, each as often as it
      was fetched, with the default model in front. */
  lemma ListedModels(list: seq<ModelInfo>, keywords: seq<string>, defaultModel: string)
    ensures var r := Listed(list, keywords, defaultModel);
      && (forall m :: multiset(r)[m] == if Allowed(m, keywords) then multiset(list)[m] else 0)
      && (forall i, j :: 0 <= i < j < |r| && IsDefault(r[j], defaultModel) ==> IsDefault(r[i], defaultModel))
  {
  }

  /** `userMessage`: the current code is quoted first only when it is
      truthy; the request text always comes last, right after it. */
  function UserMessage(prompt: string, currentCode: Option<string>): (msg: string)
    ensures Truthy(currentCode) ==> StartsWith(msg, "Current Code:\n" + currentCode.value + "\n\n")
    ensures StartsWith(msg, "Current Code:\n") <==> Truthy(currentCode)
    ensures EndsWith(msg, "User Request: " + prompt)
    ensures |msg| == (if Truthy(currentCode) then |"Current Code:\n" + currentCode.value + "\n\n"| else 0) + |"User Request: " + prompt|
  {
    if Truthy(currentCode) then
      var head := "Current Code:\n" + currentCode.value + "\n\n";
      StartsWithAppend(head, "User Request: " + prompt);
      StartsWithAppend("Current Code:\n", currentCode.value + "\n\n");
      assert head == "Current Code:\n" + (currentCode.value + "\n\n");
      StartsWithTrans(head + ("User Request: " + prompt), head, "Current Code:\n");
      EndsWithAppend(head, "User Request: " + prompt);
      assert head + "User Request: " + prompt == head + ("User Request: " + prompt);
      head + "User Request: " + prompt
    else
      var msg := "User Request: " + prompt;
      assert msg[0] == 'U';
      EndsWithAppend("", msg);
      assert "" + msg == msg;
      msg
  }

  /** `c.replace(/^fence/, '').replace(/\n```$/, '')`: the opening fence
      is removed when `c` starts with it, then the closing fence when what
      remains ends with it. */
  function StripFence(c: string, fence: string): (code: string)
    ensures var pre := if StartsWith(c, fence) then fence else "";
      var suf := if EndsWith(c[|pre|..], "\n```") then "\n```" else "";
      c == pre + code + suf
    ensures exists i, j :: 0 <= i <= |fence| && |c| - 4 <= j && i <= j <= |c| && code == c[i..j]
  {
    var d := DropPrefix(c, fence);
    var i := |c| - |d|;
    assert d == c[i..];
    var code := DropSuffix(d, "\n```");
    assert code == c[i..i + |code|];
    assert c == c[..i] + d;
    code
  }

  /** `completion.choices[0].message.content || ''` followed by the fence
      clean-up: when the text starts with "```", a leading "```html\n" (when
      it starts with "```html") or "```\n" (otherwise) and a trailing "\n```"
      are removed, each only when present. */
  function CleanCompletion(content: Option<string>): (code: string)
    ensures content.None? ==> code == ""
    ensures content.Some? && !StartsWith(content.value, "```") ==> code == content.value
    ensures var c := if content.Some? then content.value else "";
      var fence := if StartsWith(c, "```html") then "```html\n" else "```\n";
      var pre := if StartsWith(c, fence) then fence else "";
      var suf := if EndsWith(c[|pre|..], "\n```") then "\n```" else "";
      StartsWith(c, "```") ==> c == pre + code + suf
    ensures var c := if content.Some? then content.value else "";
      exists i, j :: 0 <= i <= 8 && |c| - 4 <= j && i <= j <= |c| && code == c[i..j]
  {
    var c := if content.Some? then content.value else "";
    var fence := if StartsWith(c, "```html") then "```html\n" else "```\n";
    if !StartsWith(c, "```") then
      assert c == c[0..|c|];
      c
    else
      StripFence(c, fence)
  }

  /** A reply wrapped in an html fence or a bare fence is unwrapped to
      exactly its content. */
  lemma UnwrapsFencedReply(body: string)
    ensures CleanCompletion(Some("```html\n" + body + "\n```")) == body
    ensures CleanCompletion(Some("```\n" + body + "\n```")) == body
  {
    var html := "```html\n" + body + "\n```";
    StartsWithAppend("```html\n", body + "\n```");
    assert html == "```html\n" + (body + "\n```");
    StartsWithTrans(html, "```html\n", "```html");
    StartsWithTrans(html, "```html\n", "```");
    EndsWithAppend("```html\n" + body, "\n```");
    var d := DropPrefix(html, "```html\n");
    assert d == body + "\n```";
    EndsWithAppend(body, "\n```");

    var bare := "```\n" + body + "\n```";
    StartsWithAppend("```\n", body + "\n```");
    assert bare == "```\n" + (body + "\n```");
    StartsWithTrans(bare, "```\n", "```");
    assert bare[3] != "```html"[3];
    var e := DropPrefix(bare, "```\n");
    assert e == body + "\n```";
  }

  class AiService {
    var defaultModel: string
    var allowedKeywords: seq<string>
    /** The cached model list. */
    var models: seq<ModelInfo>
    /** OPENAI_API_KEY, read from the environment on every use. */
    const apiKey: Option<string>
    /** Whether the constructor created the OpenAI client. */
    const hasClient: bool

    ghost predicate Valid()
      reads this
    {
      defaultModel != "" && (hasClient <==> Truthy(apiKey))
    }

    /** The constructor: environment values override the defaults only when
        truthy; the client is created only when there is an API key. */
    constructor (config: Config)
      ensures Valid()
      ensures defaultModel == (if Truthy(config.modelDefault) then config.modelDefault.value else DefaultModel)
      ensures allowedKeywords ==
        (if Truthy(config.modelAllowed) then ParseKeywords(config.modelAllowed.value) else DefaultKeywords)
      ensures models == [] && apiKey == config.apiKey && hasClient == Truthy(config.apiKey)
    {
      apiKey := config.apiKey;
      hasClient := Truthy(config.apiKey);
      defaultModel := DefaultModel;
      allowedKeywords := DefaultKeywords;
      models := [];
      new;
      if Truthy(config.modelDefault) {
        defaultModel := config.modelDefault.value;
      }
      if Truthy(config.modelAllowed) {
        allowedKeywords := ParseKeywords(config.modelAllowed.value);
      }
    }

    /** `model || this.defaultModel`. */
    function ChosenModel(model: Option<string>): (m: string)
      reads this
      requires Valid()
      ensures m != ""
      ensures Truthy(model) ==> m == model.value
      ensures !Truthy(model) ==> m == defaultModel
    {
      OrElse(model, defaultModel)
    }

    /** `generateCode(prompt, currentCode, model)` given the outcome of
        `chat.completions.create`: the content of the first choice, or the
        error the call throws, which `generateCode` propagates. Without a
        client the call fails on `this.openai.chat` before any request. */
    function GenerateCode(prompt: string, currentCode: Option<string>, model: Option<string>,
                          reply: Result<Option<string>>): (r: Result<Generation>)
      reads this
      requires Valid()
      ensures r.Ok? <==> Truthy(apiKey) && reply.Ok?
      ensures !Truthy(apiKey) ==> r == Err(TypeError("Cannot read properties of undefined (reading 'chat')"))
      ensures Truthy(apiKey) && reply.Err? ==> r == Err(reply.error)
      ensures r.Ok? ==> r.value.request == ChatRequest(UserMessage(prompt, currentCode), ChosenModel(model))
      ensures r.Ok? ==> r.value.code == CleanCompletion(reply.value)
      ensures r.Ok? ==> r.value.request.model != ""
      ensures r.Ok? ==> EndsWith(r.value.request.userMessage, "User Request: " + prompt)
      ensures r.Ok? && reply.value.None? ==> r.value.code == ""
      ensures r.Ok? && reply.value.Some? && !StartsWith(reply.value.value, "```") ==> r.value.code == reply.value.value
    {
      if !hasClient then Err(TypeError("Cannot read properties of undefined (reading 'chat')"))
      else if reply.Err? then Err(reply.error)
      else Ok(Generation(ChatRequest(UserMessage(prompt, currentCode), ChosenModel(model)), CleanCompletion(reply.value)))
    }

    /** `getModels()` given the result of `openai.models.list()` (`None`
        when that call throws). A non-empty cache is returned as it is; a
        missing key or a failed fetch gives `[]`; otherwise the filtered and
        ordered list is cached and returned. */
    method GetModels(fetched: Option<seq<ModelInfo>>) returns (r: seq<ModelInfo>)
      requires Valid()
      modifies this
      ensures Valid()
      ensures defaultModel == old(defaultModel) && allowedKeywords == old(allowedKeywords)
      ensures |old(models)| > 0 ==> r == old(models) && models == old(models)
      ensures |old(models)| == 0 && (!Truthy(apiKey) || fetched.None?) ==> r == [] && models == old(models)
      ensures |old(models)| == 0 && Truthy(apiKey) && fetched.Some? ==>
        r == Listed(fetched.value, allowedKeywords, defaultModel) && models == r
    {
      if |models| > 0 {
        return models;
      }
      if !Truthy(apiKey) {
        return [];
      }
      if fetched.None? {
        return [];
      }
      var list := FilterModels(fetched.value, allowedKeywords);
      list := OrderModels(list, defaultModel);
      models := list;
      return models;
    }
  }
}

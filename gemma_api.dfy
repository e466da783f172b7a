// The Gemma-3 FastAPI service: the pydantic models that validate a request
// (`ContentItem`, `Message`, `ProcessRequest`) and the part of
// `generate_response` that assembles the model's message list, clamps the
// token limit and counts the generated tokens.
module GemmaApi {
  import opened Wrappers
  import opened PyStr
  import opened ChatHistory

  const DefaultSystemPrompt: string := "You are a helpful assistant."

  // ---------------------------------------------------------------------
  // Request validation
  // ---------------------------------------------------------------------

  const HttpPrefix: string := "http://"
  const HttpsPrefix: string := "https://"
  const DataImagePrefix: string := "data:image"

  const MinNewTokens: int := 10
  const MaxNewTokens: int := 4096
  const DefaultNewTokens: int := 1000

  datatype ItemType = TextItem | ImageItem

  /** A content item as it arrives: the `type` string and the two optional
      fields, absent when the client leaves them out. */
  datatype RawContentItem = RawContentItem(itemType: string, text: Option<string>, image: Option<string>)

  datatype ContentItem = ContentItem(itemType: ItemType, text: Option<string>, image: Option<string>)

  datatype RawMessage = RawMessage(role: string, content: seq<RawContentItem>)

  datatype ApiMessage = ApiMessage(role: Role, content: seq<ContentItem>)

  /** A request as it arrives; `maxNewTokens` is absent when not sent. */
  datatype RawRequest = RawRequest(messages: seq<RawMessage>, maxNewTokens: Option<int>)

  datatype Request = Request(messages: seq<ApiMessage>, maxNewTokens: int)

  /** The `Literal["text", "image"]` check. */
  function ParseItemType(s: string): Option<ItemType>
  {
    if s == "text" then Some(TextItem) else if s == "image" then Some(ImageItem) else None
  }

  function ParseRole(s: string): Option<Role>
  {
    if s == "system" then Some(System)
    else if s == "user" then Some(User)
    else if s == "assistant" then Some(Assistant)
    else None
  }

  predicate IsImageSource(v: string)
  {
    StartsWith(v, HttpPrefix) || StartsWith(v, HttpsPrefix) || StartsWith(v, DataImagePrefix)
  }

  /** The `@validator('*', pre=True)` check on one field that is present.
      It does not look at which field it is checking: in a text item any
      present field must be non-empty, in an image item any present field
      must be an image source. */
  predicate FieldAccepted(t: ItemType, v: string)
  {
    (t == TextItem ==> v != []) && (t == ImageItem ==> IsImageSource(v))
  }

  /** Pydantic validation of a `ContentItem`. A field that is absent keeps
      its default `None` and is not checked at all. */
  function ValidateContentItem(raw: RawContentItem): (r: Option<ContentItem>)
    ensures r.Some? <==>
      && ParseItemType(raw.itemType).Some?
      && (raw.text.Some? ==> FieldAccepted(ParseItemType(raw.itemType).value, raw.text.value))
      && (raw.image.Some? ==> FieldAccepted(ParseItemType(raw.itemType).value, raw.image.value))
    ensures r.Some? ==> r.value.itemType == ParseItemType(raw.itemType).value
    ensures r.Some? ==> r.value.text == raw.text && r.value.image == raw.image
  {
    match ParseItemType(raw.itemType)
    case None => None
    case Some(t) =>
      if (raw.text.Some? ==> FieldAccepted(t, raw.text.value))
        && (raw.image.Some? ==> FieldAccepted(t, raw.image.value))
      then Some(ContentItem(t, raw.text, raw.image))
      else None
  }

  /** An image item whose image is a URL is accepted; an image item whose
      image is neither a URL nor a data URI is refused. */
  lemma ImageSourceRule(raw: RawContentItem)
    requires ParseItemType(raw.itemType) == Some(ImageItem) && raw.text.None? && raw.image.Some?
    ensures ValidateContentItem(raw).Some? <==> IsImageSource(raw.image.value)
  {
  }

  /** A text item sent with an empty text is refused, while one sent without
      any text passes validation with no text. */
  lemma TextItemRule(raw: RawContentItem)
    requires ParseItemType(raw.itemType) == Some(TextItem) && raw.image.None?
    ensures raw.text == Some([]) ==> ValidateContentItem(raw).None?
    ensures raw.text.None? ==> ValidateContentItem(raw) == Some(ContentItem(TextItem, None, None))
  {
  }

  function ValidateItems(items: seq<RawContentItem>): (r: Option<seq<ContentItem>>)
    ensures r.Some? <==> forall k :: 0 <= k < |items| ==> ValidateContentItem(items[k]).Some?
    ensures r.Some? ==> |r.value| == |items|
    ensures r.Some? ==> forall k :: 0 <= k < |items| ==> r.value[k] == ValidateContentItem(items[k]).value
  {
    if items == [] then Some([])
    else
      var init := ValidateItems(items[..|items| - 1]);
      var last := ValidateContentItem(items[|items| - 1]);
      if init.Some? && last.Some? then Some(init.value + [last.value]) else None
  }

  function ValidateMessage(raw: RawMessage): (r: Option<ApiMessage>)
    ensures r.Some? <==> ParseRole(raw.role).Some? && ValidateItems(raw.content).Some?
    ensures r.Some? ==> r.value.role == ParseRole(raw.role).value
    ensures r.Some? ==> r.value.content == ValidateItems(raw.content).value
  {
    var role := ParseRole(raw.role);
    var items := ValidateItems(raw.content);
    if role.Some? && items.Some? then Some(ApiMessage(role.value, items.value)) else None
  }

  function ValidateMessages(msgs: seq<RawMessage>): (r: Option<seq<ApiMessage>>)
    ensures r.Some? <==> forall k :: 0 <= k < |msgs| ==> ValidateMessage(msgs[k]).Some?
    ensures r.Some? ==> |r.value| == |msgs|
    ensures r.Some? ==> forall k :: 0 <= k < |msgs| ==> r.value[k] == ValidateMessage(msgs[k]).value
  {
    if msgs == [] then Some([])
    else
      var init := ValidateMessages(msgs[..|msgs| - 1]);
      var last := ValidateMessage(msgs[|msgs| - 1]);
      if init.Some? && last.Some? then Some(init.value + [last.value]) else None
  }

  /** Pydantic validation of a `ProcessRequest`: at least one message, every
      message valid, and a token limit between 10 and 4096 (1000 when not
      sent). */
  function ValidateRequest(raw: RawRequest): (r: Option<Request>)
    ensures r.Some? ==> |r.value.messages| == |raw.messages| >= 1
    ensures r.Some? ==> ValidateMessages(raw.messages) == Some(r.value.messages)
    ensures r.Some? ==> MinNewTokens <= r.value.maxNewTokens <= MaxNewTokens
    ensures r.Some? && raw.maxNewTokens.None? ==> r.value.maxNewTokens == DefaultNewTokens
    ensures r.Some? && raw.maxNewTokens.Some? ==> r.value.maxNewTokens == raw.maxNewTokens.value
    ensures r.None? <==>
      || raw.messages == []
      || ValidateMessages(raw.messages).None?
      || (raw.maxNewTokens.Some? && !(MinNewTokens <= raw.maxNewTokens.value <= MaxNewTokens))
  {
    var msgs := ValidateMessages(raw.messages);
    var n := if raw.maxNewTokens.Some? then raw.maxNewTokens.value else DefaultNewTokens;
    if raw.messages == [] || msgs.None? || !(MinNewTokens <= n <= MaxNewTokens) then None
    else Some(Request(msgs.value, n))
  }

  /** A validated request carries the client's messages: message k has the
      role the client named and its items, in order, with their texts and
      images as sent. */
  lemma RequestKeepsClientMessages(raw: RawRequest, k: nat, j: nat)
    requires ValidateRequest(raw).Some?
    requires k < |raw.messages| && j < |raw.messages[k].content|
    ensures var m := ValidateRequest(raw).value.messages[k];
      && m.role == ParseRole(raw.messages[k].role).value
      && |m.content| == |raw.messages[k].content|
      && m.content[j].text == raw.messages[k].content[j].text
      && m.content[j].image == raw.messages[k].content[j].image
      && m.content[j].itemType == ParseItemType(raw.messages[k].content[j].itemType).value
  {
    var msgs := ValidateMessages(raw.messages).value;
    var items := ValidateItems(raw.messages[k].content).value;
    assert msgs[k] == ValidateMessage(raw.messages[k]).value;
    assert items[j] == ValidateContentItem(raw.messages[k].content[j]).value;
  }

  // ---------------------------------------------------------------------
  // Message assembly in `generate_response`
  // ---------------------------------------------------------------------

  /** The texts of the text items of a message, in order. */
  function TextsOf(content: seq<ContentItem>): seq<Option<string>>
  {
    if content == [] then []
    else
      var last := content[|content| - 1];
      TextsOf(content[..|content| - 1]) + (if last.itemType == TextItem then [last.text] else [])
  }

  /** `" ".join(...)` of those texts, or `None` where one of them is
      missing and the join raises `TypeError`. */
  function JoinTexts(content: seq<ContentItem>): Option<string>
  {
    var texts := TextsOf(content);
    if forall k :: 0 <= k < |texts| ==> texts[k].Some? then
      Some(Join(seq(|texts|, k requires 0 <= k < |texts| => texts[k].value), " "))
    else None
  }

  /** The system prompt: the default, replaced by each system message in
      turn, so the last system message decides. */
  function SystemPromptOf(msgs: seq<ApiMessage>): Option<string>
  {
    if msgs == [] then Some(DefaultSystemPrompt)
    else
      var last := msgs[|msgs| - 1];
      if last.role == System then JoinTexts(last.content) else SystemPromptOf(msgs[..|msgs| - 1])
  }

  /** The messages other than system ones, in their original order. */
  function NonSystem(msgs: seq<ApiMessage>): (r: seq<ApiMessage>)
    ensures |r| <= |msgs|
    ensures forall k :: 0 <= k < |r| ==> r[k].role != System && r[k] in msgs
  {
    if msgs == [] then []
    else
      var last := msgs[|msgs| - 1];
      NonSystem(msgs[..|msgs| - 1]) + (if last.role == System then [] else [last])
  }

  /** Some system message has a text item without text: the join raises. */
  predicate SystemJoinFails(msgs: seq<ApiMessage>)
  {
    exists k :: 0 <= k < |msgs| && msgs[k].role == System && JoinTexts(msgs[k].content).None?
  }

  function SystemEntry(prompt: string): ApiMessage
  {
    ApiMessage(System, [ContentItem(TextItem, Some(prompt), None)])
  }

  /** The loop of `generate_response` and the final list: one system entry
      carrying the system prompt, then the other messages in order. `None`
      stands for the `TypeError` (answered with status 500). */
  method BuildMessages(msgs: seq<ApiMessage>) returns (r: Option<seq<ApiMessage>>)
    ensures r.None? <==> SystemJoinFails(msgs)
    ensures r.Some? ==> SystemPromptOf(msgs).Some?
    ensures r.Some? ==> r.value == [SystemEntry(SystemPromptOf(msgs).value)] + NonSystem(msgs)
  {
    var processed: seq<ApiMessage> := [];
    var systemPrompt := DefaultSystemPrompt;
    var i := 0;
    while i < |msgs|
      invariant 0 <= i <= |msgs|
      invariant !SystemJoinFails(msgs[..i])
      invariant SystemPromptOf(msgs[..i]) == Some(systemPrompt)
      invariant processed == NonSystem(msgs[..i])
    {
      assert msgs[..i + 1][..i] == msgs[..i];
      if msgs[i].role == System {
        var joined := JoinTexts(msgs[i].content);
        if joined.None? {
          assert msgs[i] == msgs[..i + 1][i];
          assert SystemJoinFails(msgs[..i + 1]);
          SystemJoinFailsExtends(msgs[..i + 1], msgs[i + 1..]);
          assert msgs[..i + 1] + msgs[i + 1..] == msgs;
          return None;
        }
        systemPrompt := joined.value;
      } else {
        processed := processed + [msgs[i]];
      }
      SystemJoinStep(msgs[..i], msgs[i]);
      assert msgs[..i] + [msgs[i]] == msgs[..i + 1];
      i := i + 1;
    }
    assert msgs[..i] == msgs;
    r := Some([SystemEntry(systemPrompt)] + processed);
  }

  lemma SystemJoinFailsExtends(a: seq<ApiMessage>, b: seq<ApiMessage>)
    requires SystemJoinFails(a)
    ensures SystemJoinFails(a + b)
  {
    var k :| 0 <= k < |a| && a[k].role == System && JoinTexts(a[k].content).None?;
    assert (a + b)[k] == a[k];
  }

  lemma SystemJoinStep(a: seq<ApiMessage>, m: ApiMessage)
    requires !SystemJoinFails(a)
    requires m.role == System ==> JoinTexts(m.content).Some?
    ensures !SystemJoinFails(a + [m])
  {
    forall k | 0 <= k < |a + [m]| && (a + [m])[k].role == System
      ensures JoinTexts((a + [m])[k].content).Some?
    {
      if k < |a| {
        assert (a + [m])[k] == a[k];
      }
    }
  }

  /** The last system message wins: whatever came before it, with no system
      message after it the prompt is its joined text. */
  lemma {:induction false} LastSystemWins(a: seq<ApiMessage>, s: ApiMessage, b: seq<ApiMessage>)
    requires s.role == System
    requires forall k :: 0 <= k < |b| ==> b[k].role != System
    ensures SystemPromptOf(a + [s] + b) == JoinTexts(s.content)
    decreases |b|
  {
    if b != [] {
      var b' := b[..|b| - 1];
      assert (a + [s] + b)[..|a + [s] + b| - 1] == a + [s] + b';
      LastSystemWins(a, s, b');
    } else {
      assert a + [s] + b == a + [s];
    }
  }

  /** Without any system message the default prompt is used and every
      message is kept. */
  lemma {:induction false} NoSystemMessage(msgs: seq<ApiMessage>)
    requires forall k :: 0 <= k < |msgs| ==> msgs[k].role != System
    ensures SystemPromptOf(msgs) == Some(DefaultSystemPrompt)
    ensures NonSystem(msgs) == msgs
  {
    if msgs != [] {
      NoSystemMessage(msgs[..|msgs| - 1]);
      assert msgs[..|msgs| - 1] + [msgs[|msgs| - 1]] == msgs;
    }
  }

  /** Dropping system messages commutes with concatenation, so the kept
      messages keep their relative order. */
  lemma {:induction false} NonSystemAppend(a: seq<ApiMessage>, b: seq<ApiMessage>)
    ensures NonSystem(a + b) == NonSystem(a) + NonSystem(b)
    decreases |b|
  {
    if b == [] {
      assert a + b == a;
    } else {
      var b' := b[..|b| - 1];
      assert (a + b)[..|a + b| - 1] == a + b';
      NonSystemAppend(a, b');
    }
  }

  // ---------------------------------------------------------------------
  // Token limit and count
  // ---------------------------------------------------------------------

  /** `max_token_num`: 4096, lowered to the request's limit when that is not
      above it. */
  function EffectiveMaxTokens(requested: int): (r: int)
    ensures r <= MaxNewTokens
    ensures r == requested || (r == MaxNewTokens && requested > MaxNewTokens)
  {
    var maxTokenNum := MaxNewTokens;
    if maxTokenNum >= requested then requested else maxTokenNum
  }

  /** For a validated request the clamp never changes the limit. */
  lemma ClampIsIdentityOnValidRequests(raw: RawRequest)
    requires ValidateRequest(raw).Some?
    ensures EffectiveMaxTokens(ValidateRequest(raw).value.maxNewTokens) == ValidateRequest(raw).value.maxNewTokens
  {
  }

  /** `tokens_generated`: the length of `generation[0][input_len:]`. */
  function TokensGenerated(generation: seq<int>, inputLen: nat): (n: nat)
    ensures n == if |generation| >= inputLen then |generation| - inputLen else 0
  {
    SliceFromLength(generation, inputLen);
    |SliceFrom(generation, inputLen)|
  }
}

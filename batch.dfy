/**
 * Batch scoring: the prompt built from the unscored messages, the handling
 * of the remote scorer's reply (fence stripping, value flattening, per-id
 * fallback, clamping) and the whole-batch fallback taken when the call or
 * the parse fails.
 *
 * The chat-completion call is a function from prompt to `Reply`, and
 * `json.loads` is a function from text to an optional `RawValue` (`None`
 * when it raises); both are parameters.
 */
module Batch {
  import opened Wrappers
  import opened Text
  import opened Fallback
  import opened Messages

  /**
   * A decoded JSON value as the reply handler sees it. `Num(n)` is a scalar
   * for which `int(round(float(v)))` succeeds (a finite number, a numeric
   * string, a boolean), already turned into that integer `n`; `Other` is any
   * other scalar, for which that conversion raises (a non-numeric string,
   * null, NaN, the infinities).
   */
  datatype RawValue =
    | Num(n: int)
    | Other
    | Array(items: seq<RawValue>)
    | Object(fields: map<string, RawValue>)

  /** The outcome of the chat-completion call: it raised, or it returned this message content. */
  datatype Reply = CallFailed | Content(text: string)

  /** Python's `max(1, min(10, v))`. */
  function Clamp(v: int): (r: int)
    ensures 1 <= r <= 10
    ensures 1 <= v <= 10 ==> r == v
    ensures v < 1 ==> r == 1
    ensures v > 10 ==> r == 10
  {
    if v < 1 then 1 else if v > 10 then 10 else v
  }

  /** The prompt line of one message: its id, then its text in double quotes with quotes escaped. */
  function EntryLine(m: Message): string {
    "- " + m.id + ": \"" + Escape(m.text) + "\""
  }

  /** The prompt lines of a sequence of messages, in order. */
  function EntryLines(ms: seq<Message>): (lines: seq<string>)
    ensures |lines| == |ms|
  {
    seq(|ms|, i requires 0 <= i < |ms| => EntryLine(ms[i]))
  }

  /** What the id map holds for a message: its escaped text. */
  function EscapedText(m: Message): string {
    Escape(m.text)
  }

  /** What the whole-batch fallback gives a message: the score of its raw text. */
  function RawFallback(m: Message): int {
    FallbackScore(m.text)
  }

  /** The fixed instructions that precede the message block. */
  const PromptHead: string :=
    "\nYou are a sentiment analyzer assistant.\n"
    + "Analyze each message below and assign a sentiment score from 1 to 10, where:\n"
    + "1 = very boring\n5 = neutral\n10 = very exciting\n\n"
    + "Return only a valid JSON object where keys are message IDs and values are the integer scores.\n\n"
    + "Messages:\n"

  /** The prompt sent for the messages `todo`: the instructions, then one line per message. */
  function Prompt(todo: seq<Message>): string {
    PromptHead + Join(EntryLines(todo), "\n") + "\n"
  }

  lemma EntryLinesSnoc(ms: seq<Message>, m: Message)
    ensures EntryLines(ms + [m]) == EntryLines(ms) + [EntryLine(m)]
  {
  }

  /** Every message to score has its line in the prompt. */
  lemma PromptListsEveryMessage(todo: seq<Message>, i: int)
    requires 0 <= i < |todo|
    ensures Contains(Prompt(todo), EntryLine(todo[i]))
  {
    var lines := EntryLines(todo);
    JoinContains(lines, "\n", i);
    ContainsExtendLeft(PromptHead, Join(lines, "\n"), lines[i]);
    ContainsExtendRight(PromptHead + Join(lines, "\n"), "\n", lines[i]);
  }

  const JsonFence: string := "```json"
  const Fence: string := "```"

  /** Removes a leading "```json" and then, only in that case, a trailing "```". */
  function StripFence(content: string): string {
    if JsonFence <= content then RemoveSuffix(RemovePrefix(content, JsonFence), Fence) else content
  }

  /** Fence stripping undoes fencing, closed or not, and leaves unfenced content alone. */
  lemma StripFenceUnwraps(body: string, content: string)
    ensures StripFence(JsonFence + body + Fence) == body
    ensures !EndsWith(body, Fence) ==> StripFence(JsonFence + body) == body
    ensures !(JsonFence <= content) ==> StripFence(content) == content
  {
    var closed := JsonFence + body + Fence;
    assert JsonFence <= closed;
    assert closed[|JsonFence|..] == body + Fence;
    assert EndsWith(body + Fence, Fence);
    assert (body + Fence)[..|body|] == body;
    var open := JsonFence + body;
    assert JsonFence <= open;
    assert open[|JsonFence|..] == body;
  }

  /**
   * The reply as a dictionary of raw values, or `None` where Python raises:
   * the call failed, `json.loads` rejected the stripped content, or the
   * decoded value has no `.items()` (it is not an object).
   */
  function DecodeReply(reply: Reply, loads: string -> Option<RawValue>): Option<map<string, RawValue>> {
    match reply
    case CallFailed => None
    case Content(text) =>
      match loads(StripFence(Strip(text)))
      case Some(Object(fields)) => Some(fields)
      case _ => None
  }

  /** An empty list: indexing its first element raises. */
  predicate IsEmptyArray(v: RawValue) {
    v.Array? && v.items == []
  }

  /** A list whose first element is an object with a "score" key stands for that score. */
  function FlatValue(v: RawValue): RawValue
    requires !IsEmptyArray(v)
  {
    if v.Array? && v.items[0].Object? && "score" in v.items[0].fields then v.items[0].fields["score"]
    else v
  }

  /** The flattened reply, or `None` when some value is an empty list (the flattening loop raises). */
  function Flattened(raw: map<string, RawValue>): Option<map<string, RawValue>> {
    if exists k :: k in raw && IsEmptyArray(raw[k]) then None
    else Some(map k | k in raw :: FlatValue(raw[k]))
  }

  /** The stored score of one returned id: its number, or the fallback of its id-map text, clamped. */
  function ScoreOf(id: string, v: RawValue, idMap: map<string, string>): int {
    Clamp(if v.Num? then v.n else FallbackScore(if id in idMap then idMap[id] else ""))
  }

  /** The scores of every id the reply returned. */
  function Scored(flat: map<string, RawValue>, idMap: map<string, string>): map<string, int> {
    map k | k in flat :: ScoreOf(k, flat[k], idMap)
  }

  /**
   * The scores drawn from a decoded reply for the messages `todo`: the
   * whole-batch fallback when the reply is unusable (`None`, or a value that
   * is an empty list), otherwise one clamped score per id the reply returned.
   */
  function ScoreReply(todo: seq<Message>, decoded: Option<map<string, RawValue>>): map<string, int> {
    match decoded
    case None => LastWins(todo, RawFallback)
    case Some(raw) =>
      match Flattened(raw)
      case None => LastWins(todo, RawFallback)
      case Some(flat) => Scored(flat, LastWins(todo, EscapedText))
  }

  /**
   * What one batch scoring yields for `messages`, given the stored scores:
   * nothing when every message is already scored (the client is not
   * consulted), otherwise the scores drawn from the client's reply to the
   * prompt for the unscored messages.
   */
  function BatchScores(messages: seq<Message>, processed: map<string, int>,
                       client: string -> Reply, loads: string -> Option<RawValue>): map<string, int>
  {
    var todo := Unscored(messages, processed);
    if todo == [] then map[] else ScoreReply(todo, DecodeReply(client(Prompt(todo)), loads))
  }

  /** The prompt lines and the id map of the messages that have no score yet. */
  method BuildBatch(messages: seq<Message>, processed: map<string, int>)
    returns (entries: seq<string>, idMap: map<string, string>)
    ensures entries == EntryLines(Unscored(messages, processed))
    ensures idMap == LastWins(Unscored(messages, processed), EscapedText)
  {
    entries := [];
    idMap := map[];
    ghost var done: seq<Message> := [];
    var i := 0;
    while i < |messages|
      invariant 0 <= i <= |messages|
      invariant done == Unscored(messages[..i], processed)
      invariant entries == EntryLines(done)
      invariant idMap == LastWins(done, EscapedText)
    {
      var msg := messages[i];
      assert messages[..i + 1] == messages[..i] + [msg];
      UnscoredSnoc(messages[..i], msg, processed);
      if msg.id !in processed {
        var text := Escape(msg.text);
        EntryLinesSnoc(done, msg);
        LastWinsSnoc(done, msg, EscapedText);
        entries := entries + [EntryLine(msg)];
        idMap := idMap[msg.id := text];
        done := done + [msg];
      }
      i := i + 1;
    }
    assert messages[..i] == messages;
  }

  /** The flattening loop over the reply's items. */
  method FlattenScores(raw: map<string, RawValue>) returns (flat: Option<map<string, RawValue>>)
    ensures flat == Flattened(raw)
  {
    var result: map<string, RawValue> := map[];
    var todo := raw.Keys;
    while todo != {}
      invariant todo <= raw.Keys
      invariant result.Keys == raw.Keys - todo
      invariant forall k :: k in result ==> !IsEmptyArray(raw[k]) && result[k] == FlatValue(raw[k])
      decreases todo
    {
      var mid :| mid in todo;
      var value := raw[mid];
      if value.Array? && value.items == [] {
        assert mid in raw && IsEmptyArray(raw[mid]);
        return None;
      }
      if value.Array? && value.items[0].Object? && "score" in value.items[0].fields {
        result := result[mid := value.items[0].fields["score"]];
      } else {
        result := result[mid := value];
      }
      todo := todo - {mid};
    }
    assert !exists k :: k in raw && IsEmptyArray(raw[k]);
    assert result == map k | k in raw :: FlatValue(raw[k]);
    flat := Some(result);
  }

  /** The scoring loop over the flattened items: number or per-id fallback, then clamp. */
  method ScoreFlat(flat: map<string, RawValue>, idMap: map<string, string>) returns (result: map<string, int>)
    ensures result == Scored(flat, idMap)
  {
    result := map[];
    var todo := flat.Keys;
    while todo != {}
      invariant todo <= flat.Keys
      invariant result.Keys == flat.Keys - todo
      invariant forall k :: k in result ==> result[k] == ScoreOf(k, flat[k], idMap)
      decreases todo
    {
      var mid :| mid in todo;
      var val := flat[mid];
      var iv: int;
      if val.Num? {
        iv := val.n;
      } else {
        iv := FallbackScore(if mid in idMap then idMap[mid] else "");
      }
      result := result[mid := Clamp(iv)];
      todo := todo - {mid};
    }
  }

  /** Every value of a last-wins dictionary is `f` of some message carrying that id. */
  lemma {:induction false} LastWinsFrom<V>(ms: seq<Message>, f: Message -> V, k: string)
    requires k in LastWins(ms, f)
    ensures exists j :: 0 <= j < |ms| && ms[j].id == k && LastWins(ms, f)[k] == f(ms[j])
    decreases |ms|
  {
    var last := ms[|ms| - 1];
    if last.id != k {
      LastWinsFrom(ms[..|ms| - 1], f, k);
    }
  }

  /** With nothing left to score the result is empty, whatever the client would have answered. */
  lemma NothingToScore(messages: seq<Message>, processed: map<string, int>,
                       client: string -> Reply, loads: string -> Option<RawValue>)
    requires forall m :: m in messages ==> m.id in processed
    ensures BatchScores(messages, processed, client, loads) == map[]
  {
    UnscoredEmpty(messages, processed);
  }

  /** Every score drawn from a reply lies in [1, 10]. */
  lemma ScoreReplyInRange(todo: seq<Message>, decoded: Option<map<string, RawValue>>)
    ensures forall k :: k in ScoreReply(todo, decoded) ==> 1 <= ScoreReply(todo, decoded)[k] <= 10
  {
    forall k | k in LastWins(todo, RawFallback)
      ensures 1 <= LastWins(todo, RawFallback)[k] <= 10
    {
      LastWinsFrom(todo, RawFallback, k);
    }
  }

  /** Every score a batch yields lies in [1, 10]. */
  lemma BatchScoresInRange(messages: seq<Message>, processed: map<string, int>,
                           client: string -> Reply, loads: string -> Option<RawValue>)
    ensures forall k :: k in BatchScores(messages, processed, client, loads) ==>
              1 <= BatchScores(messages, processed, client, loads)[k] <= 10
  {
    var todo := Unscored(messages, processed);
    if todo != [] {
      ScoreReplyInRange(todo, DecodeReply(client(Prompt(todo)), loads));
    }
  }

  /**
   * An unusable reply: every message of the batch gets the fallback score
   * of its raw text (the last such message, for a repeated id), and no
   * other id is scored.
   */
  lemma WholeBatchFallback(todo: seq<Message>, raw: map<string, RawValue>, j: int)
    requires 0 <= j < |todo| && forall k :: j < k < |todo| ==> todo[k].id != todo[j].id
    ensures ScoreReply(todo, None).Keys == Ids(todo)
    ensures ScoreReply(todo, None)[todo[j].id] == FallbackScore(todo[j].text)
    ensures (exists k :: k in raw && IsEmptyArray(raw[k])) ==> ScoreReply(todo, Some(raw)) == ScoreReply(todo, None)
  {
    LastWinsKeys(todo, RawFallback);
    LastWinsValue(todo, RawFallback, j);
  }

  /** The batch handed to the reply handler is exactly the unscored messages. */
  lemma BatchIsUnscored(messages: seq<Message>, processed: map<string, int>)
    ensures Ids(Unscored(messages, processed)) == (set m | m in messages && m.id !in processed :: m.id)
  {
    UnscoredMembers(messages, processed);
  }

  /**
   * A usable reply: the ids scored are exactly the ids the reply returned.
   * An id that was asked for but not returned gets no score, and an id that
   * was returned but never asked for is scored all the same.
   */
  lemma ParsedReplyKeys(todo: seq<Message>, raw: map<string, RawValue>)
    requires forall k :: k in raw ==> !IsEmptyArray(raw[k])
    ensures ScoreReply(todo, Some(raw)).Keys == raw.Keys
    ensures forall k :: k in raw && FlatValue(raw[k]).Num? ==>
              ScoreReply(todo, Some(raw))[k] == Clamp(FlatValue(raw[k]).n)
  {
  }

  /**
   * A requested id whose returned value is not a number gets the fallback
   * score of its escaped text, which equals that of its raw text.
   */
  lemma PerIdFallback(todo: seq<Message>, raw: map<string, RawValue>, j: int)
    requires forall k :: k in raw ==> !IsEmptyArray(raw[k])
    requires 0 <= j < |todo| && forall k :: j < k < |todo| ==> todo[k].id != todo[j].id
    requires todo[j].id in raw && !FlatValue(raw[todo[j].id]).Num?
    ensures todo[j].id in ScoreReply(todo, Some(raw))
    ensures ScoreReply(todo, Some(raw))[todo[j].id] == FallbackScore(Escape(todo[j].text))
    ensures ScoreReply(todo, Some(raw))[todo[j].id] == FallbackScore(todo[j].text)
  {
    LastWinsValue(todo, EscapedText, j);
    FallbackIgnoresEscaping(todo[j].text);
  }

  /** A returned id that was never requested and whose value is not a number scores the neutral 5. */
  lemma UnrequestedNonNumericIsNeutral(todo: seq<Message>, raw: map<string, RawValue>, id: string)
    requires forall k :: k in raw ==> !IsEmptyArray(raw[k])
    requires id in raw && !FlatValue(raw[id]).Num?
    requires id !in Ids(todo)
    ensures id in ScoreReply(todo, Some(raw)) && ScoreReply(todo, Some(raw))[id] == 5
  {
    LastWinsKeys(todo, EscapedText);
    assert FallbackScore("") == 5 by {
      assert Lower("") == "";
    }
  }

  /**
   * A list whose first element is an object with a "score" key stands for
   * that score, whatever other keys and elements there are. Any other value
   * stands for itself: a value that is not a list, and a non-empty list
   * whose first element is not such an object. A value that stands for a
   * list is not a number, so its id takes the fallback score.
   */
  lemma FlatValueCases(v: RawValue, f: map<string, RawValue>, rest: seq<RawValue>,
                       id: string, idMap: map<string, string>)
    ensures "score" in f ==> FlatValue(Array([Object(f)] + rest)) == f["score"]
    ensures !v.Array? ==> FlatValue(v) == v
    ensures v.Array? && v.items != [] && !(v.items[0].Object? && "score" in v.items[0].fields) ==>
              FlatValue(v) == v
              && ScoreOf(id, FlatValue(v), idMap) == FallbackScore(if id in idMap then idMap[id] else "")
  {
    assert ([Object(f)] + rest)[0] == Object(f);
  }
}

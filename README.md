# Butterfly sentiment analyzer: a verified model of the incremental scorer

The Butterfly analyzer keeps a running "sentiment" mean over a growing
stream of chat messages. Each call to `analyze_chat` normalises the raw
chat records, drops the ones whose id already has a score, and queues the
rest. When a scoring client exists and at least `CALL_INTERVAL` (5) seconds
have passed since the last call, it sends every pending message whose id
has no score yet to a language model in one prompt. It reads back a JSON object of scores, clamps
each score to [1, 10], and merges the scores into the store. A keyword
heuristic (`fallback_score`) covers two cases: a reply value that is not a
number (per id), and a call or parse that fails (for the whole batch).
`analyze_chat` returns the mean of the stored scores, or 0 when none are
stored.

This project models that engine (`butterfly_analyzer.py`) and proves its
properties in Dafny. The modules are:

- `Text`: the string operations the code relies on. These are Python's
  `str.strip`, `str.lower`, `in` on strings, `str.replace('"', '\\"')`,
  `removeprefix`/`removesuffix` and `"\n".join`.
- `Fallback`: `fallback_score` and its three outcomes.
- `Messages`: raw chat records, the normaliser (lines 97-104), the filter
  of unscored messages (line 106), and "last write wins" dictionaries.
- `Batch`: `batch_score_messages`. It covers the prompt, the reply
  decoding, the flattening of `[{"score": n}]` values, per-id fallback and
  clamping, and the whole-batch fallback. `BatchScores` is the
  specification. `BuildBatch`, `FlattenScores` and `ScoreFlat` are the
  loops of the source, each proved to compute its part of it.
- `Analyzer`: the module state (`processed_scores`, `pending_messages`,
  `t_last_call`) as the fields of class `Analyzer`. `Tick` specifies one
  `analyze_chat` call as a function of the old state. The method
  `Analyzer.AnalyzeChat` is proved to follow it, and lemmas about `Tick`
  state what a tick guarantees.

Some inputs become parameters:

- The chat-completion client is `Option<string -> Reply>`. `None` means no
  client was passed and none could be built from the environment. A reply
  is either `CallFailed` (the call raised) or the message content.
- `json.loads` is a parameter from text to an optional decoded value.
  `None` means it raised.
- The clock `time.time()` is the integer parameter `now`.

Where the code and its design description disagree, the model follows the
code:

- Without a client nothing is scored. The new messages stay pending, the
  stored scores do not change, and the mean of the old scores is returned
  (`NoClientNoScoring`, `NoClientQueuesTwice`). The design description says
  instead that every pending message gets its fallback score.
- A reply that parses but leaves out a requested id adds no score for that
  id, and the pending list is still cleared. A reply may also name ids that
  were never requested; those are stored too (`FlushWithParsedReply`).
- A message that is still unscored when the same chat is analysed again is
  queued again. The pending list can therefore hold the same message
  several times (`NoClientQueuesTwice`).
- The merge overwrites. The design expects an id with a stored score never
  to be scored again, but a parsed reply may name such an id, and its new
  score replaces the stored one (`ReplyOverwritesStoredScore`,
  `OverwriteExample`).
- A tick that brings no new message returns at once. It does not flush the
  pending list, even when the interval has passed (`NoNewsNoChange`).
- Per-id fallback scores the escaped text stored in `id_map`, while the
  whole-batch fallback scores the raw text. The two always agree
  (`FallbackIgnoresEscaping`).

## Model

| member | source | states |
|---|---|---|
| Text.IsSpace | butterfly_analyzer.py:66 | no contract; the characters Python's `str.isspace` accepts (ASCII tab to carriage return, the separators U+001C-U+001F, space, U+0085, U+00A0 and the Unicode space separators), which `str.strip` removes |
| Text.Strip | butterfly_analyzer.py:66 | the result is the slice of the input left after removing whitespace only: everything before it and after it is Python whitespace, and it neither starts nor ends with whitespace |
| Text.TrimStart | butterfly_analyzer.py:66 | the result is a suffix of the input; every character removed is whitespace and the first one kept is not |
| Text.TrimEnd | butterfly_analyzer.py:66 | the result is a prefix of the input; every character removed is whitespace and the last one kept is not |
| Text.RemovePrefix | butterfly_analyzer.py:68 | when the input starts with the prefix, prefix + result is the input; otherwise the input comes back unchanged |
| Text.RemoveSuffix | butterfly_analyzer.py:68 | when the input ends with the suffix, result + suffix is the input; otherwise the input comes back unchanged |
| Text.LowerChar | butterfly_analyzer.py:25 | each upper-case ASCII letter maps to its own lower-case letter (code point + 32); every other character is unchanged |
| Text.Lower | butterfly_analyzer.py:25 | same length as the input, lower-cased character by character |
| Text.LowerOfLower | butterfly_analyzer.py:25 | text without upper-case letters is its own lower-case form |
| Text.ContainsIffOccurs | butterfly_analyzer.py:26 | Python's substring test holds exactly when the word occurs at some index (both directions) |
| Text.Escape | butterfly_analyzer.py:41 | escaping never shortens the text, and every double quote in the result follows a backslash |
| Text.UnescapeEscape | butterfly_analyzer.py:41 | escaping loses nothing: unescaping the escaped text gives back the original |
| Text.LowerEscape | butterfly_analyzer.py:41 | lower-casing and escaping commute |
| Text.ContainsEscape | butterfly_analyzer.py:41 | a non-empty word without quotes or backslashes occurs in the escaped text exactly when it occurs in the raw text |
| Text.Contains | butterfly_analyzer.py:26 | Python's `word in text`: the word is a prefix of the text or of one of its suffixes (characterised by `Text.ContainsIffOccurs`) |
| Text.Join | butterfly_analyzer.py:48 | Python's `sep.join(lines)`: the lines with the separator between consecutive ones |
| Text.JoinContains | butterfly_analyzer.py:48 | every line appears in the newline-joined block |
| Fallback.MentionsAny | butterfly_analyzer.py:26-28 | no contract; `any(w in text for w in words)`: some keyword of the list occurs in the text |
| Fallback.FallbackScore | butterfly_analyzer.py:24-30 | the score is 2, 5 or 9, and it is 2 exactly when the lower-cased text contains a low-sentiment keyword |
| Fallback.FallbackScoreCases | butterfly_analyzer.py:24-30 | 9 exactly when there is no low keyword but a high keyword; 5 exactly when there is neither; always in [1, 10] |
| Fallback.FallbackIgnoresEscaping | butterfly_analyzer.py:84 | the escaped text that per-id fallback scores gets the same score as the raw text that whole-batch fallback scores |
| Fallback.BoringScoresTwo | butterfly_analyzer.py:26-27 | "this is boring" scores 2 |
| Fallback.WowScoresNine | butterfly_analyzer.py:28-29 | "wow amazing!" scores 9 |
| Fallback.LowMarkerWinsTie | butterfly_analyzer.py:26-29 | "tired but great" scores 2: a low keyword wins over a high one |
| Fallback.NeutralScoresFive | butterfly_analyzer.py:30 | "hello" scores 5 |
| Fallback.UpperCaseMarkerMatches | butterfly_analyzer.py:25-29 | "GREAT talk" scores 9: matching ignores case |
| Messages.Complete | butterfly_analyzer.py:99-103 | a record is complete when its id, author id and text are all present and non-empty |
| Messages.ToMessage | butterfly_analyzer.py:104 | a complete record gives a message whose id, author and text are all non-empty |
| Messages.Normalized | butterfly_analyzer.py:97-104 | never more messages than records, and every message kept has non-empty fields |
| Messages.NormalizedAppend | butterfly_analyzer.py:98-104 | records are normalised one by one in input order: normalising a concatenation concatenates the results |
| Messages.NormalizedSingle | butterfly_analyzer.py:99-104 | a single record is kept exactly when its id, author id and text are all present and non-empty |
| Messages.Normalize | butterfly_analyzer.py:97-104 | the loop's result is the normalised sequence of the records |
| Messages.Unscored | butterfly_analyzer.py:106 | the filter never lengthens its input |
| Messages.UnscoredMembers | butterfly_analyzer.py:106 | a message survives exactly when it was in the input and its id has no score |
| Messages.UnscoredEmpty | butterfly_analyzer.py:106-107 | nothing survives exactly when every id already has a score |
| Messages.UnscoredAppend | butterfly_analyzer.py:106 | the filter distributes over concatenation |
| Messages.LastWins | butterfly_analyzer.py:43-89 | no contract; the dictionary built by assigning each message's value under its id in order, so a later message with the same id overwrites an earlier one (the id map of line 43, the comprehension of line 89) |
| Messages.LastWinsKeys | butterfly_analyzer.py:43 | the dictionary built message by message has exactly the messages' ids as keys |
| Messages.LastWinsValue | butterfly_analyzer.py:89 | for a repeated id, the value stored is that of its last message |
| Batch.EntryLine | butterfly_analyzer.py:41-42 | the prompt line of a message: `- `, its id, `: ` and its escaped text in double quotes |
| Batch.Prompt | butterfly_analyzer.py:48-60 | the fixed instructions followed by the newline-joined message lines and a final newline |
| Batch.StripFence | butterfly_analyzer.py:67-68 | content starting with the json fence loses that prefix and then a trailing fence; other content is unchanged |
| Batch.DecodeReply | butterfly_analyzer.py:62-73 | the reply's fields, or nothing when the call raised, `json.loads` raised on the stripped and unfenced content, or the decoded value is not an object |
| Batch.FlatValue | butterfly_analyzer.py:74-77 | the score inside a list whose first element is an object with a "score" key; otherwise the value itself |
| Batch.Flattened | butterfly_analyzer.py:72-77 | no contract; the reply with each value replaced by `FlatValue` of it, or nothing when some value is an empty list, whose `value[0]` raises and sends the batch to the whole-batch fallback |
| Batch.Scored | butterfly_analyzer.py:79-85 | no contract; one entry per returned id, holding `ScoreOf` of its flattened value |
| Batch.ScoreOf | butterfly_analyzer.py:81-85 | the clamped number of a numeric value, otherwise the clamped fallback score of the id's id-map text, or of "" when the id was not requested |
| Batch.ScoreReply | butterfly_analyzer.py:72-89 | the whole-batch fallback for an unusable reply or one holding an empty list, otherwise one score per returned id |
| Batch.BatchScores | butterfly_analyzer.py:33-89 | nothing when every message is scored; otherwise the scores drawn from the client's reply to the prompt for the unscored messages |
| Batch.Clamp | butterfly_analyzer.py:85 | the result lies in [1, 10]; values in range are unchanged, lower ones become 1 and higher ones 10 |
| Batch.EntryLines | butterfly_analyzer.py:42 | one prompt line per message |
| Batch.PromptListsEveryMessage | butterfly_analyzer.py:42-60 | the prompt contains the line of every message of the batch |
| Batch.StripFenceUnwraps | butterfly_analyzer.py:67-68 | a reply wrapped in a json fence is unwrapped to its body; a reply without the opening fence is left unchanged |
| Batch.BuildBatch | butterfly_analyzer.py:34-43 | the loop yields the prompt lines of the unscored messages, and the id map sends each of their ids to the escaped text of its last message |
| Batch.FlattenScores | butterfly_analyzer.py:72-77 | the loop yields the flattened reply, or nothing when some value is an empty list (indexing it raises) |
| Batch.ScoreFlat | butterfly_analyzer.py:79-85 | the loop yields one clamped score per returned id: its number, otherwise the fallback score of its id-map text |
| Batch.FlatValueCases | butterfly_analyzer.py:74-77 | a list whose first element is an object with a "score" key stands for that score, whatever its other keys and elements; a value that is not a list, and a non-empty list whose first element is not such an object, stand for themselves, and such a list takes the fallback score |
| Batch.NothingToScore | butterfly_analyzer.py:38-46 | when every message already has a score the result is empty, whatever the client would answer |
| Batch.ScoreReplyInRange | butterfly_analyzer.py:79-89 | every score drawn from a reply lies in [1, 10] |
| Batch.BatchScoresInRange | butterfly_analyzer.py:33-89 | every score a batch yields lies in [1, 10] |
| Batch.WholeBatchFallback | butterfly_analyzer.py:87-89 | a failed call or parse scores exactly the ids of the batch, each with the fallback score of its raw text; an empty list in the reply leads to the same result |
| Batch.BatchIsUnscored | butterfly_analyzer.py:36-39 | the ids sent are exactly the ids of the input messages that have no stored score |
| Batch.ParsedReplyKeys | butterfly_analyzer.py:72-86 | a parsed reply yields scores for exactly the ids it names; a numeric value becomes that number, clamped |
| Batch.PerIdFallback | butterfly_analyzer.py:81-84 | a requested id with a non-numeric value gets the fallback score of its text |
| Batch.UnrequestedNonNumericIsNeutral | butterfly_analyzer.py:84 | an id nobody asked about, with a non-numeric value, is stored with the neutral score 5 |
| Analyzer.Sum | butterfly_analyzer.py:108-133 | no contract; `sum(processed_scores.values())`, the total of the stored scores (bounded by `Analyzer.SumBounds`) |
| Analyzer.Mean | butterfly_analyzer.py:133 | the sum of the stored scores divided by their number, or 0 when none are stored |
| Analyzer.SumBounds | butterfly_analyzer.py:108 | n scores in [1, 10] sum to between n and 10n |
| Analyzer.MeanInRange | butterfly_analyzer.py:133 | the mean is 0 with nothing stored, and in [1, 10] otherwise |
| Analyzer.MeanOfThree | butterfly_analyzer.py:133 | scores 2, 9 and 5 have the mean 16/3 |
| Analyzer.ComputeMean | butterfly_analyzer.py:133 | the summing loop returns the arithmetic mean of the stored scores, or 0 when there are none |
| Analyzer.Effective | butterfly_analyzer.py:94-95 | no contract; the store the call works on: the one handed in as `processed` when there is one, otherwise the stored one |
| Analyzer.NewMessages | butterfly_analyzer.py:106 | no contract; the normalised messages of the call whose id has no score in the effective store (characterised by `Messages.UnscoredMembers`) |
| Analyzer.Flushes | butterfly_analyzer.py:107-120 | no contract; a call flushes when it brings a new message (otherwise it returns at line 107), a client exists and at least 5 seconds have passed since the last call; `Analyzer.TickOutcome` gives what a call does in each case |
| Analyzer.FlushBatch | butterfly_analyzer.py:36-39 | no contract; the messages a flush sends: the pending list with the new messages appended (line 121), keeping those whose id has no score (lines 38-39) |
| Analyzer.Tick | butterfly_analyzer.py:92-133 | one call of `analyze_chat`: the new session state and the returned mean as a function of the old state, the chat, the client, the store handed in and the time |
| Analyzer.TickOutcome | butterfly_analyzer.py:106-133 | a flushing tick keeps every old id (a score may be replaced), adds only ids the batch scored, empties the queue and records the time; any other tick only queues the new messages; the result is the mean of the new store |
| Analyzer.NoClientNoScoring | butterfly_analyzer.py:110-120 | without a client the store and the time stay as they were and the new messages are queued |
| Analyzer.NoNewsNoChange | butterfly_analyzer.py:106-108 | a tick whose messages are all scored keeps the queue and the time, even when the interval has passed, and repeating it changes nothing |
| Analyzer.ThrottleSpacing | butterfly_analyzer.py:120-131 | after a flush at time t, no tick before t + 5 flushes, and such a tick leaves the time at t |
| Analyzer.FlushBatchNonEmpty | butterfly_analyzer.py:106-121 | a flushing tick has at least one message to send: the pending messages, new ones included, whose id has no score |
| Analyzer.FlushScores | butterfly_analyzer.py:121-122 | a flush merges into the store the scores drawn from the reply to the prompt for exactly that batch |
| Analyzer.FlushWithParsedReply | butterfly_analyzer.py:120-130 | with a parsed reply the store gains exactly the ids the reply names; a requested id the reply omits stays unscored, yet the queue is emptied |
| Analyzer.FlushWithUnusableReply | butterfly_analyzer.py:120-130 | with a failed call or parse the store gains exactly the ids of the batch and the queue is emptied |
| Analyzer.ReplyOverwritesStoredScore | butterfly_analyzer.py:122 | an id the parsed reply scores with a number gets that clamped number, even when it already had a stored score |
| Analyzer.OverwriteExample | butterfly_analyzer.py:120-122 | "a" stored as 2 and scored 9 by a reply to a batch holding only "b" ends up stored as 9 |
| Analyzer.ScoresStayInRange | butterfly_analyzer.py:120-133 | a store with scores in [1, 10] keeps them there, and the returned mean is 0 or in [1, 10] |
| Analyzer.DisjointPreserved | butterfly_analyzer.py:106-130 | when the caller hands in no store, no queued message has a stored score before or after the tick |
| Analyzer.ResetBreaksDisjoint | butterfly_analyzer.py:94-95 | a store handed in by the caller can hold the id of a queued message |
| Analyzer.NoClientQueuesTwice | butterfly_analyzer.py:106-120 | without a client, two messages are queued with mean 0, and the same chat a second time queues both again |
| Analyzer.FailedFirstFlush | butterfly_analyzer.py:120-131 | a first tick whose call fails stores the raw-text fallback of both messages, empties the queue and records the time |
| Analyzer.FailedCallFallsBack | butterfly_analyzer.py:119-133 | "this is boring" and "wow amazing!" with a failing call are stored as 2 and 9, and the mean is 5.5 |
| Analyzer.Analyzer.constructor | butterfly_analyzer.py:17-20 | a fresh session has no scores, no pending messages and last-call time 0 |
| Analyzer.Analyzer.BatchScoreMessages | butterfly_analyzer.py:33-89 | returns the batch scores specified by `BatchScores` for the fields' stored scores |
| Analyzer.Analyzer.AnalyzeChat | butterfly_analyzer.py:92-133 | the new field values and the returned mean are those `Tick` gives for the old field values |

## Left out

- Reading the API key from the environment and building the Mistral
  client (lines 9-14 and 113-117) are not modelled. Their outcome is the
  optional client parameter.
- The network call (lines 62-65) is a parameter. So is `json.loads`
  (line 70): it decodes into numbers, other scalars, lists and objects,
  or raises.
- `int(round(float(val)))` (line 82) is not modelled. Floating point and
  banker's rounding are out of scope. A value for which
  `int(round(float(val)))` succeeds enters the model as `Num` of that
  integer. Every other scalar is `Other` and takes the per-id fallback;
  this includes NaN and the infinities, which `json.loads` and `float()`
  accept but `round` rejects.
- The `time.time()` clock (line 119) is the integer parameter `now`.
  Fractional seconds are not modelled.
- The `print` calls (lines 69, 88 and 123-129) only log, and they are
  left out.
- `Text.Lower`: changes only the ASCII letters A-Z, where Python's
  `str.lower` also changes non-ASCII letters.
- A reply whose content is not a string makes `.strip()` (line 66)
  raise inside the `try` of line 61, so the whole batch takes the
  fallback of lines 87-89, exactly as a failed call does. The model
  represents such a reply by `CallFailed`, with the same outcome.
- A record whose `attributes` value is present but not a dictionary
  (null included) makes `attrs.get` raise (lines 100-102). The model has
  only records without that key, which count as an empty dictionary, and
  records with a dictionary there.
- Record fields and reply keys are modelled as strings. The source
  accepts any truthy JSON value as id, author id and text (line 103), and
  three cases then raise or loop, none of which the model has. A truthy
  text that is not a string is queued (line 110), then `.replace` raises
  at line 41, outside any `try`: the message stays pending, `t_last_call`
  is not updated, and every later flushing call raises again. A chat item
  that is not a dictionary makes `item.get` raise at line 99. A numeric
  id comes back from `json.loads` as a string key (lines 73 and 122),
  which never equals the number at line 106, so that message is queued
  and sent again on every flush.
- The dictionary passed as `processed` is stored by reference
  (line 95), so later updates are visible to the caller. The model copies
  it as a value; the aliasing is not modelled.
- `chat_poller.py` is not part of this model.

/**
 * The incremental analyzer: the session state (stored scores, pending
 * messages, time of the last flush), one analysis tick over it, and the
 * running mean it returns.
 *
 * `Tick` specifies a tick as a function of the old state and the tick's
 * inputs; class `Analyzer` holds the state in fields and its method
 * `AnalyzeChat` is proved to follow `Tick`. The properties of a tick are
 * lemmas about `Tick`.
 */
module Analyzer {
  import opened Wrappers
  import opened Messages
  import opened Batch
  import opened Fallback

  /** Minimum number of seconds between two remote scoring calls. */
  const CallInterval: int := 5

  /** The session state: scores by message id, messages waiting to be scored, time of the last flush. */
  datatype Session = Session(processed: map<string, int>, pending: seq<Message>, tLastCall: int)

  /** A tick's new state and the mean it returns. */
  datatype TickResult = TickResult(session: Session, mean: real)

  /** The sum of the stored scores. */
  ghost function Sum(scores: map<string, int>): int
    decreases |scores.Keys|
  {
    if scores == map[] then 0
    else
      var k :| k in scores;
      assert (scores - {k}).Keys == scores.Keys - {k};
      scores[k] + Sum(scores - {k})
  }

  /** The sum can be taken starting from any stored id. */
  lemma {:induction false} SumRemove(scores: map<string, int>, k: string)
    requires k in scores
    ensures Sum(scores) == scores[k] + Sum(scores - {k})
    decreases |scores.Keys|
  {
    var j :| j in scores && Sum(scores) == scores[j] + Sum(scores - {j});
    if j != k {
      assert (scores - {j}).Keys == scores.Keys - {j};
      assert (scores - {k}).Keys == scores.Keys - {k};
      SumRemove(scores - {j}, k);
      SumRemove(scores - {k}, j);
      assert scores - {j} - {k} == scores - {k} - {j};
    }
  }

  /** The running mean: the arithmetic mean of the stored scores, 0 when there are none. */
  ghost function Mean(scores: map<string, int>): real {
    if |scores| == 0 then 0.0 else Sum(scores) as real / |scores| as real
  }

  /** Every stored score lies in [1, 10]. */
  ghost predicate ScoresInRange(scores: map<string, int>) {
    forall k :: k in scores ==> 1 <= scores[k] <= 10
  }

  lemma {:induction false} SumBounds(scores: map<string, int>)
    requires ScoresInRange(scores)
    ensures |scores| <= Sum(scores) <= 10 * |scores|
    decreases |scores.Keys|
  {
    if scores != map[] {
      var k :| k in scores;
      assert (scores - {k}).Keys == scores.Keys - {k};
      SumRemove(scores, k);
      SumBounds(scores - {k});
    }
  }

  /** Scores in [1, 10] have a mean in [1, 10], or the mean is 0 when nothing is stored. */
  lemma MeanInRange(scores: map<string, int>)
    requires ScoresInRange(scores)
    ensures |scores| == 0 ==> Mean(scores) == 0.0
    ensures |scores| > 0 ==> 1.0 <= Mean(scores) <= 10.0
  {
    if |scores| > 0 {
      SumBounds(scores);
      var n := |scores| as real;
      var total := Sum(scores) as real;
      assert Mean(scores) == total / n;
      DivisionBounds(total, n);
    }
  }

  lemma DivisionBounds(total: real, n: real)
    requires n > 0.0 && n <= total <= 10.0 * n
    ensures 1.0 <= total / n <= 10.0
  {
    var q := total / n;
    assert (q - 1.0) * n == total - n;
    assert (10.0 - q) * n == 10.0 * n - total;
  }

  /** Three stored scores 2, 9 and 5 have the mean 16/3. */
  lemma MeanOfThree(scores: map<string, int>)
    requires scores == map["a" := 2, "b" := 9, "c" := 5]
    ensures Mean(scores) == 16.0 / 3.0
  {
    SumRemove(scores, "a");
    var rest := scores - {"a"};
    assert rest == map["b" := 9, "c" := 5];
    SumRemove(rest, "b");
    var last := rest - {"b"};
    assert last == map["c" := 5];
    SumRemove(last, "c");
    assert last - {"c"} == map[];
    assert scores.Keys == {"a", "b", "c"};
    assert |scores| == 3;
  }

  /** The mean computation: a loop over the stored scores. */
  method ComputeMean(scores: map<string, int>) returns (mean: real)
    ensures mean == Mean(scores)
  {
    if |scores| == 0 {
      return 0.0;
    }
    var total := 0;
    var rest := scores;
    while rest != map[]
      invariant total + Sum(rest) == Sum(scores)
      decreases |rest.Keys|
    {
      var k :| k in rest;
      SumRemove(rest, k);
      assert (rest - {k}).Keys == rest.Keys - {k};
      total := total + rest[k];
      rest := rest - {k};
    }
    mean := total as real / |scores| as real;
  }

  /** The stored scores a tick works with: those handed in by the caller, if any, else the session's. */
  function Effective(s: Session, reset: Option<map<string, int>>): map<string, int> {
    if reset.Some? then reset.value else s.processed
  }

  /** The normalised messages of this tick whose id has no score yet. */
  function NewMessages(s: Session, chatData: seq<RawRecord>, reset: Option<map<string, int>>): seq<Message> {
    Unscored(Normalized(chatData), Effective(s, reset))
  }

  /** A tick flushes: it brings a new message, a client exists, and the interval has passed. */
  predicate Flushes(s: Session, chatData: seq<RawRecord>, client: Option<string -> Reply>,
                    reset: Option<map<string, int>>, now: int)
  {
    NewMessages(s, chatData, reset) != [] && client.Some? && now - s.tLastCall >= CallInterval
  }

  /**
   * One analysis tick. Without a new message the state is kept. Otherwise
   * the new messages join the pending list, and when a client exists and
   * the interval has passed the pending messages whose id has no score are
   * scored, the scores merged into the store and the pending list cleared.
   */
  ghost function Tick(s: Session, chatData: seq<RawRecord>, client: Option<string -> Reply>,
                      reset: Option<map<string, int>>, now: int,
                      loads: string -> Option<RawValue>): TickResult
  {
    var processed := Effective(s, reset);
    var newMessages := NewMessages(s, chatData, reset);
    if newMessages == [] then TickResult(Session(processed, s.pending, s.tLastCall), Mean(processed))
    else
      var pending := s.pending + newMessages;
      if client.Some? && pending != [] && now - s.tLastCall >= CallInterval then
        var merged := processed + BatchScores(pending, processed, client.value, loads);
        TickResult(Session(merged, [], now), Mean(merged))
      else
        TickResult(Session(processed, pending, s.tLastCall), Mean(processed))
  }

  /** The messages a flush sends to the scorer: the pending list, new messages included, minus scored ids. */
  function FlushBatch(s: Session, chatData: seq<RawRecord>, reset: Option<map<string, int>>): seq<Message> {
    Unscored(s.pending + NewMessages(s, chatData, reset), Effective(s, reset))
  }

  /**
   * The two outcomes of a tick. A flushing tick keeps every stored score's
   * id, adds the batch's scores, empties the pending list and records the
   * time; any other tick leaves the scores and the time alone and only
   * appends the new messages to the pending list. The returned value is
   * always the mean of the scores after the tick.
   */
  lemma TickOutcome(s: Session, chatData: seq<RawRecord>, client: Option<string -> Reply>,
                    reset: Option<map<string, int>>, now: int, loads: string -> Option<RawValue>)
    ensures var r := Tick(s, chatData, client, reset, now, loads);
            var p := Effective(s, reset);
            r.mean == Mean(r.session.processed)
            && (Flushes(s, chatData, client, reset, now) ==>
                  r.session.pending == [] && r.session.tLastCall == now
                  && p.Keys <= r.session.processed.Keys
                  && forall k :: k in r.session.processed && k !in p ==> k in BatchScores(s.pending + NewMessages(s, chatData, reset), p, client.value, loads))
            && (!Flushes(s, chatData, client, reset, now) ==>
                  r.session == Session(p, s.pending + NewMessages(s, chatData, reset), s.tLastCall))
  {
    if NewMessages(s, chatData, reset) == [] {
      assert s.pending + [] == s.pending;
    }
  }

  /** Without a client nothing is ever scored: each tick only queues its new messages. */
  lemma NoClientNoScoring(s: Session, chatData: seq<RawRecord>, reset: Option<map<string, int>>,
                          now: int, loads: string -> Option<RawValue>)
    ensures Tick(s, chatData, None, reset, now, loads) ==
            TickResult(Session(Effective(s, reset), s.pending + NewMessages(s, chatData, reset), s.tLastCall),
                       Mean(Effective(s, reset)))
  {
    TickOutcome(s, chatData, None, reset, now, loads);
  }

  /**
   * A tick whose messages all have a score changes nothing but the stored
   * scores the caller hands in, even when messages are pending and the
   * interval has passed; repeating it is then a no-op.
   */
  lemma NoNewsNoChange(s: Session, chatData: seq<RawRecord>, client: Option<string -> Reply>,
                       reset: Option<map<string, int>>, now: int, loads: string -> Option<RawValue>,
                       client2: Option<string -> Reply>, now2: int, loads2: string -> Option<RawValue>)
    requires forall m :: m in Normalized(chatData) ==> m.id in Effective(s, reset)
    ensures Tick(s, chatData, client, reset, now, loads).session == Session(Effective(s, reset), s.pending, s.tLastCall)
    ensures var r := Tick(s, chatData, client, reset, now, loads);
            Tick(r.session, chatData, client2, None, now2, loads2) == r
  {
    UnscoredEmpty(Normalized(chatData), Effective(s, reset));
  }

  /** After a flush at `now1`, no tick earlier than `now1 + CallInterval` flushes. */
  lemma ThrottleSpacing(s: Session, chat1: seq<RawRecord>, client1: Option<string -> Reply>,
                        reset1: Option<map<string, int>>, now1: int, loads1: string -> Option<RawValue>,
                        chat2: seq<RawRecord>, client2: Option<string -> Reply>,
                        reset2: Option<map<string, int>>, now2: int, loads2: string -> Option<RawValue>)
    requires Flushes(s, chat1, client1, reset1, now1)
    requires now2 < now1 + CallInterval
    ensures var r1 := Tick(s, chat1, client1, reset1, now1, loads1).session;
            var r2 := Tick(r1, chat2, client2, reset2, now2, loads2).session;
            !Flushes(r1, chat2, client2, reset2, now2)
            && r2.processed == Effective(r1, reset2) && r2.tLastCall == now1
  {
    var r1 := Tick(s, chat1, client1, reset1, now1, loads1).session;
    TickOutcome(s, chat1, client1, reset1, now1, loads1);
    TickOutcome(r1, chat2, client2, reset2, now2, loads2);
  }

  /** A flushing tick always has something to send: its new messages are unscored. */
  lemma FlushBatchNonEmpty(s: Session, chatData: seq<RawRecord>, client: Option<string -> Reply>,
                           reset: Option<map<string, int>>, now: int)
    requires Flushes(s, chatData, client, reset, now)
    ensures FlushBatch(s, chatData, reset) != []
    ensures forall m :: m in FlushBatch(s, chatData, reset) <==>
              m in s.pending + NewMessages(s, chatData, reset) && m.id !in Effective(s, reset)
  {
    var p := Effective(s, reset);
    var news := NewMessages(s, chatData, reset);
    UnscoredMembers(Normalized(chatData), p);
    UnscoredMembers(s.pending + news, p);
    assert news[0] in s.pending + news;
  }

  /** What a flush sends to the scorer, in the prompt, and what it merges back. */
  lemma FlushScores(s: Session, chatData: seq<RawRecord>, client: Option<string -> Reply>,
                    reset: Option<map<string, int>>, now: int, loads: string -> Option<RawValue>)
    requires Flushes(s, chatData, client, reset, now)
    ensures var todo := FlushBatch(s, chatData, reset);
            Tick(s, chatData, client, reset, now, loads).session.processed ==
              Effective(s, reset) + ScoreReply(todo, DecodeReply(client.value(Prompt(todo)), loads))
  {
    FlushBatchNonEmpty(s, chatData, client, reset, now);
  }

  /**
   * A flush whose reply parses: exactly the ids the reply names are added,
   * so a requested id the reply leaves out stays unscored and an id nobody
   * asked about is stored all the same.
   */
  lemma FlushWithParsedReply(s: Session, chatData: seq<RawRecord>, client: Option<string -> Reply>,
                             reset: Option<map<string, int>>, now: int, loads: string -> Option<RawValue>,
                             raw: map<string, RawValue>)
    requires Flushes(s, chatData, client, reset, now)
    requires DecodeReply(client.value(Prompt(FlushBatch(s, chatData, reset))), loads) == Some(raw)
    requires forall k :: k in raw ==> !IsEmptyArray(raw[k])
    ensures var r := Tick(s, chatData, client, reset, now, loads).session;
            r.processed.Keys == Effective(s, reset).Keys + raw.Keys && r.pending == []
    ensures var r := Tick(s, chatData, client, reset, now, loads).session;
            forall m :: m in FlushBatch(s, chatData, reset) && m.id !in raw ==> m.id !in r.processed
  {
    var todo := FlushBatch(s, chatData, reset);
    FlushScores(s, chatData, client, reset, now, loads);
    ParsedReplyKeys(todo, raw);
    FlushBatchNonEmpty(s, chatData, client, reset, now);
  }

  /** A flush whose call fails or whose reply does not parse scores every message it sent. */
  lemma FlushWithUnusableReply(s: Session, chatData: seq<RawRecord>, client: Option<string -> Reply>,
                               reset: Option<map<string, int>>, now: int, loads: string -> Option<RawValue>)
    requires Flushes(s, chatData, client, reset, now)
    requires DecodeReply(client.value(Prompt(FlushBatch(s, chatData, reset))), loads) == None
    ensures var r := Tick(s, chatData, client, reset, now, loads).session;
            r.processed.Keys == Effective(s, reset).Keys + Ids(FlushBatch(s, chatData, reset)) && r.pending == []
  {
    var todo := FlushBatch(s, chatData, reset);
    FlushScores(s, chatData, client, reset, now, loads);
    LastWinsKeys(todo, RawFallback);
  }

  /** Ticks keep every stored score in [1, 10], and the returned mean is 0 or in [1, 10]. */
  lemma ScoresStayInRange(s: Session, chatData: seq<RawRecord>, client: Option<string -> Reply>,
                          reset: Option<map<string, int>>, now: int, loads: string -> Option<RawValue>)
    requires ScoresInRange(Effective(s, reset))
    ensures var r := Tick(s, chatData, client, reset, now, loads);
            ScoresInRange(r.session.processed)
            && (r.mean == 0.0 || 1.0 <= r.mean <= 10.0)
  {
    var r := Tick(s, chatData, client, reset, now, loads);
    if Flushes(s, chatData, client, reset, now) {
      var p := Effective(s, reset);
      BatchScoresInRange(s.pending + NewMessages(s, chatData, reset), p, client.value, loads);
    }
    MeanInRange(r.session.processed);
  }

  /**
   * The merge overwrites: an id the parsed reply scores with a number gets
   * that number, clamped, whether or not it already had a stored score.
   */
  lemma ReplyOverwritesStoredScore(s: Session, chatData: seq<RawRecord>, client: Option<string -> Reply>,
                                   reset: Option<map<string, int>>, now: int, loads: string -> Option<RawValue>,
                                   raw: map<string, RawValue>, k: string)
    requires Flushes(s, chatData, client, reset, now)
    requires DecodeReply(client.value(Prompt(FlushBatch(s, chatData, reset))), loads) == Some(raw)
    requires forall k :: k in raw ==> !IsEmptyArray(raw[k])
    requires k in raw && FlatValue(raw[k]).Num?
    ensures var r := Tick(s, chatData, client, reset, now, loads).session;
            k in r.processed && r.processed[k] == Clamp(FlatValue(raw[k]).n)
  {
    FlushScores(s, chatData, client, reset, now, loads);
    ParsedReplyKeys(FlushBatch(s, chatData, reset), raw);
  }

  /** The single new message of a one-record chat, over a store that lacks its id. */
  lemma OneNewMessage(s: Session, r: RawRecord)
    requires Complete(r) && s.pending == [] && r.id.value !in s.processed
    ensures NewMessages(s, [r], None) == [ToMessage(r)]
    ensures FlushBatch(s, [r], None) == [ToMessage(r)]
  {
    var m := ToMessage(r);
    NormalizedSingle(r);
    UnscoredSnoc([], m, s.processed);
    assert [] + [m] == [m];
  }

  /** A reply whose content decodes to an object yields that object's fields. */
  lemma DecodesTo(reply: Reply, loads: string -> Option<RawValue>, raw: map<string, RawValue>)
    requires reply.Content? && forall q :: loads(q) == Some(Object(raw))
    ensures DecodeReply(reply, loads) == Some(raw)
  {
    assert loads(StripFence(Text.Strip(reply.text))) == Some(Object(raw));
  }

  /**
   * "a" is stored as 2, the new message "b" is sent, and the reply scores
   * "a" as 9: the stored 2 is replaced by 9.
   */
  lemma OverwriteExample(s: Session, r: RawRecord, raw: map<string, RawValue>,
                         client: string -> Reply, loads: string -> Option<RawValue>)
    requires s.processed == map["a" := 2] && s.pending == [] && s.tLastCall == 0
    requires Complete(r) && r.id == Some("b")
    requires raw == map["a" := Num(9), "b" := Num(7)]
    requires forall q :: client(q).Content?
    requires forall q :: loads(q) == Some(Object(raw))
    ensures var stored := Tick(s, [r], Some(client), None, 10, loads).session.processed;
            "a" in stored && stored["a"] == 9
  {
    OverwriteSetup(s, r, raw, client, loads);
    ReplyOverwritesStoredScore(s, [r], Some(client), None, 10, loads, raw, "a");
  }

  /** The example's tick flushes, and the reply decodes to the scores of "a" and "b". */
  lemma OverwriteSetup(s: Session, r: RawRecord, raw: map<string, RawValue>,
                       client: string -> Reply, loads: string -> Option<RawValue>)
    requires s.processed == map["a" := 2] && s.pending == [] && s.tLastCall == 0
    requires Complete(r) && r.id == Some("b")
    requires forall q :: client(q).Content?
    requires forall q :: loads(q) == Some(Object(raw))
    ensures Flushes(s, [r], Some(client), None, 10)
    ensures DecodeReply(client(Prompt(FlushBatch(s, [r], None))), loads) == Some(raw)
  {
    OneNewMessage(s, r);
    DecodesTo(client(Prompt(FlushBatch(s, [r], None))), loads, raw);
  }

  /** No pending message has a stored score. */
  ghost predicate Disjoint(s: Session) {
    forall m :: m in s.pending ==> m.id !in s.processed
  }

  /** A tick that keeps the session's own scores keeps the pending list free of scored ids. */
  lemma DisjointPreserved(s: Session, chatData: seq<RawRecord>, client: Option<string -> Reply>,
                          now: int, loads: string -> Option<RawValue>)
    requires Disjoint(s)
    ensures Disjoint(Tick(s, chatData, client, None, now, loads).session)
  {
    TickOutcome(s, chatData, client, None, now, loads);
    UnscoredMembers(Normalized(chatData), s.processed);
  }

  /** A tick whose stored scores are replaced can leave a pending message with a score. */
  lemma ResetBreaksDisjoint(s: Session, m: Message, now: int, loads: string -> Option<RawValue>)
    requires s == Session(map[], [m], 0)
    ensures Disjoint(s)
    ensures !Disjoint(Tick(s, [], None, Some(map[m.id := 5]), now, loads).session)
  {
    assert Normalized([]) == [];
  }

  /** Two complete records normalise to their two messages. */
  lemma TwoRecords(r1: RawRecord, r2: RawRecord)
    requires Complete(r1) && Complete(r2)
    ensures Normalized([r1, r2]) == [ToMessage(r1), ToMessage(r2)]
  {
    NormalizedAppend([r1], [r2]);
    NormalizedSingle(r1);
    NormalizedSingle(r2);
    assert [r1] + [r2] == [r1, r2];
  }

  /** Two messages with no stored scores both pass the filter. */
  lemma TwoUnscored(m1: Message, m2: Message, ms: seq<Message>, none: map<string, int>)
    requires ms == [m1, m2] && none == map[]
    ensures Unscored(ms, none) == ms
  {
    UnscoredSnoc([m1], m2, none);
    UnscoredSnoc([], m1, none);
    assert [] + [m1] == [m1];
    assert [m1] + [m2] == ms;
  }

  /**
   * Without a client, a chat of two messages is queued with mean 0, and
   * the same chat on the next tick is queued a second time: the pending
   * list then holds each message twice.
   */
  lemma NoClientQueuesTwice(r1: RawRecord, r2: RawRecord, now: int, loads: string -> Option<RawValue>)
    requires r1 == RawRecord(Some("1"), Some(Attributes(Some("u1"), Some("hello"))))
    requires r2 == RawRecord(Some("2"), Some(Attributes(Some("u2"), Some("so boring"))))
    ensures var m1 := Message("1", "u1", "hello");
            var m2 := Message("2", "u2", "so boring");
            var t1 := Tick(Session(map[], [], 0), [r1, r2], None, None, now, loads);
            t1 == TickResult(Session(map[], [m1, m2], 0), 0.0)
            && Tick(t1.session, [r1, r2], None, None, now, loads).session == Session(map[], [m1, m2, m1, m2], 0)
  {
    var m1 := Message("1", "u1", "hello");
    var m2 := Message("2", "u2", "so boring");
    TwoRecords(r1, r2);
    TwoUnscored(m1, m2, [m1, m2], map[]);
    assert [] + [m1, m2] == [m1, m2];
    assert [m1, m2] + [m1, m2] == [m1, m2, m1, m2];
  }

  /** The whole-batch fallback over two messages with distinct ids. */
  lemma FallbackPair(m1: Message, m2: Message)
    requires m1.id != m2.id
    ensures LastWins([m1, m2], RawFallback) == map[m1.id := FallbackScore(m1.text), m2.id := FallbackScore(m2.text)]
  {
    LastWinsSnoc([m1], m2, RawFallback);
    LastWinsSnoc([], m1, RawFallback);
    assert [] + [m1] == [m1];
    assert [m1] + [m2] == [m1, m2];
  }

  lemma MeanOfTwo(scores: map<string, int>)
    requires scores == map["1" := 2, "2" := 9]
    ensures Mean(scores) == 5.5
  {
    SumRemove(scores, "1");
    var rest := scores - {"1"};
    assert rest == map["2" := 9];
    SumRemove(rest, "2");
    assert rest - {"2"} == map[];
    assert Sum(scores) == 11;
    assert scores.Keys == {"1", "2"};
    assert |scores| == 2;
  }

  /** A first flushing tick over two complete records with distinct ids whose call fails. */
  lemma FailedFirstFlush(r1: RawRecord, r2: RawRecord, client: string -> Reply, now: int,
                         loads: string -> Option<RawValue>)
    requires Complete(r1) && Complete(r2) && r1.id != r2.id
    requires forall q :: client(q) == CallFailed
    requires now >= CallInterval
    ensures Tick(Session(map[], [], 0), [r1, r2], Some(client), None, now, loads).session ==
            Session(LastWins([ToMessage(r1), ToMessage(r2)], RawFallback), [], now)
  {
    var s := Session(map[], [], 0);
    var m1 := ToMessage(r1);
    var m2 := ToMessage(r2);
    TwoRecords(r1, r2);
    TwoUnscored(m1, m2, [m1, m2], map[]);
    assert [] + [m1, m2] == [m1, m2];
    assert FlushBatch(s, [r1, r2], None) == [m1, m2];
    FlushScores(s, [r1, r2], Some(client), None, now, loads);
    TickOutcome(s, [r1, r2], Some(client), None, now, loads);
  }

  /**
   * A first tick over two messages whose scoring call fails: both get their
   * fallback score (2 for a low marker, 9 for a high one), nothing stays
   * pending, and the mean is 5.5.
   */
  lemma FailedCallFallsBack(r1: RawRecord, r2: RawRecord, t1: string, t2: string,
                            client: string -> Reply, loads: string -> Option<RawValue>)
    requires t1 == "this is boring" && t2 == "wow amazing!"
    requires r1 == RawRecord(Some("1"), Some(Attributes(Some("u1"), Some(t1))))
    requires r2 == RawRecord(Some("2"), Some(Attributes(Some("u2"), Some(t2))))
    requires forall q :: client(q) == CallFailed
    ensures Tick(Session(map[], [], 0), [r1, r2], Some(client), None, 10, loads) ==
            TickResult(Session(map["1" := 2, "2" := 9], [], 10), 5.5)
  {
    FailedFirstFlush(r1, r2, client, 10, loads);
    FallbackPair(ToMessage(r1), ToMessage(r2));
    BoringScoresTwo(t1);
    WowScoresNine(t2);
    MeanOfTwo(map["1" := 2, "2" := 9]);
  }

  /** The session object: the scores, pending list and last-call time live in its fields. */
  class Analyzer {
    var processed: map<string, int>
    var pending: seq<Message>
    var tLastCall: int

    /** The session state the fields hold. */
    function State(): Session
      reads this
    {
      Session(processed, pending, tLastCall)
    }

    /** A fresh session: nothing scored, nothing pending, last call at time 0. */
    constructor ()
      ensures State() == Session(map[], [], 0)
    {
      processed := map[];
      pending := [];
      tLastCall := 0;
    }

    /**
     * Scores the messages of `messages` that have no stored score: builds
     * the prompt, consults the client, and handles its reply, falling back
     * for the whole batch when the reply is unusable.
     */
    method BatchScoreMessages(messages: seq<Message>, client: string -> Reply,
                              loads: string -> Option<RawValue>) returns (scores: map<string, int>)
      ensures scores == BatchScores(messages, processed, client, loads)
    {
      var entries, idMap := BuildBatch(messages, processed);
      if entries == [] {
        return map[];
      }
      var messagesBlock := Text.Join(entries, "\n");
      var promptText := PromptHead + messagesBlock + "\n";
      var rawScores := DecodeReply(client(promptText), loads);
      var todo := Unscored(messages, processed);
      if rawScores.None? {
        return LastWins(todo, RawFallback);
      }
      var flatScores := FlattenScores(rawScores.value);
      if flatScores.None? {
        return LastWins(todo, RawFallback);
      }
      scores := ScoreFlat(flatScores.value, idMap);
    }

    /** One analysis tick: returns the running mean after it. */
    method AnalyzeChat(chatData: seq<RawRecord>, client: Option<string -> Reply>,
                       reset: Option<map<string, int>>, now: int,
                       loads: string -> Option<RawValue>) returns (mean: real)
      modifies this
      ensures TickResult(State(), mean) == Tick(old(State()), chatData, client, reset, now, loads)
    {
      if reset.Some? {
        processed := reset.value;
      }
      var simplified := Normalize(chatData);
      var newMessages := Unscored(simplified, processed);
      if newMessages == [] {
        mean := ComputeMean(processed);
        return;
      }
      pending := pending + newMessages;
      if client.Some? && pending != [] && now - tLastCall >= CallInterval {
        var newScores := BatchScoreMessages(pending, client.value, loads);
        processed := processed + newScores;
        pending := [];
        tLastCall := now;
      }
      mean := ComputeMean(processed);
    }
  }
}

/**
 * Chat messages: the raw records fetched from the chat service, the
 * normalised message shape, the normaliser that turns one into the other,
 * and the filter that keeps the messages whose id has no score yet.
 */
module Messages {
  import opened Wrappers

  /** A normalised chat message. */
  datatype Message = Message(id: string, authorId: string, text: string)

  /** The `attributes` object of a raw record; a key that is absent or null is `None`. */
  datatype Attributes = Attributes(authorId: Option<string>, textContent: Option<string>)

  /** A raw chat record as fetched; `attributes: None` stands for a record without that key. */
  datatype RawRecord = RawRecord(id: Option<string>, attributes: Option<Attributes>)

  /** Python truthiness of an optional string field: present and non-empty. */
  predicate Present(v: Option<string>) {
    v.Some? && v.value != ""
  }

  /** A record with a non-empty id, author id and text. */
  predicate Complete(r: RawRecord) {
    Present(r.id) && r.attributes.Some?
    && Present(r.attributes.value.authorId) && Present(r.attributes.value.textContent)
  }

  /** A message whose fields are all non-empty, as the normaliser admits them. */
  predicate WellFormed(m: Message) {
    m.id != "" && m.authorId != "" && m.text != ""
  }

  /** The message a complete record stands for. */
  function ToMessage(r: RawRecord): (m: Message)
    requires Complete(r)
    ensures WellFormed(m)
  {
    Message(r.id.value, r.attributes.value.authorId.value, r.attributes.value.textContent.value)
  }

  /** The normalised messages of `records`: the complete ones, in input order. */
  function Normalized(records: seq<RawRecord>): (ms: seq<Message>)
    ensures |ms| <= |records|
    ensures forall i :: 0 <= i < |ms| ==> WellFormed(ms[i])
  {
    if records == [] then []
    else
      var last := records[|records| - 1];
      Normalized(records[..|records| - 1]) + (if Complete(last) then [ToMessage(last)] else [])
  }

  /** Normalisation works record by record, in order: it distributes over concatenation. */
  lemma {:induction false} NormalizedAppend(a: seq<RawRecord>, b: seq<RawRecord>)
    ensures Normalized(a + b) == Normalized(a) + Normalized(b)
    decreases |b|
  {
    if b == [] {
      assert a + b == a;
    } else {
      var last := b[|b| - 1];
      assert (a + b)[..|a + b| - 1] == a + b[..|b| - 1];
      NormalizedAppend(a, b[..|b| - 1]);
    }
  }

  /** One record: kept, as its message, exactly when it is complete. */
  lemma NormalizedSingle(r: RawRecord)
    ensures Normalized([r]) == if Complete(r) then [ToMessage(r)] else []
  {
    assert [r][..0] == [];
  }

  /** The normaliser loop: walks the records and appends each complete one. */
  method Normalize(records: seq<RawRecord>) returns (simplified: seq<Message>)
    ensures simplified == Normalized(records)
  {
    simplified := [];
    var i := 0;
    while i < |records|
      invariant 0 <= i <= |records|
      invariant simplified == Normalized(records[..i])
    {
      var item := records[i];
      if Complete(item) {
        simplified := simplified + [ToMessage(item)];
      }
      assert records[..i + 1][..i] == records[..i];
      i := i + 1;
    }
    assert records[..i] == records;
  }

  /** The set of ids of a message sequence. */
  function Ids(ms: seq<Message>): set<string> {
    set m | m in ms :: m.id
  }

  /** The messages whose id has no score yet, in input order (duplicates kept). */
  function Unscored<V>(ms: seq<Message>, scores: map<string, V>): (r: seq<Message>)
    ensures |r| <= |ms|
  {
    if ms == [] then []
    else
      var last := ms[|ms| - 1];
      Unscored(ms[..|ms| - 1], scores) + (if last.id in scores then [] else [last])
  }

  /** A message survives the filter exactly when it was there and its id is unscored. */
  lemma {:induction false} UnscoredMembers<V>(ms: seq<Message>, scores: map<string, V>)
    ensures forall m :: m in Unscored(ms, scores) <==> m in ms && m.id !in scores
    decreases |ms|
  {
    if ms != [] {
      var init := ms[..|ms| - 1];
      UnscoredMembers(init, scores);
      assert ms == init + [ms[|ms| - 1]];
    }
  }

  /** Nothing is left exactly when every id already has a score. */
  lemma {:induction false} UnscoredEmpty<V>(ms: seq<Message>, scores: map<string, V>)
    ensures Unscored(ms, scores) == [] <==> forall m :: m in ms ==> m.id in scores
    decreases |ms|
  {
    if ms != [] {
      var init := ms[..|ms| - 1];
      UnscoredEmpty(init, scores);
      assert ms == init + [ms[|ms| - 1]];
    }
  }

  /** One more message: the filter's result grows by it exactly when its id is unscored. */
  lemma UnscoredSnoc<V>(ms: seq<Message>, m: Message, scores: map<string, V>)
    ensures Unscored(ms + [m], scores) == Unscored(ms, scores) + (if m.id in scores then [] else [m])
  {
    assert (ms + [m])[..|ms|] == ms;
  }

  /** The filter works message by message, in order: it distributes over concatenation. */
  lemma {:induction false} UnscoredAppend<V>(a: seq<Message>, b: seq<Message>, scores: map<string, V>)
    ensures Unscored(a + b, scores) == Unscored(a, scores) + Unscored(b, scores)
    decreases |b|
  {
    if b == [] {
      assert a + b == a;
    } else {
      assert (a + b)[..|a + b| - 1] == a + b[..|b| - 1];
      UnscoredAppend(a, b[..|b| - 1], scores);
    }
  }

  /**
   * The dictionary built by assigning `f(m)` to key `m.id` for each message
   * in order: a later message with the same id overwrites an earlier one.
   */
  function LastWins<V>(ms: seq<Message>, f: Message -> V): map<string, V> {
    if ms == [] then map[]
    else
      var last := ms[|ms| - 1];
      LastWins(ms[..|ms| - 1], f)[last.id := f(last)]
  }

  /** The keys are exactly the ids of the messages. */
  lemma {:induction false} LastWinsKeys<V>(ms: seq<Message>, f: Message -> V)
    ensures LastWins(ms, f).Keys == Ids(ms)
    decreases |ms|
  {
    if ms != [] {
      LastWinsKeys(ms[..|ms| - 1], f);
      assert ms == ms[..|ms| - 1] + [ms[|ms| - 1]];
    }
  }

  /** One more message: its id now maps to its value. */
  lemma LastWinsSnoc<V>(ms: seq<Message>, m: Message, f: Message -> V)
    ensures LastWins(ms + [m], f) == LastWins(ms, f)[m.id := f(m)]
  {
    assert (ms + [m])[..|ms|] == ms;
  }

  /** The value stored for an id is that of the last message carrying it. */
  lemma {:induction false} LastWinsValue<V>(ms: seq<Message>, f: Message -> V, j: int)
    requires 0 <= j < |ms|
    requires forall k :: j < k < |ms| ==> ms[k].id != ms[j].id
    ensures ms[j].id in LastWins(ms, f) && LastWins(ms, f)[ms[j].id] == f(ms[j])
    decreases |ms|
  {
    if j < |ms| - 1 {
      LastWinsValue(ms[..|ms| - 1], f, j);
    }
  }
}

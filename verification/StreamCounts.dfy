/** Messages counted by stream, and how they relate to the messages counted by type. */
module StreamCounts {
  import opened Options
  import opened SetSums
  import opened CountTables
  import opened CountQueries

  /** The joins and the WHERE clause of `count_message_by_stream_query`. */
  function SentToStream(src: Source, a: int, b: int): Message -> bool {
    (m: Message) =>
      var r := RecipientOf(src, m);
      r.recipientType == STREAM && r.typeId in src.streams && src.streams[r.typeId].dateCreated < b &&
          SentWithin(m, a, b)
  }

  function StreamKey(src: Source, b: int): Message -> Key {
    (m: Message) => Key(StreamCount, RecipientOf(src, m).typeId, MessagesInStreamIsBotDay, SenderIsBot(src)(m), b)
  }

  function StreamsRealm(src: Source): Key -> int {
    (k: Key) => if k.owner in src.streams then src.streams[k.owner].realm else 0
  }

  function StreamRows(src: Source, a: int, b: int): Rows {
    CountBy(src.messages, SentToStream(src, a, b), StreamKey(src, b), StreamsRealm(src))
  }

  function AnyKey(): Key -> bool {
    (k: Key) => true
  }

  /** The rows whose type is a public or a private stream. */
  function StreamKinds(): Key -> bool {
    (k: Key) => k.subgroup in {Kind(PublicStream), Kind(PrivateStream)}
  }

  ghost function Total(rows: Rows, chosen: Key -> bool): int {
    Sum((set k | k in rows && chosen(k)), Values(rows))
  }

  /** What the type query takes for stream messages: all that are neither personal nor to a huddle. */
  function TakenForStream(src: Source, a: int, b: int): Message -> bool {
    (m: Message) => RecipientOf(src, m).recipientType !in {PERSONAL, HUDDLE} && SentWithin(m, a, b)
  }

  lemma StreamsCount(src: Source, a: int, b: int)
    ensures Total(StreamRows(src, a, b), AnyKey()) == Count(src.messages, SentToStream(src, a, b))
  {
    CountByTotal(src.messages, SentToStream(src, a, b), StreamKey(src, b), StreamsRealm(src), AnyKey());
    CountAgree(src.messages, InChosen(SentToStream(src, a, b), StreamKey(src, b), AnyKey()), SentToStream(src, a, b));
  }

  lemma StreamKindsCount(src: Source, a: int, b: int)
    ensures Total(MessageTypeRows(src, a, b), StreamKinds()) == Count(src.messages, TakenForStream(src, a, b))
  {
    MessageTypesFlatten(src, a, b);
    CountByTotal(src.messages, InWindow(a, b), TypeKey(src, b), OwnersRealm(src), StreamKinds());
    CountAgree(src.messages, InChosen(InWindow(a, b), TypeKey(src, b), StreamKinds()), TakenForStream(src, a, b));
  }

  /** Every message of the window that is neither personal nor to a huddle went to a stream created before the end. */
  ghost predicate StreamsKnown(src: Source, a: int, b: int) {
    forall m :: m in src.messages && TakenForStream(src, a, b)(m) ==> SentToStream(src, a, b)(m)
  }

  /**
   * The counts by stream and the two stream types have the same total exactly when every stream message has a known
   * stream.
   */
  lemma StreamAgreement(src: Source, a: int, b: int)
    ensures Total(StreamRows(src, a, b), AnyKey()) == Total(MessageTypeRows(src, a, b), StreamKinds()) <==>
        StreamsKnown(src, a, b)
  {
    StreamsCount(src, a, b);
    StreamKindsCount(src, a, b);
    CountAllOf(src.messages, SentToStream(src, a, b), TakenForStream(src, a, b));
  }

  /**
   * A message to a stream that was created only when the window ended, as an import may leave it: counted by type
   * alone.
   */
  lemma StreamCreatedLater(src: Source, a: int, b: int)
    requires a < b && src.messages == [Message(1, 2, 1, a)]
    requires src.recipients == map[2 := Recipient(STREAM, 5)] && src.streams == map[5 := Stream(7, Some(false), b)]
    ensures Total(StreamRows(src, a, b), AnyKey()) == 0 && Total(MessageTypeRows(src, a, b), StreamKinds()) == 1
  {
    StreamsCount(src, a, b);
    StreamKindsCount(src, a, b);
    assert Matches(src.messages, SentToStream(src, a, b)) == {};
    assert Matches(src.messages, TakenForStream(src, a, b)) == {0};
  }
}

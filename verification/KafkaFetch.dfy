/**
 Fetching from Kafka: `parse_fetch_response` and the full read of a topic, `read_all`, against a broker
 that serves whole batches. Compaction may have left gaps in a partition, and retention may have moved
 its start.
 */
module KafkaFetch {
  import opened Bytes
  import opened Wrappers
  import opened Kafka

  // ----- parsing a response -----

  /** Records and high watermark so far, and the bytes not yet read. */
  datatype Fetched = Fetched(records: seq<Record>, hw: int, rest: seq<byte>)

  function I16(s: seq<byte>): int
    requires |s| == 2
  {
    AsSigned(FromBE(s), 0x1_0000)
  }

  /** What follows a string; every negative length fails. */
  function AfterString(p: seq<byte>): Result<seq<byte>> {
    if |p| < 2 then Err
    else
      var len := I16(p[..2]);
      if len < 0 || |p| < 2 + len then Err else Ok(p[2 + len..])
  }

  function Front(records: seq<Record>, r: Result<Fetched>): Result<Fetched> {
    match r
    case Err => Err
    case Ok(f) => Ok(f.(records := records + f.records))
  }

  /** One partition: number and error code (not used), high watermark, record bytes. */
  function PartAt(p: seq<byte>): Result<Fetched> {
    if |p| < 18 then Err
    else
      var n := BigI32(p[14..18]);
      if n < 0 || |p| < 18 + n then Err
      else match DecodeBatch(p[18..18 + n])
        case Err => Err
        case Ok(records) => Ok(Fetched(records, I64(p[6..14]), p[18 + n..]))
  }

  function Parts(count: nat, hw: int, p: seq<byte>): Result<Fetched> {
    if count == 0 then Ok(Fetched([], hw, p))
    else match PartAt(p)
      case Err => Err
      case Ok(f) => Front(f.records, Parts(count - 1, f.hw, f.rest))
  }

  function TopicAt(hw: int, p: seq<byte>): Result<Fetched> {
    match AfterString(p)
    case Err => Err
    case Ok(q) =>
      if |q| < 4 || BigI32(q[..4]) < 0 then Err else Parts(BigI32(q[..4]), hw, q[4..])
  }

  function Topics(count: nat, hw: int, p: seq<byte>): Result<Fetched> {
    if count == 0 then Ok(Fetched([], hw, p))
    else match TopicAt(hw, p)
      case Err => Err
      case Ok(f) => Front(f.records, Topics(count - 1, f.hw, f.rest))
  }

  /** The records of every partition's first batch, and the last high watermark. */
  function Response(resp: seq<byte>): Result<(seq<Record>, int)> {
    if |resp| < 12 || BigI32(resp[8..12]) < 0 then Err
    else match Topics(BigI32(resp[8..12]), 0, resp[12..])
      case Err => Err
      case Ok(f) => Ok((f.records, f.hw))
  }

  lemma FrontJoin(a: seq<Record>, b: seq<Record>, r: Result<Fetched>, hw: int, rest: seq<byte>)
    ensures Front(a, Front(b, r)) == Front(a + b, r) && Front([], r) == r
    ensures Front(a, Ok(Fetched([], hw, rest))) == Ok(Fetched(a, hw, rest))
  {
    assert r.Ok? ==> a + (b + r.value.records) == (a + b) + r.value.records;
    assert r.Ok? ==> [] + r.value.records == r.value.records;
    assert a + [] == a;
  }

  method ReadParts(count: nat, hw: int, p: seq<byte>) returns (r: Result<Fetched>)
    ensures r == Parts(count, hw, p)
  {
    hide DecodeBatch, BigI32, I64;
    var f := Fetched([], hw, p);
    FrontJoin([], [], Parts(count, hw, p), hw, p);
    for i := 0 to count
      invariant Parts(count, hw, p) == Front(f.records, Parts(count - i, f.hw, f.rest))
    {
      var q := f.rest;
      if |q| < 18 { return Err; }
      var mark, n := I64(q[6..14]), BigI32(q[14..18]);
      if n < 0 || |q| < 18 + n { return Err; }
      var batch := DecodeRecordBatch(q[18..18 + n]);
      if batch.Err? { return Err; }
      FrontJoin(f.records, batch.value, Parts(count - i - 1, mark, q[18 + n..]), hw, p);
      f := Fetched(f.records + batch.value, mark, q[18 + n..]);
    }
    FrontJoin(f.records, [], Ok(f), f.hw, f.rest);
    return Ok(f);
  }

  method ParseFetchResponse(resp: seq<byte>) returns (r: Result<(seq<Record>, int)>)
    ensures r == Response(resp)
  {
    hide Parts, BigI32, I16;
    if |resp| < 12 || BigI32(resp[8..12]) < 0 { return Err; }
    var count := BigI32(resp[8..12]);
    var f := Fetched([], 0, resp[12..]);
    FrontJoin([], [], Topics(count, 0, resp[12..]), 0, resp);
    for i := 0 to count
      invariant Topics(count, 0, resp[12..]) == Front(f.records, Topics(count - i, f.hw, f.rest))
    {
      var q := AfterString(f.rest);
      if q.Err? || |q.value| < 4 || BigI32(q.value[..4]) < 0 { return Err; }
      var parts := ReadParts(BigI32(q.value[..4]), f.hw, q.value[4..]);
      if parts.Err? { return Err; }
      var more := parts.value;
      FrontJoin(f.records, more.records, Topics(count - i - 1, more.hw, more.rest), 0, resp);
      f := Fetched(f.records + more.records, more.hw, more.rest);
    }
    FrontJoin(f.records, [], Ok(f), f.hw, f.rest);
    return Ok((f.records, f.hw));
  }

  // ----- the format, from the Kafka protocol's fetch response, version 2 -----

  datatype Part = Part(id: seq<byte>, error: seq<byte>, hw: int, data: seq<byte>)
  datatype Topic = Topic(name: seq<byte>, parts: seq<Part>)

  predicate PartOk(p: Part) {
    |p.id| == 4 && |p.error| == 2 && -TWO63 <= p.hw < TWO63 && |p.data| < TWO31
  }

  predicate TopicOk(t: Topic) {
    |t.name| < 0x8000 && |t.parts| < TWO31 && forall i :: 0 <= i < |t.parts| ==> PartOk(t.parts[i])
  }

  function EncodePart(p: Part): seq<byte> {
    p.id + p.error + ToBE(p.hw % TWO64, 8) + ToBE(|p.data|, 4) + p.data
  }

  function EncodeParts(ps: seq<Part>): seq<byte> {
    if ps == [] then [] else EncodePart(ps[0]) + EncodeParts(ps[1..])
  }

  function EncodeTopic(t: Topic): seq<byte> {
    ToBE(|t.name|, 2) + (t.name + (ToBE(|t.parts|, 4) + EncodeParts(t.parts)))
  }

  function EncodeTopics(ts: seq<Topic>): seq<byte> {
    if ts == [] then [] else EncodeTopic(ts[0]) + EncodeTopics(ts[1..])
  }

  /** Correlation id and throttle time, then the topics. */
  function EncodeResponse(head: seq<byte>, ts: seq<Topic>): seq<byte> {
    head + (ToBE(|ts|, 4) + EncodeTopics(ts))
  }

  function PartsIn(ts: seq<Topic>): seq<Part> {
    if ts == [] then [] else ts[0].parts + PartsIn(ts[1..])
  }

  /** The first batches of the partitions, in order. */
  function FirstBatches(ps: seq<Part>): Result<seq<Record>> {
    if ps == [] then Ok([])
    else match DecodeBatch(ps[0].data)
      case Err => Err
      case Ok(records) => Prepend(records, FirstBatches(ps[1..]))
  }

  function LastMark(ps: seq<Part>, hw: int): int {
    if ps == [] then hw else ps[|ps| - 1].hw
  }

  function Carried(ps: seq<Part>, hw: int, rest: seq<byte>): Result<Fetched> {
    match FirstBatches(ps)
    case Err => Err
    case Ok(records) => Ok(Fetched(records, LastMark(ps, hw), rest))
  }

  lemma PartRead(p: Part, rest: seq<byte>)
    requires PartOk(p)
    ensures PartAt(EncodePart(p) + rest) ==
      match DecodeBatch(p.data) case Err => Err case Ok(records) => Ok(Fetched(records, p.hw, rest))
  {
    hide DecodeBatch, BigI32, I64, ToBE;
    var s := EncodePart(p) + rest;
    SignedRoundTrip64(p.hw);
    BigI32OfLength(|p.data|);
    assert s[6..14] == ToBE(p.hw % TWO64, 8) && s[14..18] == ToBE(|p.data|, 4);
    assert s[18..18 + |p.data|] == p.data && s[18 + |p.data|..] == rest;
  }

  lemma {:induction false} PartsRead(ps: seq<Part>, hw: int, rest: seq<byte>)
    requires forall i :: 0 <= i < |ps| ==> PartOk(ps[i])
    ensures Parts(|ps|, hw, EncodeParts(ps) + rest) == Carried(ps, hw, rest)
  {
    hide PartAt, EncodePart, DecodeBatch, PartOk;
    if ps == [] {
      assert EncodeParts(ps) + rest == rest;
    } else {
      var more := EncodeParts(ps[1..]) + rest;
      assert EncodeParts(ps) + rest == EncodePart(ps[0]) + more;
      PartRead(ps[0], more);
      PartsRead(ps[1..], ps[0].hw, rest);
    }
  }

  lemma TopicRead(t: Topic, hw: int, rest: seq<byte>)
    requires TopicOk(t)
    ensures TopicAt(hw, EncodeTopic(t) + rest) == Carried(t.parts, hw, rest)
  {
    hide Parts, EncodeParts, Carried, BigI32, ToBE, PartOk;
    var body := ToBE(|t.parts|, 4) + (EncodeParts(t.parts) + rest);
    var s := EncodeTopic(t) + rest;
    assert s == ToBE(|t.name|, 2) + (t.name + body);
    assert s[..2] == ToBE(|t.name|, 2) && s[2 + |t.name|..] == body;
    ShortLength(|t.name|);
    BigI32OfLength(|t.parts|);
    assert body[..4] == ToBE(|t.parts|, 4) && body[4..] == EncodeParts(t.parts) + rest;
    PartsRead(t.parts, hw, rest);
  }

  lemma ShortLength(n: nat)
    requires n < 0x8000
    ensures I16(ToBE(n, 2)) == n
  {
    Pow256Values();
    FromBEToBE(n, 2);
  }

  lemma {:induction false} FirstBatchesJoin(a: seq<Part>, b: seq<Part>)
    ensures FirstBatches(a + b) ==
      match FirstBatches(a) case Err => Err case Ok(records) => Prepend(records, FirstBatches(b))
  {
    hide DecodeBatch;
    PrependJoin([], [], FirstBatches(b));
    if a == [] {
      assert a + b == b;
    } else {
      assert (a + b)[1..] == a[1..] + b;
      FirstBatchesJoin(a[1..], b);
      var head, tail := DecodeBatch(a[0].data), FirstBatches(a[1..]);
      if head.Ok? && tail.Ok? { PrependJoin(head.value, tail.value, FirstBatches(b)); }
    }
  }

  lemma CarriedJoin(a: seq<Part>, b: seq<Part>, hw: int, mid: seq<byte>, rest: seq<byte>)
    ensures Carried(a + b, hw, rest) ==
      match Carried(a, hw, mid) case Err => Err case Ok(f) => Front(f.records, Carried(b, f.hw, rest))
  {
    hide FirstBatches;
    FirstBatchesJoin(a, b);
    assert b == [] ==> a + b == a;
  }

  lemma {:induction false} TopicsRead(ts: seq<Topic>, hw: int, rest: seq<byte>)
    requires forall i :: 0 <= i < |ts| ==> TopicOk(ts[i])
    ensures Topics(|ts|, hw, EncodeTopics(ts) + rest) == Carried(PartsIn(ts), hw, rest)
    decreases |ts|
  {
    if ts == [] {
      assert EncodeTopics(ts) + rest == rest;
    } else {
      hide TopicAt, EncodeTopic, TopicOk, Carried;
      var more := EncodeTopics(ts[1..]) + rest;
      assert EncodeTopics(ts) + rest == EncodeTopic(ts[0]) + more;
      TopicRead(ts[0], hw, more);
      TopicsRead(ts[1..], LastMark(ts[0].parts, hw), rest);
      CarriedJoin(ts[0].parts, PartsIn(ts[1..]), hw, more, rest);
      CarriedMark(ts[0].parts, hw, more);
    }
  }

  lemma CarriedMark(ps: seq<Part>, hw: int, rest: seq<byte>)
    ensures Carried(ps, hw, rest).Ok? ==>
      Carried(ps, hw, rest).value.hw == LastMark(ps, hw) && Carried(ps, hw, rest).value.rest == rest
  {
  }

  /**
   A response with any topics and partitions is read to the first batches of its partitions, in order,
   and the last high watermark; error codes play no part.
   */
  lemma ResponseRoundTrip(head: seq<byte>, ts: seq<Topic>, tail: seq<byte>)
    requires |head| == 8 && |ts| < TWO31 && forall i :: 0 <= i < |ts| ==> TopicOk(ts[i])
    ensures Response(EncodeResponse(head, ts) + tail) ==
      match FirstBatches(PartsIn(ts)) case Err => Err case Ok(records) => Ok((records, LastMark(PartsIn(ts), 0)))
  {
    hide Topics, EncodeTopics, TopicOk, BigI32, ToBE, FirstBatches, PartsIn;
    var s := EncodeResponse(head, ts) + tail;
    BigI32OfLength(|ts|);
    var count, body := ToBE(|ts|, 4), EncodeTopics(ts) + tail;
    assert s == head + (count + body);
    assert s[8..] == count + body && s[8..12] == (count + body)[..4] == count;
    assert s[12..] == (count + body)[4..] == body;
    TopicsRead(ts, 0, tail);
  }

  // ----- partitions -----

  /** Batches from `start` on, and the end of the partition. */
  datatype Partition = Partition(start: nat, batches: seq<Batch>, hw: nat)

  function Last(b: Batch): int {
    b.base + b.lastOffsetDelta
  }

  predicate PartitionOk(p: Partition) {
    && p.hw < TWO63
    && (forall k :: 0 <= k < |p.batches| ==>
          BatchOk(p.batches[k]) && Rising(p.batches[k]) && p.start <= p.batches[k].base && Last(p.batches[k]) < p.hw)
    && (forall i, k :: 0 <= i < k < |p.batches| ==> Last(p.batches[i]) < p.batches[k].base)
  }

  /** The first batch, from number `k` on, that reaches `offset`. */
  function Reaching(p: Partition, k: nat, offset: nat): (n: nat)
    requires k <= |p.batches|
    ensures k <= n <= |p.batches|
    decreases |p.batches| - k
  {
    if k < |p.batches| && Last(p.batches[k]) < offset then Reaching(p, k + 1, offset) else k
  }

  /** What a reply may hold besides the records: ids, error code, and bytes after the first batch. */
  datatype Envelope = Envelope(head: seq<byte>, topic: seq<byte>, id: seq<byte>, error: seq<byte>, after: seq<byte>)

  type Broker = nat -> Envelope

  /** The record bytes for a request: from the batch that reaches the offset on, or none out of range. */
  function Served(p: Partition, offset: nat, after: seq<byte>): seq<byte> {
    var k := Reaching(p, 0, offset);
    if p.start <= offset && k < |p.batches| then EncodeBatch(p.batches[k]) + after else []
  }

  predicate EnvelopeOk(p: Partition, offset: nat, e: Envelope) {
    && |e.head| == 8 && |e.topic| < 0x8000 && |e.id| == 4 && |e.error| == 2
    && |Served(p, offset, e.after)| < TWO31
  }

  ghost predicate BrokerOk(p: Partition, broker: Broker) {
    forall offset :: EnvelopeOk(p, offset, broker(offset))
  }

  /** The watermark of a reply; one with an error has none. */
  function Mark(p: Partition, offset: nat): int {
    if p.start <= offset then p.hw else -1
  }

  function Reply(p: Partition, offset: nat, e: Envelope): seq<byte> {
    EncodeResponse(e.head, [Topic(e.topic, [Part(e.id, e.error, Mark(p, offset), Served(p, offset, e.after))])])
  }

  lemma OnePart(part: Part, topic: seq<byte>)
    ensures PartsIn([Topic(topic, [part])]) == [part]
    ensures FirstBatches([part]) == DecodeBatch(part.data) && LastMark([part], 0) == part.hw
  {
    hide DecodeBatch;
    var ts := [Topic(topic, [part])];
    assert ts[1..] == [] && [part] + [] == [part] && [part][1..] == [];
    var head := DecodeBatch(part.data);
    assert head.Ok? ==> head.value + [] == head.value;
  }

  /** A reply is read to the records of the batch served and the partition's end. */
  lemma ReplyRead(p: Partition, offset: nat, e: Envelope)
    requires PartitionOk(p) && EnvelopeOk(p, offset, e)
    ensures var k := Reaching(p, 0, offset);
      Response(Reply(p, offset, e)) == Ok((
        if p.start <= offset && k < |p.batches| then Read(p.batches[k]) else [], Mark(p, offset)))
  {
    hide DecodeBatch, EncodeBatch, Meaning, Response, EncodeResponse, PartsIn, FirstBatches, BatchOk, Rising;
    var part := Part(e.id, e.error, Mark(p, offset), Served(p, offset, e.after));
    var ts := [Topic(e.topic, [part])];
    ResponseRoundTrip(e.head, ts, []);
    assert Reply(p, offset, e) + [] == Reply(p, offset, e);
    OnePart(part, e.topic);
    NothingServed();
    var k := Reaching(p, 0, offset);
    if k < |p.batches| { BatchRoundTrip(p.batches[k], e.after); }
  }

  lemma NothingServed()
    ensures DecodeBatch([]) == Ok([])
  {
  }

  // ----- the fetch loop -----

  /** A batch as the decoder reads it. */
  function Read(b: Batch): (out: seq<Record>)
    ensures |out| == |b.records|
  {
    Meaning(b.records, 0, b.base, b.firstTs)
  }

  /** The loop from `offset`, cut off after `rounds` requests: `None` when it has not ended by then. */
  function Rounds(p: Partition, broker: Broker, offset: int, rounds: nat): Option<Result<seq<Record>>>
    decreases rounds
  {
    if rounds == 0 then None
    else if offset < 0 then Some(Err)
    else match Response(Reply(p, offset, broker(offset)))
      case Err => Some(Err)
      case Ok((records, hw)) =>
        if records == [] then Some(Ok([]))
        else
          var next := records[|records| - 1].offset + 1;
          if next >= hw then Some(Ok(records))
          else match Rounds(p, broker, next, rounds - 1)
            case None => None
            case Some(r) => Some(Prepend(records, r))
  }

  /** From batch `k` on, the loop comes to a batch with a gap before one without records. */
  predicate Stuck(p: Partition, k: nat)
    requires k <= |p.batches|
    decreases |p.batches| - k
  {
    k < |p.batches| && p.batches[k].records != [] && (!Dense(p.batches[k]) || Stuck(p, k + 1))
  }

  /** What the loop collects from batch `k` on, when it ends. */
  function Collected(p: Partition, k: nat): seq<Record>
    requires k <= |p.batches|
    decreases |p.batches| - k
  {
    if k == |p.batches| || p.batches[k].records == [] then []
    else Read(p.batches[k]) + Collected(p, k + 1)
  }

  /** A request after everything before batch `k` is served from batch `k`. */
  lemma {:induction false} ReachingNext(p: Partition, i: nat, k: nat, offset: nat)
    requires i <= k <= |p.batches|
    requires forall j :: 0 <= j < k ==> Last(p.batches[j]) < offset
    requires k < |p.batches| ==> offset <= Last(p.batches[k])
    ensures Reaching(p, i, offset) == k
    decreases k - i
  {
    if i < k { ReachingNext(p, i + 1, k, offset); }
  }

  /** `offset` is where the loop asks for batch `k`. */
  predicate AsksFor(p: Partition, k: nat, offset: nat) {
    && k <= |p.batches| && p.start <= offset
    && (forall j :: 0 <= j < k ==> Last(p.batches[j]) < offset)
    && (k < |p.batches| ==> offset <= Last(p.batches[k]))
  }

  /** One request: the records of batch `k`, and where it leaves the loop. */
  lemma OneRound(p: Partition, broker: Broker, k: nat, offset: nat)
    requires PartitionOk(p) && BrokerOk(p, broker) && AsksFor(p, k, offset)
    ensures Response(Reply(p, offset, broker(offset))) ==
      Ok((if k < |p.batches| then Read(p.batches[k]) else [], p.hw))
    ensures k < |p.batches| && p.batches[k].records != [] ==>
      var b := p.batches[k];
      var next := Read(b)[|b.records| - 1].offset + 1;
      && next == b.base + |b.records| && next >= 0
      && (Dense(b) ==> AsksFor(p, k + 1, next) && (next >= p.hw ==> k + 1 == |p.batches|))
      && (!Dense(b) ==> next < p.hw && AsksFor(p, k, next))
  {
    hide Response, Reply, EnvelopeOk, BatchOk;
    ReachingNext(p, 0, k, offset);
    ReplyRead(p, offset, broker(offset));
    if k < |p.batches| && p.batches[k].records != [] {
      var n := |p.batches[k].records|;
      RoomAbove(p.batches[k], 0);
      assert p.batches[k].records[0].offsetDelta >= 0;
    }
  }

  /** If the loop comes to a batch with a gap, it asks for that batch again and again. */
  lemma {:induction false} NeverEnds(p: Partition, broker: Broker, k: nat, offset: nat, rounds: nat)
    requires PartitionOk(p) && BrokerOk(p, broker) && AsksFor(p, k, offset) && Stuck(p, k)
    ensures Rounds(p, broker, offset, rounds) == None
    decreases rounds
  {
    hide Response, Reply, PartitionOk, BrokerOk, Read;
    if rounds > 0 {
      OneRound(p, broker, k, offset);
      var b := p.batches[k];
      var next := b.base + |b.records|;
      NeverEnds(p, broker, if Dense(b) then k + 1 else k, next, rounds - 1);
    }
  }

  /** Otherwise it ends, with what `Collected` says. */
  lemma {:induction false} Ends(p: Partition, broker: Broker, k: nat, offset: nat, rounds: nat)
    requires PartitionOk(p) && BrokerOk(p, broker) && AsksFor(p, k, offset) && !Stuck(p, k)
    requires rounds > |p.batches| - k
    ensures Rounds(p, broker, offset, rounds) == Some(Ok(Collected(p, k)))
    decreases rounds
  {
    hide Response, Reply, PartitionOk, BrokerOk, Read;
    OneRound(p, broker, k, offset);
    if k < |p.batches| && p.batches[k].records != [] {
      var b := p.batches[k];
      var next := b.base + |b.records|;
      if next < p.hw {
        Ends(p, broker, k + 1, next, rounds - 1);
      } else {
        assert Collected(p, k + 1) == [] && Read(b) + [] == Read(b);
      }
    }
  }

  /**
   How the loop fares from offset zero. Retention that moved the start makes the partition read as empty;
   a batch with a gap keeps the loop going for ever; otherwise it ends, at the first batch without records.
   */
  lemma ReadOutcome(p: Partition, broker: Broker, rounds: nat)
    requires PartitionOk(p) && BrokerOk(p, broker)
    ensures p.start > 0 && rounds > 0 ==> Rounds(p, broker, 0, rounds) == Some(Ok([]))
    ensures p.start == 0 && Stuck(p, 0) ==> Rounds(p, broker, 0, rounds) == None
    ensures p.start == 0 && !Stuck(p, 0) && rounds > |p.batches| ==>
      Rounds(p, broker, 0, rounds) == Some(Ok(Collected(p, 0)))
  {
    if p.start > 0 {
      assert EnvelopeOk(p, 0, broker(0));
      ReplyRead(p, 0, broker(0));
    } else if Stuck(p, 0) {
      NeverEnds(p, broker, 0, 0, rounds);
    } else if rounds > |p.batches| {
      Ends(p, broker, 0, 0, rounds);
    }
  }

  lemma {:induction false} MoreRounds(p: Partition, broker: Broker, offset: int, few: nat, many: nat)
    requires few <= many && Rounds(p, broker, offset, few).Some?
    ensures Rounds(p, broker, offset, many) == Rounds(p, broker, offset, few)
    decreases few
  {
    hide Response, Reply;
    if offset >= 0 && Response(Reply(p, offset, broker(offset))).Ok? {
      var (records, hw) := Response(Reply(p, offset, broker(offset))).value;
      if records != [] && records[|records| - 1].offset + 1 < hw {
        MoreRounds(p, broker, records[|records| - 1].offset + 1, few - 1, many - 1);
      }
    }
  }

  /** Everything the partition holds from batch `k` on, at the offsets the log gave it. */
  function Held(p: Partition, k: nat): seq<Record>
    requires k <= |p.batches|
    decreases |p.batches| - k
  {
    if k == |p.batches| then [] else Stored(p.batches[k]) + Held(p, k + 1)
  }

  /** From batch `k` on, no batch up to the last one with records has a gap. */
  predicate Gapless(p: Partition, k: nat) {
    forall i, j :: k <= i <= j < |p.batches| && p.batches[j].records != [] ==> Dense(p.batches[i])
  }

  lemma {:induction false} NothingHeld(p: Partition, k: nat)
    requires k <= |p.batches|
    ensures Held(p, k) == [] <==> forall j :: k <= j < |p.batches| ==> p.batches[j].records == []
    decreases |p.batches| - k
  {
    if k < |p.batches| { NothingHeld(p, k + 1); }
  }

  lemma {:induction false} GaplessNeverStuck(p: Partition, k: nat)
    requires k <= |p.batches| && Gapless(p, k)
    ensures !Stuck(p, k)
    decreases |p.batches| - k
  {
    if k < |p.batches| { GaplessNeverStuck(p, k + 1); }
  }

  lemma {:induction false} CollectsAll(p: Partition, k: nat)
    requires PartitionOk(p) && k <= |p.batches| && !Stuck(p, k)
    ensures Collected(p, k) == Held(p, k) <==> Gapless(p, k)
    decreases |p.batches| - k
  {
    hide BatchOk, Stored, Meaning, Rising;
    if k < |p.batches| {
      var b := p.batches[k];
      if b.records == [] {
        NothingHeld(p, k);
      } else {
        DenseIsRight(b);
        CollectsAll(p, k + 1);
        SamePrefix(Read(b), Collected(p, k + 1), Held(p, k + 1));
        assert Gapless(p, k) <==> Gapless(p, k + 1);
      }
    }
  }

  lemma SamePrefix(a: seq<Record>, x: seq<Record>, y: seq<Record>)
    ensures a + x == a + y <==> x == y
  {
    assert x == (a + x)[|a|..] && y == (a + y)[|a|..];
  }

  /** A partition the loop reads in full: untrimmed and without gaps, or without records. */
  predicate Readable(p: Partition) {
    if p.start > 0 then forall j :: 0 <= j < |p.batches| ==> p.batches[j].records == [] else Gapless(p, 0)
  }

  /**
   Exactly when a full read is right: the loop ends with every record of the partition, once, in order
   and at its own offset, if and only if the partition is readable in this sense.
   */
  lemma ReadIsExact(p: Partition, broker: Broker)
    requires PartitionOk(p) && BrokerOk(p, broker)
    ensures (exists rounds :: Rounds(p, broker, 0, rounds) == Some(Ok(Held(p, 0)))) <==> Readable(p)
  {
    hide PartitionOk, BrokerOk, Held, Collected, Stuck, Gapless, Rounds;
    var enough := |p.batches| + 1;
    NothingHeld(p, 0);
    ReadOutcome(p, broker, enough);
    if p.start == 0 && Gapless(p, 0) { GaplessNeverStuck(p, 0); }
    if p.start == 0 && !Stuck(p, 0) { CollectsAll(p, 0); }
    if rounds: nat :| Rounds(p, broker, 0, rounds) == Some(Ok(Held(p, 0))) {
      ReadOutcome(p, broker, rounds);
      MoreRounds(p, broker, 0, rounds, if rounds > enough then rounds else enough);
      ReadOutcome(p, broker, if rounds > enough then rounds else enough);
    }
  }

  /** The loop as written, on a partition where it ends. */
  method ReadPartition(p: Partition, broker: Broker) returns (all: Result<seq<Record>>, hw: int)
    requires PartitionOk(p) && BrokerOk(p, broker) && (p.start > 0 || !Stuck(p, 0))
    ensures all == Ok(if p.start > 0 then [] else Collected(p, 0)) && hw == Mark(p, 0)
  {
    hide Response, Reply, PartitionOk, BrokerOk, Read, EnvelopeOk;
    var got: seq<Record>, offset: nat := [], 0;
    ghost var k := 0;
    if p.start > 0 {
      assert EnvelopeOk(p, 0, broker(0)) by { BrokerSays(p, broker, 0); }
      ReplyRead(p, 0, broker(0));
    } else {
      AsksFirst(p);
    }
    while true
      invariant p.start > 0 ==> got == [] && offset == 0
      invariant p.start == 0 ==> AsksFor(p, k, offset) && !Stuck(p, k) && got + Collected(p, k) == Collected(p, 0)
      decreases |p.batches| - k
    {
      if p.start == 0 { OneRound(p, broker, k, offset); }
      var response := ParseFetchResponse(Reply(p, offset, broker(offset)));
      if response.Err? { return Err, 0; }
      var (records, partHw) := response.value;
      hw := partHw;
      if records == [] { break; }
      var next := records[|records| - 1].offset + 1;
      assert got + (records + Collected(p, k + 1)) == (got + records) + Collected(p, k + 1);
      got := got + records;
      offset, k := next, k + 1;
      if offset >= partHw { break; }
    }
    assert got + [] == got;
    return Ok(got), hw;
  }

  lemma BrokerSays(p: Partition, broker: Broker, offset: nat)
    requires BrokerOk(p, broker)
    ensures EnvelopeOk(p, offset, broker(offset))
  {
  }

  lemma AsksFirst(p: Partition)
    requires PartitionOk(p) && p.start == 0
    ensures AsksFor(p, 0, 0)
  {
  }

  function AllCollected(ps: seq<Partition>): seq<Record> {
    if ps == [] then []
    else
      var p := ps[|ps| - 1];
      AllCollected(ps[..|ps| - 1]) + if p.start > 0 then [] else Collected(p, 0)
  }

  /** The full read of a topic, partition after partition; with the last partition's high watermark. */
  method ReadAll(ps: seq<Partition>, brokers: nat -> Broker) returns (all: Result<seq<Record>>, hw: int)
    requires forall i :: 0 <= i < |ps| ==>
      PartitionOk(ps[i]) && BrokerOk(ps[i], brokers(i)) && (ps[i].start > 0 || !Stuck(ps[i], 0))
    ensures all == Ok(AllCollected(ps)) && hw == if ps == [] then 0 else Mark(ps[|ps| - 1], 0)
  {
    hide Collected, PartitionOk, BrokerOk, Stuck;
    var got: seq<Record> := [];
    hw := 0;
    for i := 0 to |ps|
      invariant got == AllCollected(ps[..i]) && hw == if i == 0 then 0 else Mark(ps[i - 1], 0)
    {
      var part;
      part, hw := ReadPartition(ps[i], brokers(i));
      if part.Err? { return Err, hw; }
      assert ps[..i + 1][..i] == ps[..i];
      got := got + part.value;
    }
    assert ps[..|ps|] == ps;
    return Ok(got), hw;
  }

  function AllHeld(ps: seq<Partition>): seq<Record> {
    if ps == [] then [] else AllHeld(ps[..|ps| - 1]) + Held(ps[|ps| - 1], 0)
  }

  /** Of readable partitions, the full read returns every record. */
  lemma {:induction false} AllRead(ps: seq<Partition>)
    requires forall i :: 0 <= i < |ps| ==> PartitionOk(ps[i]) && Readable(ps[i])
    ensures AllCollected(ps) == AllHeld(ps)
    ensures forall i :: 0 <= i < |ps| ==> ps[i].start > 0 || !Stuck(ps[i], 0)
  {
    hide PartitionOk, Held, Collected, Stuck, Gapless;
    if ps != [] {
      var p := ps[|ps| - 1];
      AllRead(ps[..|ps| - 1]);
      NothingHeld(p, 0);
      if p.start == 0 {
        GaplessNeverStuck(p, 0);
        CollectsAll(p, 0);
      }
    }
  }

  /** A topic name with a negative length, the null string among them, fails. */
  lemma NegativeLengthFails(p: seq<byte>)
    requires |p| >= 2 && p[0] >= 128
    ensures AfterString(p) == Err
  {
    assert p[..2][..1] == [p[0]] && [p[0]][..0] == [];
    assert FromBE([p[0]]) == p[0];
    assert FromBE(p[..2]) == 256 * FromBE(p[..2][..1]) + p[1];
  }
}

/** What a session answers, told without the state machine: counts, orders and whole streams. */
module SessionAnswers {
  import opened Basics
  import opened Text
  import opened Varint
  import opened Blocks
  import opened Compressed
  import opened Protocol
  import opened Delivery
  import opened Sessions
  import opened SessionRuns
  import opened SessionOrder
  import opened Clients

  /** An insert is told by its first six letters, all large or all small. */
  lemma InsertWord(text: bytes)
    ensures IsInsert(text) <==>
              |text| >= 6 && (text[..6] == [0x49, 0x4E, 0x53, 0x45, 0x52, 0x54]
                              || text[..6] == [0x69, 0x6E, 0x73, 0x65, 0x72, 0x74])
  {
    assert Ascii("INSERT") == [0x49, 0x4E, 0x53, 0x45, 0x52, 0x54];
    assert Ascii("insert") == [0x69, 0x6E, 0x73, 0x65, 0x72, 0x74];
  }

  // ---------- counts and orders ----------

  function Tally<T>(xs: seq<T>, f: T -> bool): nat {
    if |xs| == 0 then 0 else Tally(xs[..|xs| - 1], f) + if f(xs[|xs| - 1]) then 1 else 0
  }

  lemma TallyStep<T>(xs: seq<T>, x: T, f: T -> bool)
    ensures Tally(xs + [x], f) == Tally(xs, f) + if f(x) then 1 else 0
  {
    assert (xs + [x])[..|xs|] == xs;
  }

  /** The texts of the queries that are no inserts, in order. */
  function OtherTexts(packets: seq<Packet>): seq<bytes> {
    if |packets| == 0 then []
    else
      var p := packets[|packets| - 1];
      OtherTexts(packets[..|packets| - 1])
      + if p.QueryPacket? && !IsInsert(p.query.text) then [p.query.text] else []
  }

  /** The queries that were answered with results, in order. */
  function Answered(responses: seq<Response>): seq<bytes> {
    if |responses| == 0 then []
    else
      var r := responses[|responses| - 1];
      Answered(responses[..|responses| - 1]) + if r.Results? then [r.query] else []
  }

  lemma AnsweredStep(responses: seq<Response>, r: Response)
    ensures Answered(responses + [r]) == Answered(responses) + if r.Results? then [r.query] else []
  {
    assert (responses + [r])[..|responses|] == responses;
  }

  lemma OtherStep(packets: seq<Packet>, p: Packet)
    ensures OtherTexts(packets + [p])
         == OtherTexts(packets) + if p.QueryPacket? && !IsInsert(p.query.text) then [p.query.text] else []
  {
    hide IsInsert;
    assert (packets + [p])[..|packets|] == packets;
  }

  ghost predicate InsertPacket(p: Packet) { p.QueryPacket? && IsInsert(p.query.text) }

  /** A pong for every ping, a reply for every hello, a sample for every insert query, results for every other query
      in the order they came, and nothing else but ends of stream. */
  ghost predicate Tallied(responses: seq<Response>, packets: seq<Packet>) {
    && Tally(responses, (r: Response) => r.Pong?) == Tally(packets, (p: Packet) => p.Ping?)
    && Tally(responses, (r: Response) => r.HelloReply?) == Tally(packets, (p: Packet) => p.HelloPacket?)
    && Tally(responses, (r: Response) => r.Sample?) == Tally(packets, InsertPacket)
    && Answered(responses) == OtherTexts(packets)
    && Tally(responses, (r: Response) => r.ErrorReply?) == 0
  }

  lemma {:induction false} AnswersTallied(packets: seq<Packet>)
    ensures Tallied(Account(packets).responses, packets)
    decreases |packets|
  {
    hide Account, IsInsert, Tally, Answered, OtherTexts;
    if |packets| == 0 {
      NoAccount();
      NothingTallied();
    } else {
      var n := |packets| - 1;
      var front, p := packets[..n], packets[n];
      assert packets == front + [p];
      AnswersTallied(front);
      AccountStep(front, p);
      PacketTallied(Account(front), front, p);
    }
  }

  lemma NothingTallied()
    ensures Tallied([], [])
  {
  }

  lemma PacketTallied(l: Ledger, packets: seq<Packet>, p: Packet)
    requires Tallied(l.responses, packets) && (l.open ==> |l.inserts| > 0)
    ensures Tallied(Note(l, p).responses, packets + [p])
  {
    hide IsInsert, Tally, Answered, OtherTexts;
    OtherStep(packets, p);
    TallyStep(packets, p, (p: Packet) => p.Ping?);
    TallyStep(packets, p, (p: Packet) => p.HelloPacket?);
    TallyStep(packets, p, InsertPacket);
    match p
    case Ping => Added(l.responses, Pong);
    case HelloPacket(_) => Added(l.responses, HelloReply);
    case QueryPacket(query) =>
      if IsInsert(query.text) {
        Added(l.responses, Sample);
      } else {
        Added(l.responses, Results(query.text));
        Added(l.responses + [Results(query.text)], EndOfStream);
        assert l.responses + [Results(query.text)] + [] == l.responses + [Results(query.text)];
      }
    case DataPacket(_) => Added(l.responses, EndOfStream);
    case Cancel =>
  }

  lemma Added(responses: seq<Response>, r: Response)
    ensures Tally(responses + [r], (r: Response) => r.Pong?)
         == Tally(responses, (r: Response) => r.Pong?) + if r.Pong? then 1 else 0
    ensures Tally(responses + [r], (r: Response) => r.HelloReply?)
         == Tally(responses, (r: Response) => r.HelloReply?) + if r.HelloReply? then 1 else 0
    ensures Tally(responses + [r], (r: Response) => r.Sample?)
         == Tally(responses, (r: Response) => r.Sample?) + if r.Sample? then 1 else 0
    ensures Tally(responses + [r], (r: Response) => r.ErrorReply?)
         == Tally(responses, (r: Response) => r.ErrorReply?) + if r.ErrorReply? then 1 else 0
    ensures Answered(responses + [r]) == Answered(responses) + if r.Results? then [r.query] else []
  {
    hide Tally, Answered;
    TallyStep(responses, r, (r: Response) => r.Pong?);
    TallyStep(responses, r, (r: Response) => r.HelloReply?);
    TallyStep(responses, r, (r: Response) => r.Sample?);
    TallyStep(responses, r, (r: Response) => r.ErrorReply?);
    AnsweredStep(responses, r);
  }

  /** The answers to one packet each, from a fresh session. */
  lemma FirstAnswers(insert: Query, other: Query, hello: Hello, block: Block)
    requires IsInsert(insert.text) && !IsInsert(other.text)
    ensures Account([QueryPacket(insert)]).responses == [Sample]
    ensures Account([QueryPacket(other)]).responses == [Results(other.text), EndOfStream]
    ensures Account([HelloPacket(hello)]).responses == [HelloReply]
    ensures Account([Ping]).responses == [Pong]
    ensures Account([Cancel]).responses == [] && Account([DataPacket(block)]).responses == []
  {
    hide Account, IsInsert;
    NoAccount();
    AccountStep([], QueryPacket(insert));
    AccountStep([], QueryPacket(other));
    AccountStep([], HelloPacket(hello));
    AccountStep([], Ping);
    AccountStep([], Cancel);
    AccountStep([], DataPacket(block));
    assert [] + [QueryPacket(insert)] == [QueryPacket(insert)] && [] + [QueryPacket(other)] == [QueryPacket(other)];
    assert [] + [HelloPacket(hello)] == [HelloPacket(hello)] && [] + [Ping] == [Ping] && [] + [Cancel] == [Cancel];
    assert [] + [DataPacket(block)] == [DataPacket(block)];
  }

  /** A query that comes while an insert is open is answered without an end of stream, and the insert starts over: it
      takes two more blocks without columns to end it. */
  lemma QueryInside(insert: Query, other: Query)
    requires IsInsert(insert.text) && !IsInsert(other.text)
    ensures var none := DataPacket(Block(DEFAULT_INFO, []));
            var l := Account([QueryPacket(insert), none, QueryPacket(other), none, none]);
            l.responses == [Sample, Results(other.text), EndOfStream] && l.inserts == [[]] && !l.open
  {
    hide Account, IsInsert;
    var i, q, none := QueryPacket(insert), QueryPacket(other), DataPacket(Block(DEFAULT_INFO, []));
    NoAccount();
    AccountStep([], i);
    AccountStep([i], none);
    AccountStep([i, none], q);
    AccountStep([i, none, q], none);
    AccountStep([i, none, q, none], none);
    assert [] + [i] == [i] && [i] + [none] == [i, none] && [i, none] + [q] == [i, none, q];
    assert [i, none, q] + [none] == [i, none, q, none];
    assert [i, none, q, none] + [none] == [i, none, q, none, none];
  }

  // ---------- the room of a channel ----------

  ghost predicate RoomKept(s: State) {
    forall i | 0 <= i < |s.channels| :: |s.channels[i].queue| <= 4
  }

  lemma DropRoom(s: State)
    requires RoomKept(s)
    ensures RoomKept(DropSender(s))
  {
  }

  lemma TakeRoom(s: State, packet: Packet)
    requires RoomKept(s)
    ensures RoomKept(Apply(s, packet))
  {
    hide IsInsert, DropSender;
    DropRoom(s);
  }

  lemma StepRoom(s: State, step: Step)
    requires RoomKept(s) && Enabled(s, step)
    ensures RoomKept(Do(s, step))
  {
    hide Apply, DropSender;
    match step
    case Take => TakeRoom(s.(taken := s.taken + [s.inbox[0]], inbox := s.inbox[1..]), s.inbox[0]);
    case End => DropRoom(s);
    case _ =>
  }

  /** No channel ever holds more than four blocks, and a send waits exactly while there are four. */
  lemma {:induction false} ChannelRoom(s: State, steps: seq<Step>, t: State)
    requires RoomKept(s) && Runs(s, steps, t)
    ensures RoomKept(t)
    ensures t.point.Sending? && t.out.Some? && t.out.value < |t.channels| ==>
              (Enabled(t, Push) <==> |t.channels[t.out.value].queue| != 4)
    decreases |steps|
  {
    hide Do;
    if |steps| > 0 {
      StepRoom(s, steps[0]);
      ChannelRoom(Do(s, steps[0]), steps[1..], t);
    }
  }

  // ---------- a stream that fails ----------

  /** A session that is sent a code that is none, and no more, ends with the answer that says so. */
  lemma StrangeCode(code: u64, wire: Wire, steps: seq<Step>, t: State)
    requires code == 5 || code == 6 || code > 7
    requires var served := Deliver(Leb128(code), wire); Runs(Start(served.packets, served.outcome), steps, t)
    requires Stopped(t)
    ensures t.written == [ErrorReply(Failed(UnknownPacket(code)))]
  {
    hide Account, ReadPacket, Runs, Stopped, Leb128, Measure;
    assert Holds(Leb128(code), 0, Leb128(code));
    ShortPackets(Leb128(code), 0, code, wire);
    assert Deliver(Leb128(code), wire) == Served([], Failed(UnknownPacket(code)));
    NoAccount();
    EveryRunEndsAlike([], Failed(UnknownPacket(code)), steps, t);
  }

  // ---------- an insert, from the bytes of the client to the consumer ----------

  /** A sent block as it is read: the tags of its info are there. */
  function AsRead(b: Block): Block { Block(BlockInfo(1, b.info.overflows, 2, b.info.bucket, 0), b.columns) }

  function AllRead(blocks: seq<Block>): (r: seq<Block>)
    ensures |r| == |blocks|
  {
    seq(|blocks|, i requires 0 <= i < |blocks| => AsRead(blocks[i]))
  }

  function Sent(blocks: seq<Block>): (r: seq<Message>)
    ensures |r| == |blocks|
  {
    seq(|blocks|, i requires 0 <= i < |blocks| => Sends(2, [], blocks[i]))
  }

  /** Hello, an insert query, a block without columns, the data, and a block without columns. */
  function InsertScript(h: Hello, a: Asked, empty: Block, blocks: seq<Block>): seq<Message> {
    [SaysHello(h)] + ([Asks(a)] + ([Sends(2, [], empty)] + (Sent(blocks) + [Sends(2, [], empty)])))
  }

  lemma {:induction false} BlocksReceived(packets: seq<Packet>, blocks: seq<Block>, empty: Block, hello: Option<Hello>)
    requires Received(packets, Sent(blocks) + [Sends(2, [], empty)], hello)
    ensures packets == DataPackets(AllRead(blocks)) + [DataPacket(AsRead(empty))]
    decreases |blocks|
  {
    var script := Sent(blocks) + [Sends(2, [], empty)];
    if |blocks| == 0 {
      assert script == [Sends(2, [], empty)] && script[1..] == [];
      assert packets == [packets[0]];
    } else {
      assert script[0] == Sends(2, [], blocks[0]);
      assert script[1..] == Sent(blocks[1..]) + [Sends(2, [], empty)];
      BlocksReceived(packets[1..], blocks[1..], empty, hello);
      assert AllRead(blocks) == [AsRead(blocks[0])] + AllRead(blocks[1..]);
      DataFirst(AsRead(blocks[0]), AllRead(blocks[1..]));
      assert packets == [packets[0]] + packets[1..];
    }
  }

  lemma {:induction false} DataFirst(b: Block, blocks: seq<Block>)
    ensures DataPackets([b] + blocks) == [DataPacket(b)] + DataPackets(blocks)
    decreases |blocks|
  {
    if |blocks| == 0 {
      assert [b] + blocks == [b] && [b][..0] == [];
      assert DataPackets([b]) == DataPackets([]) + [DataPacket(b)];
    } else {
      var n := |blocks| - 1;
      DataFirst(b, blocks[..n]);
      assert ([b] + blocks)[..|[b] + blocks| - 1] == [b] + blocks[..n];
    }
  }

  lemma ScriptReceived(packets: seq<Packet>, h: Hello, a: Asked, empty: Block, blocks: seq<Block>) returns (q: Query)
    requires Received(packets, InsertScript(h, a, empty, blocks), None)
    ensures q.text == a.text
    ensures packets == [HelloPacket(h)] + [QueryPacket(q)] + DataPackets([]) + [DataPacket(AsRead(empty))]
                       + DataPackets(AllRead(blocks)) + [DataPacket(AsRead(empty))]
  {
    hide Understood, DataPackets;
    var third := Sent(blocks) + [Sends(2, [], empty)];
    var second := [Sends(2, [], empty)] + third;
    var first := [Asks(a)] + second;
    var script := InsertScript(h, a, empty, blocks);
    assert script[1..] == first && first[1..] == second && second[1..] == third;
    assert Received(packets[1..], first, Some(h));
    assert Received(packets[1..][1..], second, Some(h));
    q := packets[1..][0].query;
    assert Received(packets[1..][1..][1..], third, Some(h));
    BlocksReceived(packets[1..][1..][1..], blocks, empty, Some(h));
    NoData();
    assert packets == [packets[0]] + ([packets[1..][0]] + ([packets[1..][1..][0]] + packets[1..][1..][1..]));
  }

  lemma NoData()
    ensures DataPackets([]) == []
  {
  }

  /** The account of the whole conversation. */
  lemma InsertAccount(h: Hello, q: Query, empty: Block, blocks: seq<Block>)
    requires IsInsert(q.text) && empty.columns == [] && forall i | 0 <= i < |blocks| :: blocks[i].columns != []
    ensures var l := Account([HelloPacket(h)] + [QueryPacket(q)] + DataPackets([]) + [DataPacket(empty)]
                             + DataPackets(blocks) + [DataPacket(empty)]);
            l.responses == [HelloReply, Sample, EndOfStream] && l.inserts == [blocks]
  {
    hide Account, IsInsert, DataPackets, Note;
    HelloAccount(h);
    OneInsert([HelloPacket(h)], q, empty, [], blocks);
    assert [] + blocks == blocks;
    assert [HelloReply] + [Sample] + [EndOfStream] == [HelloReply, Sample, EndOfStream];
  }

  lemma HelloAccount(h: Hello)
    ensures var l := Account([HelloPacket(h)]);
            l.responses == [HelloReply] && l.inserts == [] && !l.open
  {
    hide Account;
    NoAccount();
    AccountStep([], HelloPacket(h));
    assert [] + [HelloPacket(h)] == [HelloPacket(h)];
  }

  /** A client that says hello, asks for an insert and sends its blocks: however its bytes are cut into reads and
      however session and consumer are interleaved, the consumer gets exactly these blocks, once each and in order, and
      the client a reply, a sample and one end-of-stream. */
  lemma InsertConversation(h: Hello, a: Asked, empty: Block, blocks: seq<Block>, codec: Codec, pieces: seq<bytes>,
                           steps: seq<Step>, t: State)
    requires IsInsert(a.text) && empty.columns == [] && forall i | 0 <= i < |blocks| :: blocks[i].columns != []
    requires var script := InsertScript(h, a, empty, blocks);
             Sensible(script, codec, None, true) && Flat(pieces) == Written(script, codec, None, true)
    requires var served := Serve([], pieces, Wire(codec, None, true));
             Runs(Start(served.packets, served.outcome), steps, t) && Stopped(t)
    ensures t.written == [HelloReply, Sample, EndOfStream]
    ensures |t.channels| == 1 && t.channels[0].received == AllRead(blocks)
  {
    hide Account, IsInsert, Serve, Sensible, Written, Received, Runs, Stopped, Measure, InsertScript, DataPackets;
    var script := InsertScript(h, a, empty, blocks);
    ScriptServed(script, codec, pieces);
    var served := Serve([], pieces, Wire(codec, None, true));
    var q := ScriptReceived(served.packets, h, a, empty, blocks);
    EveryRunEndsAlike(served.packets, CleanEnd, steps, t);
    InsertAccount(h, q, AsRead(empty), AllRead(blocks));
  }
}

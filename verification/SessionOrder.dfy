/** When an end-of-stream can be written before its insert is consumed, and how many there are. */
module SessionOrder {
  import opened Basics
  import opened Blocks
  import opened Protocol
  import opened Delivery
  import opened Sessions
  import opened SessionRuns

  // ---------- drained before the end of the stream ----------

  /** Whenever the session may write the end-of-stream of an insert, the consumer of that insert has taken all its
      blocks. */
  ghost predicate Drained(s: State) {
    s.point.Awaiting? && s.point.woken ==> s.point.ch < |s.channels| && s.channels[s.point.ch].done
  }

  /** Without superseded inserts every other consumer is done, and no permit is left over while the session runs. */
  ghost predicate Tidy(s: State) {
    var l := Account(s.taken);
    && (s.point.Awaiting? && l.superseded ==> l.overtaken)
    && (!l.superseded ==>
          && (forall i | 0 <= i < |s.channels| ::
                s.channels[i].done || s.out == Some(i) || (s.point.Awaiting? && s.point.ch == i) || s.point.Ended?)
          && (s.permit ==> s.point.Ended?)
          && Drained(s))
  }

  /** A new consumer is not done, and one that is closed was the last. */
  lemma TidyTake(s: State)
    requires Inv(s) && Tidy(s) && Enabled(s, Take)
    ensures Tidy(Do(s, Take))
  {
    hide Account, IsInsert, AnswersMatch, ChannelMatches, DropSender;
    var packet := s.inbox[0];
    AccountStep(s.taken, packet);
    var before := s.(taken := s.taken + [packet], inbox := s.inbox[1..]);
    var d := DropSender(before);
    Dropped(before);
    if packet.QueryPacket? {
      TidyQuery(s, before, packet.query.text);
    }
  }

  lemma Dropped(s: State)
    requires s.out.Some? ==> s.out.value < |s.channels|
    ensures var d := DropSender(s);
            && d == s.(out := None, channels := d.channels) && |d.channels| == |s.channels|
            && forall i | 0 <= i < |s.channels| ::
                 d.channels[i].done == s.channels[i].done && d.channels[i].queue == s.channels[i].queue
  {
  }

  lemma TidyQuery(s: State, before: State, text: bytes)
    requires Inv(s) && Tidy(s) && s.point.Idle? && before == s.(taken := before.taken, inbox := before.inbox)
    ensures var t := ApplyQuery(before, text);
            && t.permit == s.permit && t.point == s.point && t.taken == before.taken
            && (!Account(s.taken).superseded && !(s.out.Some? && IsInsert(text)) ==>
                  forall i | 0 <= i < |t.channels| :: t.channels[i].done || t.out == Some(i))
  {
    hide Account, IsInsert, AnswersMatch, ChannelMatches, DropSender;
    Dropped(before);
  }

  lemma TidyStep(s: State, step: Step)
    requires Inv(s) && Tidy(s) && Enabled(s, step)
    ensures Tidy(Do(s, step))
  {
    hide Account, IsInsert, AnswersMatch;
    match step
    case Take => TidyTake(s);
    case Push =>
    case Wake =>
    case End =>
    case Receive(i) => assert ChannelMatches(s, Account(s.taken), i);
    case Finish(i) => assert ChannelMatches(s, Account(s.taken), i);
  }

  lemma {:induction false} TidyRun(s: State, steps: seq<Step>, t: State)
    requires Inv(s) && Tidy(s) && Runs(s, steps, t)
    ensures Inv(t) && Tidy(t)
    decreases |steps|
  {
    hide Inv, Do, Enabled, Tidy;
    if |steps| > 0 {
      StepInv(s, steps[0]);
      TidyStep(s, steps[0]);
      TidyRun(Do(s, steps[0]), steps[1..], t);
    }
  }

  /** What a prefix shows of the account of the whole. */
  lemma {:induction false} AccountGrows(packets: seq<Packet>, n: nat)
    requires n <= |packets|
    ensures var a, b := Account(packets[..n]), Account(packets);
            && (a.superseded ==> b.superseded) && (a.overtaken ==> b.overtaken && b.superseded)
    decreases |packets| - n
  {
    hide Account;
    if n == |packets| {
      assert packets[..n] == packets;
      OvertakenSuperseded(packets);
    } else {
      AccountGrows(packets, n + 1);
      assert packets[..n + 1] == packets[..n] + [packets[n]];
      AccountStep(packets[..n], packets[n]);
    }
  }

  lemma {:induction false} OvertakenSuperseded(packets: seq<Packet>)
    ensures Account(packets).overtaken ==> Account(packets).superseded
  {
    hide Note;
    if |packets| > 0 {
      var n := |packets| - 1;
      OvertakenSuperseded(packets[..n]);
      NoteFlags(Account(packets[..n]), packets[n]);
    }
  }

  lemma NoteFlags(l: Ledger, packet: Packet)
    requires l.open ==> |l.inserts| > 0
    ensures var m := Note(l, packet);
            (l.superseded ==> m.superseded) && (l.overtaken ==> m.overtaken)
            && (m.overtaken ==> l.overtaken || l.superseded)
  {
    hide IsInsert;
  }

  // ---------- a run that takes every packet as soon as it can ----------

  /** The session rests and the insert that is open has nothing queued. */
  ghost predicate Resting(s: State) {
    Inv(s) && s.point.Idle? && (s.out.Some? ==> s.channels[s.out.value].queue == [])
  }

  predicate Opens(s: State, packet: Packet) {
    packet.QueryPacket? && IsInsert(packet.query.text)
  }

  predicate Closes(s: State, packet: Packet) {
    packet.DataPacket? && packet.block.columns == [] && s.stage.InsertStarted?
  }

  /** The insert that was open when another came can be finished. */
  lemma FinishOld(s: State) returns (steps: seq<Step>, t: State)
    requires Resting(s) && |s.inbox| > 0 && s.out.Some? && Opens(s, s.inbox[0])
    ensures Runs(s, steps, t) && Resting(t) && t.permit
    ensures t.taken == s.taken + [s.inbox[0]] && t.inbox == s.inbox[1..]
  {
    hide Account, AnswersMatch, Runs, IsInsert;
    var a, k := Do(s, Take), s.out.value;
    TakeInv(s);
    assert ChannelMatches(s, Account(s.taken), k);
    FinishInv(a, k);
    t := Do(a, Finish(k));
    TwoSteps(s, Take, Finish(k));
    steps := [Take, Finish(k)];
  }

  lemma SendOn(a: State) returns (steps: seq<Step>, t: State)
    requires Inv(a) && a.point.Sending? && a.out.Some? && a.out.value < |a.channels|
    requires a.channels[a.out.value].queue == []
    ensures Runs(a, steps, t) && Resting(t)
    ensures t.taken == a.taken && t.inbox == a.inbox && t.permit == a.permit
  {
    hide Account, AnswersMatch, ChannelMatches, Runs;
    var k := a.out.value;
    PushInv(a);
    var b := Do(a, Push);
    ReceiveInv(b, k);
    t := Do(b, Receive(k));
    TwoSteps(a, Push, Receive(k));
    steps := [Push, Receive(k)];
  }

  lemma AwaitOn(a: State) returns (steps: seq<Step>, t: State)
    requires Inv(a) && a.point.Awaiting? && a.point.ch < |a.channels| && a.channels[a.point.ch].queue == []
    ensures Runs(a, steps, t) && Resting(t) && t.taken == a.taken && t.inbox == a.inbox
  {
    hide Account, AnswersMatch, Runs;
    var k := a.point.ch;
    assert ChannelMatches(a, Account(a.taken), k);
    if a.point.woken {
      WakeInv(a);
      OneStep(a, Wake);
      steps, t := [Wake], Do(a, Wake);
    } else {
      var b := Do(a, Finish(k));
      FinishInv(a, k);
      WakeInv(b);
      TwoSteps(a, Finish(k), Wake);
      steps, t := [Finish(k), Wake], Do(b, Wake);
    }
  }

  /** What the taking of a packet leaves to do. */
  lemma AfterTake(s: State)
    requires Resting(s) && |s.inbox| > 0
    ensures var a := Do(s, Take);
            && a.taken == s.taken + [s.inbox[0]] && a.inbox == s.inbox[1..]
            && (if a.point.Awaiting? then a.point.woken == s.permit && !a.permit else a.permit == s.permit)
            && (a.point.Idle? && !(s.out.Some? && Opens(s, s.inbox[0])) ==>
                  a.out.Some? ==> a.out.value < |a.channels| && a.channels[a.out.value].queue == [])
            && (a.point.Sending? ==> a.out.Some? && a.out.value < |a.channels| && a.channels[a.out.value].queue == [])
            && (a.point.Awaiting? ==> a.point.ch < |a.channels| && a.channels[a.point.ch].queue == [])
            && (a.point.Awaiting? <==> Closes(s, s.inbox[0]))
            && !a.point.Ended?
            && (s.out.Some? && Opens(s, s.inbox[0]) ==> a.point.Idle?)
  {
    hide Account, AnswersMatch, ChannelsMatch, IsInsert, DropSender;
    Dropped(s.(taken := s.taken + [s.inbox[0]], inbox := s.inbox[1..]));
  }

  /** Takes one packet and lets the consumers follow. An insert that supersedes another leaves a permit, and
      a permit stays until an insert is closed. */
  lemma TakeEagerly(s: State) returns (steps: seq<Step>, t: State)
    requires Resting(s) && |s.inbox| > 0
    ensures Runs(s, steps, t) && Resting(t)
    ensures t.taken == s.taken + [s.inbox[0]] && t.inbox == s.inbox[1..]
    ensures s.out.Some? && Opens(s, s.inbox[0]) ==> t.permit
    ensures s.permit && !Closes(s, s.inbox[0]) ==> t.permit
  {
    hide Tracks, Runs, Apply, Opens, Closes;
    var a := Do(s, Take);
    TakeInv(s);
    AfterTake(s);
    if s.out.Some? && Opens(s, s.inbox[0]) {
      steps, t := FinishOld(s);
    } else {
      OneStep(s, Take);
      if a.point.Idle? {
        steps, t := [Take], a;
      } else if a.point.Sending? {
        var rest, u := SendOn(a);
        RunsThen(s, [Take], a, rest, u);
        steps, t := [Take] + rest, u;
      } else {
        var rest, u := AwaitOn(a);
        RunsThen(s, [Take], a, rest, u);
        steps, t := [Take] + rest, u;
      }
    }
  }

  lemma OneStep(s: State, step: Step)
    requires Enabled(s, step)
    ensures Runs(s, [step], Do(s, step))
  {
    hide Do, Enabled, Runs;
    RunsCons(s, step, [], Do(s, step));
    NoSteps(Do(s, step), Do(s, step));
    assert [step] + [] == [step];
  }

  lemma TwoSteps(s: State, first: Step, second: Step)
    requires Enabled(s, first) && Enabled(Do(s, first), second)
    ensures Runs(s, [first, second], Do(Do(s, first), second))
  {
    hide Do, Enabled, Runs;
    OneStep(Do(s, first), second);
    RunsCons(s, first, [second], Do(Do(s, first), second));
    assert [first] + [second] == [first, second];
  }

  /** The account of the open insert and of the next packet, seen from a state. */
  lemma NextNote(s: State)
    requires Resting(s) && |s.inbox| > 0
    ensures var l, m := Account(s.taken), Account(s.taken + [s.inbox[0]]);
            && (m.superseded <==> l.superseded || (s.out.Some? && Opens(s, s.inbox[0])))
            && (m.overtaken <==> l.overtaken || (l.superseded && Closes(s, s.inbox[0])))
  {
    hide Account, IsInsert, AnswersMatch, ChannelsMatch;
    AccountStep(s.taken, s.inbox[0]);
  }

  /** The first `n` packets taken eagerly: from the superseding insert to the next end of an insert the permit is
      there. */
  lemma {:induction false} TakeAll(packets: seq<Packet>, outcome: Outcome, n: nat) returns (steps: seq<Step>, s: State)
    requires n <= |packets|
    ensures Runs(Start(packets, outcome), steps, s) && Resting(s)
    ensures s.taken == packets[..n] && s.inbox == packets[n..]
    ensures Account(packets[..n]).superseded && !Account(packets[..n]).overtaken ==> s.permit
    decreases n
  {
    if n == 0 {
      steps, s := [], Start(packets, outcome);
      assert packets[..0] == [];
      StartInv(packets, outcome);
    } else {
      hide Account, Tracks, Runs, Opens, Closes;
      var before, r := TakeAll(packets, outcome, n - 1);
      var more, t := TakeEagerly(r);
      NextNote(r);
      assert packets[..n] == packets[..n - 1] + [packets[n - 1]];
      RunsThen(Start(packets, outcome), before, r, more, t);
      steps, s := before + more, t;
    }
  }

  /** The end of an insert after a superseding one: the permit of the superseded insert is taken for its own. */
  lemma WakesEarly(s: State)
    requires Resting(s) && |s.inbox| > 0 && Closes(s, s.inbox[0]) && s.permit
    ensures Enabled(s, Take) && !Drained(Do(s, Take))
  {
    hide Account, AnswersMatch, IsInsert;
    assert ChannelMatches(s, Account(s.taken), s.out.value);
  }

  /** The packet with which the account first says `overtaken`. */
  lemma {:induction false} FirstOvertaken(packets: seq<Packet>) returns (n: nat)
    requires Account(packets).overtaken
    ensures n < |packets| && !Account(packets[..n]).overtaken && Account(packets[..n + 1]).overtaken
  {
    hide Note;
    var k := |packets| - 1;
    assert packets[..|packets|] == packets;
    if Account(packets[..k]).overtaken {
      n := FirstOvertaken(packets[..k]);
      assert packets[..k][..n] == packets[..n] && packets[..k][..n + 1] == packets[..n + 1];
    } else {
      n := k;
    }
  }

  ghost predicate AlwaysDrained(packets: seq<Packet>, outcome: Outcome) {
    forall steps, s :: Runs(Start(packets, outcome), steps, s) ==> Drained(s)
  }

  lemma NotOvertaken(packets: seq<Packet>, outcome: Outcome, steps: seq<Step>, s: State)
    requires !Account(packets).overtaken && Runs(Start(packets, outcome), steps, s)
    ensures Drained(s)
  {
    hide Account, Tracks, Runs;
    StartInv(packets, outcome);
    StartTidy(packets, outcome);
    TidyRun(Start(packets, outcome), steps, s);
    RunInv(Start(packets, outcome), steps, s);
    assert s.taken + s.inbox == packets by { assert [] + packets == packets; }
    assert packets[..|s.taken|] == s.taken;
    AccountGrows(packets, |s.taken|);
  }

  lemma StartTidy(packets: seq<Packet>, outcome: Outcome)
    ensures Tidy(Start(packets, outcome))
  {
  }

  /** In every interleaving the consumer of an insert has taken all its blocks before the end-of-stream of that
      insert may be written, if and only if no insert ends after an insert query came while another insert was open. */
  lemma EndsInOrder(packets: seq<Packet>, outcome: Outcome)
    ensures AlwaysDrained(packets, outcome) <==> !Account(packets).overtaken
  {
    hide Account, Tracks, Runs, Drained, Closes, Opens;
    if Account(packets).overtaken {
      var n := FirstOvertaken(packets);
      var steps, s := TakeAll(packets, outcome, n);
      assert packets[..n + 1] == packets[..n] + [packets[n]];
      NextNote(s);
      WakesEarly(s);
      OneStep(s, Take);
      RunsThen(Start(packets, outcome), steps, s, [Take], Do(s, Take));
      assert !AlwaysDrained(packets, outcome);
    } else {
      forall steps, s | Runs(Start(packets, outcome), steps, s) ensures Drained(s) {
        NotOvertaken(packets, outcome, steps, s);
      }
    }
  }

  /** Two insert queries, then two blocks without columns: the insert that ends came after another was open, and some
      interleaving writes the end-of-stream before its consumer has taken everything. */
  lemma InsertTwice(insert: Query, outcome: Outcome)
    requires IsInsert(insert.text)
    ensures var none := DataPacket(Block(DEFAULT_INFO, []));
            var packets := [QueryPacket(insert), QueryPacket(insert), none, none];
            Account(packets).overtaken && !AlwaysDrained(packets, outcome)
  {
    hide AlwaysDrained, Account, IsInsert;
    var q, none := QueryPacket(insert), DataPacket(Block(DEFAULT_INFO, []));
    NoAccount();
    AccountStep([], q);
    AccountStep([q], q);
    AccountStep([q, q], none);
    AccountStep([q, q, none], none);
    assert [] + [q] == [q] && [q] + [q] == [q, q];
    assert [q, q] + [none] == [q, q, none] && [q, q, none] + [none] == [q, q, none, none];
    EndsInOrder([q, q, none, none], outcome);
  }

  lemma NoAccount()
    ensures Account([]) == Ledger(false, false, [], [], false, false, false)
  {
  }

  // ---------- counting the ends of stream ----------

  function Ends(responses: seq<Response>): nat {
    if |responses| == 0 then 0
    else Ends(responses[..|responses| - 1]) + if responses[|responses| - 1].EndOfStream? then 1 else 0
  }

  function Queries(packets: seq<Packet>): nat {
    if |packets| == 0 then 0
    else Queries(packets[..|packets| - 1]) + if packets[|packets| - 1].QueryPacket? then 1 else 0
  }

  lemma EndsStep(responses: seq<Response>, r: Response)
    ensures Ends(responses + [r]) == Ends(responses) + if r.EndOfStream? then 1 else 0
  {
    assert (responses + [r])[..|responses|] == responses;
  }

  /** Ends of stream, an open insert counted as one. */
  function Accounted(l: Ledger): nat {
    Ends(l.responses) + if l.open then 1 else 0
  }

  lemma NoteEnds(l: Ledger, packet: Packet)
    requires l.open ==> |l.inserts| > 0
    ensures Accounted(Note(l, packet)) == Accounted(l) + if packet.QueryPacket? && !l.open then 1 else 0
  {
    hide IsInsert, Ends;
    var r := l.responses;
    EndsStep(r, Pong);
    EndsStep(r, HelloReply);
    EndsStep(r, Sample);
    EndsStep(r, EndOfStream);
    if packet.QueryPacket? {
      var results := Results(packet.query.text);
      EndsStep(r, results);
      EndsStep(r + [results], EndOfStream);
      assert r + [results] + [] == r + [results];
    }
  }

  /** Ends of stream and open inserts never exceed the queries, and match them exactly for clients that send no query
      during an open insert. */
  lemma {:induction false} Balance(packets: seq<Packet>)
    ensures Accounted(Account(packets)) <= Queries(packets)
    ensures Accounted(Account(packets)) == Queries(packets) <==> !Account(packets).crossed
  {
    hide Note, Ends;
    if |packets| > 0 {
      var n := |packets| - 1;
      Balance(packets[..n]);
      NoteEnds(Account(packets[..n]), packets[n]);
      NoteCrossed(Account(packets[..n]), packets[n]);
    } else {
      NoEnds();
    }
  }

  lemma NoEnds()
    ensures Ends([]) == 0
  {
  }

  lemma NoteCrossed(l: Ledger, packet: Packet)
    requires l.open ==> |l.inserts| > 0
    ensures Note(l, packet).crossed <==> l.crossed || (packet.QueryPacket? && l.open)
  {
    hide IsInsert;
  }

  /** The same for every state of every run, counting an insert whose consumer is waited for as open. */
  lemma RunBalance(packets: seq<Packet>, outcome: Outcome, steps: seq<Step>, s: State)
    requires Runs(Start(packets, outcome), steps, s) && !s.point.Ended?
    ensures var closed := Ends(s.written) + if s.out.Some? || s.point.Awaiting? then 1 else 0;
            closed <= Queries(s.taken) && (closed == Queries(s.taken) <==> !Account(s.taken).crossed)
  {
    hide Account, Runs, Ends, ChannelsMatch;
    StartInv(packets, outcome);
    RunInv(Start(packets, outcome), steps, s);
    Balance(s.taken);
    EndsStep(s.written, EndOfStream);
  }

  // ---------- what the account says of an insert ----------

  function DataPackets(blocks: seq<Block>): seq<Packet> {
    if |blocks| == 0 then [] else DataPackets(blocks[..|blocks| - 1]) + [DataPacket(blocks[|blocks| - 1])]
  }

  lemma {:induction false} DataNoted(packets: seq<Packet>, blocks: seq<Block>, front: seq<seq<Block>>, last: seq<Block>)
    requires forall i | 0 <= i < |blocks| :: blocks[i].columns != []
    requires Account(packets).open && Account(packets).inserts == front + [last]
    ensures Account(packets + DataPackets(blocks)) == Account(packets).(inserts := front + [last + blocks])
    decreases |blocks|
  {
    hide Account;
    if |blocks| == 0 {
      assert packets + DataPackets(blocks) == packets && last + blocks == last;
    } else {
      var n := |blocks| - 1;
      var before := packets + DataPackets(blocks[..n]);
      DataNoted(packets, blocks[..n], front, last);
      AccountStep(before, DataPacket(blocks[n]));
      assert packets + DataPackets(blocks) == before + [DataPacket(blocks[n])];
      assert last + blocks[..n] + [blocks[n]] == last + blocks;
      assert (front + [last + blocks[..n]])[|front| := last + blocks] == front + [last + blocks];
    }
  }

  lemma InsertOpens(packets: seq<Packet>, query: Query, early: seq<Block>)
    requires !Account(packets).open && IsInsert(query.text)
    requires forall i | 0 <= i < |early| :: early[i].columns != []
    ensures var l := Account(packets);
            Account(packets + [QueryPacket(query)] + DataPackets(early))
            == l.(open := true, started := false, inserts := l.inserts + [early], responses := l.responses + [Sample])
  {
    hide Account, IsInsert, DataPackets;
    AccountStep(packets, QueryPacket(query));
    DataNoted(packets + [QueryPacket(query)], early, Account(packets).inserts, []);
    assert [] + early == early;
  }

  lemma InsertCloses(packets: seq<Packet>, empty: Block, blocks: seq<Block>, front: seq<seq<Block>>, last: seq<Block>)
    requires var l := Account(packets); l.open && !l.started && l.inserts == front + [last]
    requires empty.columns == [] && forall i | 0 <= i < |blocks| :: blocks[i].columns != []
    ensures var l := Account(packets);
            Account(packets + [DataPacket(empty)] + DataPackets(blocks) + [DataPacket(empty)])
            == l.(open := false, inserts := front + [last + blocks], responses := l.responses + [EndOfStream],
                  overtaken := l.overtaken || l.superseded)
  {
    hide Account, DataPackets;
    var c := packets + [DataPacket(empty)];
    AccountStep(packets, DataPacket(empty));
    DataNoted(c, blocks, front, last);
    AccountStep(c + DataPackets(blocks), DataPacket(empty));
  }

  /** An insert with its query, data that comes early, the block without columns that starts it, its data and the
      block that ends it: the account gains all these blocks, the sample and one end-of-stream. */
  lemma OneInsert(packets: seq<Packet>, query: Query, empty: Block, early: seq<Block>, blocks: seq<Block>)
    requires !Account(packets).open && IsInsert(query.text) && empty.columns == []
    requires forall i | 0 <= i < |early| :: early[i].columns != []
    requires forall i | 0 <= i < |blocks| :: blocks[i].columns != []
    ensures var l := Account(packets);
            var m := Account(packets + [QueryPacket(query)] + DataPackets(early) + [DataPacket(empty)]
                             + DataPackets(blocks) + [DataPacket(empty)]);
            && !m.open && m.inserts == l.inserts + [early + blocks]
            && m.responses == l.responses + [Sample] + [EndOfStream]
            && m.crossed == l.crossed && m.overtaken == (l.overtaken || l.superseded)
  {
    hide Account, IsInsert, DataPackets;
    InsertOpens(packets, query, early);
    InsertCloses(packets + [QueryPacket(query)] + DataPackets(early), empty, blocks, Account(packets).inserts, early);
  }
}

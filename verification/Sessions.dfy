/** A session and the tasks that consume its inserts, as interleaved steps. */
module Sessions {
  import opened Basics
  import opened Text
  import opened Blocks
  import opened Protocol
  import opened Delivery

  /** The room of the channel between the session and a consumer. */
  const CHANNEL: nat := 4

  datatype Stage = Default | InsertPrepare | InsertStarted | EOS

  datatype Response = Pong | HelloReply | Sample | Results(query: bytes) | EndOfStream | ErrorReply(error: Outcome)

  /** The queue between the session and one consumer. It is open while the session holds the sender. The consumer is
      done once it has seen the end and has given notice. */
  datatype Channel = Channel(queue: seq<Block>, open: bool, received: seq<Block>, done: bool)

  /** Where the session stands between two awaits. While it awaits the notice of a consumer it has been woken or not. */
  datatype Point = Idle | Sending(block: Block) | Awaiting(ch: nat, woken: bool) | Ended

  datatype State = State(
    point: Point, stage: Stage, out: Option<nat>, permit: bool, channels: seq<Channel>,
    taken: seq<Packet>, inbox: seq<Packet>, outcome: Outcome, written: seq<Response>)

  function Start(packets: seq<Packet>, outcome: Outcome): State {
    State(Idle, Default, None, false, [], [], packets, outcome, [])
  }

  /** The session of the example: a query that starts with INSERT opens a channel. */
  predicate IsInsert(text: bytes) { StartsWith(text, Ascii("INSERT")) || StartsWith(text, Ascii("insert")) }

  /** Assigning `out` drops the sender that was there. */
  function DropSender(s: State): State {
    if s.out.Some? && s.out.value < |s.channels| then
      s.(out := None, channels := s.channels[s.out.value := s.channels[s.out.value].(open := false)])
    else s.(out := None)
  }

  /** `QueryState::reset`. */
  function Reset(s: State): State { DropSender(s).(stage := Default) }

  /** `Cmd::apply` of a query: `execute_query` first, then a look at `out`. */
  function ApplyQuery(s: State, text: bytes): State {
    if IsInsert(text) then
      var d := DropSender(s);
      d.(channels := d.channels + [Channel([], true, [], false)], out := Some(|d.channels|),
         written := d.written + [Sample], stage := InsertPrepare)
    else
      var r := s.(written := s.written + [Results(text)]);
      if r.out.Some? then r.(stage := InsertPrepare) else r.(written := r.written + [EndOfStream])
  }

  /** `Cmd::apply` of a block, up to the first await. A block without columns moves the stage. A permit that is there
      when the session starts to wait is taken at once. */
  function ApplyData(s: State, block: Block): State {
    if block.columns == [] then
      match s.stage
      case InsertPrepare => s.(stage := InsertStarted)
      case InsertStarted =>
        Reset(s).(point := Awaiting(if s.out.Some? then s.out.value else |s.channels|, s.permit), permit := false)
      case _ => s
    else if s.out.Some? then s.(point := Sending(block))
    else s
  }

  function Apply(s: State, packet: Packet): State {
    match packet
    case Ping => s.(written := s.written + [Pong])
    case Cancel => s
    case HelloPacket(_) => s.(written := s.written + [HelloReply])
    case QueryPacket(query) => ApplyQuery(s, query.text)
    case DataPacket(block) => ApplyData(s, block)
  }

  datatype Step =
    | Take
    | Push
    | Wake
    | End
    | Receive(c: nat)
    | Finish(c: nat)

  predicate Enabled(s: State, step: Step) {
    match step
    case Take => s.point.Idle? && |s.inbox| > 0
    case Push =>
      s.point.Sending? && s.out.Some? && s.out.value < |s.channels| && |s.channels[s.out.value].queue| < CHANNEL
    case Wake => s.point.Awaiting? && s.point.woken
    case End => s.point.Idle? && |s.inbox| == 0
    case Receive(c) => c < |s.channels| && |s.channels[c].queue| > 0
    case Finish(c) => c < |s.channels| && !s.channels[c].open && s.channels[c].queue == [] && !s.channels[c].done
  }

  /** What is written at the end: the error, if there is one. A panic ends the task without a word. */
  function Farewell(outcome: Outcome): seq<Response> {
    if outcome.CleanEnd? || (outcome.Failed? && outcome.error.Panic?) then [] else [ErrorReply(outcome)]
  }

  /** `notify_one`: wakes who waits and is not woken yet, else leaves the one permit there can be. */
  function Notify(s: State): State {
    if s.point.Awaiting? && !s.point.woken then s.(point := Awaiting(s.point.ch, true)) else s.(permit := true)
  }

  function Do(s: State, step: Step): State
    requires Enabled(s, step)
  {
    match step
    case Take => Apply(s.(taken := s.taken + [s.inbox[0]], inbox := s.inbox[1..]), s.inbox[0])
    case Push =>
      var c := s.channels[s.out.value];
      s.(point := Idle, channels := s.channels[s.out.value := c.(queue := c.queue + [s.point.block])])
    case Wake => s.(point := Idle, stage := Default, written := s.written + [EndOfStream])
    case End =>
      var r := Reset(s).(point := Ended);
      r.(written := r.written + Farewell(s.outcome))
    case Receive(i) =>
      var c := s.channels[i];
      s.(channels := s.channels[i := c.(queue := c.queue[1..], received := c.received + [c.queue[0]])])
    case Finish(i) => Notify(s.(channels := s.channels[i := s.channels[i].(done := true)]))
  }

  ghost predicate Runs(s: State, steps: seq<Step>, t: State)
    decreases |steps|
  {
    if |steps| == 0 then s == t else Enabled(s, steps[0]) && Runs(Do(s, steps[0]), steps[1..], t)
  }

  // ---------- the account: what the packets mean, one after the other ----------

  /** Whether an insert is open and its data has started; the blocks of each insert; the answers. `crossed`: a query
      came during an open insert. `superseded`: an insert did. `overtaken`: an insert ended after that. */
  datatype Ledger = Ledger(
    open: bool, started: bool, inserts: seq<seq<Block>>, responses: seq<Response>,
    crossed: bool, superseded: bool, overtaken: bool)

  function Note(l: Ledger, packet: Packet): (r: Ledger)
    requires l.open ==> |l.inserts| > 0
    ensures r.open ==> |r.inserts| > 0
  {
    match packet
    case Ping => l.(responses := l.responses + [Pong])
    case Cancel => l
    case HelloPacket(_) => l.(responses := l.responses + [HelloReply])
    case QueryPacket(query) =>
      var q := l.(started := false, crossed := l.crossed || l.open);
      if IsInsert(query.text) then
        q.(open := true, inserts := l.inserts + [[]], responses := l.responses + [Sample],
           superseded := l.superseded || l.open)
      else q.(responses := l.responses + [Results(query.text)] + if l.open then [] else [EndOfStream])
    case DataPacket(block) =>
      if !l.open then l
      else if block.columns != [] then
        var last := |l.inserts| - 1;
        l.(inserts := l.inserts[last := l.inserts[last] + [block]])
      else if !l.started then l.(started := true)
      else l.(open := false, started := false, responses := l.responses + [EndOfStream],
              overtaken := l.overtaken || l.superseded)
  }

  function Account(packets: seq<Packet>): (l: Ledger)
    ensures l.open ==> |l.inserts| > 0
  {
    if |packets| == 0 then Ledger(false, false, [], [], false, false, false)
    else Note(Account(packets[..|packets| - 1]), packets[|packets| - 1])
  }

  // ---------- what every step keeps ----------

  /** The blocks of insert `i` that have left the session, and the one on its way. */
  function Carried(s: State, i: nat): seq<Block>
    requires i < |s.channels|
  {
    s.channels[i].received + s.channels[i].queue + if s.point.Sending? && s.out == Some(i) then [s.point.block] else []
  }

  /** The stage tells whether the session holds a sender, and both match the account. */
  ghost predicate StageMatches(s: State, l: Ledger) {
    && s.stage != EOS
    && (s.out.Some? <==> s.stage.InsertPrepare? || s.stage.InsertStarted?)
    && (s.out.Some? ==> s.out.value == |s.channels| - 1)
    && (!s.point.Ended? ==> (s.out.Some? <==> l.open) && (s.stage.InsertStarted? <==> l.open && l.started))
    && (s.point.Sending? ==> s.out.Some?)
    && (s.point.Awaiting? || s.point.Ended? ==> s.out.None?)
    && (s.point.Ended? ==> s.inbox == [])
  }

  /** A channel carries the blocks of its insert, in order, and is open exactly for the sender. */
  ghost predicate ChannelMatches(s: State, l: Ledger, i: nat)
    requires i < |s.channels| == |l.inserts|
  {
    var c := s.channels[i];
    && Carried(s, i) == l.inserts[i]
    && (c.open <==> s.out == Some(i))
    && (c.done ==> !c.open && c.queue == [])
    && |c.queue| <= CHANNEL
  }

  ghost predicate ChannelsMatch(s: State, l: Ledger) {
    |l.inserts| == |s.channels| && forall i | 0 <= i < |s.channels| :: ChannelMatches(s, l, i)
  }

  /** The answers are those of the account; an end-of-stream is still due while the session waits, and an error
      is added at the end. */
  ghost predicate AnswersMatch(s: State, l: Ledger) {
    if s.point.Awaiting? then s.written + [EndOfStream] == l.responses
    else if s.point.Ended? then s.written == l.responses + Farewell(s.outcome)
    else s.written == l.responses
  }

  /** Who waits is woken, or the consumer waited for is not done yet. */
  ghost predicate WillWake(s: State) {
    s.point.Awaiting? ==> s.point.ch < |s.channels| && (s.point.woken || !s.channels[s.point.ch].done)
  }

  ghost predicate Tracks(s: State, l: Ledger) {
    StageMatches(s, l) && ChannelsMatch(s, l) && AnswersMatch(s, l) && WillWake(s)
  }

  ghost predicate Inv(s: State) {
    Tracks(s, Account(s.taken))
  }

  lemma StartInv(packets: seq<Packet>, outcome: Outcome)
    ensures Inv(Start(packets, outcome))
  {
  }

  lemma AccountStep(packets: seq<Packet>, p: Packet)
    ensures Account(packets + [p]) == Note(Account(packets), p)
  {
    assert (packets + [p])[..|packets|] == packets;
  }

  /** The channels after the sender is dropped. */
  lemma DropTracks(s: State, l: Ledger)
    requires ChannelsMatch(s, l) && !s.point.Sending? && (s.out.Some? ==> s.out.value == |s.channels| - 1)
    ensures var d := DropSender(s);
            && d.out.None? && |d.channels| == |s.channels|
            && d == s.(out := None, channels := d.channels)
            && (forall i | 0 <= i < |s.channels| :: d.channels[i] == s.channels[i].(open := false))
            && ChannelsMatch(d, l)
  {
    var d := DropSender(s);
    forall i | 0 <= i < |s.channels|
      ensures d.channels[i] == s.channels[i].(open := false) && ChannelMatches(d, l, i)
    {
      assert ChannelMatches(s, l, i);
    }
  }

  lemma InsertTracks(s: State, l: Ledger, text: bytes, query: Query)
    requires Tracks(s, l) && s.point.Idle? && (l.open ==> |l.inserts| > 0)
    requires query.text == text && IsInsert(text)
    ensures Tracks(ApplyQuery(s, text), Note(l, QueryPacket(query)))
  {
    hide IsInsert, DropSender, ChannelsMatch;
    DropTracks(s, l);
    NewChannel(DropSender(s), l, Note(l, QueryPacket(query)), ApplyQuery(s, text));
  }

  lemma NewChannel(d: State, l: Ledger, m: Ledger, t: State)
    requires ChannelsMatch(d, l) && d.out.None? && !d.point.Sending? && !t.point.Sending?
    requires m.inserts == l.inserts + [[]]
    requires t.channels == d.channels + [Channel([], true, [], false)] && t.out == Some(|d.channels|)
    ensures ChannelsMatch(t, m)
  {
    forall i | 0 <= i < |t.channels| ensures ChannelMatches(t, m, i) {
      if i < |d.channels| {
        assert ChannelMatches(d, l, i);
      }
    }
  }

  lemma DataTracks(s: State, l: Ledger, block: Block)
    requires Tracks(s, l) && s.point.Idle? && (l.open ==> |l.inserts| > 0)
    ensures Tracks(ApplyData(s, block), Note(l, DataPacket(block)))
  {
    hide DropSender, ChannelsMatch;
    var t, m := ApplyData(s, block), Note(l, DataPacket(block));
    if block.columns == [] && s.stage.InsertStarted? {
      DropTracks(s, l);
      Unmoved(DropSender(s), l, m, t);
      LastOpen(s, l);
    } else if block.columns != [] && s.out.Some? {
      Sent(s, l, m, t, block);
    } else {
      Unmoved(s, l, m, t);
    }
  }

  lemma LastOpen(s: State, l: Ledger)
    requires ChannelsMatch(s, l) && s.out.Some? && s.out.value < |s.channels|
    ensures s.channels[s.out.value].open && !s.channels[s.out.value].done
  {
    assert ChannelMatches(s, l, s.out.value);
  }

  lemma Unmoved(s: State, l: Ledger, m: Ledger, t: State)
    requires ChannelsMatch(s, l) && m.inserts == l.inserts && t.channels == s.channels && t.out == s.out
    requires !s.point.Sending? && !t.point.Sending?
    ensures ChannelsMatch(t, m)
  {
    forall i | 0 <= i < |t.channels| ensures ChannelMatches(t, m, i) {
      assert ChannelMatches(s, l, i);
    }
  }

  lemma Sent(s: State, l: Ledger, m: Ledger, t: State, block: Block)
    requires ChannelsMatch(s, l) && !s.point.Sending? && s.out == Some(|s.channels| - 1) && |s.channels| > 0
    requires var last := |l.inserts| - 1; last >= 0 && m.inserts == l.inserts[last := l.inserts[last] + [block]]
    requires t.channels == s.channels && t.out == s.out && t.point == Sending(block)
    ensures ChannelsMatch(t, m)
  {
    forall i | 0 <= i < |t.channels| ensures ChannelMatches(t, m, i) {
      assert ChannelMatches(s, l, i);
      assert i == |s.channels| - 1 ==> Carried(s, i) == s.channels[i].received + s.channels[i].queue;
    }
  }

  lemma ApplyTracks(s: State, l: Ledger, packet: Packet)
    requires Tracks(s, l) && s.point.Idle? && (l.open ==> |l.inserts| > 0)
    ensures Tracks(Apply(s, packet), Note(l, packet))
  {
    hide ChannelsMatch;
    match packet
    case QueryPacket(query) =>
      if IsInsert(query.text) {
        InsertTracks(s, l, query.text, query);
      } else {
        Unmoved(s, l, Note(l, packet), Apply(s, packet));
      }
    case DataPacket(block) => DataTracks(s, l, block);
    case _ => Unmoved(s, l, Note(l, packet), Apply(s, packet));
  }

  lemma TakeInv(s: State)
    requires Inv(s) && Enabled(s, Take)
    ensures Inv(Do(s, Take))
  {
    hide Account, Note, Apply, AnswersMatch, WillWake;
    var p := s.inbox[0];
    AccountStep(s.taken, p);
    var t := s.(taken := s.taken + [p], inbox := s.inbox[1..]);
    SameTracks(s, t, Account(s.taken));
    ApplyTracks(t, Account(s.taken), p);
    HistoryKept(t, p);
  }

  lemma SameTracks(s: State, t: State, l: Ledger)
    requires Tracks(s, l) && s.point.Idle? && t == s.(taken := t.taken, inbox := t.inbox)
    ensures Tracks(t, l)
  {
    hide ChannelsMatch;
    Unmoved(s, l, l, t);
  }

  lemma HistoryKept(s: State, packet: Packet)
    ensures Apply(s, packet).taken == s.taken
    ensures Apply(s, packet).inbox == s.inbox && Apply(s, packet).outcome == s.outcome
  {
    hide IsInsert;
  }

  lemma PushInv(s: State)
    requires Inv(s) && Enabled(s, Push)
    ensures Inv(Do(s, Push))
  {
    hide Account;
    var t, k, l := Do(s, Push), s.out.value, Account(s.taken);
    forall i | 0 <= i < |s.channels| ensures ChannelMatches(t, l, i) {
      assert ChannelMatches(s, l, i);
      if i == k {
        assert s.channels[k].received + (s.channels[k].queue + [s.point.block])
            == s.channels[k].received + s.channels[k].queue + [s.point.block];
      }
    }
  }

  lemma WakeInv(s: State)
    requires Inv(s) && Enabled(s, Wake)
    ensures Inv(Do(s, Wake))
  {
    hide Account, ChannelsMatch;
    Unmoved(s, Account(s.taken), Account(s.taken), Do(s, Wake));
  }

  lemma EndInv(s: State)
    requires Inv(s) && Enabled(s, End)
    ensures Inv(Do(s, End))
  {
    hide Account, ChannelsMatch, DropSender;
    var l := Account(s.taken);
    DropTracks(s, l);
    Unmoved(DropSender(s), l, l, Do(s, End));
  }

  lemma ReceiveInv(s: State, k: nat)
    requires Inv(s) && Enabled(s, Receive(k))
    ensures Inv(Do(s, Receive(k)))
  {
    hide Account;
    var t, l := Do(s, Receive(k)), Account(s.taken);
    forall i | 0 <= i < |s.channels| ensures ChannelMatches(t, l, i) {
      assert ChannelMatches(s, l, i);
      if i == k {
        var c := s.channels[k];
        assert c.received + [c.queue[0]] + c.queue[1..] == c.received + c.queue;
      }
    }
  }

  lemma FinishInv(s: State, k: nat)
    requires Inv(s) && Enabled(s, Finish(k))
    ensures Inv(Do(s, Finish(k)))
  {
    hide Account;
    var t, l := Do(s, Finish(k)), Account(s.taken);
    forall i | 0 <= i < |s.channels| ensures ChannelMatches(t, l, i) {
      assert ChannelMatches(s, l, i);
    }
  }

  /** Every step of the session or of a consumer keeps the invariant. */
  lemma StepInv(s: State, step: Step)
    requires Inv(s) && Enabled(s, step)
    ensures Inv(Do(s, step))
  {
    hide Do, Enabled, Tracks;
    match step
    case Take => TakeInv(s);
    case Push => PushInv(s);
    case Wake => WakeInv(s);
    case End => EndInv(s);
    case Receive(i) => ReceiveInv(s, i);
    case Finish(i) => FinishInv(s, i);
  }
}

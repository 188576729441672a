/** The session and its consumers as the code runs them: each method is what happens between two awaits. */
module SessionTask {
  import opened Basics
  import opened Protocol
  import opened Delivery
  import opened Sessions

  class Session {
    var point: Point
    var stage: Stage
    var out: Option<nat>
    var permit: bool
    var channels: seq<Channel>
    var inbox: seq<Packet>
    var written: seq<Response>
    const outcome: Outcome
    ghost var taken: seq<Packet>

    constructor (packets: seq<Packet>, outcome: Outcome)
      ensures View() == Start(packets, outcome)
    {
      point, stage, out, permit, channels := Idle, Default, None, false, [];
      inbox, written, this.outcome, taken := packets, [], outcome, [];
    }

    ghost function View(): State
      reads this
    {
      State(point, stage, out, permit, channels, taken, inbox, outcome, written)
    }

    method Write(response: Response)
      modifies this`written
      ensures written == old(written) + [response]
    {
      written := written + [response];
    }

    /** Dropping the sender closes its channel. */
    method DropOut()
      modifies this`out, this`channels
      ensures View() == DropSender(old(View()))
    {
      if out.Some? && out.value < |channels| {
        channels := channels[out.value := channels[out.value].(open := false)];
      }
      out := None;
    }

    /** `QueryState::reset`. */
    method Reset()
      modifies this`out, this`channels, this`stage
      ensures View() == Sessions.Reset(old(View()))
    {
      stage := Default;
      DropOut();
    }

    /** `execute_query` of the example. */
    method ExecuteQuery(text: bytes)
      modifies this`out, this`channels, this`written
      ensures var s := old(View());
        if IsInsert(text) then
          var d := DropSender(s);
          View() == d.(channels := d.channels + [Channel([], true, [], false)], out := Some(|d.channels|),
                       written := d.written + [Sample])
        else View() == s.(written := s.written + [Results(text)])
    {
      hide IsInsert;
      if IsInsert(text) {
        var sender := |channels|;
        DropOut();
        channels := channels + [Channel([], true, [], false)];
        out := Some(sender);
        Write(Sample);
        return;
      }
      Write(Results(text));
    }

    /** `Cmd::apply` up to its first await. */
    method ApplyPacket(packet: Packet)
      modifies this
      ensures View() == Apply(old(View()), packet)
    {
      hide IsInsert, DropSender;
      match packet {
        case Ping => Write(Pong);
        case Cancel =>
        case HelloPacket(_) => Write(HelloReply);
        case QueryPacket(query) =>
          ExecuteQuery(query.text);
          if out.Some? {
            stage := InsertPrepare;
          } else {
            Write(EndOfStream);
          }
        case DataPacket(block) =>
          if block.columns == [] {
            match stage {
              case InsertPrepare => stage := InsertStarted;
              case InsertStarted =>
                var ch := if out.Some? then out.value else |channels|;
                Reset();
                point := Awaiting(ch, permit);
                permit := false;
              case _ =>
            }
          } else if out.Some? {
            point := Sending(block);
          }
      }
    }

    /** The next turn of the session loop. */
    method TakePacket()
      requires Enabled(View(), Take)
      modifies this
      ensures View() == Do(old(View()), Take)
    {
      hide Apply;
      var packet := inbox[0];
      inbox := inbox[1..];
      taken := taken + [packet];
      ApplyPacket(packet);
    }

    /** The channel has room: `send` goes on. */
    method PushBlock()
      requires Enabled(View(), Push)
      modifies this
      ensures View() == Do(old(View()), Push)
    {
      var c := channels[out.value];
      channels := channels[out.value := c.(queue := c.queue + [point.block])];
      point := Idle;
    }

    /** `notified` is ready. */
    method WakeUp()
      requires Enabled(View(), Wake)
      modifies this
      ensures View() == Do(old(View()), Wake)
    {
      Write(EndOfStream);
      stage := Default;
      point := Idle;
    }

    /** The stream is over or has failed. */
    method EndLoop()
      requires Enabled(View(), End)
      modifies this
      ensures View() == Do(old(View()), End)
    {
      hide DropSender;
      Reset();
      if outcome.ResetByPeer? || (outcome.Failed? && !outcome.error.Panic?) {
        Write(ErrorReply(outcome));
      }
      point := Ended;
    }

    /** A consumer gets the next block. */
    method ReceiveBlock(i: nat)
      requires Enabled(View(), Receive(i))
      modifies this
      ensures View() == Do(old(View()), Receive(i))
    {
      var c := channels[i];
      channels := channels[i := c.(queue := c.queue[1..], received := c.received + [c.queue[0]])];
    }

    method NotifyOne()
      modifies this`point, this`permit
      ensures View() == Notify(old(View()))
    {
      if point.Awaiting? && !point.woken {
        point := Awaiting(point.ch, true);
      } else {
        permit := true;
      }
    }

    /** A consumer sees the end and calls `notify_one`. */
    method GiveNotice(i: nat)
      requires Enabled(View(), Finish(i))
      modifies this
      ensures View() == Do(old(View()), Finish(i))
    {
      channels := channels[i := channels[i].(done := true)];
      NotifyOne();
    }
  }

  /** One step, whichever task makes it. */
  method Advance(session: Session, step: Step)
    requires Enabled(session.View(), step)
    modifies session
    ensures session.View() == Do(old(session.View()), step)
  {
    hide Do, Enabled;
    match step {
      case Take => session.TakePacket();
      case Push => session.PushBlock();
      case Wake => session.WakeUp();
      case End => session.EndLoop();
      case Receive(i) => session.ReceiveBlock(i);
      case Finish(i) => session.GiveNotice(i);
    }
  }
}

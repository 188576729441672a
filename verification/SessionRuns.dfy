/** Whole runs of a session: they end, they all end alike, and when an end-of-stream may come early. */
module SessionRuns {
  import opened Protocol
  import opened Delivery
  import opened Sessions

  lemma {:induction false} RunInv(s: State, steps: seq<Step>, t: State)
    requires Inv(s) && Runs(s, steps, t)
    ensures Inv(t) && t.taken + t.inbox == s.taken + s.inbox && t.outcome == s.outcome
    decreases |steps|
  {
    if |steps| > 0 {
      hide Inv, Do, Enabled;
      StepInv(s, steps[0]);
      StepHistory(s, steps[0]);
      RunInv(Do(s, steps[0]), steps[1..], t);
    }
  }

  lemma StepHistory(s: State, step: Step)
    requires Enabled(s, step)
    ensures Do(s, step).taken + Do(s, step).inbox == s.taken + s.inbox && Do(s, step).outcome == s.outcome
  {
    hide Apply, DropSender;
    if step.Take? {
      HistoryKept(s.(taken := s.taken + [s.inbox[0]], inbox := s.inbox[1..]), s.inbox[0]);
    } else {
      DropHistory(s);
    }
  }

  lemma DropHistory(s: State)
    ensures DropSender(s).taken == s.taken && DropSender(s).inbox == s.inbox && DropSender(s).outcome == s.outcome
    ensures DropSender(s).point == s.point && |DropSender(s).channels| == |s.channels|
  {
  }

  lemma NoSteps(s: State, t: State)
    ensures Runs(s, [], t) <==> s == t
  {
  }

  lemma RunsCons(s: State, step: Step, steps: seq<Step>, t: State)
    ensures Runs(s, [step] + steps, t) <==> Enabled(s, step) && Runs(Do(s, step), steps, t)
  {
    hide Do, Enabled;
    assert ([step] + steps)[1..] == steps;
  }

  lemma {:induction false} RunsThen(s: State, steps: seq<Step>, t: State, more: seq<Step>, u: State)
    requires Runs(s, steps, t) && Runs(t, more, u)
    ensures Runs(s, steps + more, u)
    decreases |steps|
  {
    hide Do, Enabled, Runs;
    NoSteps(s, t);
    if |steps| == 0 {
      assert steps + more == more;
    } else {
      assert steps == [steps[0]] + steps[1..];
      RunsCons(s, steps[0], steps[1..], t);
      RunsThen(Do(s, steps[0]), steps[1..], t, more, u);
      RunsCons(s, steps[0], steps[1..] + more, u);
      assert steps + more == [steps[0]] + (steps[1..] + more);
    }
  }

  // ---------- every run ends ----------

  function Load(channels: seq<Channel>): nat {
    if |channels| == 0 then 0
    else
      var c := channels[|channels| - 1];
      Load(channels[..|channels| - 1]) + 2 * |c.queue| + if c.done then 0 else 1
  }

  function Measure(s: State): nat {
    6 * |s.inbox| + Load(s.channels)
    + match s.point case Idle => 1 case Sending(_) => 4 case Awaiting(_, _) => 2 case Ended => 0
  }

  lemma {:induction false} LoadUpdate(channels: seq<Channel>, i: nat, c: Channel)
    requires i < |channels|
    ensures Load(channels[i := c]) + 2 * |channels[i].queue| + (if channels[i].done then 0 else 1)
         == Load(channels) + 2 * |c.queue| + if c.done then 0 else 1
  {
    var n := |channels| - 1;
    if i < n {
      LoadUpdate(channels[..n], i, c);
      assert channels[i := c][..n] == channels[..n][i := c];
    } else {
      assert channels[i := c][..n] == channels[..n];
    }
  }

  lemma DropLoad(s: State)
    ensures Load(DropSender(s).channels) == Load(s.channels)
  {
    if s.out.Some? && s.out.value < |s.channels| {
      LoadUpdate(s.channels, s.out.value, s.channels[s.out.value].(open := false));
    }
  }

  lemma ApplyLoad(s: State, packet: Packet)
    ensures var t := Apply(s, packet); t.point == s.point || t.point.Sending? || t.point.Awaiting?
    ensures Load(Apply(s, packet).channels) <= Load(s.channels) + 1
    ensures Apply(s, packet).point != s.point ==> Load(Apply(s, packet).channels) == Load(s.channels)
  {
    hide IsInsert, DropSender;
    DropLoad(s);
    DropHistory(s);
    var d := DropSender(s).channels;
    assert (d + [Channel([], true, [], false)])[..|d|] == d;
  }

  /** Every step uses up some of the measure. */
  lemma StepShrinks(s: State, step: Step)
    requires Enabled(s, step)
    ensures Measure(Do(s, step)) < Measure(s)
  {
    hide Apply, DropSender, Load;
    match step
    case Take =>
      var t := s.(taken := s.taken + [s.inbox[0]], inbox := s.inbox[1..]);
      ApplyLoad(t, s.inbox[0]);
      HistoryKept(t, s.inbox[0]);
    case Push =>
      var c := s.channels[s.out.value];
      LoadUpdate(s.channels, s.out.value, c.(queue := c.queue + [s.point.block]));
    case Wake =>
    case End =>
      DropLoad(s);
      DropHistory(s);
    case Receive(i) =>
      var c := s.channels[i];
      LoadUpdate(s.channels, i, c.(queue := c.queue[1..], received := c.received + [c.queue[0]]));
    case Finish(i) =>
      LoadUpdate(s.channels, i, s.channels[i].(done := true));
  }

  lemma {:induction false} RunLength(s: State, steps: seq<Step>, t: State)
    requires Runs(s, steps, t)
    ensures |steps| + Measure(t) <= Measure(s)
    decreases |steps|
  {
    hide Do, Enabled, Measure;
    if |steps| > 0 {
      StepShrinks(s, steps[0]);
      RunLength(Do(s, steps[0]), steps[1..], t);
    }
  }

  // ---------- no run gets stuck ----------

  ghost predicate Stopped(s: State) {
    forall step: Step :: !Enabled(s, step)
  }

  /** A step that can be taken, unless all is over. */
  lemma NextStep(s: State) returns (step: Step)
    requires Inv(s) && !(s.point.Ended? && forall i | 0 <= i < |s.channels| :: s.channels[i].done)
    ensures Enabled(s, step)
  {
    hide Account, AnswersMatch;
    match s.point
    case Idle => step := if |s.inbox| > 0 then Take else End;
    case Sending(_) =>
      assert ChannelMatches(s, Account(s.taken), s.out.value);
      step := if |s.channels[s.out.value].queue| < CHANNEL then Push else Receive(s.out.value);
    case Awaiting(ch, woken) =>
      assert ChannelMatches(s, Account(s.taken), ch);
      step := if woken then Wake else if |s.channels[ch].queue| > 0 then Receive(ch) else Finish(ch);
    case Ended =>
      var i :| 0 <= i < |s.channels| && !s.channels[i].done;
      assert ChannelMatches(s, Account(s.taken), i);
      step := if |s.channels[i].queue| > 0 then Receive(i) else Finish(i);
  }

  /** A state where nothing can happen any more. */
  lemma StoppedState(t: State)
    requires Inv(t) && Stopped(t)
    ensures t.point.Ended? && t.taken + t.inbox == t.taken
    ensures var l := Account(t.taken);
            && t.written == l.responses + Farewell(t.outcome)
            && |t.channels| == |l.inserts|
            && forall i | 0 <= i < |t.channels| :: t.channels[i].done && t.channels[i].received == l.inserts[i]
  {
    hide Account, Enabled;
    if !(t.point.Ended? && forall i | 0 <= i < |t.channels| :: t.channels[i].done) {
      var step := NextStep(t);
      assert false;
    }
    var l := Account(t.taken);
    forall i | 0 <= i < |t.channels| ensures t.channels[i].received == l.inserts[i] {
      assert ChannelMatches(t, l, i);
    }
  }

  /** However the steps of session and consumers are interleaved: there are at most `Measure` of them; a run that can
      go no further has ended the session; every consumer has received exactly the blocks of its insert, once each
      and in order; and the answers are those of the packets, one after the other, and the error at the end unless it
      was a panic. */
  lemma EveryRunEndsAlike(packets: seq<Packet>, outcome: Outcome, steps: seq<Step>, t: State)
    requires Runs(Start(packets, outcome), steps, t)
    ensures |steps| <= Measure(Start(packets, outcome))
    ensures Stopped(t) ==>
              var l := Account(packets);
              && t.point.Ended? && t.taken == packets
              && (outcome.CleanEnd? ==> t.written == l.responses)
              && (outcome.ResetByPeer? ==> t.written == l.responses + [ErrorReply(outcome)])
              && (outcome.Failed? && outcome.error.Panic? ==> t.written == l.responses)
              && (outcome.Failed? && !outcome.error.Panic? ==> t.written == l.responses + [ErrorReply(outcome)])
              && |t.channels| == |l.inserts|
              && forall i | 0 <= i < |t.channels| :: t.channels[i].done && t.channels[i].received == l.inserts[i]
  {
    hide Account, Measure, Enabled, Runs, Inv;
    StartInv(packets, outcome);
    RunInv(Start(packets, outcome), steps, t);
    RunLength(Start(packets, outcome), steps, t);
    assert [] + packets == packets;
    if Stopped(t) {
      StoppedState(t);
    }
  }

  /** While a block is being sent its consumer is there, so `send` does not fail. */
  lemma SendNeverFails(packets: seq<Packet>, outcome: Outcome, steps: seq<Step>, s: State)
    requires Runs(Start(packets, outcome), steps, s) && s.point.Sending?
    ensures s.out.Some? && s.out.value < |s.channels|
    ensures s.channels[s.out.value].open && !s.channels[s.out.value].done
  {
    hide Account, AnswersMatch, Runs;
    StartInv(packets, outcome);
    RunInv(Start(packets, outcome), steps, s);
    assert ChannelMatches(s, Account(s.taken), s.out.value);
  }

  /** In every reachable state the session is in an insert stage exactly while it holds a sender, and it is never
      in the stage named for the end of the stream. */
  lemma StageAndSender(packets: seq<Packet>, outcome: Outcome, steps: seq<Step>, s: State)
    requires Runs(Start(packets, outcome), steps, s)
    ensures s.stage.InsertPrepare? || s.stage.InsertStarted? <==> s.out.Some?
    ensures s.stage != EOS
  {
    hide Account, Runs;
    StartInv(packets, outcome);
    RunInv(Start(packets, outcome), steps, s);
  }
}

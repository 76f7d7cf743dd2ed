/** mq_notify_via_signal.c: a reader registers for one notification, sent by SIGUSR1 when a message
    arrives at an empty queue, and drains the queue each time it finds gotSig set. */
module QueueNotify {

  import opened Prelude

  datatype Message = Message(priority: nat, body: nat)

  /** POSIX.1-2008 XSH, mq_send(): a message goes behind those of the same or higher priority. */
  function Enqueue(queue: seq<Message>, m: Message): seq<Message> {
    if queue == [] || queue[0].priority < m.priority then [m] + queue
    else [queue[0]] + Enqueue(queue[1..], m)
  }

  predicate ByPriority(queue: seq<Message>) {
    forall i, j | 0 <= i < j < |queue| :: queue[i].priority >= queue[j].priority
  }

  // The messages of one priority, in order.
  function Of(messages: seq<Message>, priority: nat): seq<Message> {
    if messages == [] then []
    else (if messages[0].priority == priority then [messages[0]] else []) + Of(messages[1..], priority)
  }

  datatype Place =
    | Testing      // about to test gotSig
    | Clearing     // has found it set
    | Registering  // has cleared it; about to call mq_notify()
    | Draining     // about to call mq_receive()
    | Working      // asleep
    | Failed       // mq_notify() has failed with EBUSY

  // sent and received record what has happened; they steer nothing.
  datatype State = State(
    queue: seq<Message>, registered: bool, pending: bool, gotSig: bool, at: Place,
    sent: seq<Message>, received: seq<Message>
  )

  datatype Action = Send(m: Message) | Deliver | ReaderRuns

  predicate Enabled(s: State, a: Action) {
    match a
    case Send(m) => true
    case Deliver => s.pending && !s.at.Failed?
    // a signal that is pending is delivered before sleep() returns
    case ReaderRuns => !s.at.Failed? && (s.at.Working? ==> !s.pending)
  }

  function Next(s: State, a: Action): State
    requires Enabled(s, a)
  {
    match a
    case Send(m) =>
      var notify := s.queue == [] && s.registered;
      s.(queue := Enqueue(s.queue, m), sent := s.sent + [m],
         registered := s.registered && !notify, pending := s.pending || notify)
    case Deliver => s.(pending := false, gotSig := true)
    case ReaderRuns =>
      match s.at
      case Testing => s.(at := if s.gotSig then Clearing else Working)
      case Clearing => s.(gotSig := false, at := Registering)
      case Registering => if s.registered then s.(at := Failed) else s.(registered := true, at := Draining)
      case Draining =>
        if s.queue == [] then s.(at := Working)
        else s.(queue := s.queue[1..], received := s.received + [s.queue[0]])
      case Working => s.(at := Testing)
  }

  // The queue may hold messages before the reader starts.
  function Begin(queue: seq<Message>): State {
    State(queue, false, false, true, Testing, queue, [])
  }

  predicate OneToken(s: State) {
    && !s.at.Failed?
    && One(s.registered) + One(s.pending) + One(s.gotSig) == One(!s.at.Registering?)
    && (s.at.Clearing? ==> s.gotSig)
    && (s.registered && s.queue != [] ==> s.at.Draining?)
  }

  ghost predicate Conserved(s: State) {
    && ByPriority(s.queue)
    && forall p: nat :: Of(s.received, p) + Of(s.queue, p) == Of(s.sent, p)
  }

  ghost predicate Inv(s: State) {
    OneToken(s) && Conserved(s)
  }

  lemma {:induction false} OfConcat(a: seq<Message>, b: seq<Message>, p: nat)
    ensures Of(a + b, p) == Of(a, p) + Of(b, p)
  {
    if a == [] {
      assert a + b == b;
    } else {
      var head := if a[0].priority == p then [a[0]] else [];
      assert (a + b)[1..] == a[1..] + b && (a + b)[0] == a[0];
      OfConcat(a[1..], b, p);
      assert Of(a + b, p) == head + Of(a[1..] + b, p) && Of(a, p) == head + Of(a[1..], p);
      hide Of;
      assert head + (Of(a[1..], p) + Of(b, p)) == (head + Of(a[1..], p)) + Of(b, p);
    }
  }

  lemma {:induction false} NoneOf(queue: seq<Message>, p: nat)
    requires forall i | 0 <= i < |queue| :: queue[i].priority < p
    ensures Of(queue, p) == []
  {
    if queue != [] { NoneOf(queue[1..], p); }
  }

  /** Sending keeps the queue in order of priority ... */
  lemma {:induction false} EnqueueInOrder(queue: seq<Message>, m: Message)
    requires ByPriority(queue)
    ensures ByPriority(Enqueue(queue, m))
    ensures forall x :: x in Enqueue(queue, m) <==> x in queue || x == m
  {
    var q := Enqueue(queue, m);
    if queue != [] && queue[0].priority >= m.priority {
      var rest := Enqueue(queue[1..], m);
      EnqueueInOrder(queue[1..], m);
      assert q == [queue[0]] + rest && queue == [queue[0]] + queue[1..];
      hide Enqueue;
      forall i, j | 0 <= i < j < |q|
        ensures q[i].priority >= q[j].priority
      {
        assert q[j] == rest[j - 1] && rest[j - 1] in rest;
        if i > 0 { assert q[i] == rest[i - 1]; }
      }
    }
  }

  /** ... and puts m behind the messages of its own priority. */
  lemma {:induction false} EnqueueIsFifo(queue: seq<Message>, m: Message, p: nat)
    requires ByPriority(queue)
    ensures Of(Enqueue(queue, m), p) == Of(queue, p) + Of([m], p)
  {
    var q := Enqueue(queue, m);
    if queue == [] || queue[0].priority < m.priority {
      assert q == [m] + queue;
      OfConcat([m], queue, p);
      if p == m.priority { NoneOf(queue, p); }
    } else {
      EnqueueIsFifo(queue[1..], m, p);
      assert q[1..] == Enqueue(queue[1..], m);
      assert Of(q, p) == Of([queue[0]], p) + Of(q[1..], p);
      assert Of(queue, p) == Of([queue[0]], p) + Of(queue[1..], p);
    }
  }

  lemma SendConserves(received: seq<Message>, queue: seq<Message>, sent: seq<Message>, m: Message, p: nat)
    requires ByPriority(queue) && Of(received, p) + Of(queue, p) == Of(sent, p)
    ensures Of(received, p) + Of(Enqueue(queue, m), p) == Of(sent + [m], p)
  {
    EnqueueIsFifo(queue, m, p);
    OfConcat(sent, [m], p);
    hide Of;
    assert Of(received, p) + (Of(queue, p) + Of([m], p)) == (Of(received, p) + Of(queue, p)) + Of([m], p);
  }

  lemma ReceiveConserves(received: seq<Message>, queue: seq<Message>, p: nat)
    requires queue != []
    ensures Of(received + [queue[0]], p) + Of(queue[1..], p) == Of(received, p) + Of(queue, p)
  {
    OfConcat(received, [queue[0]], p);
    OfConcat([queue[0]], queue[1..], p);
    assert [queue[0]] + queue[1..] == queue;
    hide Of;
    assert (Of(received, p) + Of([queue[0]], p)) + Of(queue[1..], p)
        == Of(received, p) + (Of([queue[0]], p) + Of(queue[1..], p));
  }

  lemma StepConserved(s: State, a: Action)
    requires Conserved(s) && Enabled(s, a)
    ensures Conserved(Next(s, a))
  {
    match a
    case Send(m) =>
      EnqueueInOrder(s.queue, m);
      hide Enqueue, Of;
      forall p: nat
        ensures Of(s.received, p) + Of(Enqueue(s.queue, m), p) == Of(s.sent + [m], p)
      {
        SendConserves(s.received, s.queue, s.sent, m, p);
      }
    case Deliver =>
    case ReaderRuns =>
      if s.at.Draining? && s.queue != [] {
        hide Of;
        forall p: nat
          ensures Of(s.received + [s.queue[0]], p) + Of(s.queue[1..], p) == Of(s.sent, p)
        {
          ReceiveConserves(s.received, s.queue, p);
        }
      }
  }

  lemma StepOneToken(s: State, a: Action)
    requires OneToken(s) && Enabled(s, a)
    ensures OneToken(Next(s, a))
  {
  }

  lemma StepInv(s: State, a: Action)
    requires Inv(s) && Enabled(s, a)
    ensures Inv(Next(s, a))
  {
    StepOneToken(s, a);
    StepConserved(s, a);
    hide Conserved, OneToken;
  }

  ghost predicate Run(queue: seq<Message>, states: seq<State>, actions: seq<Action>) {
    && ByPriority(queue)
    && |states| == |actions| + 1 && states[0] == Begin(queue)
    && forall i | 0 <= i < |actions| :: Enabled(states[i], actions[i]) && states[i + 1] == Next(states[i], actions[i])
  }

  lemma {:induction false} RunInv(queue: seq<Message>, states: seq<State>, actions: seq<Action>, i: nat)
    requires Run(queue, states, actions) && i < |states|
    ensures Inv(states[i])
  {
    if i == 0 {
      assert forall p: nat :: Of([], p) + Of(queue, p) == Of(queue, p);
    } else {
      RunInv(queue, states, actions, i - 1);
      hide Inv;
      StepInv(states[i - 1], actions[i - 1]);
    }
  }

  /** Exactly one of {registered, signal pending, gotSig} holds, except between clearing gotSig and
      mq_notify(), when none does: so mq_notify() never finds a registration in its way. Outside the
      drain, a message in the queue means that the signal is pending or gotSig set (or about to be
      acted upon): none is stranded. Nothing is lost, repeated, or reordered within a priority. */
  lemma NoMessageStranded(queue: seq<Message>, states: seq<State>, actions: seq<Action>, i: nat)
    requires Run(queue, states, actions) && i < |states|
    ensures var s := states[i];
      && One(s.registered) + One(s.pending) + One(s.gotSig) == One(!s.at.Registering?)
      && !s.at.Failed?
      && ((s.at.Working? || s.at.Testing?) && s.queue != [] ==> s.pending || s.gotSig)
    ensures forall p: nat :: Of(states[i].received, p) + Of(states[i].queue, p) == Of(states[i].sent, p)
  {
    RunInv(queue, states, actions, i);
  }

  // m is the first of the messages with the highest priority.
  predicate NextMessage(queue: seq<Message>, m: Message) {
    && m in queue && (forall x | x in queue :: x.priority <= m.priority)
    && Of(queue, m.priority) != [] && Of(queue, m.priority)[0] == m
  }

  lemma HeadIsNext(queue: seq<Message>)
    requires ByPriority(queue) && queue != []
    ensures NextMessage(queue, queue[0])
  {
  }

  /** Whatever is received is at that moment the oldest of the messages with the highest priority, and
      leaves the queue; the reader receives as long as there is one. */
  lemma ReceivesNext(queue: seq<Message>, states: seq<State>, actions: seq<Action>, i: nat)
    requires Run(queue, states, actions) && i < |actions|
    ensures var s, t := states[i], states[i + 1];
      if actions[i].ReaderRuns? && s.at.Draining? && s.queue != [] then
        exists m :: NextMessage(s.queue, m) && t.received == s.received + [m] && s.queue == [m] + t.queue && t.at == s.at
      else t.received == s.received
  {
    RunInv(queue, states, actions, i);
    var s, t := states[i], states[i + 1];
    assert t == Next(s, actions[i]);
    if actions[i].ReaderRuns? && s.at.Draining? && s.queue != [] {
      HeadIsNext(s.queue);
      assert NextMessage(s.queue, s.queue[0]) && s.queue == [s.queue[0]] + t.queue;
    }
    hide NextMessage;
  }

  /** A signal comes of a message, when the reader is registered and the queue was empty; the registration
      then is gone. */
  lemma SignalIff(queue: seq<Message>, states: seq<State>, actions: seq<Action>, i: nat)
    requires Run(queue, states, actions) && i < |actions|
    ensures var s, t := states[i], states[i + 1];
      && (!s.pending && t.pending <==> actions[i].Send? && s.registered && s.queue == [])
      && (s.registered && !t.registered <==> actions[i].Send? && s.registered && s.queue == [])
  {
    RunInv(queue, states, actions, i);
    assert states[i + 1] == Next(states[i], actions[i]);
  }

  // Steps, without further messages, until the reader has emptied the queue.
  function Remaining(s: State): nat {
    if s.queue == [] then 0
    else
      |s.queue| +
      match s.at
      case Testing => if s.gotSig then 5 else 8
      case Clearing => 4
      case Registering => 3
      case Draining => 1 + One(s.pending)
      case Working => if s.gotSig then 6 else 7
      case Failed => 0
  }

  lemma StepProgress(s: State, a: Action)
    requires OneToken(s) && Enabled(s, a) && !a.Send?
    ensures Remaining(Next(s, a)) < Remaining(s) || (s.queue == [] && Next(s, a).queue == [])
  {
  }

  /** Once no more messages are sent, the reader soon has them all: after |queue| + 8 further steps
      the queue is empty, and every message sent has been received, in order within its priority. */
  lemma {:induction false} AllReceived(queue: seq<Message>, states: seq<State>, actions: seq<Action>, i: nat, j: nat)
    requires Run(queue, states, actions) && i <= j < |states|
    requires forall k | i <= k < j :: !actions[k].Send?
    ensures Remaining(states[j]) + (j - i) <= |states[i].queue| + 8 || states[j].queue == []
    ensures states[j].queue == [] ==> forall p: nat :: Of(states[j].received, p) == Of(states[j].sent, p)
  {
    RunInv(queue, states, actions, j);
    if j > i {
      AllReceived(queue, states, actions, i, j - 1);
      RunInv(queue, states, actions, j - 1);
      StepProgress(states[j - 1], actions[j - 1]);
    }
    if states[j].queue == [] {
      assert forall p: nat :: Of(states[j].received, p) + Of([], p) == Of(states[j].sent, p);
    }
  }

  // ---------- the program ----------

  // Messages arrive and a pending signal is handled, in the given order.
  function Happen(s: State, actions: seq<Action>): State
    requires !s.at.Failed?
    decreases |actions|
  {
    if actions == [] then s
    else
      Happen(match actions[0]
             case Send(m) => Next(s, actions[0])
             case _ => if s.pending then Next(s, Deliver) else s, actions[1..])
  }

  /** main()'s loop. Between any two of its steps the others do what the script says next: messages
      arrive, and a pending signal is handled. */
  class Reader {
    var gotSig: bool
    var queue: seq<Message>
    var registered: bool
    var pending: bool
    var script: seq<seq<Action>>
    ghost var sent: seq<Message>
    ghost var received: seq<Message>

    ghost function Abs(at: Place): State
      reads this
    {
      State(queue, registered, pending, gotSig, at, sent, received)
    }

    constructor (queue: seq<Message>, script: seq<seq<Action>>)
      requires ByPriority(queue)
      ensures Abs(Testing) == Begin(queue) && Inv(Abs(Testing))
    {
      gotSig, registered, pending := true, false, false;
      this.queue, this.script := queue, script;
      sent, received := queue, [];
      new;
      assert forall p: nat :: Of([], p) + Of(queue, p) == Of(queue, p);
    }

    method SignalHandler(ghost at: Place)
      requires Inv(Abs(at)) && pending
      modifies this`gotSig, this`pending
      ensures Inv(Abs(at)) && Abs(at) == old(Next(Abs(at), Deliver))
    {
      StepInv(Abs(at), Deliver);
      pending := false;
      gotSig := true;
    }

    method MessageArrives(m: Message, ghost at: Place)
      requires Inv(Abs(at))
      modifies this`queue, this`registered, this`pending, this`sent
      ensures Inv(Abs(at)) && Abs(at) == old(Next(Abs(at), Send(m)))
    {
      StepInv(Abs(at), Send(m));
      if queue == [] && registered { registered, pending := false, true; }
      queue := Enqueue(queue, m);
      sent := sent + [m];
    }

    method Others(ghost at: Place)
      requires Inv(Abs(at)) && !at.Failed?
      modifies this`gotSig, this`queue, this`registered, this`pending, this`sent, this`script
      ensures Inv(Abs(at))
      ensures if old(script) == [] then script == [] && Abs(at) == old(Abs(at))
        else script == old(script[1..]) && Abs(at) == Happen(old(Abs(at)), old(script[0]))
    {
      hide Inv;
      if script == [] { return; }
      var actions := script[0];
      script := script[1..];
      var i := 0;
      while i < |actions|
        invariant 0 <= i <= |actions| && Inv(Abs(at)) && script == old(script)[1..]
        invariant Happen(Abs(at), actions[i..]) == Happen(old(Abs(at)), actions)
        decreases |actions| - i
      {
        assert actions[i..][0] == actions[i] && actions[i..][1..] == actions[i + 1..];
        match actions[i] {
          case Send(m) => MessageArrives(m, at);
          case _ => if pending { SignalHandler(at); }
        }
        i := i + 1;
      }
    }

    method MqNotify() returns (ok: bool)
      requires Inv(Abs(Registering))
      modifies this`registered
      ensures ok && Inv(Abs(Draining))
    {
      StepInv(Abs(Registering), ReaderRuns);
      ok := !registered;
      registered := true;
    }

    // True if there was a message to receive; false for EAGAIN.
    method MqReceive() returns (some: bool)
      requires Inv(Abs(Draining))
      modifies this`queue, this`received
      ensures some <==> old(queue) != []
      ensures !some ==> received == old(received)
      ensures some ==> exists m ::
        NextMessage(old(queue), m) && received == old(received) + [m] && old(queue) == [m] + queue
      ensures Inv(Abs(if some then Draining else Working)) && |queue| == |old(queue)| - One(some)
    {
      StepInv(Abs(Draining), ReaderRuns);
      some := queue != [];
      if some {
        HeadIsNext(queue);
        assert queue == [queue[0]] + queue[1..];
        hide NextMessage;
        received := received + [queue[0]];
        queue := queue[1..];
      }
    }

    method Drain()
      requires Inv(Abs(Draining))
      modifies this
      ensures Inv(Abs(Working)) && |script| <= |old(script)|
      ensures old(script) == [] ==> queue == []
    {
      hide Inv;
      Others(Draining);
      var some := MqReceive();
      while some
        invariant Inv(Abs(if some then Draining else Working)) && |script| <= |old(script)|
        invariant !some && old(script) == [] ==> queue == []
        decreases |script|, |queue|, some
      {
        Others(Draining);
        some := MqReceive();
      }
    }

    /** The given number of rounds of the endless loop. Once the others have stopped, two rounds are
        enough for every message sent to have been received. */
    method Rounds(count: nat) returns (ok: bool)
      requires Inv(Abs(Testing))
      modifies this
      ensures ok && Inv(Abs(Testing))
      ensures queue != [] ==> pending || gotSig
      ensures count >= |old(script)| + 2 ==> queue == [] && forall p: nat :: Of(received, p) == Of(sent, p)
    {
      var j := 0;
      ok := true;
      ghost var n := |script|;
      while j < count && ok
        invariant ok && Inv(Abs(Testing)) && j <= count
        invariant |script| + j <= n || script == []
        invariant j > n ==> script == [] && (queue == [] || (gotSig && !pending))
        invariant j > n + 1 ==> queue == []
      {
        ok := Round();
        j := j + 1;
      }
      assert forall p: nat :: Of(received, p) + Of(queue, p) == Of(sent, p);
      if queue == [] { assert forall p: nat :: Of(received, p) + [] == Of(sent, p); }
    }

    // With gotSig found set: clear it, register again, drain.
    method Renew() returns (ok: bool)
      requires Inv(Abs(Clearing))
      modifies this
      ensures ok && Inv(Abs(Working)) && |script| <= |old(script)|
      ensures old(script) == [] ==> queue == []
    {
      Others(Clearing);
      StepInv(Abs(Clearing), ReaderRuns);
      hide Inv;
      gotSig := false;
      Others(Registering);
      ok := MqNotify();
      if !ok { return; }
      Drain();
    }

    // One round; false if mq_notify() fails, which is shown not to happen.
    method Round() returns (ok: bool)
      requires Inv(Abs(Testing))
      modifies this
      ensures ok && Inv(Abs(Testing)) && |script| <= |old(script)|
      ensures old(script) != [] ==> |script| < |old(script)|
      ensures old(script) == [] ==> queue == [] || (gotSig && !pending)
      ensures old(script) == [] && old(queue == [] || gotSig) ==> queue == []
    {
      ok := true;
      Others(Testing);
      if gotSig {
        ok := Renew();
        if !ok { return; }
      }
      Others(Working);
      if pending { SignalHandler(Working); }
    }
  }
}

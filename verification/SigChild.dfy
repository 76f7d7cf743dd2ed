/** multi_SIGCHLD.c: a parent reaps its children from a SIGCHLD handler. SIGCHLD is not queued: any
    number of exits while it is blocked leave one pending signal. It is blocked except while the
    parent is suspended in sigsuspend(), and once more while its handler runs. */
module SigChild {

  import opened Prelude

  // The children as the kernel sees them, and whether SIGCHLD is pending for the parent.
  datatype Kids = Kids(unforked: nat, running: nat, zombies: nat, reaped: nat, pending: bool)

  datatype Place =
    | Forking
    | Testing     // about to test numLiveChildren
    | Suspended   // in sigsuspend()
    | Waiting     // in the handler, about to call waitpid()
    | Reaped      // in the handler, waitpid() has returned a child
    | Sleeping    // in the handler, after its loop
    | Returned    // sigsuspend() is about to return
    | Exited
    | Failed      // fork() has failed

  datatype State = State(kids: Kids, live: int, sigCnt: nat, at: Place)

  datatype Action = Fork | ForkFails | ChildExits | ParentRuns

  predicate Over(s: State) {
    s.at.Exited? || s.at.Failed?
  }

  predicate Enabled(s: State, a: Action) {
    match a
    case Fork => s.at.Forking? && s.kids.unforked > 0
    case ForkFails => s.at.Forking? && s.kids.unforked > 0
    case ChildExits => s.kids.running > 0 && !Over(s)
    case ParentRuns =>
      match s.at
      case Forking => s.kids.unforked == 0
      case Suspended => s.kids.pending
      case _ => !Over(s)
  }

  function AfterExits(kids: Kids, n: nat): Kids
    requires n <= kids.running
  {
    kids.(running := kids.running - n, zombies := kids.zombies + n, pending := kids.pending || n > 0)
  }

  function Next(s: State, a: Action): State
    requires Enabled(s, a)
  {
    var k := s.kids;
    match a
    case Fork => s.(kids := k.(unforked := k.unforked - 1, running := k.running + 1))
    case ForkFails => s.(at := Failed)
    case ChildExits => s.(kids := AfterExits(k, 1))
    case ParentRuns =>
      match s.at
      case Forking => s.(at := Testing)
      case Testing => s.(at := if s.live > 0 then Suspended else Exited)
      case Suspended => s.(kids := k.(pending := false), at := Waiting)
      case Waiting =>
        if k.zombies > 0 then s.(kids := k.(zombies := k.zombies - 1, reaped := k.reaped + 1), at := Reaped)
        else s.(at := Sleeping)
      case Reaped => s.(live := s.live - 1, at := Waiting)
      case Sleeping => s.(at := Returned)
      case Returned => s.(sigCnt := s.sigCnt + 1, at := Testing)
  }

  function Begin(n: nat): State {
    State(Kids(n, 0, 0, 0, false), n, 0, Forking)
  }

  predicate Handling(at: Place) {
    at.Waiting? || at.Reaped? || at.Sleeping? || at.Returned?
  }

  predicate Inv(n: nat, s: State) {
    var k, handled := s.kids, s.sigCnt + One(Handling(s.at));
    && k.unforked + k.running + k.zombies + k.reaped == n
    && s.live == k.unforked + k.running + k.zombies + One(s.at.Reaped?)
    && (!s.at.Forking? && !s.at.Failed? ==> k.unforked == 0)
    && (k.zombies > 0 ==> k.pending || s.at.Waiting? || s.at.Reaped?)
    && handled + One(k.pending) <= k.zombies + k.reaped
    && (k.reaped > 0 ==> handled > 0)
    && (s.at.Exited? ==> s.live == 0)
  }

  lemma StepInv(n: nat, s: State, a: Action)
    requires Inv(n, s) && Enabled(s, a)
    ensures Inv(n, Next(s, a))
  {
  }

  function Rank(at: Place): nat {
    match at
    case Exited => 0
    case Failed => 0
    case Suspended => 1
    case Testing => 2
    case Forking => 3
    case Returned => 3
    case Sleeping => 4
    case Waiting => 5
    case Reaped => 6
  }

  // Every step, of the parent or of a child, uses some of this up.
  function Remaining(s: State): nat {
    9 * s.kids.unforked + 8 * s.kids.running + 2 * s.kids.zombies + 5 * One(s.kids.pending) + Rank(s.at)
  }

  lemma StepProgress(s: State, a: Action)
    requires Enabled(s, a)
    ensures Remaining(Next(s, a)) < Remaining(s)
  {
  }

  predicate Run(n: nat, states: seq<State>, actions: seq<Action>) {
    && |states| == |actions| + 1 && states[0] == Begin(n)
    && forall i | 0 <= i < |actions| :: Enabled(states[i], actions[i]) && states[i + 1] == Next(states[i], actions[i])
  }

  lemma {:induction false} RunInv(n: nat, states: seq<State>, actions: seq<Action>, i: nat)
    requires Run(n, states, actions) && i < |states|
    ensures Inv(n, states[i]) && Remaining(states[i]) + i <= 9 * n + 3
  {
    if i > 0 {
      RunInv(n, states, actions, i - 1);
      var s, a := states[i - 1], actions[i - 1];
      assert Enabled(s, a) && states[i - 1 + 1] == Next(s, a);
      hide *;
      StepInv(n, s, a);
      StepProgress(s, a);
    }
  }

  /** No wakeup is lost: while a zombie is left, SIGCHLD is pending or the handler has a waitpid()
      still to do; numLiveChildren counts the children not yet waited for, the instant after
      waitpid() returns apart; the parent never sleeps unless a child runs that will wake it; and
      it does not wake up more often than children have exited. */
  lemma NoLostWakeup(n: nat, states: seq<State>, actions: seq<Action>, i: nat)
    requires Run(n, states, actions) && i < |states|
    ensures var s := states[i];
      && (s.kids.zombies > 0 ==> s.kids.pending || s.at.Waiting? || s.at.Reaped?)
      && s.live == s.kids.unforked + s.kids.running + s.kids.zombies + One(s.at.Reaped?)
      && (s.at.Suspended? ==> s.kids.pending || s.kids.running > 0)
      && s.sigCnt <= n - s.kids.unforked - s.kids.running
  {
    RunInv(n, states, actions, i);
    if states[i].at.Suspended? { SuspendedIsLive(n, states, actions, i); }
  }

  // main() enters sigsuspend() only with live children, and their number cannot fall while it is there.
  lemma {:induction false} SuspendedIsLive(n: nat, states: seq<State>, actions: seq<Action>, i: nat)
    requires Run(n, states, actions) && i < |states| && states[i].at.Suspended?
    ensures states[i].live > 0
  {
    assert i > 0;
    var s := states[i - 1];
    if s.at.Suspended? { SuspendedIsLive(n, states, actions, i - 1); }
  }

  // How often SIGCHLD has been delivered in the first k steps: the parent leaves its suspension.
  function Deliveries(states: seq<State>, actions: seq<Action>, k: nat): nat
    requires k <= |actions| && k <= |states|
  {
    if k == 0 then 0
    else Deliveries(states, actions, k - 1) + if actions[k - 1].ParentRuns? && states[k - 1].at.Suspended? then 1 else 0
  }

  /** sigCnt is the number of times that SIGCHLD has been delivered, and the handler has returned. */
  lemma {:induction false} CountsDeliveries(n: nat, states: seq<State>, actions: seq<Action>, i: nat)
    requires Run(n, states, actions) && i < |states|
    ensures var s := states[i]; s.sigCnt + One(Handling(s.at)) == Deliveries(states, actions, i)
  {
    if i > 0 {
      CountsDeliveries(n, states, actions, i - 1);
      assert states[i - 1 + 1] == Next(states[i - 1], actions[i - 1]);
    }
  }

  /** Every run is finite, and one that cannot be continued has, unless a fork() failed, reached the
      exit with every child reaped, and has counted every wakeup: at least one and at most n. */
  lemma EveryRunEnds(n: nat, states: seq<State>, actions: seq<Action>)
    requires Run(n, states, actions)
    ensures |actions| <= 9 * n + 3
    ensures var s := states[|actions|];
      (forall a :: !Enabled(s, a)) ==>
        s.at.Failed?
        || (s.at.Exited? && s.live == 0 && s.kids.reaped == n
            && s.sigCnt == Deliveries(states, actions, |actions|) && One(n > 0) <= s.sigCnt <= n)
  {
    assert |states| == |actions| + 1;
    hide *;
    RunInv(n, states, actions, |actions|);
    NoLostWakeup(n, states, actions, |actions|);
    CountsDeliveries(n, states, actions, |actions|);
    Stopped(n, states[|actions|]);
  }

  lemma Stopped(n: nat, s: State)
    requires Inv(n, s) && (s.at.Suspended? ==> s.kids.pending || s.kids.running > 0)
    ensures (forall a :: !Enabled(s, a)) ==>
      s.at.Failed? || (s.at.Exited? && s.live == 0 && s.kids.reaped == n && One(Handling(s.at)) == 0 && One(n > 0) <= s.sigCnt <= n)
  {
    if forall a :: !Enabled(s, a) {
      assert !Enabled(s, ParentRuns) && !Enabled(s, ChildExits) && !Enabled(s, Fork);
    }
  }

  // ---------- the program ----------

  lemma {:induction false} ExitsInv(n: nat, s: State, count: nat)
    requires Inv(n, s) && !Over(s) && count <= s.kids.running
    ensures Inv(n, s.(kids := AfterExits(s.kids, count)))
    ensures Remaining(s.(kids := AfterExits(s.kids, count))) + count <= Remaining(s)
  {
    if count > 0 {
      ExitsInv(n, s, count - 1);
      var mid := s.(kids := AfterExits(s.kids, count - 1));
      StepInv(n, mid, ChildExits);
      StepProgress(mid, ChildExits);
      assert Next(mid, ChildExits) == s.(kids := AfterExits(s.kids, count));
    }
  }

  function Sum(s: seq<nat>): nat {
    if s == [] then 0 else Sum(s[..|s| - 1]) + s[|s| - 1]
  }

  lemma SumAppend(s: seq<nat>, x: nat)
    ensures Sum(s + [x]) == Sum(s) + x
  {
    assert (s + [x])[..|s|] == s;
  }

  // All the children have exited and have been reaped.
  lemma AllReaped(n: nat, s: State)
    requires Inv(n, s) && s.at.Exited?
    ensures s.live == 0 && s.kids == Kids(0, 0, 0, n, s.kids.pending) && One(n > 0) <= s.sigCnt <= n
  {
  }

  lemma InvBegins(n: nat)
    ensures Inv(n, Begin(n))
  {
  }

  lemma StillRunning(n: nat, s: State)
    requires Inv(n, s) && s.at.Suspended? && s.live > 0 && !s.kids.pending
    ensures s.kids.running > 0
  {
  }

  // A step of the parent.
  lemma Advance(n: nat, s: State)
    requires Inv(n, s) && Enabled(s, ParentRuns)
    ensures Inv(n, Next(s, ParentRuns)) && Remaining(Next(s, ParentRuns)) < Remaining(s)
  {
    StepInv(n, s, ParentRuns);
    StepProgress(s, ParentRuns);
  }

  class Parent {
    var numLiveChildren: int
    var sigCnt: nat
    var kids: Kids
    var schedule: seq<nat>  // how many children exit at each point where the parent lets them run
    const n: nat
    ghost var caught: seq<nat>  // for every return of sigsuspend(), how many children its handler has reaped

    ghost function Abs(at: Place): State
      reads this
    {
      State(kids, numLiveChildren, sigCnt, at)
    }

    constructor (n: nat, schedule: seq<nat>)
      ensures this.n == n && Abs(Forking) == Begin(n) && caught == []
    {
      this.n := n;
      numLiveChildren, sigCnt, kids := n, 0, Kids(n, 0, 0, 0, false);
      this.schedule := schedule;
      caught := [];
    }

    method ChildrenExit(atLeast: nat, ghost at: Place)
      requires Inv(n, Abs(at)) && atLeast <= kids.running && !Over(Abs(at))
      modifies this`kids, this`schedule
      ensures exists k: nat :: atLeast <= k <= old(kids.running) && kids == AfterExits(old(kids), k)
      ensures kids.reaped == old(kids.reaped) && kids.zombies >= old(kids.zombies)
      ensures old(kids.pending) || atLeast > 0 ==> kids.pending
      ensures Inv(n, Abs(at)) && Remaining(Abs(at)) <= old(Remaining(Abs(at)))
    {
      hide Inv, Remaining;
      var k: nat := if schedule == [] then 0 else schedule[0];
      if schedule != [] { schedule := schedule[1..]; }
      if k < atLeast { k := atLeast; }
      if k > kids.running { k := kids.running; }
      ExitsInv(n, Abs(at), k);
      kids := AfterExits(kids, k);
    }

    // waitpid(-1, &status, WNOHANG): false when no child has exited that has not been waited for.
    method Waitpid() returns (got: bool)
      requires Inv(n, Abs(Waiting))
      modifies this`kids, this`schedule
      ensures var at := if got then Reaped else Sleeping;
        Inv(n, Abs(at)) && Remaining(Abs(at)) + One(!got) <= old(Remaining(Abs(Waiting)))
      ensures kids.reaped == old(kids.reaped) + One(got)
      ensures kids.zombies + kids.reaped >= old(kids.zombies + kids.reaped) && (!got ==> kids.zombies == 0)
    {
      ChildrenExit(0, Waiting);
      StepInv(n, Abs(Waiting), ParentRuns);
      got := kids.zombies > 0;
      if got { kids := kids.(zombies := kids.zombies - 1, reaped := kids.reaped + 1); }
    }

    method CountDown()
      requires Inv(n, Abs(Reaped))
      modifies this`kids, this`schedule, this`numLiveChildren
      ensures Inv(n, Abs(Waiting)) && Remaining(Abs(Waiting)) < old(Remaining(Abs(Reaped)))
      ensures kids.reaped == old(kids.reaped) && kids.zombies >= old(kids.zombies)
      ensures numLiveChildren == old(numLiveChildren) - 1
    {
      ChildrenExit(0, Reaped);
      StepInv(n, Abs(Reaped), ParentRuns);
      numLiveChildren := numLiveChildren - 1;
    }

    /** The handler reaps every child that had exited when it was entered, and counts each once. */
    method SigchldHandler()
      requires Inv(n, Abs(Waiting))
      modifies this`kids, this`schedule, this`numLiveChildren
      ensures Inv(n, Abs(Returned)) && Remaining(Abs(Returned)) < old(Remaining(Abs(Waiting)))
      ensures kids.reaped >= old(kids.zombies + kids.reaped)
      ensures numLiveChildren == old(numLiveChildren) - (kids.reaped - old(kids.reaped))
    {
      hide Inv, Remaining;
      var got := Waitpid();
      while got
        invariant Inv(n, Abs(if got then Reaped else Sleeping))
        invariant Remaining(Abs(if got then Reaped else Sleeping)) + One(!got) <= old(Remaining(Abs(Waiting)))
        invariant kids.zombies + kids.reaped >= old(kids.zombies + kids.reaped) && (!got ==> kids.zombies == 0)
        invariant numLiveChildren == old(numLiveChildren) - (kids.reaped - old(kids.reaped)) + One(got)
        decreases Remaining(Abs(if got then Reaped else Sleeping))
      {
        CountDown();
        got := Waitpid();
      }
      ChildrenExit(0, Sleeping);
      Advance(n, Abs(Sleeping));
    }

    method ForkChild()
      requires Inv(n, Abs(Forking)) && kids.unforked > 0
      modifies this`kids, this`schedule
      ensures Inv(n, Abs(Forking)) && kids.unforked == old(kids.unforked) - 1 && kids.reaped == old(kids.reaped)
    {
      StepInv(n, Abs(Forking), Fork);
      kids := kids.(unforked := kids.unforked - 1, running := kids.running + 1);
      ChildrenExit(0, Forking);
    }

    // sigsuspend(): with nothing pending, the parent sleeps until a child exits.
    method SigSuspend()
      requires Inv(n, Abs(Suspended)) && numLiveChildren > 0
      modifies this`kids, this`schedule, this`numLiveChildren, this`caught
      ensures Inv(n, Abs(Returned)) && Remaining(Abs(Returned)) < old(Remaining(Abs(Suspended)))
      ensures caught == old(caught) + [kids.reaped - old(kids.reaped)] && kids.reaped >= old(kids.reaped + kids.zombies)
    {
      if !kids.pending { StillRunning(n, Abs(Suspended)); }
      hide Inv, Remaining, AfterExits;
      ChildrenExit(if kids.pending then 0 else 1, Suspended);
      Deliver();
    }

    // The signal is delivered: the handler runs, and sigsuspend() returns.
    method Deliver()
      requires Inv(n, Abs(Suspended)) && kids.pending
      modifies this`kids, this`schedule, this`numLiveChildren, this`caught
      ensures Inv(n, Abs(Returned)) && Remaining(Abs(Returned)) < old(Remaining(Abs(Suspended)))
      ensures caught == old(caught) + [kids.reaped - old(kids.reaped)] && kids.reaped >= old(kids.reaped + kids.zombies)
    {
      hide Inv, Remaining;
      Advance(n, Abs(Suspended));
      ghost var before := kids.reaped;
      kids := kids.(pending := false);
      SigchldHandler();
      caught := caught + [kids.reaped - before];
    }

    /** main(): failing says which fork() fails, if any. sigCnt ends as the number of times sigsuspend() has
        returned, and the children reaped at each of them are all there were. */
    method Run(failing: nat) returns (ok: bool)
      requires Abs(Forking) == Begin(n) && caught == []
      modifies this
      ensures ok <==> !(1 <= failing <= n)
      ensures !ok ==> kids.unforked == n + 1 - failing && sigCnt == 0
      ensures ok ==> numLiveChildren == 0 && kids == Kids(0, 0, 0, n, kids.pending)
      ensures ok ==> sigCnt == |caught| && Sum(caught) == n && One(n > 0) <= sigCnt <= n
    {
      hide Inv;
      ok := ForkChildren(failing);
      if ok {
        WaitForAll();
        AllReaped(n, Abs(Exited));
      }
    }

    method ForkChildren(failing: nat) returns (ok: bool)
      requires Abs(Forking) == Begin(n)
      modifies this`kids, this`schedule
      ensures ok <==> !(1 <= failing <= n)
      ensures if ok then Inv(n, Abs(Testing)) && kids.reaped == 0 else kids.unforked == n + 1 - failing
    {
      InvBegins(n);
      hide Inv;
      var j := 1;
      while j < n + 1
        invariant 1 <= j <= n + 1 && kids.unforked == n + 1 - j && kids.reaped == 0 && Inv(n, Abs(Forking))
        invariant !(1 <= failing < j)
      {
        if j == failing { return false; }
        ForkChild();
        j := j + 1;
      }
      StepInv(n, Abs(Forking), ParentRuns);
      ok := true;
    }

    method WaitForAll()
      requires Inv(n, Abs(Testing)) && sigCnt == |caught| && kids.reaped == Sum(caught)
      modifies this
      ensures Inv(n, Abs(Exited)) && sigCnt == |caught| && kids.reaped == Sum(caught)
    {
      hide Inv, Remaining, Sum;
      while numLiveChildren > 0
        invariant Inv(n, Abs(Testing)) && sigCnt == |caught| && kids.reaped == Sum(caught)
        decreases Remaining(Abs(Testing))
      {
        Advance(n, Abs(Testing));
        ghost var before := caught;
        SigSuspend();
        SumAppend(before, caught[|before|]);
        Advance(n, Abs(Returned));
        sigCnt := sigCnt + 1;
      }
      Advance(n, Abs(Testing));
    }
  }
}

/**
 The media-scan worker's concurrency gate (cmd/mediascan-worker/wire.go): a buffered channel as a
 counting semaphore around the handler. A delivery's goroutine puts a token in the channel, blocking
 while it is full, runs the handler, and takes a token out when the handler is over, however it ended.
 */
module ScanGate {

  datatype Ending = Succeeded | Failed | Panicked

  datatype Phase = Waiting | Handling | Leaving(how: Ending) | Done(how: Ending)

  /** `handled[d]` counts the handler calls made for delivery d. */
  datatype State = State(capacity: nat, tokens: nat, phases: seq<Phase>, handled: seq<nat>)

  datatype Step =
    | Arrive
    | Acquire(d: nat)
    | Finish(d: nat, how: Ending)
    | Give(d: nat)

  function Start(capacity: nat): State {
    State(capacity, 0, [], [])
  }

  predicate Enabled(s: State, step: Step)
    requires |s.handled| == |s.phases|
  {
    match step
    case Arrive => true
    case Acquire(d) => d < |s.phases| && s.phases[d] == Waiting && s.tokens < s.capacity
    case Finish(d, _) => d < |s.phases| && s.phases[d] == Handling
    case Give(d) => d < |s.phases| && s.phases[d].Leaving? && s.tokens > 0
  }

  function Do(s: State, step: Step): (s': State)
    requires |s.handled| == |s.phases| && Enabled(s, step)
    ensures |s'.handled| == |s'.phases|
  {
    match step
    case Arrive => s.(phases := s.phases + [Waiting], handled := s.handled + [0])
    case Acquire(d) =>
      s.(tokens := s.tokens + 1, phases := s.phases[d := Handling], handled := s.handled[d := s.handled[d] + 1])
    case Finish(d, how) => s.(phases := s.phases[d := Leaving(how)])
    case Give(d) => s.(tokens := s.tokens - 1, phases := s.phases[d := Done(s.phases[d].how)])
  }

  function Holds(p: Phase): nat {
    if p.Handling? || p.Leaving? then 1 else 0
  }

  /** How many deliveries hold a token: from the send on the channel to the receive from it. */
  function Holding(phases: seq<Phase>): nat {
    if phases == [] then 0 else Holds(phases[0]) + Holding(phases[1..])
  }

  /** How many handlers are running. */
  function Running(phases: seq<Phase>): nat {
    if phases == [] then 0 else Running(phases[1..]) + (if phases[0].Handling? then 1 else 0)
  }

  ghost predicate Inv(s: State) {
    && |s.handled| == |s.phases|
    && s.tokens == Holding(s.phases) <= s.capacity
    && forall d :: 0 <= d < |s.phases| ==> s.handled[d] == if s.phases[d].Waiting? then 0 else 1
  }

  ghost predicate Run(capacity: nat, ss: seq<State>, steps: seq<Step>) {
    && |ss| == |steps| + 1 && ss[0] == Start(capacity)
    && forall i :: 0 <= i < |steps| ==>
         |ss[i].handled| == |ss[i].phases| && Enabled(ss[i], steps[i]) && ss[i + 1] == Do(ss[i], steps[i])
  }

  lemma {:induction false} HoldingMoves(phases: seq<Phase>, d: nat, p: Phase)
    requires d < |phases|
    ensures Holding(phases[d := p]) == Holding(phases) - Holds(phases[d]) + Holds(p)
    ensures Holds(phases[d]) <= Holding(phases)
    decreases |phases|
  {
    if d == 0 {
      assert phases[0 := p][1..] == phases[1..];
    } else {
      HoldingMoves(phases[1..], d - 1, p);
      assert phases[d := p][1..] == phases[1..][d - 1 := p];
    }
  }

  lemma {:induction false} HoldingArrival(phases: seq<Phase>)
    ensures Holding(phases + [Waiting]) == Holding(phases)
    decreases |phases|
  {
    if phases != [] {
      HoldingArrival(phases[1..]);
      assert (phases + [Waiting])[1..] == phases[1..] + [Waiting];
    }
  }

  lemma {:induction false} RunningHold(phases: seq<Phase>)
    ensures Running(phases) <= Holding(phases)
    ensures Running(phases) == Holding(phases) <==> forall d :: 0 <= d < |phases| ==> !phases[d].Leaving?
    decreases |phases|
  {
    if phases != [] {
      RunningHold(phases[1..]);
      assert forall d :: 1 <= d < |phases| ==> phases[d] == phases[1..][d - 1];
    }
  }

  lemma StepKeepsInv(s: State, step: Step)
    requires Inv(s) && Enabled(s, step)
    ensures Inv(Do(s, step))
  {
    match step
    case Arrive => HoldingArrival(s.phases);
    case Acquire(d) => HoldingMoves(s.phases, d, Handling);
    case Finish(d, how) => HoldingMoves(s.phases, d, Leaving(how));
    case Give(d) => HoldingMoves(s.phases, d, Done(s.phases[d].how));
  }

  lemma {:induction false} ReachableInv(capacity: nat, ss: seq<State>, steps: seq<Step>, n: nat)
    requires Run(capacity, ss, steps) && n < |ss|
    ensures Inv(ss[n]) && ss[n].capacity == capacity
    decreases n
  {
    if n > 0 {
      ReachableInv(capacity, ss, steps, n - 1);
      StepKeepsInv(ss[n - 1], steps[n - 1]);
    }
  }

  /**
   In every interleaving the tokens in the channel are exactly those of the deliveries between their
   send and their receive, never more than the capacity, and so never are the handlers that run; the
   two numbers differ exactly while some goroutine is past its handler but has not yet taken its token.
   */
  lemma TokensAreHeld(capacity: nat, ss: seq<State>, steps: seq<Step>, n: nat)
    requires Run(capacity, ss, steps) && n < |ss|
    ensures Running(ss[n].phases) <= Holding(ss[n].phases) == ss[n].tokens <= capacity
    ensures Running(ss[n].phases) == ss[n].tokens <==>
            forall d :: 0 <= d < |ss[n].phases| ==> !ss[n].phases[d].Leaving?
  {
    ReachableInv(capacity, ss, steps, n);
    RunningHold(ss[n].phases);
  }

  /** A delivery's handler has been called once, from the moment it got its token, and never again. */
  lemma HandledOnce(capacity: nat, ss: seq<State>, steps: seq<Step>, n: nat, d: nat)
    requires Run(capacity, ss, steps) && n < |ss| && d < |ss[n].phases|
    ensures |ss[n].handled| == |ss[n].phases|
    ensures ss[n].handled[d] == if ss[n].phases[d].Waiting? then 0 else 1
  {
    ReachableInv(capacity, ss, steps, n);
  }

  /** The receive that returns the token never blocks, whether the handler succeeded, failed or panicked. */
  lemma {:induction false} GivingBackNeverBlocks(capacity: nat, ss: seq<State>, steps: seq<Step>, n: nat, d: nat)
    requires Run(capacity, ss, steps) && n < |ss| && d < |ss[n].phases| && ss[n].phases[d].Leaving?
    ensures |ss[n].handled| == |ss[n].phases| && Enabled(ss[n], Give(d))
  {
    ReachableInv(capacity, ss, steps, n);
    HoldingMoves(ss[n].phases, d, ss[n].phases[d]);
  }

  // ----- every accepted delivery gets through

  function Left(p: Phase): nat {
    match p
    case Waiting => 3
    case Handling => 2
    case Leaving(_) => 1
    case Done(_) => 0
  }

  function Rank(phases: seq<Phase>): nat {
    if phases == [] then 0 else Left(phases[0]) + Rank(phases[1..])
  }

  lemma {:induction false} RankMoves(phases: seq<Phase>, d: nat, p: Phase)
    requires d < |phases|
    ensures Rank(phases[d := p]) == Rank(phases) - Left(phases[d]) + Left(p)
    decreases |phases|
  {
    if d == 0 {
      assert phases[0 := p][1..] == phases[1..];
    } else {
      RankMoves(phases[1..], d - 1, p);
      assert phases[d := p][1..] == phases[1..][d - 1 := p];
    }
  }

  /** Each step other than an arrival brings the work left down by one. */
  lemma StepsMakeProgress(s: State, step: Step)
    requires |s.handled| == |s.phases| && Enabled(s, step) && !step.Arrive?
    ensures Rank(Do(s, step).phases) == Rank(s.phases) - 1
  {
    match step
    case Acquire(d) => RankMoves(s.phases, d, Handling);
    case Finish(d, how) => RankMoves(s.phases, d, Leaving(how));
    case Give(d) => RankMoves(s.phases, d, Done(s.phases[d].how));
  }

  lemma {:induction false} HolderExists(phases: seq<Phase>) returns (d: nat)
    requires Holding(phases) > 0
    ensures d < |phases| && Holds(phases[d]) == 1
    decreases |phases|
  {
    if Holds(phases[0]) == 1 {
      d := 0;
    } else {
      d := HolderExists(phases[1..]);
      d := d + 1;
    }
  }

  ghost predicate CanMove(s: State)
    requires |s.handled| == |s.phases|
  {
    exists step :: Enabled(s, step) && !step.Arrive?
  }

  /**
   The gate never deadlocks: in a reachable state with an unfinished delivery some step other than an
   arrival can be taken, exactly when the capacity is positive. (The worker refuses any other value at
   start-up, cmd/mediascan-worker/main.go.)
   */
  lemma NeverStuck(capacity: nat, ss: seq<State>, steps: seq<Step>, n: nat, d: nat)
    requires Run(capacity, ss, steps) && n < |ss| && d < |ss[n].phases| && !ss[n].phases[d].Done?
    ensures |ss[n].handled| == |ss[n].phases|
    ensures CanMove(ss[n]) <==> capacity > 0
  {
    ReachableInv(capacity, ss, steps, n);
    var s := ss[n];
    if capacity > 0 {
      if s.tokens > 0 {
        var h := HolderExists(s.phases);
        if s.phases[h].Handling? {
          assert Enabled(s, Finish(h, Succeeded));
        } else {
          assert Enabled(s, Give(h));
        }
      } else {
        HoldingMoves(s.phases, d, Waiting);
        assert Enabled(s, Acquire(d));
      }
    } else {
      forall step | Enabled(s, step) && !step.Arrive? ensures false {
        HoldingMoves(s.phases, step.d, Waiting);
      }
    }
  }

  // ----- the objects the callbacks share

  /** The channel and the callbacks' progress; each method is one atomic step of one callback. */
  class Gate {
    const capacity: nat
    var tokens: nat
    var phases: seq<Phase>
    var handled: seq<nat>

    function Value(): State reads this { State(capacity, tokens, phases, handled) }

    constructor (capacity: nat)
      ensures Value() == Start(capacity)
    {
      this.capacity, tokens, phases, handled := capacity, 0, [], [];
    }

    method Arrived() returns (d: nat)
      requires |handled| == |phases|
      modifies this
      ensures Value() == Do(old(Value()), Arrive) && d == |old(phases)|
    {
      d := |phases|;
      phases, handled := phases + [Waiting], handled + [0];
    }

    /** The send on the channel, blocked until there is room; the handler call follows at once. */
    method Send(d: nat)
      requires |handled| == |phases| && Enabled(Value(), Acquire(d))
      modifies this
      ensures Value() == Do(old(Value()), Acquire(d))
    {
      tokens := tokens + 1;
      phases, handled := phases[d := Handling], handled[d := handled[d] + 1];
    }

    method HandlerEnds(d: nat, how: Ending)
      requires |handled| == |phases| && Enabled(Value(), Finish(d, how))
      modifies this
      ensures Value() == Do(old(Value()), Finish(d, how))
    {
      phases := phases[d := Leaving(how)];
    }

    /** The deferred receive. */
    method Receive(d: nat)
      requires |handled| == |phases| && Enabled(Value(), Give(d))
      modifies this
      ensures Value() == Do(old(Value()), Give(d))
    {
      tokens := tokens - 1;
      phases := phases[d := Done(phases[d].how)];
    }

    /** A delivery nobody interrupts, from its arrival on: the channel and every other delivery stay as they were. */
    method Callback(how: Ending) returns (d: nat)
      requires Inv(Value()) && tokens < capacity
      modifies this
      ensures Inv(Value()) && tokens == old(tokens)
      ensures d == |old(phases)| && |phases| == d + 1 && phases[d] == Done(how) && handled[d] == 1
      ensures phases[..d] == old(phases) && handled[..d] == old(handled)
    {
      StepKeepsInv(Value(), Arrive);
      d := Arrived();
      StepKeepsInv(Value(), Acquire(d));
      Send(d);
      StepKeepsInv(Value(), Finish(d, how));
      HandlerEnds(d, how);
      StepKeepsInv(Value(), Give(d));
      Receive(d);
    }
  }
}

/**
 `Kernel::run` on every core at once: each obtains the one start barrier, the bootstrap core alone
 initialises, all wait, and the bootstrap core reports.  Cores interleave arbitrarily.
 */
module Rendezvous {
  import opened Base
  import opened SpinBarrier

  /** The cores, and which of them the firmware named as bootstrap processor. */
  datatype Config = Config(cores: nat, bootstrap: nat, quiet: bool)

  datatype Phase =
    | Start                  // about to ask for the barrier
    | Holding                // has the barrier
    | Initialising           // inside the bootstrap initialisation
    | Ready                  // about to wait
    | Waiting(gen: nat)
    | Past                   // released
    | Done

  datatype State = State(barrier: Option<Barrier>, phases: seq<Phase>, inits: nat, reports: nat)

  function Initial(c: Config): State {
    State(None, seq(c.cores, _ => Start), 0, 0)
  }

  /** One effective step of core `i`; `None` where it is finished or spinning. */
  function Step(c: Config, s: State, i: nat): Option<State>
    requires |s.phases| == c.cores
  {
    if i >= c.cores then None
    else
      match s.phases[i]
      case Start =>
        // call_once: the first core creates the barrier, sized to the number of cores
        Some(State(if s.barrier.None? then Some(Barrier(c.cores, 0, 0)) else s.barrier, s.phases[i := Holding],
          s.inits, s.reports))
      case Holding => Some(s.(phases := s.phases[i := if i == c.bootstrap then Initialising else Ready]))
      case Initialising => Some(s.(phases := s.phases[i := Ready], inits := s.inits + 1))
      case Ready =>
        if s.barrier.None? then None
        else
          var (b, leader) := Arrive(s.barrier.value);
          Some(s.(barrier := Some(b),
                  phases := s.phases[i := if leader then Past else Waiting(s.barrier.value.generation)]))
      case Waiting(g) =>
        if s.barrier.Some? && s.barrier.value.generation != g then Some(s.(phases := s.phases[i := Past])) else None
      case Past =>
        Some(s.(phases := s.phases[i := Done], reports := s.reports + if i == c.bootstrap && !c.quiet then 1 else 0))
      case Done => None
  }

  /** Follow a schedule of effective steps. */
  function Run(c: Config, s: State, schedule: seq<nat>): Option<State>
    requires |s.phases| == c.cores
    ensures Run(c, s, schedule).Some? ==> |Run(c, s, schedule).value.phases| == c.cores
    decreases |schedule|
  {
    if schedule == [] then Some(s)
    else
      var t := Step(c, s, schedule[0]);
      if t.None? then None else Run(c, t.value, schedule[1..])
  }

  predicate Arrived(p: Phase) {
    p.Waiting? || p.Past? || p.Done?
  }

  predicate Released(p: Phase) {
    p.Past? || p.Done?
  }

  function Arrivals(phases: seq<Phase>): (r: seq<bool>)
    ensures |r| == |phases|
  {
    seq(|phases|, i requires 0 <= i < |phases| => Arrived(phases[i]))
  }

  /** The bootstrap core has been through its initialisation. */
  predicate Initialised(p: Phase) {
    p.Ready? || Arrived(p)
  }

  predicate BarrierOk(c: Config, s: State)
    requires |s.phases| == c.cores
  {
    match s.barrier
    case None => forall i :: 0 <= i < c.cores ==> s.phases[i].Start?
    case Some(b) =>
      && b.size == c.cores && b.generation <= 1 && b.count < c.cores
      && (b.generation == 0 ==> b.count == Count(Arrivals(s.phases)))
      && (b.generation == 0 ==> forall i :: 0 <= i < c.cores ==> !Released(s.phases[i]))
      && (b.generation == 1 ==> forall i :: 0 <= i < c.cores ==> Arrived(s.phases[i]))
      && (forall i :: 0 <= i < c.cores && s.phases[i].Waiting? ==> s.phases[i].gen == 0)
  }

  predicate Inv(c: Config, s: State) {
    && |s.phases| == c.cores && c.bootstrap < c.cores
    && BarrierOk(c, s)
    && (forall i :: 0 <= i < c.cores && s.phases[i].Initialising? ==> i == c.bootstrap)
    && s.inits == (if Initialised(s.phases[c.bootstrap]) then 1 else 0)
    && s.reports == (if s.phases[c.bootstrap].Done? && !c.quiet then 1 else 0)
  }

  lemma InitialInv(c: Config)
    requires c.bootstrap < c.cores
    ensures Inv(c, Initial(c))
  {
  }

  /** Phases short of arrival do not change who has arrived. */
  lemma SameArrivals(phases: seq<Phase>, i: nat, p: Phase)
    requires i < |phases| && Arrived(phases[i]) == Arrived(p)
    ensures Arrivals(phases[i := p]) == Arrivals(phases)
  {
  }

  lemma ArriveKeepsInv(c: Config, s: State, i: nat)
    requires Inv(c, s) && i < c.cores && s.phases[i].Ready? && s.barrier.Some?
    ensures Inv(c, Step(c, s, i).value)
  {
    var t, b, flags := Step(c, s, i).value, s.barrier.value, Arrivals(s.phases);
    assert !Arrived(s.phases[i]);
    assert b.generation == 0;
    assert Arrivals(t.phases) == flags[i := true];
    CountSet(flags, i);
    if b.count + 1 == c.cores {
      CountLast(flags, i);
      forall k | 0 <= k < c.cores ensures Arrived(t.phases[k]) { assert k != i ==> flags[k]; }
    }
  }

  /** The first core to ask creates the barrier. */
  lemma FirstKeepsInv(c: Config, s: State, i: nat)
    requires Inv(c, s) && Step(c, s, i).Some? && s.phases[i].Start? && s.barrier.None?
    ensures Inv(c, Step(c, s, i).value)
  {
    CountNone(Arrivals(Step(c, s, i).value.phases));
  }

  lemma StepKeepsInv(c: Config, s: State, i: nat)
    requires Inv(c, s) && Step(c, s, i).Some?
    ensures Inv(c, Step(c, s, i).value)
  {
    hide Count, Arrivals;
    var t := Step(c, s, i).value;
    match s.phases[i]
    case Ready => ArriveKeepsInv(c, s, i);
    case Start => if s.barrier.None? { FirstKeepsInv(c, s, i); } else { SameArrivals(s.phases, i, Holding); }
    case Waiting(g) => SameArrivals(s.phases, i, Past);
    case Past => SameArrivals(s.phases, i, Done);
    case Holding => SameArrivals(s.phases, i, t.phases[i]);
    case Initialising => SameArrivals(s.phases, i, Ready);
    case Done => assert false;
  }

  lemma {:induction false} RunKeepsInv(c: Config, s: State, schedule: seq<nat>)
    requires Inv(c, s) && Run(c, s, schedule).Some?
    ensures Inv(c, Run(c, s, schedule).value)
    decreases |schedule|
  {
    if schedule != [] {
      StepKeepsInv(c, s, schedule[0]);
      RunKeepsInv(c, Step(c, s, schedule[0]).value, schedule[1..]);
    }
  }

  /**
   Rendezvous safety, over every interleaving: once any core is past the barrier, the bootstrap
   initialisation has completed, exactly once, and every core has arrived.
   */
  lemma NobodyPassesEarly(c: Config, schedule: seq<nat>, i: nat)
    requires c.bootstrap < c.cores && i < c.cores && Run(c, Initial(c), schedule).Some?
    ensures var s := Run(c, Initial(c), schedule).value;
            && s.inits <= 1 && s.reports <= 1
            && (Released(s.phases[i]) ==>
                  s.inits == 1 && !s.phases[c.bootstrap].Initialising? &&
                  forall k :: 0 <= k < c.cores ==> Arrived(s.phases[k]))
  {
    InitialInv(c);
    RunKeepsInv(c, Initial(c), schedule);
  }

  /** Only the bootstrap core initialises, before it comes to the barrier, and only it reports, last of all. */
  lemma OnlyBootstrapActs(c: Config, schedule: seq<nat>, i: nat)
    requires c.bootstrap < c.cores && i < c.cores && Run(c, Initial(c), schedule).Some?
    ensures var s := Run(c, Initial(c), schedule).value;
            && (s.phases[i].Initialising? ==> i == c.bootstrap)
            && (s.inits == 1 <==> s.phases[c.bootstrap].Ready? || Arrived(s.phases[c.bootstrap]))
            && (s.reports == 1 <==> s.phases[c.bootstrap].Done? && !c.quiet)
  {
    InitialInv(c);
    RunKeepsInv(c, Initial(c), schedule);
  }

  // ----- everyone gets through -----

  /** Steps a core has left. */
  function Left(p: Phase): nat {
    match p
    case Start => 6
    case Holding => 5
    case Initialising => 4
    case Ready => 3
    case Waiting(_) => 2
    case Past => 1
    case Done => 0
  }

  function Work(s: State): (r: seq<nat>)
    ensures |r| == |s.phases|
  {
    seq(|s.phases|, i requires 0 <= i < |s.phases| => Left(s.phases[i]))
  }

  lemma StepDrops(c: Config, s: State, i: nat)
    requires |s.phases| == c.cores && Step(c, s, i).Some?
    ensures Total(Work(Step(c, s, i).value)) < Total(Work(s))
  {
    var t := Step(c, s, i).value;
    assert Work(t) == Work(s)[i := Left(t.phases[i])];
    TotalDrops(Work(s), i, Left(t.phases[i]));
  }

  lemma {:induction false} RunBounded(c: Config, s: State, schedule: seq<nat>)
    requires |s.phases| == c.cores && Run(c, s, schedule).Some?
    ensures |schedule| + Total(Work(Run(c, s, schedule).value)) <= Total(Work(s))
    decreases |schedule|
  {
    if schedule != [] {
      StepDrops(c, s, schedule[0]);
      RunBounded(c, Step(c, s, schedule[0]).value, schedule[1..]);
    }
  }

  /** While some core is not done, some core can move. */
  lemma SomeoneMoves(c: Config, s: State, i: nat) returns (k: nat)
    requires Inv(c, s) && i < c.cores && !s.phases[i].Done?
    ensures Step(c, s, k).Some?
  {
    if Step(c, s, i).Some? { return i; }
    var b := s.barrier.value;
    assert s.phases[i].Waiting? && b.generation == 0;
    CountAll(Arrivals(s.phases));
    k :| 0 <= k < c.cores && !Arrivals(s.phases)[k];
  }

  /**
   No deadlock and no endless run: every schedule has at most six steps a core, and one that cannot
   be extended has taken every core all the way, with one initialisation and one report unless quiet.
   */
  lemma EveryoneGetsThrough(c: Config, schedule: seq<nat>)
    requires c.bootstrap < c.cores && Run(c, Initial(c), schedule).Some?
    ensures |schedule| <= 6 * c.cores
    ensures var s := Run(c, Initial(c), schedule).value;
            (forall k :: 0 <= k < c.cores ==> Step(c, s, k).None?) ==>
              && (forall k :: 0 <= k < c.cores ==> s.phases[k].Done?)
              && s.inits == 1 && s.reports == if c.quiet then 0 else 1
  {
    InitialInv(c);
    RunKeepsInv(c, Initial(c), schedule);
    RunBounded(c, Initial(c), schedule);
    TotalBound(Work(Initial(c)), 6);
    var s := Run(c, Initial(c), schedule).value;
    if forall k :: 0 <= k < c.cores ==> Step(c, s, k).None? {
      forall i | 0 <= i < c.cores ensures s.phases[i].Done? {
        if !s.phases[i].Done? {
          var k := SomeoneMoves(c, s, i);
          assert false;
        }
      }
    }
  }
}

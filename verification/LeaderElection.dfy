/**
 Test runs: `pick_leader_core` is called twice by every core on one static barrier, before the tests
 and after them, and the leader of the second round writes the exit port.  Cores interleave
 arbitrarily; a slow core may still be leaving the first round while others arrive at the second.
 */
module LeaderElection {
  import opened Base
  import opened SpinBarrier

  /** `meets[k]`: test k makes all cores meet at a barrier of its own, as the kernel's test does. */
  datatype Config = Config(cores: nat, meets: seq<bool>)

  datatype Core =
    | Before(round: nat)               // about to ask for the barrier
    | Holding(round: nat)              // about to wait
    | Waiting(round: nat, gen: nat)
    | Testing                          // about to start a test, or past the last
    | Meeting(gen: nat)                // waiting at the barrier of the test it is in
    | Over                             // second round behind it
    | Gone                             // exit port written, or looping for ever

  /**
   `answers[i]` is what core i was told in each round, `leaders` who led each finished round,
   `tests[i]` how many tests core i has finished, `meetings[k]` the barrier of test k.
   */
  datatype State = State(
    barrier: Option<Barrier>, cores: seq<Core>, answers: seq<seq<bool>>, leaders: seq<nat>,
    tests: seq<nat>, meetings: seq<Barrier>, dots: nat, exits: nat)

  function Initial(c: Config): State {
    State(None, seq(c.cores, _ => Before(0)), seq(c.cores, _ => []), [], seq(c.cores, _ => 0),
          seq(|c.meets|, _ => Barrier(c.cores, 0, 0)), 0, 0)
  }

  predicate Sized(c: Config, s: State) {
    |s.cores| == c.cores && |s.answers| == c.cores && |s.tests| == c.cores && |s.meetings| == |c.meets|
  }

  /** What comes after a round. */
  function Next(round: nat): Core {
    if round == 0 then Testing else Over
  }

  /** Core `i` was told it leads round `r`. */
  predicate Leads(s: State, i: nat, r: nat) {
    i < |s.answers| && r < |s.answers[i]| && s.answers[i][r]
  }

  /** Core `i` is done with a test. */
  function Finish(s: State, i: nat): State
    requires i < |s.cores| && i < |s.tests|
  {
    s.(cores := s.cores[i := Testing],
       tests := s.tests[i := s.tests[i] + 1],
       dots := s.dots + if Leads(s, i, 0) then 1 else 0)
  }

  /** One effective step of core `i`. */
  function Step(c: Config, s: State, i: nat): Option<State>
    requires Sized(c, s)
  {
    if i >= c.cores then None
    else
      match s.cores[i]
      case Before(r) =>
        Some(s.(barrier := if s.barrier.None? then Some(Barrier(c.cores, 0, 0)) else s.barrier,
                cores := s.cores[i := Holding(r)]))
      case Holding(r) =>
        if s.barrier.None? then None
        else
          var (b, leader) := Arrive(s.barrier.value);
          if leader then
            Some(s.(barrier := Some(b), cores := s.cores[i := Next(r)],
                    answers := s.answers[i := s.answers[i] + [true]], leaders := s.leaders + [i]))
          else Some(s.(barrier := Some(b), cores := s.cores[i := Waiting(r, s.barrier.value.generation)]))
      case Waiting(r, g) =>
        if s.barrier.Some? && s.barrier.value.generation != g then
          Some(s.(cores := s.cores[i := Next(r)], answers := s.answers[i := s.answers[i] + [false]]))
        else None
      case Testing =>
        var k := s.tests[i];
        if k >= |c.meets| then Some(s.(cores := s.cores[i := Before(1)]))
        else if !c.meets[k] then Some(Finish(s, i))
        else
          var (b, last) := Arrive(s.meetings[k]);
          var t := s.(meetings := s.meetings[k := b]);
          Some(if last then Finish(t, i) else t.(cores := t.cores[i := Meeting(s.meetings[k].generation)]))
      case Meeting(g) =>
        if s.tests[i] < |c.meets| && s.meetings[s.tests[i]].generation != g then Some(Finish(s, i)) else None
      case Over => Some(s.(cores := s.cores[i := Gone], exits := s.exits + if Leads(s, i, 1) then 1 else 0))
      case Gone => None
  }

  function Run(c: Config, s: State, schedule: seq<nat>): (r: Option<State>)
    requires Sized(c, s)
    ensures r.Some? ==> Sized(c, r.value)
    decreases |schedule|
  {
    if schedule == [] then Some(s)
    else
      var t := Step(c, s, schedule[0]);
      if t.None? then None else Run(c, t.value, schedule[1..])
  }

  // ----- the invariant -----

  /** Rounds a core has arrived at. */
  function Rounds(x: Core): nat {
    match x
    case Before(r) => r
    case Holding(r) => r
    case Waiting(r, _) => r + 1
    case Testing => 1
    case Meeting(_) => 1
    case Over => 2
    case Gone => 2
  }

  /** Rounds a core has its answer for. */
  function Answered(x: Core): nat {
    if x.Waiting? then x.round else Rounds(x)
  }

  /** Cores that have arrived at the round in progress. */
  function Ahead(cores: seq<Core>, gen: nat): (r: seq<bool>)
    ensures |r| == |cores|
  {
    seq(|cores|, i requires 0 <= i < |cores| => Rounds(cores[i]) == gen + 1)
  }

  /** A core is exactly as far as the finished rounds, or waits in the round in progress. */
  predicate InStep(x: Core, gen: nat) {
    && (x.Before? || x.Holding? || x.Waiting? ==> x.round <= 1)
    && (x.Waiting? ==> x.gen == x.round)
    && (Rounds(x) == gen || (x.Waiting? && x.round == gen))
  }

  predicate BarrierOk(c: Config, s: State)
    requires Sized(c, s)
  {
    match s.barrier
    case None => s.leaders == [] && forall i :: 0 <= i < c.cores ==> s.cores[i] == Before(0)
    case Some(b) =>
      && b.size == c.cores && b.generation == |s.leaders| <= 2
      && b.count == Count(Ahead(s.cores, b.generation)) < c.cores
      && forall i :: 0 <= i < c.cores ==> InStep(s.cores[i], b.generation)
  }

  predicate AnswersOk(c: Config, s: State)
    requires Sized(c, s)
  {
    && (forall i :: 0 <= i < c.cores ==> |s.answers[i]| == Answered(s.cores[i]) <= |s.leaders|)
    && (forall i, r :: 0 <= i < c.cores && 0 <= r < |s.answers[i]| ==> (s.answers[i][r] <==> s.leaders[r] == i))
    && (forall r :: 0 <= r < |s.leaders| ==> s.leaders[r] < c.cores && r < |s.answers[s.leaders[r]]|)
  }

  predicate InTests(x: Core) {
    x.Testing? || x.Meeting?
  }

  /** A core's count of finished tests: none before its first answer, all once it is past them. */
  predicate TestOk(c: Config, x: Core, tests: nat) {
    && tests <= |c.meets|
    && (Answered(x) == 0 ==> tests == 0)
    && (Answered(x) >= 1 && !InTests(x) ==> tests == |c.meets|)
    && (x.Meeting? ==> x.gen == 0 && tests < |c.meets| && c.meets[tests])
  }

  predicate TestsOk(c: Config, s: State)
    requires Sized(c, s)
  {
    forall i :: 0 <= i < c.cores ==> TestOk(c, s.cores[i], s.tests[i])
  }

  /** Core `i` has come to the barrier of test `k`. */
  predicate Came(s: State, k: nat, i: nat)
    requires i < |s.tests| && i < |s.cores|
  {
    s.tests[i] > k || (s.tests[i] == k && s.cores[i].Meeting?)
  }

  function Arrived(s: State, k: nat): (r: seq<bool>)
    requires |s.tests| == |s.cores|
    ensures |r| == |s.cores|
  {
    seq(|s.cores|, i requires 0 <= i < |s.cores| => Came(s, k, i))
  }

  /** Before the last core comes nobody is past test `k`; after that nobody comes again. */
  predicate MeetingOk(c: Config, s: State, k: nat)
    requires Sized(c, s) && k < |c.meets|
  {
    var b := s.meetings[k];
    && b.size == c.cores && b.generation <= 1
    && (b.generation == 0 ==>
          && b.count == Count(Arrived(s, k)) && (c.cores > 0 ==> b.count < c.cores)
          && forall i :: 0 <= i < c.cores ==> s.tests[i] <= k)
    && (b.generation == 1 ==> forall i :: 0 <= i < c.cores ==> Came(s, k, i))
  }

  predicate MeetingsOk(c: Config, s: State)
    requires Sized(c, s)
  {
    forall k :: 0 <= k < |c.meets| && c.meets[k] ==> MeetingOk(c, s, k)
  }

  predicate OutputOk(c: Config, s: State)
    requires Sized(c, s) && forall r :: 0 <= r < |s.leaders| ==> s.leaders[r] < c.cores
  {
    && s.dots == (if |s.leaders| >= 1 then s.tests[s.leaders[0]] else 0)
    && s.exits == (if |s.leaders| >= 2 && s.cores[s.leaders[1]].Gone? then 1 else 0)
  }

  predicate Inv(c: Config, s: State) {
    Sized(c, s) && BarrierOk(c, s) && AnswersOk(c, s) && TestsOk(c, s) && MeetingsOk(c, s) && OutputOk(c, s)
  }

  lemma InitialInv(c: Config)
    ensures Inv(c, Initial(c))
  {
    forall k | 0 <= k < |c.meets| && c.meets[k] ensures MeetingOk(c, Initial(c), k) {
      CountNone(Arrived(Initial(c), k));
    }
  }

  lemma SameAhead(cores: seq<Core>, i: nat, x: Core, gen: nat)
    requires i < |cores| && Rounds(cores[i]) == Rounds(x)
    ensures Ahead(cores[i := x], gen) == Ahead(cores, gen)
  {
  }

  /** Arriving, but not last. */
  lemma ArriveKeepsBarrier(c: Config, s: State, i: nat)
    requires Inv(c, s) && i < c.cores && s.cores[i].Holding? && s.barrier.Some? && s.barrier.value.count + 1 < c.cores
    ensures BarrierOk(c, Step(c, s, i).value)
  {
    var b, flags := s.barrier.value, Ahead(s.cores, s.barrier.value.generation);
    assert InStep(s.cores[i], b.generation);
    CountSet(flags, i);
    assert Ahead(Step(c, s, i).value.cores, b.generation) == flags[i := true];
  }

  /** Arriving last: every other core waits in this very round, and now all are level again. */
  lemma LeadKeepsBarrier(c: Config, s: State, i: nat)
    requires Inv(c, s) && i < c.cores && s.cores[i].Holding? && s.barrier.Some? && s.barrier.value.count + 1 >= c.cores
    ensures BarrierOk(c, Step(c, s, i).value)
  {
    var b, flags, t := s.barrier.value, Ahead(s.cores, s.barrier.value.generation), Step(c, s, i).value;
    assert InStep(s.cores[i], b.generation);
    assert !flags[i];
    CountLast(flags, i);
    forall k | 0 <= k < c.cores ensures InStep(t.cores[k], b.generation + 1) && Rounds(t.cores[k]) == b.generation + 1 {
      if k != i { assert flags[k] && InStep(s.cores[k], b.generation); }
    }
    CountNone(Ahead(t.cores, b.generation + 1));
  }

  /** A step that arrives nowhere. */
  lemma StayKeepsBarrier(c: Config, s: State, t: State, i: nat)
    requires Sized(c, s) && Sized(c, t) && BarrierOk(c, s) && s.barrier.Some? && i < c.cores
    requires t.barrier == s.barrier && t.leaders == s.leaders && t.cores == s.cores[i := t.cores[i]]
    requires Rounds(t.cores[i]) == Rounds(s.cores[i]) && InStep(t.cores[i], s.barrier.value.generation)
    ensures BarrierOk(c, t)
  {
    SameAhead(s.cores, i, t.cores[i], s.barrier.value.generation);
  }

  lemma FirstKeepsBarrier(c: Config, s: State, i: nat)
    requires Sized(c, s) && BarrierOk(c, s) && s.barrier.None? && i < c.cores
    ensures BarrierOk(c, Step(c, s, i).value)
  {
    CountNone(Ahead(Step(c, s, i).value.cores, 0));
  }

  lemma StepKeepsBarrier(c: Config, s: State, i: nat)
    requires Inv(c, s) && Step(c, s, i).Some?
    ensures BarrierOk(c, Step(c, s, i).value)
  {
    hide Count, Ahead, AnswersOk, TestsOk, MeetingsOk, OutputOk, Leads;
    if s.barrier.None? {
      FirstKeepsBarrier(c, s, i);
    } else if s.cores[i].Holding? {
      if s.barrier.value.count + 1 < c.cores { ArriveKeepsBarrier(c, s, i); } else { LeadKeepsBarrier(c, s, i); }
    } else {
      assert InStep(s.cores[i], s.barrier.value.generation);
      StayKeepsBarrier(c, s, Step(c, s, i).value, i);
    }
  }

  /** Leading adds a leader and its own answer. */
  lemma LeadKeepsAnswers(c: Config, s: State, t: State, i: nat)
    requires Sized(c, s) && Sized(c, t) && AnswersOk(c, s) && i < c.cores && Answered(s.cores[i]) == |s.leaders|
    requires t.leaders == s.leaders + [i] && t.answers == s.answers[i := s.answers[i] + [true]]
    requires Answered(t.cores[i]) == Answered(s.cores[i]) + 1
    requires forall k :: 0 <= k < c.cores && k != i ==> t.cores[k] == s.cores[k]
    ensures AnswersOk(c, t)
  {
  }

  /** Leaving a round someone else led. */
  lemma LeaveKeepsAnswers(c: Config, s: State, t: State, i: nat)
    requires Sized(c, s) && Sized(c, t) && AnswersOk(c, s) && i < c.cores && Answered(s.cores[i]) < |s.leaders|
    requires t.leaders == s.leaders && t.answers == s.answers[i := s.answers[i] + [false]]
    requires Answered(t.cores[i]) == Answered(s.cores[i]) + 1
    requires forall k :: 0 <= k < c.cores && k != i ==> t.cores[k] == s.cores[k]
    ensures AnswersOk(c, t)
  {
  }

  lemma StepKeepsAnswers(c: Config, s: State, i: nat)
    requires Inv(c, s) && Step(c, s, i).Some?
    ensures AnswersOk(c, Step(c, s, i).value)
  {
    hide Count, Ahead, AnswersOk, TestsOk, OutputOk;
    var t := Step(c, s, i).value;
    if s.barrier.Some? { assert InStep(s.cores[i], s.barrier.value.generation); }
    if s.cores[i].Waiting? {
      LeaveKeepsAnswers(c, s, t, i);
    } else if s.cores[i].Holding? && Arrive(s.barrier.value).1 {
      LeadKeepsAnswers(c, s, t, i);
    } else {
      SameAnswers(c, s, t, i);
    }
  }

  lemma SameAnswers(c: Config, s: State, t: State, i: nat)
    requires Sized(c, s) && Sized(c, t) && AnswersOk(c, s) && i < c.cores
    requires t.leaders == s.leaders && t.answers == s.answers && Answered(t.cores[i]) == Answered(s.cores[i])
    requires forall k :: 0 <= k < c.cores && k != i ==> t.cores[k] == s.cores[k]
    ensures AnswersOk(c, t)
  {
  }

  lemma StepKeepsTests(c: Config, s: State, i: nat)
    requires Inv(c, s) && Step(c, s, i).Some?
    ensures TestsOk(c, Step(c, s, i).value)
  {
    hide Count, Ahead, AnswersOk, OutputOk, MeetingsOk, Leads;
    if s.barrier.Some? { assert InStep(s.cores[i], s.barrier.value.generation); }
    if s.cores[i].Testing? && s.tests[i] < |c.meets| && c.meets[s.tests[i]] { FreshMeeting(c, s, i); }
    var t := Step(c, s, i).value;
    assert TestOk(c, s.cores[i], s.tests[i]);
    forall k | 0 <= k < c.cores ensures TestOk(c, t.cores[k], t.tests[k]) {
      if k != i { assert TestOk(c, s.cores[k], s.tests[k]) && t.cores[k] == s.cores[k] && t.tests[k] == s.tests[k]; }
    }
  }

  /** A core about to start a meeting test finds its barrier in its first generation. */
  lemma FreshMeeting(c: Config, s: State, i: nat)
    requires Sized(c, s) && MeetingsOk(c, s) && i < c.cores && s.cores[i].Testing?
    requires s.tests[i] < |c.meets| && c.meets[s.tests[i]]
    ensures s.meetings[s.tests[i]].generation == 0 && MeetingOk(c, s, s.tests[i])
  {
    hide Count;
    assert MeetingOk(c, s, s.tests[i]) && !Came(s, s.tests[i], i);
  }

  /** A step of core `i` elsewhere leaves the meeting of test `k` as it is. */
  lemma SameMeeting(c: Config, s: State, t: State, i: nat, k: nat)
    requires Sized(c, s) && Sized(c, t) && k < |c.meets| && MeetingOk(c, s, k) && i < c.cores
    requires t.meetings[k] == s.meetings[k]
    requires forall x :: 0 <= x < c.cores && x != i ==> t.cores[x] == s.cores[x] && t.tests[x] == s.tests[x]
    requires Came(t, k, i) == Came(s, k, i) && (s.tests[i] <= k ==> s.meetings[k].generation == 1 || t.tests[i] <= k)
    ensures MeetingOk(c, t, k)
  {
    hide Count;
    forall x | 0 <= x < c.cores ensures Came(t, k, x) == Came(s, k, x) {}
    assert Arrived(t, k) == Arrived(s, k);
  }

  /** Coming to the meeting, but not last. */
  lemma ComeKeepsMeeting(c: Config, s: State, i: nat)
    requires Inv(c, s) && i < c.cores && s.cores[i].Testing? && s.tests[i] < |c.meets| && c.meets[s.tests[i]]
    requires s.meetings[s.tests[i]].count + 1 < c.cores
    ensures MeetingOk(c, Step(c, s, i).value, s.tests[i])
  {
    hide BarrierOk, AnswersOk, OutputOk, TestsOk;
    FreshMeeting(c, s, i);
    var k, t := s.tests[i], Step(c, s, i).value;
    CountSet(Arrived(s, k), i);
    assert Arrived(t, k) == Arrived(s, k)[i := true];
  }

  /** Coming last: everyone has come. */
  lemma LastKeepsMeeting(c: Config, s: State, i: nat)
    requires Inv(c, s) && i < c.cores && s.cores[i].Testing? && s.tests[i] < |c.meets| && c.meets[s.tests[i]]
    requires s.meetings[s.tests[i]].count + 1 >= c.cores
    ensures MeetingOk(c, Step(c, s, i).value, s.tests[i])
  {
    hide BarrierOk, AnswersOk, OutputOk, TestsOk, Leads;
    FreshMeeting(c, s, i);
    var k, t := s.tests[i], Step(c, s, i).value;
    var flags := Arrived(s, k);
    CountLast(flags, i);
    forall x | 0 <= x < c.cores ensures Came(t, k, x) {
      if x != i { assert flags[x]; }
    }
  }

  lemma StepKeepsMeetings(c: Config, s: State, i: nat)
    requires Inv(c, s) && Step(c, s, i).Some?
    ensures MeetingsOk(c, Step(c, s, i).value)
  {
    hide Count, AnswersOk, OutputOk, MeetingOk, BarrierOk, Arrived, Leads;
    var t := Step(c, s, i).value;
    forall k | 0 <= k < |c.meets| && c.meets[k] ensures MeetingOk(c, t, k) {
      assert MeetingOk(c, s, k);
      if s.cores[i].Testing? && s.tests[i] == k {
        if s.meetings[k].count + 1 < c.cores { ComeKeepsMeeting(c, s, i); } else { LastKeepsMeeting(c, s, i); }
      } else {
        MeetingSize(c, s, k);
        SameMeeting(c, s, t, i, k);
      }
    }
  }

  lemma MeetingSize(c: Config, s: State, k: nat)
    requires Sized(c, s) && k < |c.meets| && MeetingOk(c, s, k)
    ensures s.meetings[k].size == c.cores && s.meetings[k].generation <= 1
  {
  }

  lemma StepKeepsOutput(c: Config, s: State, i: nat)
    requires Inv(c, s) && Step(c, s, i).Some? && AnswersOk(c, Step(c, s, i).value)
    ensures OutputOk(c, Step(c, s, i).value)
  {
    hide Count, Ahead, MeetingsOk;
    if s.barrier.Some? { assert InStep(s.cores[i], s.barrier.value.generation); }
  }

  lemma StepKeepsInv(c: Config, s: State, i: nat)
    requires Inv(c, s) && Step(c, s, i).Some?
    ensures Inv(c, Step(c, s, i).value)
  {
    hide Count, Ahead, MeetingsOk, BarrierOk, AnswersOk, TestsOk, Step;
    StepSized(c, s, i);
    StepKeepsBarrier(c, s, i);
    StepKeepsAnswers(c, s, i);
    StepKeepsTests(c, s, i);
    StepKeepsMeetings(c, s, i);
    StepKeepsOutput(c, s, i);
  }

  lemma StepSized(c: Config, s: State, i: nat)
    requires Sized(c, s) && Step(c, s, i).Some?
    ensures Sized(c, Step(c, s, i).value)
  {
  }

  lemma {:induction false} RunKeepsInv(c: Config, s: State, schedule: seq<nat>)
    requires Inv(c, s) && Run(c, s, schedule).Some?
    ensures Inv(c, Run(c, s, schedule).value)
    decreases |schedule|
  {
    hide Step, BarrierOk, AnswersOk, TestsOk, MeetingsOk, OutputOk;
    if schedule != [] {
      StepKeepsInv(c, s, schedule[0]);
      RunKeepsInv(c, Step(c, s, schedule[0]).value, schedule[1..]);
    }
  }

  // ----- what every run guarantees -----

  /** In every reachable state no round has two leaders, and a round every core has an answer for has one. */
  lemma OneLeaderPerRound(c: Config, schedule: seq<nat>, r: nat)
    requires Run(c, Initial(c), schedule).Some?
    ensures var s := Run(c, Initial(c), schedule).value;
            && (forall i, k :: Leads(s, i, r) && Leads(s, k, r) ==> i == k)
            && (c.cores > 0 && (forall i :: 0 <= i < c.cores ==> r < |s.answers[i]|) ==> exists i :: Leads(s, i, r))
  {
    hide Step, BarrierOk, TestsOk, MeetingsOk, OutputOk;
    InitialInv(c);
    RunKeepsInv(c, Initial(c), schedule);
    var s := Run(c, Initial(c), schedule).value;
    forall i, k | Leads(s, i, r) && Leads(s, k, r) ensures i == k { assert s.leaders[r] == i && s.leaders[r] == k; }
    if c.cores > 0 && forall i :: 0 <= i < c.cores ==> r < |s.answers[i]| {
      assert r < |s.answers[0]| <= |s.leaders|;
      var leader := s.leaders[r];
      assert s.answers[leader][r] && Leads(s, leader, r);
    }
  }

  /** The exit port is written at most once, and only when every core has run every test. */
  lemma ExitOnlyAfterAllTests(c: Config, schedule: seq<nat>)
    requires Run(c, Initial(c), schedule).Some?
    ensures var s := Run(c, Initial(c), schedule).value;
            && s.exits <= 1
            && (s.exits == 1 ==> forall i :: 0 <= i < c.cores ==> s.tests[i] == |c.meets|)
            && (forall k :: 0 <= k < c.cores && (s.cores[k].Over? || s.cores[k].Gone?) ==>
                  forall i :: 0 <= i < c.cores ==> s.tests[i] == |c.meets|)
  {
    InitialInv(c);
    RunKeepsInv(c, Initial(c), schedule);
    var s := Run(c, Initial(c), schedule).value;
    if k :| 0 <= k < c.cores && (s.cores[k].Over? || s.cores[k].Gone?) {
      assert InStep(s.cores[k], s.barrier.value.generation);
      forall i | 0 <= i < c.cores
        ensures s.tests[i] == |c.meets| {
        assert InStep(s.cores[i], s.barrier.value.generation);
      }
    }
  }

  /**
   Whoever leads the first round prints a dot per test it has finished, and whoever leads the second
   writes the exit port; nobody else does either.
   */
  lemma LeadersAct(c: Config, schedule: seq<nat>, i: nat)
    requires Run(c, Initial(c), schedule).Some? && i < c.cores
    ensures var s := Run(c, Initial(c), schedule).value;
            && (Leads(s, i, 0) ==> s.dots == s.tests[i])
            && (Leads(s, i, 1) ==> (s.exits == 1 <==> s.cores[i].Gone?))
            && ((forall k :: 0 <= k < c.cores ==> !Leads(s, k, 0)) ==> s.dots == 0)
            && ((forall k :: 0 <= k < c.cores ==> !Leads(s, k, 1)) ==> s.exits == 0)
  {
    hide Step, BarrierOk, TestsOk, MeetingsOk;
    InitialInv(c);
    RunKeepsInv(c, Initial(c), schedule);
    var s := Run(c, Initial(c), schedule).value;
    if |s.leaders| >= 1 { assert s.answers[s.leaders[0]][0] && Leads(s, s.leaders[0], 0); }
    if |s.leaders| >= 2 { assert s.answers[s.leaders[1]][1] && Leads(s, s.leaders[1], 1); }
  }

  /** Nobody is past a test that makes the cores meet before every core has come to it. */
  lemma NobodyPassesMeeting(c: Config, schedule: seq<nat>, k: nat, i: nat)
    requires Run(c, Initial(c), schedule).Some? && k < |c.meets| && c.meets[k] && i < c.cores
    ensures var s := Run(c, Initial(c), schedule).value;
            s.tests[i] > k ==>
              forall x :: 0 <= x < c.cores ==> s.tests[x] > k || (s.tests[x] == k && s.cores[x].Meeting?)
  {
    hide Step, BarrierOk, TestsOk, AnswersOk, OutputOk, Count;
    InitialInv(c);
    RunKeepsInv(c, Initial(c), schedule);
    var s := Run(c, Initial(c), schedule).value;
    assert MeetingOk(c, s, k);
    forall x | 0 <= x < c.cores && s.tests[i] > k ensures s.tests[x] > k || (s.tests[x] == k && s.cores[x].Meeting?) {
      assert Came(s, k, x);
    }
  }

  // ----- everyone finishes -----

  function Left(c: Config, x: Core, tests: nat): nat {
    match x
    case Before(r) => if r == 0 then 2 * |c.meets| + 8 else 4
    case Holding(r) => if r == 0 then 2 * |c.meets| + 7 else 3
    case Waiting(r, _) => if r == 0 then 2 * |c.meets| + 6 else 2
    case Testing => 5 + if tests <= |c.meets| then 2 * (|c.meets| - tests) else 0
    case Meeting(_) => 4 + if tests <= |c.meets| then 2 * (|c.meets| - tests) else 0
    case Over => 1
    case Gone => 0
  }

  function Work(c: Config, s: State): (r: seq<nat>)
    requires Sized(c, s)
    ensures |r| == c.cores
  {
    seq(c.cores, i requires 0 <= i < c.cores => Left(c, s.cores[i], s.tests[i]))
  }

  lemma StepDrops(c: Config, s: State, i: nat)
    requires Sized(c, s) && Step(c, s, i).Some?
    ensures Total(Work(c, Step(c, s, i).value)) < Total(Work(c, s))
  {
    var t := Step(c, s, i).value;
    assert Work(c, t) == Work(c, s)[i := Left(c, t.cores[i], t.tests[i])];
    TotalDrops(Work(c, s), i, Left(c, t.cores[i], t.tests[i]));
  }

  lemma {:induction false} RunBounded(c: Config, s: State, schedule: seq<nat>)
    requires Sized(c, s) && Run(c, s, schedule).Some?
    ensures |schedule| + Total(Work(c, Run(c, s, schedule).value)) <= Total(Work(c, s))
    decreases |schedule|
  {
    if schedule != [] {
      StepDrops(c, s, schedule[0]);
      RunBounded(c, Step(c, s, schedule[0]).value, schedule[1..]);
    }
  }

  /** At a meeting nobody is stuck for ever: whoever has not come yet can move. */
  lemma MeetingMoves(c: Config, s: State, i: nat) returns (k: nat)
    requires Inv(c, s) && i < c.cores && s.cores[i].Meeting?
    ensures Step(c, s, k).Some?
  {
    hide Count, Ahead, Leads, AnswersOk, OutputOk;
    if Step(c, s, i).Some? { return i; }
    var test := s.tests[i];
    assert MeetingOk(c, s, test);
    CountAll(Arrived(s, test));
    k :| 0 <= k < c.cores && !Arrived(s, test)[k];
    assert InStep(s.cores[i], s.barrier.value.generation) && InStep(s.cores[k], s.barrier.value.generation);
    if s.cores[k].Meeting? { assert MeetingOk(c, s, s.tests[k]); }
  }

  lemma SomeoneMoves(c: Config, s: State, i: nat) returns (k: nat)
    requires Inv(c, s) && i < c.cores && !s.cores[i].Gone?
    ensures Step(c, s, k).Some?
  {
    hide Leads, AnswersOk, OutputOk, TestsOk, MeetingsOk;
    if Step(c, s, i).Some? { return i; }
    if s.cores[i].Meeting? {
      k := MeetingMoves(c, s, i);
    } else {
      var b := s.barrier.value;
      assert InStep(s.cores[i], b.generation) && s.cores[i].Waiting? && b.generation == s.cores[i].round;
      CountAll(Ahead(s.cores, b.generation));
      k :| 0 <= k < c.cores && !Ahead(s.cores, b.generation)[k];
      assert InStep(s.cores[k], b.generation);
      if s.cores[k].Meeting? { k := MeetingMoves(c, s, k); }
    }
  }

  /**
   Every schedule ends, and one that cannot be extended has run every test everywhere, whichever of
   them make the cores meet, and exited once.
   */
  lemma EveryoneFinishes(c: Config, schedule: seq<nat>)
    requires c.cores > 0 && Run(c, Initial(c), schedule).Some?
    ensures |schedule| <= c.cores * (2 * |c.meets| + 8)
    ensures var s := Run(c, Initial(c), schedule).value;
            (forall k :: 0 <= k < c.cores ==> Step(c, s, k).None?) ==>
              && (forall k :: 0 <= k < c.cores ==> s.cores[k].Gone? && s.tests[k] == |c.meets|)
              && s.exits == 1 && s.dots == |c.meets|
  {
    InitialInv(c);
    RunKeepsInv(c, Initial(c), schedule);
    RunBounded(c, Initial(c), schedule);
    TotalBound(Work(c, Initial(c)), 2 * |c.meets| + 8);
    var s := Run(c, Initial(c), schedule).value;
    if forall k :: 0 <= k < c.cores ==> Step(c, s, k).None? {
      forall i | 0 <= i < c.cores ensures s.cores[i].Gone? {
        if !s.cores[i].Gone? {
          var k := SomeoneMoves(c, s, i);
          assert false;
        }
      }
      assert InStep(s.cores[0], s.barrier.value.generation);
    }
  }
}

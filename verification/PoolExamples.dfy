/** Two runs of the smallest pool in which a clear does harm: one thread, one task wanted, and no room for a cached episode. */
module PoolExamples {
  import opened PyList
  import opened TaskGroups
  import opened SwarmEpisode
  import opened RolloutPool
  import opened PoolCounting
  import opened PoolClearing
  import opened PoolSchedules
  import opened BatchGuarantee

  function TightConfig(): Config {
    Config(1, 1, 1, EnoughTasks, 0, Policy(_ => 1, 1.0))
  }

  /** The only episode, of the task "t" with the id "e". */
  function OnlyEpisode(): Tracker {
    Tracker("t", "e", 0.0, [0.0])
  }

  function OnlyGroup(): Group {
    Group("t", [OnlyEpisode()])
  }

  lemma OnlyAttemptEarns()
    ensures Retry([Earning("e")], TightConfig().policy) == Episode(OnlyEpisode())
  {
    var events := Earning("e").events;
    var output := events[1];
    assert events[1..] == [output];
    assert Wait(events, [], false, []) == Wait([output], [0], false, []);
    assert Wait([output], [0], false, []) == Waited(Ended(output.message.parsed), [0], false, [Receive(output.message), Ack]);
    assert Repeat(0.0, 1) == [0.0];
  }

  lemma OnlyFiling()
    ensures var g, c := OnlyGroup(), TightConfig();
      && Insert([], OnlyEpisode()) == [g] && Tasks([g]) == ["t"] && EntryOf([g], "t") == [g]
      && Met(c, [g]) && Overflows(c, [g]) && !Met(c, [])
  {
    var g := OnlyGroup();
    assert [g][1..] == [];
    assert Collect([g]) == g.members + Collect([]);
    assert FinishedTasks([g], 1) == 1 + FinishedTasks([], 1);
  }

  /** The worker's phases until its episode is filed. */
  function Phases(): seq<Phase> {
    [NotStarted, Top, InEpisode, Holding(Episode(OnlyEpisode())), Checking]
  }

  function Acts(): seq<Act> {
    [Start, LookAtTop, Finish([Earning("e")]), File]
  }

  function Stage(i: nat): State
    requires i < 5
  {
    State([Phases()[i]], Polling, [false], if i < 4 then [] else [OnlyGroup()],
          if i < 4 then multiset{} else multiset{OnlyEpisode()}, multiset{}, false, 0)
  }

  lemma StageSteps(i: nat)
    requires i < 4
    ensures WorkerStep(TightConfig(), Stage(i), 0, Acts()[i]) == Some(Stage(i + 1))
  {
    assert Stage(i).workers[0 := Phases()[i + 1]] == Stage(i + 1).workers;
    if i == 2 {
      OnlyAttemptEarns();
      assert FreshId(Stage(2), "e");
    } else if i == 3 {
      OnlyFiling();
      assert multiset{} + multiset{OnlyEpisode()} == multiset{OnlyEpisode()};
    }
  }

  /** One episode is filed and nobody has counted it yet. */
  lemma {:induction false} ToFiled(i: nat) returns (steps: seq<Step>)
    requires i < 5
    ensures Run(TightConfig(), steps) == Some(Stage(i))
  {
    if i == 0 {
      steps := [];
      assert seq(1, _ => NotStarted) == [NotStarted] && seq(1, _ => false) == [false];
    } else {
      var before := ToFiled(i - 1);
      StageSteps(i - 1);
      OneMoreStep(TightConfig(), before, OfWorker(0, Acts()[i - 1]));
      steps := before + [OfWorker(0, Acts()[i - 1])];
    }
  }

  /** The worker's check: the snapshot of the keys, the only entry, the verdict. */
  lemma WorkerCounts() returns (steps: seq<Step>)
    ensures Leads(TightConfig(), Stage(4), steps, At(Stage(4), 0, Counted(true, true)))
  {
    var c, s := TightConfig(), Stage(4);
    OnlyFiling();
    var m := At(s, 0, Counting(["t"], []));
    LeadsOne(c, s, OfWorker(0, Snapshot));
    var rest, s' := FinishCount(c, m, 0);
    assert ReadAll(["t"], [OnlyGroup()]) == EntryOf([OnlyGroup()], "t") + ReadAll([], [OnlyGroup()]);
    assert View(["t"], [], [OnlyGroup()]) == [OnlyGroup()];
    LeadsOn(c, s, [OfWorker(0, Snapshot)], m, rest, s');
    steps := [OfWorker(0, Snapshot)] + rest;
    assert s' == At(s, 0, Counted(true, true));
  }

  /** A check that overflows clears the map and still reports success: the worker stops the pool and leaves, and the main thread polls
      an empty map for ever. */
  lemma ClearingCheckStrandsMain() returns (steps: seq<Step>)
    ensures Run(TightConfig(), steps).Some? && Stuck(TightConfig(), Run(TightConfig(), steps).value)
    ensures Run(TightConfig(), steps).value.workers == [Exited(false)]
  {
    var c := TightConfig();
    var a := ToFiled(4);
    var b := WorkerCounts();
    var counted := At(Stage(4), 0, Counted(true, true));
    var d, s' := ToStuck(c, counted, 0);
    LeadsOn(c, Stage(4), b, counted, d, s');
    steps := a + (b + d);
    RunThenFrom(c, a, b + d);
    assert s'.workers[0].Exited?;
  }

  function MainAt(m: MainPhase): State {
    Stage(4).(main := m)
  }

  lemma MainPolls()
    ensures var c := TightConfig();
      && MainStep(c, Stage(4), PollSnapshot) == Some(MainAt(MainCounting(["t"], [])))
      && MainStep(c, MainAt(MainCounting(["t"], [])), PollRead) == Some(MainAt(MainCounting([], [OnlyGroup()])))
      && MainStep(c, MainAt(MainCounting([], [OnlyGroup()])), PollTally) == Some(MainAt(MainCounted(true, true)))
  {
    OnlyFiling();
    assert ["t"][1..] == [] && [] + [OnlyGroup()] == [OnlyGroup()];
  }

  lemma MainCounts() returns (steps: seq<Step>)
    ensures Leads(TightConfig(), Stage(4), steps, MainAt(MainCounted(true, true)))
  {
    var c := TightConfig();
    MainPolls();
    LeadsOne(c, MainAt(MainCounting([], [OnlyGroup()])), OfMain(PollTally));
    LeadsFirst(c, MainAt(MainCounting(["t"], [])), OfMain(PollRead), [OfMain(PollTally)], MainAt(MainCounted(true, true)));
    steps := [OfMain(PollRead)] + [OfMain(PollTally)];
    LeadsFirst(c, Stage(4), OfMain(PollSnapshot), steps, MainAt(MainCounted(true, true)));
    steps := [OfMain(PollSnapshot)] + steps;
  }

  /** The main thread's own poll does the same to itself: it counts enough, clears the map, stops everybody, and collects an empty
      batch. */
  lemma MainPollEmptiesBatch() returns (steps: seq<Step>)
    ensures Run(TightConfig(), steps).Some? && Run(TightConfig(), steps).value.main == Collected([])
  {
    var c := TightConfig();
    var a := ToFiled(4);
    var b := MainCounts();
    var d, s' := EmptyBatchReachable(c, MainAt(MainCounted(true, true)));
    LeadsOn(c, Stage(4), b, MainAt(MainCounted(true, true)), d, s');
    steps := a + (b + d);
    RunThenFrom(c, a, b + d);
  }
}

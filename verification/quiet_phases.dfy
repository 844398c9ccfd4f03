/** A long run: directories are made while the program walks and works through its queue, until all is quiet; then
    directories are made, renamed and removed with the program behind, its walks being at one moment; and so on, in any
    number of phases. */
module QuietPhases {
  import opened Basics
  import opened WatchCache
  import opened InotifyEvents
  import opened WatchedTree
  import opened LaggingReplay
  import opened Backlog
  import opened BacklogTakes
  import opened BacklogRuns
  import CreationRace

  /** The directories, their watches and the program's state between two phases, when the event queue is empty. */
  datatype Quiet = Quiet(tree: Tree, wd: map<int, nat>, m: Mirror)

  /** Every directory is cached once, under its pathname, and nothing else is. */
  ghost predicate Complete(s: Quiet) {
    && Sound(s.tree) && WellFormed(s.m.slots)
    && Faithful(Contents(s.m.slots), s.tree, s.wd) && s.wd.Keys == s.tree.place.Keys
  }

  datatype Phase =
    | Race(ws: seq<CreationRace.World>)
    | Lag(ss: seq<State>, steps: seq<Step>)

  /** A race starts with what there is, and goes on until no walk is running and the queue is empty. */
  ghost predicate RacePhase(s: Quiet, ws: seq<CreationRace.World>, s': Quiet) {
    && CreationRace.Steps(ws)
    && var first, last := ws[0], ws[|ws| - 1];
       && first.tree == s.tree && first.wd == s.wd && first.slots == s.m.slots
       && first.walk == [] && first.queue == [] && !first.lost && (forall d :: d in s.wd ==> s.wd[d] < first.nextWd)
       && last.walk == [] && last.queue == []
       && s' == Quiet(last.tree, last.wd, Mirror(last.slots, s.m.roots))
  }

  /** A run without harm, until the queue is empty and every directory was found. */
  ghost predicate LagPhase(s: Quiet, ss: seq<State>, steps: seq<Step>, s': Quiet) {
    && Run(ss, steps) && ss[0] == State(s.tree, s.wd, s.m, [])
    && (forall i :: 0 <= i < |steps| ==> !HarmfulAt(ss, steps, i))
    && var last := ss[|steps|];
       && last.queue == [] && last.tree.place.Keys <= last.wd.Keys
       && s'.tree == last.tree && s'.wd == last.wd && s'.m == last.m
  }

  ghost predicate PhaseStep(s: Quiet, p: Phase, s': Quiet) {
    match p
    case Race(ws) => RacePhase(s, ws, s')
    case Lag(ss, steps) => LagPhase(s, ss, steps, s')
  }

  lemma RaceStarts(s: Quiet, w: CreationRace.World)
    requires Complete(s)
    requires w.tree == s.tree && w.wd == s.wd && w.slots == s.m.slots && w.walk == [] && w.queue == [] && !w.lost
    requires forall d :: d in s.wd ==> s.wd[d] < w.nextWd
    ensures CreationRace.Inv(w)
  {
    assert forall d :: d in w.tree.place ==> d in w.wd;
    assert CreationRace.Tied(w) by {
      hide PlacesApart, WellFormed, Contents, PathOf;
    }
    hide Sound, CreationRace.Tied, PathOf;
  }

  lemma RaceKeeps(s: Quiet, ws: seq<CreationRace.World>, s': Quiet)
    requires Complete(s) && RacePhase(s, ws, s')
    ensures Complete(s')
  {
    hide Complete, CreationRace.Inv, CreationRace.Step;
    RaceStarts(s, ws[0]);
    CreationRace.StepsKeep(ws);
    CreationRace.QuietIsComplete(ws[|ws| - 1]);
    hide CreationRace.Steps;
    TiedIsComplete(ws[|ws| - 1], s.m.roots);
  }

  lemma TiedIsComplete(w: CreationRace.World, roots: seq<Option<string>>)
    requires CreationRace.Tied(w) && w.wd.Keys == w.tree.place.Keys
    ensures Complete(Quiet(w.tree, w.wd, Mirror(w.slots, roots)))
  {
    hide Sound, WellFormed, Faithful, PathOf, Contents;
  }

  lemma LagKeeps(s: Quiet, ss: seq<State>, steps: seq<Step>, s': Quiet)
    requires Complete(s) && LagPhase(s, ss, steps, s')
    ensures Complete(s')
  {
    CompleteIsRight(s);
    LagParts(s, ss, steps, s');
    hide *;
    var last := ss[|steps|];
    HarmlessKeeps(ss, steps, |steps|);
    InvParts(last);
    SoundBase(last);
    DrainedIsFaithful(last);
    RightIsComplete(last, s');
  }

  lemma LagParts(s: Quiet, ss: seq<State>, steps: seq<Step>, s': Quiet)
    requires LagPhase(s, ss, steps, s')
    ensures Run(ss, steps) && |ss| == |steps| + 1 && ss[0] == State(s.tree, s.wd, s.m, [])
    ensures forall i :: 0 <= i < |steps| ==> !HarmfulAt(ss, steps, i)
    ensures var last := ss[|steps|];
      && last.queue == [] && last.tree.place.Keys <= last.wd.Keys
      && s'.tree == last.tree && s'.wd == last.wd && s'.m == last.m
  {
    hide HarmfulAt, Proceeds;
  }

  lemma CompleteIsRight(s: Quiet)
    requires Complete(s)
    ensures Inv(State(s.tree, s.wd, s.m, []))
  {
    hide Sound, WellFormed, Contents, PathOf;
    var r := State(s.tree, s.wd, s.m, []);
    assert r.wd.Keys <= r.tree.place.Keys;
    DrainedIsFaithful(r);
  }

  lemma RightIsComplete(last: State, s: Quiet)
    requires Base(last) && Faithful(Contents(last.m.slots), last.tree, last.wd)
    requires last.tree.place.Keys <= last.wd.Keys && s.tree == last.tree && s.wd == last.wd && s.m == last.m
    ensures Complete(s)
  {
    hide Sound, WellFormed, Contents, PathOf, Proper, IsWatch;
    assert last.wd.Keys == last.tree.place.Keys;
  }

  /** However many phases of either kind there are, the cache is complete and right after each. */
  lemma {:induction false} PhasesKeep(ss: seq<Quiet>, ps: seq<Phase>)
    requires |ss| == |ps| + 1 && Complete(ss[0])
    requires forall i :: 0 <= i < |ps| ==> PhaseStep(ss[i], ps[i], ss[i + 1])
    ensures Complete(ss[|ps|])
    decreases |ps|
  {
    hide Complete, PhaseStep;
    if |ps| > 0 {
      var n := |ps| - 1;
      forall i | 0 <= i < n ensures PhaseStep(ss[..n + 1][i], ps[..n][i], ss[..n + 1][i + 1]) {
        assert PhaseStep(ss[i], ps[i], ss[i + 1]);
      }
      PhasesKeep(ss[..n + 1], ps[..n]);
      OnePhase(ss[n], ps[n], ss[n + 1]);
    }
  }

  lemma OnePhase(s: Quiet, p: Phase, s': Quiet)
    requires Complete(s) && PhaseStep(s, p, s')
    ensures Complete(s')
  {
    hide Complete, RacePhase, LagPhase;
    match p
    case Race(ws) => RaceKeeps(s, ws, s');
    case Lag(ss, steps) => LagKeeps(s, ss, steps, s');
  }
}

/**
Two runs of the ledger that leave an operation where its owner would not look for it: accepted
and never recovered, and recovered while the process that asked for it lives.
*/
module LedgerRuns {
  import opened Basics
  import opened Operation
  import opened Ledger

  const REQUEST := Request(1, 1, "kvm", 1, Input, "run_actions", "v1")

  const SEND := Patch(PossiblySent, NotRequested, "", [], NOT_PROVEN, false, "", [])

  const ACCEPT := Patch(Operation.Accepted, NotRequested, "", [], NOT_PROVEN, false, "", [])

  /** One more step of a run. */
  lemma Extends(ws: seq<World>, steps: seq<Step>, s: Step)
    requires IsRun(ws, steps) && Enabled(ws[|ws| - 1], s)
    ensures IsRun(ws + [Apply(ws[|ws| - 1], s)], steps + [s])
  {
    hide Apply, Enabled;
    var longer, all := ws + [Apply(ws[|ws| - 1], s)], steps + [s];
    forall i | 0 <= i < |all| ensures Enabled(longer[i], all[i]) && longer[i + 1] == Apply(longer[i], all[i]) {
      assert i < |steps| ==> longer[i] == ws[i] && longer[i + 1] == ws[i + 1] && all[i] == steps[i];
    }
  }

  function Sent(): Row { Moved(Opening(REQUEST, 0), SendStarted, SEND, 1) }

  function Idle(owners: set<Id>): Process { Process(owners, Quiet, Listed([])) }

  /** A world whose only process has taken the lock of its only operation to start sending. */
  const PREPARED :=
    World(map[1 := Opening(REQUEST, 0)], map[1 := Owner(1)],
          map[1 := Process({1}, Prepared(1, SendStarted, SEND, true), Listed([]))], map[], [Created(1)])

  lemma PreparingRun() returns (ws: seq<World>, steps: seq<Step>)
    ensures ws != [] && IsRun(ws, steps) && forall i :: 0 <= i < |steps| ==> !steps[i].Crashing?
    ensures ws[|ws| - 1] == PREPARED
  {
    hide IsRun;
    ws, steps := [EMPTY], [];
    EmptyRun();
    Extends(ws, steps, Start(1, []));
    var w1 := World(map[], map[], map[1 := Idle({})], map[], []);
    assert Apply(EMPTY, Start(1, [])) == w1;
    ws, steps := ws + [w1], steps + [Start(1, [])];
    Extends(ws, steps, Register(REQUEST, 0));
    var w2 := w1.(rows := map[1 := Opening(REQUEST, 0)], trace := [Created(1)]);
    assert Apply(w1, Register(REQUEST, 0)) == w2;
    ws, steps := ws + [w2], steps + [Register(REQUEST, 0)];
    var prepare := Preparing(1, 1, SendStarted, SEND);
    Extends(ws, steps, prepare);
    assert Apply(w2, prepare).processes[1].owners == {1};
    assert Apply(w2, prepare).locks == PREPARED.locks && Apply(w2, prepare).processes == PREPARED.processes;
    assert Apply(w2, prepare) == PREPARED;
    ws, steps := ws + [PREPARED], steps + [prepare];
  }

  /** A process took the lock and committed `send_started`; what is left depends on whether it was told so. */
  lemma SendingRun(update: Update) returns (ws: seq<World>, steps: seq<Step>)
    requires !update.NotApplied?
    ensures ws != [] && IsRun(ws, steps) && forall i :: 0 <= i < |steps| ==> !steps[i].Crashing?
    ensures ws[|ws| - 1] ==
      var trace := [Created(1), Went(1, NotSent, SendStarted)];
      if update.Applied? then World(map[1 := Sent()], map[1 := Owner(1)], map[1 := Idle({1})], map[1 := 1], trace)
      else World(map[1 := Sent()], map[], map[1 := Idle({})], map[], trace)
  {
    hide IsRun;
    ws, steps := PreparingRun();
    Extends(ws, steps, Committing(1, 1, update));
    var w4 := PREPARED.(rows := map[1 := Sent()], starters := if update.Applied? then map[1 := 1] else map[],
                        processes := map[1 := Process({1}, Settled(1, SendStarted, true, update.Applied?), Listed([]))],
                        trace := [Created(1), Went(1, NotSent, SendStarted)]);
    assert Apply(PREPARED, Committing(1, 1, update)) == w4;
    ws, steps := ws + [w4], steps + [Committing(1, 1, update)];
    Extends(ws, steps, Settling(1));
    var w5 := Apply(w4, Settling(1));
    if update.Applied? {
      assert w4.processes[1].owners - {} == {1};
      assert w5.processes == map[1 := Idle({1})] && w5.locks == map[1 := Owner(1)];
    } else {
      assert w4.processes[1].owners - {1} == {} && w4.locks - {1} == map[];
      assert w5.processes == map[1 := Idle({})] && w5.locks == map[] && w5.starters == map[];
    }
    ws, steps := ws + [w5], steps + [Settling(1)];
  }

  lemma EmptyRun()
    ensures IsRun([EMPTY], [])
  {
  }

  /** The process that sent the operation committed its acceptance. */
  lemma AcceptingRun() returns (ws: seq<World>, steps: seq<Step>)
    ensures ws != [] && IsRun(ws, steps)
    ensures var w := ws[|ws| - 1];
      && w.rows.Keys == {1} && w.rows[1].stage == TransportAccepted && w.locks == map[1 := Owner(1)]
      && w.processes.Keys == {1} && w.starters == map[1 := 1]
  {
    hide IsRun;
    ws, steps := SendingRun(Applied);
    var w := ws[|ws| - 1];
    var prepare := Preparing(1, 1, TransportAccepted, ACCEPT);
    Extends(ws, steps, prepare);
    var w1 := w.(processes := map[1 := Process({1}, Prepared(1, TransportAccepted, ACCEPT, false), Listed([]))]);
    assert Apply(w, prepare) == w1;
    ws, steps := ws + [w1], steps + [prepare];
    Extends(ws, steps, Committing(1, 2, Applied));
    ws, steps := ws + [Apply(w1, Committing(1, 2, Applied))], steps + [Committing(1, 2, Applied)];
  }

  /** Accepted, crashed, restarted, recovered: the operation is still accepted, and recovery has nothing left to do. */
  lemma AcceptedStays() returns (ws: seq<World>, steps: seq<Step>)
    ensures ws != [] && IsRun(ws, steps) && |steps| >= 2 && steps[|steps| - 1] == Trying(2)
    ensures exists i :: 0 <= i < |steps| && steps[i] == Crashing(1)
    ensures var w := ws[|ws| - 1];
      && w.rows.Keys == {1} && w.rows[1].stage == TransportAccepted && w.locks == map[]
      && w.processes == map[2 := Process({}, Quiet, NoRecovery)]
  {
    hide IsRun;
    ws, steps := AcceptingRun();
    var w2 := ws[|ws| - 1];
    Extends(ws, steps, Crashing(1));
    var w3 := Apply(w2, Crashing(1));
    assert w3.locks == map[] && w3.processes == map[];
    assert w3.rows == w2.rows;
    ghost var crash := |steps|;
    ws, steps := ws + [w3], steps + [Crashing(1)];
    Extends(ws, steps, Start(2, []));
    var w4 := w3.(processes := map[2 := Idle({})]);
    assert Apply(w3, Start(2, [])) == w4;
    ws, steps := ws + [w4], steps + [Start(2, [])];
    Extends(ws, steps, Trying(2));
    ws, steps := ws + [Apply(w4, Trying(2))], steps + [Trying(2)];
    assert steps[crash] == Crashing(1);
  }

  /** After a commit of `send_started` whose answer was lost, another process holds the lock to recover the operation. */
  lemma RecoveringRun() returns (ws: seq<World>, steps: seq<Step>)
    ensures ws != [] && IsRun(ws, steps) && forall i :: 0 <= i < |steps| ==> !steps[i].Crashing?
    ensures ws[|ws| - 1] ==
      World(map[1 := Sent()], map[1 := Recoverer(2)], map[1 := Idle({}), 2 := Process({}, Quiet, Holding(1, []))], map[],
            [Created(1), Went(1, NotSent, SendStarted)])
  {
    hide IsRun;
    ws, steps := SendingRun(Unanswered);
    var w := ws[|ws| - 1];
    Extends(ws, steps, Start(2, [1]));
    var w1 := w.(processes := w.processes[2 := Process({}, Quiet, Listed([1]))]);
    assert Apply(w, Start(2, [1])) == w1;
    ws, steps := ws + [w1], steps + [Start(2, [1])];
    Extends(ws, steps, Trying(2));
    var w2 := w1.(locks := map[1 := Recoverer(2)], processes := w.processes[2 := Process({}, Quiet, Holding(1, []))]);
    assert [1][1..] == [] && Apply(w1, Trying(2)).locks == w2.locks && Apply(w1, Trying(2)).processes == w2.processes;
    assert Apply(w1, Trying(2)) == w2;
    ws, steps := ws + [w2], steps + [Trying(2)];
  }

  /** A commit of `send_started` whose answer is lost: another process recovers the operation while the first one lives. */
  lemma UnansweredIsRecovered() returns (ws: seq<World>, steps: seq<Step>)
    ensures ws != [] && IsRun(ws, steps) && forall i :: 0 <= i < |steps| ==> !steps[i].Crashing?
    ensures var w := ws[|ws| - 1]; 1 in w.processes && 1 in w.rows && w.rows[1].stage == Ambiguous && 1 !in w.starters
  {
    hide IsRun;
    ws, steps := RecoveringRun();
    var w := ws[|ws| - 1];
    Extends(ws, steps, Writing(2, 5, Applied));
    ws, steps := ws + [Apply(w, Writing(2, 5, Applied))], steps + [Writing(2, 5, Applied)];
  }
}

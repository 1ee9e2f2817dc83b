/**
Runs of the control actor that end where a caller would not expect them to: each is a run
the actor really makes for the answers given.
*/
module ControlRuns {
  import opened Basics
  import opened Control

  /** Everything works, and nobody else wants the device. */
  const FINE := Answers(true, true, true, true, true, false, true, false, false, false)

  /** No session opens, and the lock is neither given back nor lost. */
  const CLINGS := FINE.(opens := false, releases := false, freed := false)

  const REQUEST := OpenRequest({"input"}, Owned, 10, 20)

  /** A new actor with a ready handle. */
  method ReadyActor(id: HandleId, now: int) returns (actor: Actor, handle: Handle)
    requires id != ""
    ensures fresh(actor) && fresh(actor.device) && actor.Valid() && !actor.stopped && !actor.draining
    ensures actor.current == Some(handle) && handle.state == Ready && handle.id == id && forall i :: i !in actor.history
    ensures handle.absoluteExpiresAt == now + 20 && actor.session.Some? && actor.device.live == {actor.session.value}
    ensures actor.lock.Some? && actor.device.holder == Ours(actor.lock.value)
  {
    var device := new Device();
    actor := new Actor(device);
    var r := actor.Open(REQUEST, id, false, now, FINE, FINE);
    handle := r.value;
  }

  /** `reconnect` succeeds on a handle long past both of its deadlines. */
  method ReconnectAfterExpiry(id: HandleId, next: HandleId, late: nat) returns (handle: Handle, r: Result<Handle>)
    requires id != "" && next != "" && id != next
    ensures 20 + late >= handle.absoluteExpiresAt && r.Ok? && r.value.generation == handle.generation + 1
  {
    var actor;
    actor, handle := ReadyActor(id, 0);
    r := actor.Reconnect(Ref(id, handle.generation), next, false, 20 + late, FINE);
  }

  /** A first session fails and its lock clings: no handle and no lock is known, and nothing can be opened again. */
  method FirstOpenStrandsLock(id: HandleId, n: nat, later: OpenRequest, now: int, expiry: Answers, a: Answers)
    returns (actor: Actor, first: Result<Handle>, r: Result<Handle>)
    requires id != "" && later.capabilities != {} && 0 < later.idleTimeout <= later.lifetime
    ensures first.Err? && r.Err? && actor.device.holder.Ours?
  {
    var device := new Device();
    actor := new Actor(device);
    first := actor.Open(REQUEST, id, false, 0, FINE, CLINGS);
    assert actor.lock.None? && actor.current.None? && actor.Stranded();
    Commands(actor, n);
    r := actor.Open(later, id, false, now, expiry, a);
  }

  /** A reconnect fails the same way, and draining then reports no error while the lock is held. */
  method DrainLeavesLock(name: string, id: HandleId, next: HandleId, answers: string -> Answers)
    returns (registry: Registry, errors: nat)
    requires id != "" && next != "" && id != next
    ensures errors == 0 && name in registry.actors && registry.actors[name].device.holder.Ours?
  {
    registry := new Registry(10, 20);
    var actor := registry.FindOrCreate(name);
    var r := actor.Open(REQUEST, id, false, 0, FINE, FINE);
    r := actor.Reconnect(Ref(id, r.value.generation), next, false, 1, CLINGS);
    assert r == Err(OpenFailed) && actor.Stranded();
    assert registry.actors == map[name := actor] && registry.Objects() == {actor, actor.device};
    errors := registry.PerformDrain(answers);
  }

  /** A reconnect cannot close the old session; closing the handle then reports success and leaves the session open. */
  method CloseLeavesSession(id: HandleId, next: HandleId, a: Answers) returns (actor: Actor, r: Result<Handle>)
    requires id != "" && next != "" && id != next
    ensures r.Ok? && r.value.state == Fenced && actor.session.Some? && actor.session.value in actor.device.live
  {
    var handle;
    actor, handle := ReadyActor(id, 0);
    var ref := Ref(id, handle.generation);
    r := actor.Reconnect(ref, next, false, 1, FINE.(closes := false, gone := false));
    r := actor.CloseHandle(ref, false, a);
  }
}

/**
The control actor of one device (`internal/control/actor.go`). Commands are serialised,
so each is one method. The device's session factory, the operating system's lock and
other processes are the environment: what they answer during a command is a parameter of
it, as is a cancelled context. Instants and durations are whole nanoseconds.
*/
module Control {
  import opened Basics

  datatype HandleState = Ready | Draining | Expired | Closed | Fenced

  datatype SessionState = SessionAbsent | SessionOpening | SessionReady | SessionDraining | SessionClosing | SessionClosed | SessionUncertain

  datatype Ownership = Owned | Attached

  type HandleId = string

  datatype Handle = Handle(
    id: HandleId, generation: nat, ownership: Ownership, capabilities: set<string>, state: HandleState,
    createdAt: int, lastUsedAt: int, idleExpiresAt: int, absoluteExpiresAt: int)

  datatype Ref = Ref(id: HandleId, generation: nat)

  datatype OpenRequest = OpenRequest(capabilities: set<string>, ownership: Ownership, idleTimeout: int, lifetime: int)

  datatype ControlError =
    | InvalidConfig | NotFound | ExpiredHandle | GenerationMismatch | Busy | RegistryClosed | CapabilityMissing
    | Cancelled | LockRefused | OpenFailed | CloseFailed | ReleaseFailed | CallbackFailed

  datatype Result<+T> = Ok(value: T) | Err(error: ControlError)

  // ------------------------------------------------------------- environment

  datatype Holder = Free | Ours(token: nat) | Foreign

  datatype Grant = Granted(token: nat) | Refused | NilLock

  datatype Opening = Opened(session: nat) | Failed | NilSession

  /**
  What the environment answers during one command. A failing close or release leaves the session
  alive or not (`gone`) and the lock held or not (`freed`).
  */
  datatype Answers = Answers(
    closes: bool, gone: bool, releases: bool, freed: bool, lends: bool, nilLock: bool, opens: bool, nilSession: bool,
    othersHold: bool, othersOpen: bool)

  /** The device as the operating system sees it: who holds its lock, and which sessions live. */
  class Device {
    var holder: Holder
    var tokens: nat
    var sessions: nat
    /** Sessions this process opened that may still be alive, and whether another process has one. */
    var live: set<nat>
    var foreign: bool

    ghost predicate Valid()
      reads this
    {
      && (holder.Ours? ==> holder.token < tokens)
      && (forall s :: s in live ==> s < sessions)
      && (foreign ==> holder == Foreign)
    }

    constructor ()
      ensures Valid() && holder == Free && live == {} && !foreign
    {
      holder, tokens, sessions, live, foreign := Free, 0, 0, {}, false;
    }

    /** Other processes take and give back the lock by the same rules, and open sessions only under it. */
    method Others(held: bool, open: bool)
      requires Valid()
      modifies this
      ensures Valid() && live == old(live) && tokens == old(tokens) && sessions == old(sessions)
      ensures holder == if old(holder).Ours? then old(holder) else if held then Foreign else Free
    {
      if holder.Ours? { return; }
      holder := if held then Foreign else Free;
      foreign := held && open;
    }

    /** The lock is free when it is asked for, and is given. */
    ghost predicate Lends(a: Answers)
      reads this
    {
      !holder.Ours? && !a.othersHold && a.lends && !a.nilLock
    }

    /** `Locker.Acquire`: never grants a lock that was not released. */
    method Acquire(a: Answers) returns (g: Grant)
      requires Valid()
      modifies this
      ensures Valid() && live == old(live) && sessions == old(sessions)
      ensures g.Granted? <==> old(Lends(a))
      ensures g.Granted? ==> holder == Ours(g.token) && g.token == old(tokens)
      ensures !g.Granted? ==> (old(holder).Ours? ==> holder == old(holder)) && (!old(holder).Ours? ==> !holder.Ours?)
    {
      Others(a.othersHold, a.othersOpen);
      if a.nilLock { return NilLock; }
      if !a.lends || !holder.Free? { return Refused; }
      g := Granted(tokens);
      holder := Ours(tokens);
      tokens := tokens + 1;
    }

    /** `Lock.Release`, only ever after the session was closed. */
    method Release(token: nat, a: Answers) returns (ok: bool)
      requires Valid() && live == {}
      modifies this
      ensures Valid() && live == {} && sessions == old(sessions) && tokens == old(tokens)
      ensures ok == a.releases
      ensures holder == if old(holder) == Ours(token) && (a.releases || a.freed) then Free else old(holder)
      ensures old(holder) != Ours(token) ==> foreign == old(foreign)
    {
      ok := a.releases;
      if (ok || a.freed) && holder == Ours(token) {
        holder := Free;
        foreign := false;
      }
    }

    /** `SessionFactory.Open`, under the lock and with no session of ours alive. */
    method OpenSession(a: Answers) returns (o: Opening)
      requires Valid() && holder.Ours? && live == {}
      modifies this
      ensures Valid() && holder == old(holder) && tokens == old(tokens) && foreign == old(foreign)
      ensures o.Opened? <==> a.opens && !a.nilSession
      ensures if o.Opened? then o.session == old(sessions) && live == {o.session} else live == {}
    {
      if !a.opens { return Failed; }
      if a.nilSession { return NilSession; }
      o := Opened(sessions);
      live := {sessions};
      sessions := sessions + 1;
    }

    /** `Session.Close` or `Disconnect`. */
    method CloseSession(session: nat, a: Answers) returns (ok: bool)
      requires Valid()
      modifies this
      ensures Valid() && holder == old(holder) && tokens == old(tokens) && sessions == old(sessions) && foreign == old(foreign)
      ensures ok == a.closes
      ensures live == if a.closes || a.gone then old(live) - {session} else old(live)
    {
      ok := a.closes;
      if ok || a.gone { live := live - {session}; }
    }
  }

  // ------------------------------------------------------------------- actor

  function Min(a: int, b: int): int { if a < b then a else b }

  /** `hasCapabilities`. */
  predicate HasCapabilities(available: set<string>, requested: set<string>) { requested <= available }

  /** `validate` on a handle and a history. */
  function Validated(current: Option<Handle>, history: map<HandleId, Handle>, ref: Ref): Result<Handle> {
    if current.None? || current.value.id != ref.id then
      if ref.id !in history then Err(NotFound)
      else if history[ref.id].generation != ref.generation then Err(GenerationMismatch)
      else
        match history[ref.id].state
        case Expired => Err(ExpiredHandle)
        case Fenced => Err(GenerationMismatch)
        case _ => Err(NotFound)
    else if current.value.generation != ref.generation then Err(GenerationMismatch)
    else if current.value.state == Expired then Err(ExpiredHandle)
    else if current.value.state != Ready then Err(Busy)
    else Ok(current.value)
  }

  /** The reference is to the current handle, which is ready. */
  predicate Matches(current: Option<Handle>, ref: Ref) {
    current.Some? && current.value.state == Ready && current.value.id == ref.id && current.value.generation == ref.generation
  }

  /** Only a matching reference validates, whatever the history holds. */
  lemma ValidatedMatches(current: Option<Handle>, history: map<HandleId, Handle>, ref: Ref)
    ensures Validated(current, history, ref).Ok? <==> Matches(current, ref)
  {
  }

  /** `touch`. */
  function Touched(h: Handle, idleTimeout: int, now: int): Handle {
    h.(lastUsedAt := now, idleExpiresAt := Min(now + idleTimeout, h.absoluteExpiresAt))
  }

  function FreshHandle(id: HandleId, generation: nat, ownership: Ownership, capabilities: set<string>, now: int, idle: int, lifetime: int): Handle {
    Handle(id, generation, ownership, capabilities, Ready, now, now, now + idle, now + lifetime)
  }

  /** Ready, and neither deadline has passed. */
  predicate InTime(current: Option<Handle>, now: int) {
    current.Some? && current.value.state == Ready && now < current.value.idleExpiresAt && now < current.value.absoluteExpiresAt
  }

  class Actor {
    const device: Device
    var sessionState: SessionState
    var session: Option<nat>
    var lock: Option<nat>
    var generation: nat
    var current: Option<Handle>
    var history: map<HandleId, Handle>
    var idleTimeout: int
    var draining: bool
    var stopped: bool

    /** Handles never run ahead of the actor, and a ready handle is of its generation and has the session. */
    ghost predicate GenerationsKnown()
      reads this
    {
      && (current.Some? ==> current.value.generation <= generation)
      && (forall id :: id in history ==> history[id].generation <= generation)
      && (current.Some? && current.value.state == Ready ==> current.value.generation == generation && session.Some?)
    }

    /** A session lives only under the lock this actor holds, and only while there is a current handle. */
    ghost predicate SessionUnderLock()
      reads this, device
    {
      && device.live <= (if session.Some? then {session.value} else {})
      && (session.Some? ==> current.Some? && lock.Some? && device.holder == Ours(lock.value) && session.value < device.sessions)
      && (current.Some? ==> lock.Some?)
    }

    /** The idle deadline never lies beyond the absolute one, nor the idle timeout beyond the lifetime. */
    ghost predicate Timely()
      reads this
    {
      current.Some? ==>
        && current.value.idleExpiresAt <= current.value.absoluteExpiresAt
        && idleTimeout <= current.value.absoluteExpiresAt - current.value.createdAt
    }

    ghost predicate Valid()
      reads this, device
    {
      device.Valid() && GenerationsKnown() && SessionUnderLock() && Timely()
    }

    constructor (device: Device)
      requires device.Valid() && device.live == {} && !device.holder.Ours?
      ensures Valid() && this.device == device && current.None? && session.None? && lock.None? && generation == 0
      ensures history == map[] && !draining && !stopped
    {
      this.device := device;
      sessionState, session, lock, generation, current, history := SessionAbsent, None, None, 0, None, map[];
      idleTimeout, draining, stopped := 0, false, false;
    }

    /** This process holds the device's lock, and no handle leads to it any more. */
    ghost predicate Stranded()
      reads this, device
    {
      device.holder.Ours? && (current.None? || lock != Some(device.holder.token))
    }

    /** Nothing was opened yet, and nobody holds the device. */
    ghost predicate New()
      reads this, device
    {
      current.None? && lock.None? && history == map[] && !draining && device.holder == Free
    }

    /** A reference of the past that does not validate. */
    ghost predicate Stale(ref: Ref)
      reads this
    {
      ref.generation <= generation && !Matches(current, ref)
    }

    /** What no command undoes: generations grow, a stale reference stays stale, a stranded lock stays stranded. */
    twostate predicate Later()
      reads this, device
    {
      && Valid() && old(generation) <= generation
      && (forall ref: Ref :: old(Stale(ref)) ==> Stale(ref))
      && (old(Stranded()) ==> Stranded() && device.holder == old(device.holder))
    }

    /** `validate`. */
    method Validate(ref: Ref) returns (r: Result<Handle>)
      requires Valid()
      ensures r == Validated(current, history, ref)
      ensures r.Ok? <==> Matches(current, ref)
      ensures r.Ok? ==> Some(r.value) == current && r.value.state == Ready && r.value.generation == generation && session.Some?
    {
      ValidatedMatches(current, history, ref);
      return Validated(current, history, ref);
    }

    method ReleaseLock(a: Answers) returns (ok: bool)
      requires device.Valid() && device.live == {}
      modifies this`lock, device
      ensures device.Valid() && device.live == {} && device.sessions == old(device.sessions)
      ensures ok == (old(lock).None? || a.releases)
      ensures lock == if ok then None else old(lock)
      ensures device.holder ==
        if old(lock).Some? && old(device.holder) == Ours(old(lock).value) && (a.releases || a.freed) then Free else old(device.holder)
    {
      if lock.None? { return true; }
      ok := device.Release(lock.value, a);
      if ok { lock := None; }
    }

    /** `closeSession`: first the session, then the lock, then the handle. */
    method CloseSession(terminal: HandleState, a: Answers) returns (r: Result<Handle>)
      requires Valid() && current.Some? && current.value.state != Ready && terminal != Ready
      modifies this`sessionState, this`session, this`lock, this`current, this`history, device
      ensures Valid() && Stranded() == old(Stranded()) && (old(Stranded()) ==> device.holder == old(device.holder))
      ensures r.Ok? <==> (old(session).None? || a.closes) && a.releases
      ensures r.Ok? ==>
        && current.None? && session.None? && lock.None? && device.live == {}
        && r.value == old(current).value.(state := terminal)
        && history == old(history)[r.value.id := r.value] && sessionState == SessionClosed
      ensures r.Err? ==> current == old(current) && history == old(history) && lock == old(lock) && sessionState == SessionUncertain
    {
      var handle := current.value;
      sessionState := SessionClosing;
      if session.Some? {
        var closed := device.CloseSession(session.value, a);
        if !closed {
          sessionState := SessionUncertain;
          return Err(CloseFailed);
        }
        session := None;
      }
      var released := ReleaseLock(a);
      if !released {
        sessionState := SessionUncertain;
        return Err(ReleaseFailed);
      }
      handle := handle.(state := terminal);
      history := history[handle.id := handle];
      current := None;
      sessionState := SessionClosed;
      return Ok(handle);
    }

    /** The part of `expireIfNeeded` for a handle past a deadline; a failure leaves it draining. */
    method CloseExpired(a: Answers)
      requires Valid() && current.Some? && current.value.state == Ready
      modifies this`sessionState, this`session, this`lock, this`current, this`history, device
      ensures Later() && Stranded() == old(Stranded())
      ensures current.Some? ==> current == Some(old(current).value.(state := Draining))
      ensures forall id :: id in history && id !in old(history) ==> id == old(current).value.id
    {
      current := Some(current.value.(state := Draining));
      sessionState := SessionDraining;
      var _ := CloseSession(Expired, a);
    }

    /** `expireIfNeeded`: after it, a ready handle is in time. */
    method ExpireIfNeeded(now: int, a: Answers)
      requires Valid()
      modifies this`sessionState, this`session, this`lock, this`current, this`history, device
      ensures Later() && generation == old(generation) && Stranded() == old(Stranded())
      ensures current.Some? && current.value.state == Ready ==> InTime(current, now) && current == old(current)
      ensures InTime(old(current), now) ==>
        && current == old(current) && session == old(session) && lock == old(lock) && sessionState == old(sessionState)
        && device.holder == old(device.holder)
      ensures old(current).None? ==> current.None? && session == old(session) && lock == old(lock) && unchanged(device)
      ensures forall id :: id in history && id !in old(history) ==> old(current).Some? && id == old(current).value.id
    {
      history := map id | id in history && now < history[id].absoluteExpiresAt :: history[id];
      if current.None? || current.value.state != Ready { return; }
      if now < current.value.idleExpiresAt && now < current.value.absoluteExpiresAt { return; }
      CloseExpired(a);
    }

    predicate Unused(candidate: HandleId)
      reads this
    {
      candidate != "" && candidate !in history && !(current.Some? && current.value.id == candidate)
    }

    /** `newHandleID`: never empty, never one that is still known. */
    method NewHandleId(candidate: HandleId) returns (ok: bool)
      ensures ok <==> Unused(candidate)
    {
      ok := candidate != "" && candidate !in history && !(current.Some? && current.value.id == candidate);
    }

    /** `open`, with the argument checks of `Registry.Open` as its precondition; `expiry` answers an expiry before it. */
    method Open(request: OpenRequest, candidate: HandleId, cancelled: bool, now: int, expiry: Answers, a: Answers) returns (r: Result<Handle>)
      requires Valid() && !stopped && request.capabilities != {}
      requires 0 < request.idleTimeout <= request.lifetime
      modifies this`sessionState, this`session, this`lock, this`current, this`history, this`generation, this`idleTimeout, device
      ensures Later()
      ensures cancelled || draining ==> r == Err(if draining then Busy else Cancelled) && current == old(current)
      ensures r.Ok? ==> current == Some(r.value) && r.value.state == Ready && session.Some? && request.capabilities <= r.value.capabilities
      // A handle in time is shared: its deadlines only come closer.
      ensures InTime(old(current), now) && r.Ok? ==>
        && generation == old(generation) && session == old(session)
        && idleTimeout == Min(old(idleTimeout), request.idleTimeout)
        && r.value == Touched(old(current).value.(absoluteExpiresAt :=
             Min(old(current).value.absoluteExpiresAt, old(current).value.createdAt + request.lifetime)), idleTimeout, now)
      // Otherwise a new session was opened for a new generation.
      ensures !InTime(old(current), now) && r.Ok? ==>
        && generation == old(generation) + 1 && idleTimeout == request.idleTimeout
        && r.value == FreshHandle(candidate, generation, request.ownership, request.capabilities, now, request.idleTimeout, request.lifetime)
      ensures r.Err? ==> generation == old(generation) && (InTime(old(current), now) ==> current == old(current))
      // Without a handle: a session if the lock and the device give one; else the lock goes back, or nobody knows it any more.
      ensures old(current).None? && old(Unused(candidate)) && !cancelled && !draining ==>
        && (r.Ok? <==> old(device.Lends(a)) && a.opens && !a.nilSession)
        && (r.Ok? ==> lock == Some(old(device.tokens)) && device.holder == Ours(old(device.tokens)) && device.live == {session.value})
        && (r.Err? ==> lock == old(lock) && (old(device.Lends(a)) ==> device.holder == if a.releases || a.freed then Free else Ours(old(device.tokens))))
      ensures forall id :: id in history && id !in old(history) ==> old(current).Some? && id == old(current).value.id
      // A stranded lock keeps every session out.
      ensures old(Stranded()) ==> r.Err?
    {
      if draining { return Err(Busy); }
      if cancelled { return Err(Cancelled); }
      ExpireIfNeeded(now, expiry);
      if current.Some? && current.value.state == Ready {
        if request.ownership != current.value.ownership || !HasCapabilities(current.value.capabilities, request.capabilities) {
          return Err(Busy);
        }
        idleTimeout := Min(idleTimeout, request.idleTimeout);
        var requested := current.value.createdAt + request.lifetime;
        if requested < current.value.absoluteExpiresAt {
          current := Some(current.value.(absoluteExpiresAt := requested));
        }
        current := Some(Touched(current.value, idleTimeout, now));
        return Ok(current.value);
      }
      r := OpenFresh(request, candidate, now, a);
    }

    /**
    The part of `open` that takes the lock and opens a session for the next generation. If the session
    fails and the lock is then not given back, its holder is forgotten.
    */
    method OpenFresh(request: OpenRequest, candidate: HandleId, now: int, a: Answers) returns (r: Result<Handle>)
      requires Valid() && !(current.Some? && current.value.state == Ready) && 0 < request.idleTimeout <= request.lifetime
      modifies this`sessionState, this`session, this`lock, this`current, this`generation, this`idleTimeout, device
      ensures Later()
      ensures r.Ok? <==> old(Unused(candidate) && device.Lends(a)) && a.opens && !a.nilSession
      ensures r.Ok? ==>
        && current == Some(r.value) && session.Some? && generation == old(generation) + 1 && idleTimeout == request.idleTimeout
        && r.value == FreshHandle(candidate, generation, request.ownership, request.capabilities, now, request.idleTimeout, request.lifetime)
      ensures r.Ok? ==> lock == Some(old(device.tokens)) && device.holder == Ours(old(device.tokens)) && device.live == {session.value}
      ensures r.Err? ==> generation == old(generation) && current == old(current) && session == old(session) && lock == old(lock)
      ensures r.Err? && old(Unused(candidate) && device.Lends(a)) ==>
        device.holder == (if a.releases || a.freed then Free else Ours(old(device.tokens)))
      ensures r.Err? && !old(Unused(candidate) && device.Lends(a)) && !old(device.holder).Ours? ==> !device.holder.Ours?
    {
      var named := NewHandleId(candidate);
      if !named { return Err(InvalidConfig); }
      sessionState := SessionOpening;
      var grant := device.Acquire(a);
      if !grant.Granted? {
        sessionState := SessionAbsent;
        return Err(if grant.NilLock? then InvalidConfig else LockRefused);
      }
      var opening := device.OpenSession(a);
      if !opening.Opened? {
        sessionState := SessionAbsent;
        var _ := device.Release(grant.token, a);
        return Err(if opening.NilSession? then InvalidConfig else OpenFailed);
      }
      generation := generation + 1;
      lock := Some(grant.token);
      session := Some(opening.session);
      sessionState := SessionReady;
      current := Some(FreshHandle(candidate, generation, request.ownership, request.capabilities, now, request.idleTimeout, request.lifetime));
      idleTimeout := request.idleTimeout;
      return Ok(current.value);
    }

    /** `snapshot`, which `Registry.Get` calls with `touch`. */
    method Snapshot(ref: Ref, touch: bool, now: int, a: Answers) returns (r: Result<Handle>, shown: SessionState)
      requires Valid() && !stopped
      modifies this`sessionState, this`session, this`lock, this`current, this`history, device
      ensures Later() && generation == old(generation) && shown == sessionState
      ensures r.Ok? ==>
        && InTime(old(current), now) && current == Some(r.value) && r.value.id == ref.id && r.value.generation == ref.generation
        && r.value == if touch then Touched(old(current).value, idleTimeout, now) else old(current).value
    {
      ExpireIfNeeded(now, a);
      r := Validate(ref);
      if r.Ok? && touch {
        current := Some(Touched(current.value, idleTimeout, now));
        r := Ok(current.value);
      }
      shown := sessionState;
    }

    /** `execute`. The callback runs between the two clock readings; `ran` says that it did. */
    method Execute(ref: Ref, capability: string, cancelled: bool, now: int, after: int, callbackOk: bool, a: Answers)
      returns (err: Option<ControlError>, ran: bool)
      requires Valid() && !stopped
      modifies this`sessionState, this`session, this`lock, this`current, this`history, device
      ensures Later() && generation == old(generation)
      // A callback starts only for the ready handle referred to, before both of its deadlines, with a live lock.
      ensures ran ==>
        && !draining && InTime(old(current), now) && old(current).value.id == ref.id && old(current).value.generation == ref.generation
        && capability in old(current).value.capabilities
        && session.Some? && session == old(session) && lock.Some? && device.holder == Ours(lock.value) && !device.foreign
        && current == Some(Touched(old(current).value, idleTimeout, after))
      ensures ran ==> err == if callbackOk then None else Some(CallbackFailed)
      ensures !ran ==> err.Some?
      ensures
        && !draining && !cancelled && InTime(old(current), now) && old(sessionState) == SessionReady
        && old(current).value.id == ref.id && old(current).value.generation == ref.generation
        && capability in old(current).value.capabilities
        ==> ran
    {
      ran := false;
      if draining { return Some(Busy), ran; }
      if cancelled { return Some(Cancelled), ran; }
      ExpireIfNeeded(now, a);
      var valid := Validate(ref);
      if valid.Err? { return Some(valid.error), ran; }
      if !HasCapabilities(current.value.capabilities, {capability}) { return Some(CapabilityMissing), ran; }
      if sessionState != SessionReady || session.None? { return Some(Busy), ran; }
      ran := true;
      current := Some(Touched(current.value, idleTimeout, after));
      return if callbackOk then None else Some(CallbackFailed), ran;
    }

    /** Everything `reconnect` asks before it closes anything; the deadlines are not among it. */
    predicate CanReconnect(ref: Ref, candidate: HandleId, cancelled: bool)
      reads this
    {
      !draining && !cancelled && Matches(current, ref) && Unused(candidate)
    }

    /** `reconnect`: fences the handle, replaces the session, and issues a handle of a greater generation. */
    method Reconnect(ref: Ref, candidate: HandleId, cancelled: bool, now: int, a: Answers) returns (r: Result<Handle>)
      requires Valid() && !stopped
      modifies this`sessionState, this`session, this`lock, this`current, this`history, this`generation, device
      ensures Later()
      ensures r.Ok? <==> old(CanReconnect(ref, candidate, cancelled)) && a.closes && a.opens && !a.nilSession
      ensures r.Ok? ==>
        && old(current).Some? && old(current).value.id == ref.id && old(current).value.generation == ref.generation
        && generation == old(generation) + 1 && current == Some(r.value) && session.Some? && session != old(session) && lock == old(lock)
        && r.value == FreshHandle(candidate, generation, old(current).value.ownership, old(current).value.capabilities, now,
             idleTimeout, old(current).value.absoluteExpiresAt - old(current).value.createdAt)
        && history == old(history)[ref.id := old(current).value.(state := Fenced)]
      ensures r == Err(CloseFailed) <==> old(CanReconnect(ref, candidate, cancelled)) && !a.closes
      ensures r == Err(CloseFailed) ==>
        && old(current).Some? && current == Some(old(current).value.(state := Fenced)) && session == old(session) && lock == old(lock)
        && history == old(history)[ref.id := current.value]
        && device.live == if a.gone then old(device.live) - {session.value} else old(device.live)
      ensures r == Err(OpenFailed) <==> old(CanReconnect(ref, candidate, cancelled)) && a.closes && !(a.opens && !a.nilSession)
      // The lock is kept exactly if its release failed, and held exactly if nothing freed it.
      ensures r == Err(OpenFailed) ==>
        && current.None? && session.None? && device.live == {} && generation == old(generation)
        && lock == (if a.releases then None else old(lock)) && old(lock).Some?
        && device.holder == (if a.releases || a.freed then Free else Ours(old(lock).value))
      ensures r.Err? && r.error !in {CloseFailed, OpenFailed} ==> current == old(current) && session == old(session) && lock == old(lock) && history == old(history)
    {
      if draining { return Err(Busy); }
      if cancelled { return Err(Cancelled); }
      var valid := Validate(ref);
      if valid.Err? { return Err(valid.error); }
      var named := NewHandleId(candidate);
      if !named { return Err(InvalidConfig); }
      var fenced := valid.value.(state := Fenced);
      history := history[fenced.id := fenced];
      current := Some(fenced);
      r := ReplaceSession(candidate, now, a);
    }

    /** The part of `reconnect` that closes the session and opens the next one under the same lock. */
    method ReplaceSession(candidate: HandleId, now: int, a: Answers) returns (r: Result<Handle>)
      requires Valid() && current.Some? && current.value.state == Fenced && session.Some?
      modifies this`sessionState, this`session, this`lock, this`current, this`generation, device
      ensures Later()
      ensures r ==
        if !a.closes then Err(CloseFailed)
        else if !(a.opens && !a.nilSession) then Err(OpenFailed)
        else Ok(FreshHandle(candidate, generation, old(current).value.ownership, old(current).value.capabilities, now,
                  idleTimeout, old(current).value.absoluteExpiresAt - old(current).value.createdAt))
      ensures r.Ok? ==> generation == old(generation) + 1 && current == Some(r.value) && session.Some? && session != old(session) && lock == old(lock)
      ensures r == Err(CloseFailed) ==>
        && current == old(current) && session == old(session) && lock == old(lock)
        && device.live == if a.gone then old(device.live) - {session.value} else old(device.live)
      ensures r == Err(OpenFailed) ==>
        && current.None? && session.None? && device.live == {} && generation == old(generation)
        && lock == (if a.releases then None else old(lock))
        && device.holder == (if a.releases || a.freed then Free else Ours(old(lock).value))
    {
      var fenced := current.value;
      var lifetime := fenced.absoluteExpiresAt - fenced.createdAt;
      current := None;
      sessionState := SessionClosing;
      var closed := device.CloseSession(session.value, a);
      if !closed {
        sessionState := SessionUncertain;
        current := Some(fenced);
        return Err(CloseFailed);
      }
      session := None;
      sessionState := SessionOpening;
      var opening := device.OpenSession(a);
      if !opening.Opened? {
        sessionState := SessionClosed;
        var _ := ReleaseLock(a);
        return Err(OpenFailed);
      }
      generation := generation + 1;
      session := Some(opening.session);
      sessionState := SessionReady;
      current := Some(FreshHandle(candidate, generation, fenced.ownership, fenced.capabilities, now, idleTimeout, lifetime));
      return Ok(current.value);
    }

    /** `close`. A handle that is already in the history is only looked up, even while its session still lives. */
    method CloseHandle(ref: Ref, cancelled: bool, a: Answers) returns (r: Result<Handle>)
      requires Valid() && !stopped
      modifies this`sessionState, this`session, this`lock, this`current, this`history, device
      ensures Later() && generation == old(generation)
      ensures !cancelled && ref.id in old(history) ==>
        && r == (if old(history)[ref.id].generation == ref.generation then Ok(old(history)[ref.id]) else Err(GenerationMismatch))
        && current == old(current) && session == old(session) && lock == old(lock)
        && device.live == old(device.live) && device.holder == old(device.holder)
      ensures !cancelled && ref.id !in old(history) && r.Ok? ==>
        && current.None? && session.None? && lock.None? && device.live == {}
        && old(current).Some? && r.value == old(current).value.(state := Closed) && r.value.id == ref.id
    {
      if cancelled { return Err(Cancelled); }
      if ref.id in history {
        if history[ref.id].generation != ref.generation { return Err(GenerationMismatch); }
        return Ok(history[ref.id]);
      }
      r := Validate(ref);
      if r.Err? { return; }
      current := Some(current.value.(state := Draining));
      sessionState := SessionDraining;
      r := CloseSession(Closed, a);
    }

    /** `beginDrain`. */
    method BeginDrain()
      requires Valid()
      modifies this`draining
      ensures Valid() && draining
    {
      draining := true;
    }

    /** Nothing is open any more. */
    ghost predicate Drained()
      reads this, device
    {
      current.None? && session.None? && device.live == {}
    }

    /** There is nothing to close, or closing it works. */
    ghost predicate Closes(a: Answers)
      reads this
    {
      current.None? || ((session.None? || a.closes) && a.releases)
    }

    /**
    `shutdown`, the last command. No error means that the session is closed; the lock is then
    still held exactly if it was stranded before.
    */
    method Shutdown(a: Answers) returns (err: Option<ControlError>)
      requires Valid() && !stopped
      modifies this`sessionState, this`session, this`lock, this`current, this`history, this`stopped, device
      ensures Valid() && Later() && stopped && generation == old(generation)
      ensures err.None? <==> old(Closes(a))
      ensures err.None? ==> Drained() && (device.holder.Ours? <==> old(Stranded()))
      ensures old(current).None? ==> lock == old(lock) && device.holder == old(device.holder)
      ensures err.None? && old(current).Some? ==> lock.None?
    {
      stopped := true;
      if current.None? { return None; }
      current := Some(current.value.(state := Draining));
      sessionState := SessionDraining;
      var closed := CloseSession(Closed, a);
      err := if closed.Err? then Some(closed.error) else None;
    }
  }

  /** What a shutdown will meet: the answers, whether it will work with them, and whether the lock is stranded. */
  datatype Prospect = Prospect(answers: Answers, closes: bool, stranded: bool)

  ghost function ProspectOf(actor: Actor, a: Answers): Prospect
    reads actor, actor.device
  {
    Prospect(a, actor.Closes(a), actor.Stranded())
  }

  /** The actor before its shutdown (`waiting`) or after it. */
  ghost predicate Midway(actor: Actor, p: Prospect, waiting: bool)
    reads actor, actor.device
  {
    && actor.Valid() && actor.stopped == !waiting
    && (waiting ==> p == ProspectOf(actor, p.answers))
    && (!waiting && p.closes ==> actor.Drained() && actor.device.holder.Ours? == p.stranded)
  }

  method ShutdownOne(actor: Actor, a: Answers, ghost p: Prospect) returns (failed: bool)
    requires Midway(actor, p, true) && a == p.answers
    modifies actor, actor.device
    ensures Midway(actor, p, false) && failed == !p.closes
  {
    var err := actor.Shutdown(a);
    failed := err.Some?;
  }

  /** Any commands in any order, with any arguments and any outcomes. */
  method Commands(actor: Actor, n: nat)
    requires actor.Valid() && !actor.stopped
    modifies actor, actor.device
    ensures actor.Later() && !actor.stopped
  {
    var i := 0;
    while i < n
      invariant actor.Later() && !actor.stopped
    {
      var kind: nat := *;
      var ref: Ref, id: HandleId, cancelled: bool, flag: bool, now: int, after: int := *, *, *, *, *, *;
      var request: OpenRequest, capability: string, expiry: Answers, a: Answers := *, *, *, *;
      if kind == 0 {
        if request.capabilities != {} && 0 < request.idleTimeout <= request.lifetime {
          var _ := actor.Open(request, id, cancelled, now, expiry, a);
        }
      } else if kind == 1 {
        var _, _ := actor.Snapshot(ref, flag, now, a);
      } else if kind == 2 {
        var _, _ := actor.Execute(ref, capability, cancelled, now, after, flag, a);
      } else if kind == 3 {
        var _ := actor.Reconnect(ref, id, cancelled, now, a);
      } else if kind == 4 {
        var _ := actor.CloseHandle(ref, cancelled, a);
      } else if kind == 5 {
        actor.ExpireIfNeeded(now, a);
      } else if kind == 6 {
        actor.BeginDrain();
      } else {
        actor.device.Others(cancelled, flag);
      }
      i := i + 1;
    }
  }

  /** A reference that stopped validating never validates again, whatever happened since. */
  method GoneStaysGone(actor: Actor, ref: Ref, n: nat) returns (r: Result<Handle>)
    requires actor.Valid() && !actor.stopped && actor.Stale(ref)
    modifies actor, actor.device
    ensures actor.Valid() && r.Err?
  {
    Commands(actor, n);
    r := actor.Validate(ref);
  }

  // ---------------------------------------------------------------- registry

  const MINUTE := 60_000_000_000

  datatype StatedOwnership = Unstated | StatedOwned | StatedAttached | OtherOwnership

  /** An open request before its checks; a zero duration means the default. */
  datatype RawRequest = RawRequest(device: string, capabilities: seq<string>, ownership: StatedOwnership, idleTimeout: int, lifetime: int)

  /** The checks and defaults of `Registry.Open`, in their order. */
  function Checked(raw: RawRequest, running: bool, idleTimeout: int, lifetime: int): (r: Result<OpenRequest>)
    ensures r.Ok? ==> r.value.capabilities != {} && 0 < r.value.idleTimeout <= r.value.lifetime
    ensures r.Ok? ==> raw.device != "" && "" !in r.value.capabilities && (forall c :: c in raw.capabilities <==> c in r.value.capabilities)
  {
    if raw.device == "" || raw.capabilities == [] then Err(InvalidConfig)
    else if !running then Err(RegistryClosed)
    else if "" in raw.capabilities || raw.ownership.OtherOwnership? then Err(InvalidConfig)
    else
      var idle := if raw.idleTimeout == 0 then idleTimeout else raw.idleTimeout;
      var life := if raw.lifetime == 0 then lifetime else raw.lifetime;
      if idle <= 0 || life <= 0 || idle > life then Err(InvalidConfig)
      else
        var capabilities := set c | c in raw.capabilities;
        assert raw.capabilities[0] in capabilities;
        Ok(OpenRequest(capabilities, if raw.ownership.StatedAttached? then Attached else Owned, idle, life))
  }

  /** `NewRegistry`: zero durations get their defaults; others must be positive and ordered. */
  method NewRegistry(idleTimeout: int, lifetime: int) returns (registry: Registry?)
    ensures registry != null <==>
      var idle, life := if idleTimeout == 0 then 5 * MINUTE else idleTimeout, if lifetime == 0 then 30 * MINUTE else lifetime;
      0 < idle <= life
    ensures registry != null ==> fresh(registry) && registry.Valid() && registry.running && registry.actors == map[]
  {
    var idle, life := if idleTimeout == 0 then 5 * MINUTE else idleTimeout, if lifetime == 0 then 30 * MINUTE else lifetime;
    if idle <= 0 || life <= 0 || idle > life { return null; }
    registry := new Registry(idle, life);
  }

  class Registry {
    const idleTimeout: int
    const lifetime: int
    var actors: map<string, Actor>
    var running: bool

    constructor (idleTimeout: int, lifetime: int)
      ensures Valid() && actors == map[] && running && this.idleTimeout == idleTimeout && this.lifetime == lifetime
    {
      this.idleTimeout, this.lifetime, actors, running := idleTimeout, lifetime, map[], true;
    }

    ghost function Objects(): set<object>
      reads this
    {
      (set k | k in actors :: actors[k]) + (set k | k in actors :: actors[k].device)
    }

    /** Every device has its own actor. */
    ghost predicate Apart()
      reads this
    {
      forall j, k :: j in actors && k in actors && j != k ==> actors[j] != actors[k] && actors[j].device != actors[k].device
    }

    ghost predicate Valid()
      reads this, Objects()
    {
      Apart() && forall k :: k in actors ==> actors[k].Valid() && !actors[k].stopped
    }

    /** The actor of one device, and its environment. */
    ghost function Of(device: string): set<object>
      reads this
    {
      if device in actors then {actors[device], actors[device].device} else {}
    }

    /** `actor`: finds the device's actor, or creates it. */
    method FindOrCreate(device: string) returns (actor: Actor)
      requires Valid()
      modifies this`actors
      ensures Valid() && device in actors && actors[device] == actor
      ensures actors == old(actors)[device := actor]
      ensures if device in old(actors) then actor == old(actors)[device] else fresh(actor) && fresh(actor.device) && actor.New()
    {
      if device in actors { return actors[device]; }
      var environment := new Device();
      actor := new Actor(environment);
      actors := actors[device := actor];
    }

    /** `Registry.Open`: a refused request touches nothing; an accepted one touches its own device only. */
    method Open(raw: RawRequest, candidate: HandleId, cancelled: bool, now: int, expiry: Answers, a: Answers) returns (r: Result<Handle>)
      requires Valid()
      modifies this`actors, Of(raw.device)
      ensures Valid() && running == old(running)
      ensures Checked(raw, running, idleTimeout, lifetime).Err? ==>
        r == Err(Checked(raw, running, idleTimeout, lifetime).error) && actors == old(actors)
      ensures forall k :: k in old(actors) ==> k in actors && actors[k] == old(actors)[k]
      ensures r.Ok? ==>
        && raw.device in actors && actors[raw.device].current == Some(r.value) && r.value.state == Ready
        && r.value.idleExpiresAt <= r.value.absoluteExpiresAt
        && forall c :: c in raw.capabilities ==> c in r.value.capabilities
    {
      var checked := Checked(raw, running, idleTimeout, lifetime);
      if checked.Err? { return Err(checked.error); }
      var actor := FindOrCreate(raw.device);
      r := actor.Open(checked.value, candidate, cancelled, now, expiry, a);
    }

    /** `performDrain`: no error means that every session of every device is closed; stranded locks are still held, and only they. */
    method PerformDrain(answers: string -> Answers) returns (errors: nat)
      requires Valid()
      modifies this`running, Objects()
      ensures actors == old(actors) && !running
      ensures forall k :: k in actors ==> actors[k].Valid() && actors[k].stopped
      ensures errors == 0 <==> forall k :: k in actors ==> old(actors[k].Closes(answers(k)))
      ensures errors == 0 ==> forall k :: k in actors ==> actors[k].Drained()
      ensures errors == 0 ==> forall k :: k in actors ==> (actors[k].device.holder.Ours? <==> old(actors[k].Stranded()))
    {
      running := false;
      BeginDrains();
      errors := ShutdownAll(answers);
    }

    method BeginDrains()
      requires Valid()
      modifies Objects()
      ensures Valid() && actors == old(actors)
      ensures forall k :: k in actors ==> actors[k].Stranded() == old(actors[k].Stranded())
      ensures forall k, a :: k in actors ==> actors[k].Closes(a) == old(actors[k].Closes(a))
    {
      hide Actor.Valid;
      var rest := actors.Keys;
      while rest != {}
        invariant rest <= actors.Keys && Valid() && actors == old(actors)
        invariant forall k :: k in actors ==> actors[k].Stranded() == old(actors[k].Stranded())
        invariant forall k, a :: k in actors ==> actors[k].Closes(a) == old(actors[k].Closes(a))
        modifies Objects()
        decreases |rest|
      {
        var k :| k in rest;
        actors[k].BeginDrain();
        rest := rest - {k};
      }
    }

    method ShutdownAll(answers: string -> Answers) returns (errors: nat)
      requires Valid()
      modifies Objects()
      ensures actors == old(actors)
      ensures forall k :: k in actors ==> actors[k].Valid() && actors[k].stopped
      ensures errors == 0 <==> forall k :: k in actors ==> old(actors[k].Closes(answers(k)))
      ensures errors == 0 ==> forall k :: k in actors ==> actors[k].Drained()
      ensures errors == 0 ==> forall k :: k in actors ==> (actors[k].device.holder.Ours? <==> old(actors[k].Stranded()))
    {
      ghost var prospects := map k | k in actors :: ProspectOf(actors[k], answers(k));
      errors := ShutdownEach(answers, prospects);
    }

    ghost predicate AllMidway(prospects: map<string, Prospect>, rest: set<string>)
      requires prospects.Keys == actors.Keys
      reads this, Objects()
    {
      forall k :: k in actors ==> Midway(actors[k], prospects[k], k in rest)
    }

    method ShutdownNext(k: string, a: Answers, ghost prospects: map<string, Prospect>, ghost rest: set<string>) returns (failed: bool)
      requires Apart() && prospects.Keys == actors.Keys && k in rest && rest <= actors.Keys && AllMidway(prospects, rest)
      requires prospects[k].answers == a
      modifies Of(k)
      ensures AllMidway(prospects, rest - {k}) && failed == !prospects[k].closes
    {
      hide Midway;
      failed := ShutdownOne(actors[k], a, prospects[k]);
    }

    method ShutdownEach(answers: string -> Answers, ghost prospects: map<string, Prospect>) returns (errors: nat)
      requires Apart() && prospects.Keys == actors.Keys
      requires AllMidway(prospects, actors.Keys) && forall k :: k in actors ==> prospects[k].answers == answers(k)
      modifies Objects()
      ensures actors == old(actors) && (errors == 0 <==> forall k :: k in actors ==> prospects[k].closes)
      ensures AllMidway(prospects, {})
    {
      hide Registry.AllMidway;
      errors := 0;
      var rest := actors.Keys;
      while rest != {}
        invariant rest <= actors.Keys && Apart() && actors == old(actors)
        invariant AllMidway(prospects, rest)
        invariant errors == 0 <==> forall k :: k in actors && k !in rest ==> prospects[k].closes
        modifies Objects()
        decreases |rest|
      {
        var k :| k in rest;
        var failed := ShutdownNext(k, answers(k), prospects, rest);
        if failed { errors := errors + 1; }
        rest := rest - {k};
      }
    }
  }
}

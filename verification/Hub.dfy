/**
 The broadcast protocol that Source and EventSource share: a mutex, a registry of
 one-slot channels, and worker goroutines that outlive the generation that started them.

 A state is changed by one Step at a time. Everything Subscribe and Unsubscribe do
 happens under the mutex and commutes with a concurrent receive, so each is one step;
 broadcast is cut into one step per channel operation, and a reader may receive between any
 two of them.
 */
module Hub {
  import opened Common

  /** A subscriber's channel. `born` is the number of broadcasts begun before it was made. */
  datatype Chan<T> = Chan(born: nat, received: seq<T>, buf: seq<T>, closed: bool) {
    function History(): seq<T> { received + buf }
  }

  /** Where a worker is. Away covers everything it does outside broadcast. */
  datatype Pc<T> =
    | Away
    | Wants(v: T)                                  // about to take the mutex
    | Picking(v: T, todo: set<nat>)                // holds the mutex, next channel not chosen
    | Second(v: T, todo: set<nat>, id: nat)        // the first select found the slot full
    | Third(v: T, todo: set<nat>, id: nat)         // the stale value has been dealt with
    | Exited
  {
    predicate Holds() { Picking? || Second? || Third? }

    /** Channels the current value has still to be put into. */
    function Pending(): set<nat>
    {
      match this
      case Picking(_, todo) => todo
      case Second(_, todo, id) => todo + {id}
      case Third(_, todo, id) => todo + {id}
      case _ => {}
    }
  }

  datatype Worker<T> = Worker(stopped: bool, pc: Pc<T>)

  datatype State<T> = State(
    subs: set<nat>,
    nextId: nat,
    handle: Option<nat>,          // the worker that the stop function (or cancel) stops
    lock: Option<nat>,            // the worker holding the mutex between steps
    workers: seq<Worker<T>>,      // every generation ever started
    chans: map<nat, Chan<T>>,     // every channel ever made, by subscriber id
    log: seq<T>,                  // values in the order their broadcasts took the mutex
    panicked: bool)

  datatype Step<T> =
    | Subscribe
    | Unsubscribe(id: nat)
    | Work(g: nat, next: Pc<T>)
    | Lock(g: nat)
    | FirstSelect(g: nat, id: nat)
    | SecondSelect(g: nat)
    | ThirdSelect(g: nat)
    | Unlock(g: nat)
    | Receive(id: nat)

  function Init<T>(): State<T> {
    State({}, 0, None, None, [], map[], [], false)
  }

  ghost predicate Enabled<T>(s: State<T>, step: Step<T>) {
    match step
    case Subscribe => s.lock.None?
    case Unsubscribe(id) => s.lock.None?
    case Work(g, next) =>
      g < |s.workers| && s.workers[g].pc.Away? && (next.Away? || next.Wants? || next.Exited?)
    case Lock(g) => s.lock.None? && g < |s.workers| && s.workers[g].pc.Wants?
    case FirstSelect(g, id) =>
      g < |s.workers| && s.workers[g].pc.Picking? && id in s.workers[g].pc.todo && id in s.chans
    case SecondSelect(g) =>
      g < |s.workers| && s.workers[g].pc.Second? && s.workers[g].pc.id in s.chans
    case ThirdSelect(g) =>
      g < |s.workers| && s.workers[g].pc.Third? && s.workers[g].pc.id in s.chans
    case Unlock(g) => g < |s.workers| && s.workers[g].pc.Picking? && s.workers[g].pc.todo == {}
    case Receive(id) => id in s.chans && s.chans[id].buf != []
  }

  function Goto<T>(s: State<T>, g: nat, pc: Pc<T>): State<T>
    requires g < |s.workers|
  {
    s.(workers := s.workers[g := s.workers[g].(pc := pc)])
  }

  function SetChan<T>(s: State<T>, id: nat, c: Chan<T>): State<T> {
    s.(chans := s.chans[id := c])
  }

  function ApplySubscribe<T>(s: State<T>): State<T> {
    var id := s.nextId;
    var t := s.(nextId := id + 1,
                chans := s.chans[id := Chan(|s.log|, [], [], false)],
                subs := s.subs + {id});
    if |t.subs| == 1 then
      t.(handle := Some(|t.workers|), workers := t.workers + [Worker(false, Away)])
    else
      t
  }

  /** stop(): closing an already closed done channel would panic. */
  function StopLocked<T>(s: State<T>): State<T> {
    match s.handle
    case None => s
    case Some(g) =>
      if g < |s.workers| then
        s.(handle := None,
           panicked := s.panicked || s.workers[g].stopped,
           workers := s.workers[g := s.workers[g].(stopped := true)])
      else
        s.(handle := None)
  }

  function ApplyUnsubscribe<T>(s: State<T>, id: nat): State<T> {
    if id !in s.subs || id !in s.chans then s
    else
      var t := SetChan(s, id, s.chans[id].(closed := true))
               .(subs := s.subs - {id}, panicked := s.panicked || s.chans[id].closed);
      if |t.subs| == 0 then StopLocked(t) else t
  }

  /** A send case that is ready: into a free slot, or a panic on a closed channel. */
  function Send<T>(s: State<T>, id: nat, v: T): State<T>
    requires id in s.chans
  {
    if s.chans[id].closed then s.(panicked := true)
    else SetChan(s, id, s.chans[id].(buf := [v]))
  }

  function ApplyLock<T>(s: State<T>, g: nat): State<T>
    requires g < |s.workers| && s.workers[g].pc.Wants?
  {
    var v := s.workers[g].pc.v;
    Goto(s, g, Picking(v, s.subs)).(lock := Some(g), log := s.log + [v])
  }

  function ApplyFirst<T>(s: State<T>, g: nat, id: nat): State<T>
    requires g < |s.workers| && s.workers[g].pc.Picking? && id in s.chans
  {
    var pc := s.workers[g].pc;
    if s.chans[id].closed || s.chans[id].buf == [] then
      Goto(Send(s, id, pc.v), g, Picking(pc.v, pc.todo - {id}))
    else
      Goto(s, g, Second(pc.v, pc.todo - {id}, id))
  }

  function ApplySecond<T>(s: State<T>, g: nat): State<T>
    requires g < |s.workers| && s.workers[g].pc.Second? && s.workers[g].pc.id in s.chans
  {
    var pc := s.workers[g].pc;
    Goto(SetChan(s, pc.id, s.chans[pc.id].(buf := [])), g, Third(pc.v, pc.todo, pc.id))
  }

  /** A full slot here would be the last default of trySendLatest: the value would be lost. */
  function ApplyThird<T>(s: State<T>, g: nat): State<T>
    requires g < |s.workers| && s.workers[g].pc.Third? && s.workers[g].pc.id in s.chans
  {
    var pc := s.workers[g].pc;
    var t := if s.chans[pc.id].closed || s.chans[pc.id].buf == [] then Send(s, pc.id, pc.v) else s;
    Goto(t, g, Picking(pc.v, pc.todo))
  }

  function ApplyReceive<T>(s: State<T>, id: nat): State<T>
    requires id in s.chans
  {
    var c := s.chans[id];
    SetChan(s, id, c.(received := c.received + c.buf, buf := []))
  }

  function Apply<T>(s: State<T>, step: Step<T>): State<T>
    requires Enabled(s, step)
  {
    match step
    case Subscribe => ApplySubscribe(s)
    case Unsubscribe(id) => ApplyUnsubscribe(s, id)
    case Work(g, next) => Goto(s, g, next)
    case Lock(g) => ApplyLock(s, g)
    case FirstSelect(g, id) => ApplyFirst(s, g, id)
    case SecondSelect(g) => ApplySecond(s, g)
    case ThirdSelect(g) => ApplyThird(s, g)
    case Unlock(g) => Goto(s, g, Away).(lock := None)
    case Receive(id) => ApplyReceive(s, id)
  }

  /** Every step of the run is enabled where it is taken. */
  ghost predicate Run<T>(s: State<T>, steps: seq<Step<T>>)
    decreases |steps|
  {
    steps == [] || (Enabled(s, steps[0]) && Run(Apply(s, steps[0]), steps[1..]))
  }

  ghost function After<T>(s: State<T>, steps: seq<Step<T>>): State<T>
    requires Run(s, steps)
    decreases |steps|
  {
    if steps == [] then s else After(Apply(s, steps[0]), steps[1..])
  }

  // ---------------------------------------------------------------- the invariant

  ghost predicate Registry<T>(s: State<T>) {
    && (forall id: nat :: id in s.chans <==> id < s.nextId)
    && s.subs <= s.chans.Keys
    && (forall id :: id in s.chans ==> (s.chans[id].closed <==> id !in s.subs))
    && (forall id :: id in s.chans ==> |s.chans[id].buf| <= 1 && s.chans[id].born <= |s.log|)
  }

  ghost predicate Generations<T>(s: State<T>) {
    && (s.subs != {} <==> s.handle.Some?)
    && (s.handle.Some? ==> s.handle.value < |s.workers|)
    && (forall g :: 0 <= g < |s.workers| ==> (!s.workers[g].stopped <==> s.handle == Some(g)))
  }

  ghost predicate Mutex<T>(s: State<T>) {
    && (s.lock.Some? ==> s.lock.value < |s.workers|)
    && (forall g :: 0 <= g < |s.workers| ==> (s.workers[g].pc.Holds() <==> s.lock == Some(g)))
    && (s.lock.Some? ==>
          var pc := s.workers[s.lock.value].pc;
          && s.log != [] && Last(s.log) == pc.v
          && (forall id :: id in s.subs && id in s.chans ==> s.chans[id].born < |s.log|)
          && pc.Pending() <= s.subs
          && (pc.Second? || pc.Third? ==> pc.id !in pc.todo))
  }

  /** The channels that the broadcast in progress has yet to reach. */
  function Unreached<T>(s: State<T>): set<nat> {
    if s.lock.Some? && s.lock.value < |s.workers| then s.workers[s.lock.value].pc.Pending() else {}
  }

  /** What subscriber id has seen, against the broadcasts begun since it subscribed. */
  ghost predicate InOrder<T>(s: State<T>, id: nat)
    requires id in s.chans && s.chans[id].born <= |s.log|
  {
    Subsequence(s.chans[id].History(), s.log[s.chans[id].born..])
  }

  ghost predicate UpToDate<T>(s: State<T>, id: nat)
    requires id in s.chans
  {
    s.chans[id].born < |s.log| ==>
      s.chans[id].History() != [] && Last(s.chans[id].History()) == Last(s.log)
  }

  ghost predicate Delivery<T>(s: State<T>, id: nat)
    requires id in s.chans && s.chans[id].born <= |s.log|
  {
    if id in Unreached(s) then
      && s.chans[id].born < |s.log|
      && Subsequence(s.chans[id].History(), s.log[s.chans[id].born..|s.log| - 1])
    else
      InOrder(s, id) && (id in s.subs ==> UpToDate(s, id))
  }

  /** The slot is free when the third select is reached. */
  ghost predicate Freed<T>(s: State<T>) {
    forall g :: 0 <= g < |s.workers| && s.workers[g].pc.Third? && s.workers[g].pc.id in s.chans
      ==> s.chans[s.workers[g].pc.id].buf == []
  }

  /** Everything the invariant says except what subscribers have seen. */
  ghost predicate Skeleton<T>(s: State<T>) {
    !s.panicked && Registry(s) && Generations(s) && Mutex(s) && Freed(s)
  }

  ghost predicate Delivered<T>(s: State<T>)
    requires Registry(s)
  {
    forall id :: id in s.chans ==> Delivery(s, id)
  }

  ghost predicate Inv<T>(s: State<T>) {
    Skeleton(s) && Delivered(s)
  }
}

/**
 EventSource: the same protocol driven by a producer that emits when it likes and returns
 when it likes. Cancelling it obliges it to nothing, so the model lets a cancelled producer
 go on emitting.
 */
module EventSource {
  import opened Common
  import H = Hub
  import HubSafety

  datatype Step<T> =
    | Shared(step: H.Step<T>)
    | Emit(g: nat, v: T)
    | Return(g: nat)

  function Lift<T>(step: Step<T>): H.Step<T> {
    match step
    case Shared(h) => h
    case Emit(g, v) => H.Work(g, H.Wants(v))
    case Return(g) => H.Work(g, H.Exited)
  }

  ghost predicate Enabled<T>(s: H.State<T>, step: Step<T>) {
    (step.Shared? ==> !step.step.Work?) && H.Enabled(s, Lift(step))
  }

  /**
   An abstract on/off switch: ids in use, who is watching, and whether a producer is wanted.
   Source and EventSource both implement it.
   */
  datatype Gate = Gate(used: set<nat>, watchers: set<nat>, active: bool)

  predicate Enter(a: Gate, b: Gate, id: nat) {
    id !in a.used && b == Gate(a.used + {id}, a.watchers + {id}, true)
  }

  predicate Leave(a: Gate, b: Gate, id: nat) {
    id in a.watchers && b == Gate(a.used, a.watchers - {id}, a.watchers != {id})
  }

  ghost predicate GateNext(a: Gate, b: Gate) {
    a == b || (exists id :: Enter(a, b, id)) || (exists id :: Leave(a, b, id))
  }

  ghost function View<T>(s: H.State<T>): Gate {
    Gate(s.chans.Keys, s.subs, exists g :: 0 <= g < |s.workers| && !s.workers[g].stopped)
  }

  lemma ActiveIffHandle<T>(s: H.State<T>)
    requires H.Generations(s)
    ensures View(s).active <==> s.subs != {}
  {
    if s.handle.Some? { assert !s.workers[s.handle.value].stopped; }
  }

  /**
   Every step of the protocol is a step of the switch: a generation that has not been
   stopped exists exactly while somebody is watching, and an id enters once.
   */
  lemma RefinesGate<T>(s: H.State<T>, step: H.Step<T>)
    requires H.Inv(s) && H.Enabled(s, step)
    ensures GateNext(View(s), View(H.Apply(s, step)))
    ensures View(H.Apply(s, step)).active <==> View(H.Apply(s, step)).watchers != {}
  {
    var t := H.Apply(s, step);
    HubSafety.StepKeeps(s, step);
    ActiveIffHandle(s);
    ActiveIffHandle(t);
    match step
    case Subscribe =>
      assert Enter(View(s), View(t), s.nextId) by { HubSafety.SubscribeRegisters(s); }
    case Unsubscribe(id) =>
      HubSafety.UnsubscribeRemoves(s, id);
      if id in s.subs { assert Leave(View(s), View(t), id); }
    case _ =>
      HubSafety.OthersLeaveRegistry(s, step);
  }

  lemma StepRefines<T>(s: H.State<T>, step: Step<T>)
    requires H.Inv(s) && Enabled(s, step)
    ensures H.Inv(H.Apply(s, Lift(step))) && GateNext(View(s), View(H.Apply(s, Lift(step))))
  {
    HubSafety.StepKeeps(s, Lift(step));
    RefinesGate(s, Lift(step));
  }

  // ---------------------------------------------------------------- runs

  function Next<T>(s: H.State<T>, step: Step<T>): H.State<T>
    requires Enabled(s, step)
  {
    H.Apply(s, Lift(step))
  }

  ghost predicate Run<T>(s: H.State<T>, steps: seq<Step<T>>)
    decreases |steps|
  {
    steps == [] || (Enabled(s, steps[0]) && Run(Next(s, steps[0]), steps[1..]))
  }

  ghost function After<T>(s: H.State<T>, steps: seq<Step<T>>): H.State<T>
    requires Run(s, steps)
    decreases |steps|
  {
    if steps == [] then s else After(Next(s, steps[0]), steps[1..])
  }

  function LiftAll<T>(steps: seq<Step<T>>): seq<H.Step<T>> {
    if steps == [] then [] else [Lift(steps[0])] + LiftAll(steps[1..])
  }

  /**
   Every run of a source driven by a producer is a run of the protocol, so all that is proved
   of every run of the protocol holds of it; and at its end some generation is uncancelled
   exactly if somebody is watching.
   */
  lemma {:induction false} RunRefines<T>(s: H.State<T>, steps: seq<Step<T>>)
    requires H.Inv(s) && Run(s, steps)
    ensures H.Run(s, LiftAll(steps)) && H.After(s, LiftAll(steps)) == After(s, steps)
    ensures H.Inv(After(s, steps)) && (View(After(s, steps)).active <==> After(s, steps).subs != {})
    decreases |steps|
  {
    hide H.Inv, H.Apply, H.Enabled;
    if steps == [] {
      InvActive(s);
    } else {
      StepRefines(s, steps[0]);
      RunRefines(Next(s, steps[0]), steps[1..]);
      var all := LiftAll(steps);
      assert all[0] == Lift(steps[0]) && all[1..] == LiftAll(steps[1..]);
    }
  }

  lemma InvActive<T>(s: H.State<T>)
    requires H.Inv(s)
    ensures View(s).active <==> s.subs != {}
  {
    ActiveIffHandle(s);
  }

  lemma Before<T>(s: H.State<T>, step: Step<T>, rest: seq<Step<T>>) returns (steps: seq<Step<T>>)
    requires Enabled(s, step) && Run(Next(s, step), rest)
    ensures steps == [step] + rest && Run(s, steps) && After(s, steps) == After(Next(s, step), rest)
  {
    steps := [step] + rest;
    assert steps[0] == step && steps[1..] == rest;
  }

  // ---------------------------------------------------------------- cancelled producers

  /** Some run from s leads generation g to take the mutex for another broadcast. */
  ghost predicate CanBroadcast<T(!new)>(s: H.State<T>, g: nat) {
    exists steps :: Run(s, steps) && H.Enabled(After(s, steps), H.Lock(g))
  }

  /** Some run from s leads generation g to serve a subscriber whose id is n or later. */
  ghost predicate CanReach<T(!new)>(s: H.State<T>, g: nat, n: nat) {
    exists steps, id :: Run(s, steps) && n <= id && HubSafety.Serves(After(s, steps), g, id)
  }

  lemma CanBefore<T(!new)>(s: H.State<T>, step: Step<T>, g: nat, n: nat)
    requires Enabled(s, step)
    ensures CanBroadcast(Next(s, step), g) ==> CanBroadcast(s, g)
    ensures CanReach(Next(s, step), g, n) ==> CanReach(s, g, n)
  {
    hide HubSafety.Serves, Enabled, Next;
    if CanBroadcast(Next(s, step), g) {
      var rest :| Run(Next(s, step), rest) && H.Enabled(After(Next(s, step), rest), H.Lock(g));
      var _ := Before(s, step, rest);
    }
    if CanReach(Next(s, step), g, n) {
      var rest, id :| Run(Next(s, step), rest) && n <= id && HubSafety.Serves(After(Next(s, step), rest), g, id);
      var _ := Before(s, step, rest);
    }
  }

  lemma Now<T(!new)>(s: H.State<T>, g: nat, id: nat, n: nat)
    ensures H.Enabled(s, H.Lock(g)) ==> CanBroadcast(s, g)
    ensures n <= id && HubSafety.Serves(s, g, id) ==> CanReach(s, g, n)
  {
    var none: seq<Step<T>> := [];
    assert Run(s, none) && After(s, none) == s;
  }

  /** With the mutex free and g wanting it, a newcomer subscribes and is the first to be served. */
  lemma NewcomerServed<T(!new)>(s: H.State<T>, g: nat, n: nat)
    requires H.Inv(s) && s.lock.None? && g < |s.workers| && s.workers[g].pc.Wants? && n <= s.nextId
    ensures CanBroadcast(s, g) && CanReach(s, g, n)
  {
    hide CanBroadcast, CanReach, H.Inv, H.ApplySubscribe, H.ApplyLock, HubSafety.Serves;
    var t := H.ApplySubscribe(s);
    HubSafety.SubscribedUnder(s, g);
    HubSafety.LockedServes(t, g, s.nextId);
    var u := H.ApplyLock(t, g);
    Now(s, g, s.nextId, n);
    Now(u, g, s.nextId, n);
    CanBefore(t, Shared(H.Lock(g)), g, n);
    CanBefore(s, Shared(H.Subscribe), g, n);
  }

  /** A producer that has not returned can emit once more; v is any value it could emit. */
  lemma {:induction false} UnreturnedCan<T(!new)>(s: H.State<T>, g: nat, n: nat, v: T)
    requires H.Inv(s) && g < |s.workers| && !s.workers[g].pc.Exited? && n <= s.nextId
    ensures CanBroadcast(s, g) && CanReach(s, g, n)
    decreases HubSafety.LeftOf(s)
  {
    hide CanBroadcast, CanReach, H.Inv, HubSafety.Left;
    if s.lock.Some? {
      var step := HubSafety.BroadcastProgress(s);
      UnreturnedCan(H.Apply(s, step), g, n, v);
      CanBefore(s, Shared(step), g, n);
    } else if s.workers[g].pc.Wants? {
      NewcomerServed(s, g, n);
    } else {
      FreeToEmit(s, g, v);
      NewcomerServed(H.Goto(s, g, H.Wants(v)), g, n);
      CanBefore(s, Emit(g, v), g, n);
    }
  }

  lemma FreeToEmit<T>(s: H.State<T>, g: nat, v: T)
    requires H.Inv(s) && s.lock.None? && g < |s.workers|
    requires !s.workers[g].pc.Exited? && !s.workers[g].pc.Wants?
    ensures Enabled(s, Emit(g, v)) && H.Inv(H.Goto(s, g, H.Wants(v)))
  {
    assert !s.workers[g].pc.Holds();
    HubSafety.StepKeeps(s, H.Work(g, H.Wants(v)));
  }

  /** A producer that has returned never comes back. */
  lemma {:induction false} ReturnedStays<T>(s: H.State<T>, g: nat, steps: seq<Step<T>>)
    requires Run(s, steps) && g < |s.workers| && s.workers[g].pc.Exited?
    ensures g < |After(s, steps).workers| && After(s, steps).workers[g].pc.Exited?
    decreases |steps|
  {
    hide Next, Enabled;
    if steps != [] {
      ReturnedStep(s, g, steps[0]);
      ReturnedStays(Next(s, steps[0]), g, steps[1..]);
    }
  }

  lemma ReturnedStep<T>(s: H.State<T>, g: nat, step: Step<T>)
    requires Enabled(s, step) && g < |s.workers| && s.workers[g].pc.Exited?
    ensures g < |Next(s, step).workers| && Next(s, step).workers[g].pc.Exited?
  {
    match Lift(step)
    case Subscribe => assert Next(s, step) == H.ApplySubscribe(s);
    case Unsubscribe(id) => assert Next(s, step) == H.ApplyUnsubscribe(s, id);
    case FirstSelect(k, id) => assert Next(s, step) == H.ApplyFirst(s, k, id);
    case ThirdSelect(k) => assert Next(s, step) == H.ApplyThird(s, k);
    case _ =>
  }

  /**
   Whether a cancelled producer can still be heard depends only on whether it has returned:
   until then some run makes it broadcast, and some run makes its value the first that a
   later subscriber gets; afterwards no run does either.
   */
  lemma StaleBroadcastIff<T(!new)>(s: H.State<T>, g: nat, v: T)
    requires H.Inv(s) && g < |s.workers| && s.workers[g].stopped
    ensures CanBroadcast(s, g) <==> !s.workers[g].pc.Exited?
    ensures CanReach(s, g, s.nextId) <==> !s.workers[g].pc.Exited?
  {
    hide H.Inv, Run, After;
    if s.workers[g].pc.Exited? {
      forall steps | Run(s, steps)
        ensures !H.Enabled(After(s, steps), H.Lock(g))
        ensures forall id :: !HubSafety.Serves(After(s, steps), g, id)
      {
        ReturnedStays(s, g, steps);
      }
    } else {
      UnreturnedCan(s, g, s.nextId, v);
    }
  }

  /**
   A concrete run: the producer asked for the mutex before it was cancelled, and broadcast does
   not ask which generation it serves. The new generation has emitted nothing.
   */
  lemma StaleBroadcastIsPossible<T>(v: T) returns (steps: seq<Step<T>>)
    ensures Run(H.Init<T>(), steps)
    ensures var s := After(H.Init<T>(), steps);
            && s.lock.None?
            && |s.workers| == 2 && s.workers[0].stopped && !s.workers[1].stopped
            && s.workers[1].pc.Away? && 1 in s.subs && 1 in s.chans && s.chans[1].buf == [v]
    ensures forall i :: 0 <= i < |steps| ==> !(steps[i].Emit? && steps[i].g == 1)
  {
    var s0: H.State<T> := H.Init();
    var s1 := H.ApplySubscribe(s0);
    var s2 := H.Goto(s1, 0, H.Wants(v));
    var s3 := H.ApplyUnsubscribe(s2, 0);
    var s4 := H.ApplySubscribe(s3);
    var s5 := H.ApplyLock(s4, 0);
    assert s4.subs == {1};
    var s6 := H.ApplyFirst(s5, 0, 1);
    var s7 := H.Goto(s6, 0, H.Away).(lock := None);
    assert s6.workers[0].pc.todo == {};
    var end: seq<Step<T>> := [];
    assert Run(s7, end);
    var t6 := Before(s6, Shared(H.Unlock(0)), end);
    var t5 := Before(s5, Shared(H.FirstSelect(0, 1)), t6);
    var t4 := Before(s4, Shared(H.Lock(0)), t5);
    var t3 := Before(s3, Shared(H.Subscribe), t4);
    var t2 := Before(s2, Shared(H.Unsubscribe(0)), t3);
    var t1 := Before(s1, Emit(0, v), t2);
    steps := Before(s0, Shared(H.Subscribe), t1);
  }
}

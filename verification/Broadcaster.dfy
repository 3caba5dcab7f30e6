/**
 The object behind Source and EventSource, as its methods change it. Each method is tied to
 the protocol of module Hub: Subscribe and Unsubscribe are single steps of it, and a whole
 Broadcast, with readers receiving at any point, is a run of it.
 */
module Broadcaster {
  import opened Common
  import H = Hub
  import HubSafety

  /** What the runtime keeps of a channel: at most one buffered value, and whether it is closed. */
  datatype Slot<T> = Slot(buf: seq<T>, closed: bool)

  ghost predicate Reaches<T(!new)>(s: H.State<T>, t: H.State<T>) {
    exists steps :: H.Run(s, steps) && H.After(s, steps) == t
  }

  lemma ReachesSelf<T(!new)>(s: H.State<T>)
    ensures Reaches(s, s)
  {
    var none: seq<H.Step<T>> := [];
    assert H.Run(s, none) && H.After(s, none) == s;
  }

  lemma ReachesStep<T(!new)>(s: H.State<T>, t: H.State<T>, step: H.Step<T>)
    requires Reaches(s, t) && H.Enabled(t, step)
    ensures Reaches(s, H.Apply(t, step))
  {
    hide H.Enabled, H.Apply;
    var steps :| H.Run(s, steps) && H.After(s, steps) == t;
    HubSafety.RunOfOne(t, step);
    HubSafety.RunAppend(s, steps, [step]);
    assert H.Run(s, steps + [step]);
  }

  lemma ReachesTransitive<T(!new)>(s: H.State<T>, t: H.State<T>, u: H.State<T>)
    requires Reaches(s, t) && Reaches(t, u)
    ensures Reaches(s, u)
  {
    var a :| H.Run(s, a) && H.After(s, a) == t;
    var b :| H.Run(t, b) && H.After(t, b) == u;
    HubSafety.RunAppend(s, a, b);
    assert H.Run(s, a + b);
  }

  /** s is a state some run of the protocol leads to. */
  ghost predicate Reachable<T(!new)>(s: H.State<T>) {
    Reaches(H.Init(), s)
  }

  lemma ReachableInv<T(!new)>(s: H.State<T>)
    requires Reachable(s)
    ensures H.Inv(s)
  {
    var steps :| H.Run(H.Init(), steps) && H.After(H.Init(), steps) == s;
    HubSafety.InitInv<T>();
    HubSafety.RunKeeps(H.Init(), steps);
  }

  lemma ReachableStep<T(!new)>(s: H.State<T>, step: H.Step<T>)
    requires Reachable(s) && H.Enabled(s, step)
    ensures Reachable(H.Apply(s, step))
    ensures Reaches(s, H.Apply(s, step))
  {
    ReachesStep(H.Init(), s, step);
    ReachesSelf(s);
    ReachesStep(s, s, step);
  }

  // What the methods below need to know of a reachable state, and no more.

  lemma SubscribeFacts<T(!new)>(s: H.State<T>)
    requires Reachable(s)
    ensures s.nextId !in s.chans && s.nextId !in s.subs
  {
    ReachableInv(s);
  }

  lemma UnsubscribeFacts<T(!new)>(s: H.State<T>, id: nat)
    requires Reachable(s) && id in s.subs
    ensures id in s.chans && !s.chans[id].closed
    ensures s.handle.Some? && s.handle.value < |s.workers| && !s.workers[s.handle.value].stopped
  {
    ReachableInv(s);
  }

  lemma SlotFacts<T(!new)>(s: H.State<T>, id: nat)
    requires Reachable(s) && id in s.chans
    ensures |s.chans[id].buf| <= 1
  {
    ReachableInv(s);
  }

  lemma SelectFacts<T(!new)>(s: H.State<T>, g: nat, id: nat)
    requires Reachable(s) && g < |s.workers| && id in s.workers[g].pc.Pending()
    ensures s.lock == Some(g) && id in s.subs && id in s.chans && !s.chans[id].closed
  {
    ReachableInv(s);
  }

  lemma ServedFacts<T(!new)>(s: H.State<T>, g: nat, id: nat, v: T)
    requires Reachable(s) && g < |s.workers| && s.workers[g].pc == H.Picking(v, {}) && id in s.subs
    ensures id in s.chans && s.chans[id].History() != [] && Last(s.chans[id].History()) == v
  {
    ReachableInv(s);
    assert s.lock == Some(g);
    assert id in s.chans && !s.chans[id].closed;
    assert H.Delivery(s, id);
  }

  class Source<T(==,!new)> {
    var subs: set<nat>               // the keys of subs; subscriber id's channel is slots[id]
    var nextID: nat
    var stop: Option<nat>            // the done channel that the stop function closes; None is nil
    var slots: map<nat, Slot<T>>
    var dones: seq<bool>             // every done channel made, and whether it has been closed

    // the protocol state: the fields above, the goroutines around them, and what readers received
    ghost var view: H.State<T>

    ghost predicate Matched()
      reads this
    {
      && view.subs == subs && view.nextId == nextID && view.handle == stop
      && slots.Keys == view.chans.Keys
      && (forall id :: id in slots ==> slots[id] == Slot(view.chans[id].buf, view.chans[id].closed))
      && |dones| == |view.workers|
      && (forall g :: 0 <= g < |dones| ==> dones[g] == view.workers[g].stopped)
    }

    ghost predicate Valid()
      reads this
    {
      Matched() && Reachable(view)
    }

    constructor ()
      ensures Valid() && view == H.Init()
    {
      ReachesSelf(H.Init<T>());
      subs, nextID, stop, slots, dones := {}, 0, None, map[], [];
      view := H.Init();
    }

    method Subscribe() returns (id: nat)
      requires Valid() && view.lock.None?
      modifies this
      ensures Valid() && view == H.Apply(old(view), H.Subscribe)
      ensures id == old(nextID) && id !in old(slots) && id in subs
    {
      hide Reachable, Reaches;
      SubscribeFacts(view);
      ReachableStep(view, H.Subscribe);
      id := nextID;
      nextID := nextID + 1;
      slots := slots[id := Slot([], false)];
      subs := subs + {id};
      if |subs| == 1 {
        StartLocked();
      }
      view := H.ApplySubscribe(view);
    }

    /** Makes the generation's done channel and the function that will close it. */
    method StartLocked()
      modifies this`stop, this`dones
      ensures dones == old(dones) + [false] && stop == Some(|old(dones)|)
    {
      stop := Some(|dones|);
      dones := dones + [false];
    }

    method Unsubscribe(id: nat)
      requires Valid() && view.lock.None?
      modifies this
      ensures Valid() && view == H.Apply(old(view), H.Unsubscribe(id))
      ensures id !in subs && (id !in old(subs) ==> view == old(view))
    {
      hide Reachable, Reaches;
      ReachableStep(view, H.Unsubscribe(id));
      if id !in subs {
        return;
      }
      UnsubscribeFacts(view, id);
      subs := subs - {id};
      Close(id);
      if |subs| == 0 {
        StopLocked();
      }
      view := H.ApplyUnsubscribe(view, id);
    }

    /** close(ch): closing a closed channel would panic, so it must be open. */
    method Close(id: nat)
      requires id in slots && !slots[id].closed
      modifies this`slots
      ensures slots == old(slots)[id := old(slots)[id].(closed := true)]
    {
      slots := slots[id := slots[id].(closed := true)];
    }

    /** Runs stop once and forgets it; the done channel it closes must be open. */
    method StopLocked()
      requires stop.Some? ==> stop.value < |dones| && !dones[stop.value]
      modifies this`stop, this`dones
      ensures stop.None?
      ensures dones == if old(stop).Some? then old(dones)[old(stop).value := true] else old(dones)
    {
      if stop.Some? {
        dones := dones[stop.value := true];
        stop := None;
      }
    }

    /** A reader takes the buffered value. */
    method Receive(id: nat) returns (v: T)
      requires Valid() && id in slots && slots[id].buf != []
      modifies this`slots, this`view
      ensures Valid() && view == H.Apply(old(view), H.Receive(id))
      ensures old(slots)[id].buf == [v]
    {
      hide Reachable, Reaches;
      SlotFacts(view, id);
      ReachableStep(view, H.Receive(id));
      v := slots[id].buf[0];
      slots := slots[id := slots[id].(buf := [])];
      view := H.ApplyReceive(view, id);
    }

    /** Any number of receives by any readers: what may happen between two statements. */
    method Readers()
      requires Valid()
      modifies this`slots, this`view
      ensures Valid() && Reaches(old(view), view)
      ensures view == old(view).(chans := view.chans)
    {
      ReachesSelf(view);
      var n: nat := *;
      var i := 0;
      while i < n
        invariant Valid() && Reaches(old(view), view)
        invariant view == old(view).(chans := view.chans)
      {
        var id: nat := *;
        if id in slots && slots[id].buf != [] {
          ReachesStep(old(view), view, H.Receive(id));
          var _ := Receive(id);
        }
        i := i + 1;
      }
    }

    /** Whether worker g holds the mutex to broadcast v, with todo still to be served. */
    ghost predicate Serving(g: nat, pc: H.Pc<T>)
      reads this
    {
      view.lock == Some(g) && g < |view.workers| && view.workers[g].pc == pc
    }

    method FirstSelect(ghost g: nat, id: nat, v: T, ghost todo: set<nat>) returns (sent: bool)
      requires Valid() && Serving(g, H.Picking(v, todo)) && id in todo
      modifies this`slots, this`view
      ensures Valid() && H.Enabled(old(view), H.FirstSelect(g, id))
      ensures view == H.ApplyFirst(old(view), g, id)
      ensures Serving(g, if sent then H.Picking(v, todo - {id}) else H.Second(v, todo - {id}, id))
    {
      hide Reachable, Reaches;
      SelectFacts(view, g, id);
      ReachableStep(view, H.FirstSelect(g, id));
      sent := slots[id].buf == [];
      if sent {
        assert !slots[id].closed;   // a send on a closed channel would panic
        slots := slots[id := slots[id].(buf := [v])];
      }
      view := H.ApplyFirst(view, g, id);
    }

    method SecondSelect(ghost g: nat, id: nat, ghost v: T, ghost todo: set<nat>)
      requires Valid() && Serving(g, H.Second(v, todo, id))
      modifies this`slots, this`view
      ensures Valid() && H.Enabled(old(view), H.SecondSelect(g))
      ensures view == H.ApplySecond(old(view), g)
      ensures Serving(g, H.Third(v, todo, id))
    {
      hide Reachable, Reaches;
      SelectFacts(view, g, id);
      ReachableStep(view, H.SecondSelect(g));
      if slots[id].buf != [] {
        slots := slots[id := slots[id].(buf := [])];
      }
      view := H.ApplySecond(view, g);
    }

    method ThirdSelect(ghost g: nat, id: nat, v: T, ghost todo: set<nat>)
      requires Valid() && Serving(g, H.Third(v, todo, id))
      modifies this`slots, this`view
      ensures Valid() && H.Enabled(old(view), H.ThirdSelect(g))
      ensures view == H.ApplyThird(old(view), g)
      ensures Serving(g, H.Picking(v, todo))
    {
      hide Reachable, Reaches;
      SelectFacts(view, g, id);
      ReachableStep(view, H.ThirdSelect(g));
      if slots[id].buf == [] {
        assert !slots[id].closed;
        slots := slots[id := slots[id].(buf := [v])];
      }
      view := H.ApplyThird(view, g);
    }

    /** The slot was found full: drop the stale value, unless a reader takes it first, and send. */
    method ReplaceStale(ghost g: nat, id: nat, v: T, ghost todo: set<nat>)
      requires Valid() && Serving(g, H.Second(v, todo, id))
      modifies this`slots, this`view
      ensures Valid() && Reaches(old(view), view)
      ensures Serving(g, H.Picking(v, todo)) && view.log == old(view).log
    {
      hide Reachable, Reaches;
      Readers();
      ghost var s := view;
      SecondSelect(g, id, v, todo);
      ReachesStep(old(view), s, H.SecondSelect(g));
      s := view;
      Readers();
      ReachesTransitive(old(view), s, view);
      s := view;
      ThirdSelect(g, id, v, todo);
      ReachesStep(old(view), s, H.ThirdSelect(g));
    }

    /** Puts v into channel id without blocking, replacing a stale buffered value. */
    method TrySendLatest(ghost g: nat, id: nat, v: T, ghost todo: set<nat>)
      requires Valid() && Serving(g, H.Picking(v, todo)) && id in todo
      modifies this`slots, this`view
      ensures Valid() && Reaches(old(view), view)
      ensures Serving(g, H.Picking(v, todo - {id})) && view.log == old(view).log
    {
      hide Reachable, Reaches;
      Readers();
      ghost var s := view;
      var sent := FirstSelect(g, id, v, todo);
      ReachesStep(old(view), s, H.FirstSelect(g, id));
      if !sent {
        s := view;
        ReplaceStale(g, id, v, todo - {id});
        ReachesTransitive(old(view), s, view);
      }
    }

    /**
     Fans v out to every subscriber, in whatever order the registry yields them. When the
     mutex is released every subscriber's received-or-buffered values end with v.
     */
    method Broadcast(ghost g: nat, v: T)
      requires Valid() && view.lock.None? && g < |view.workers| && view.workers[g].pc == H.Wants(v)
      modifies this`slots, this`view
      ensures Valid() && view.lock.None? && Reaches(old(view), view)
      ensures view.log == old(view).log + [v]
      ensures forall id :: id in subs ==> id in view.chans && view.chans[id].History() != []
      ensures forall id :: id in subs ==> Last(view.chans[id].History()) == v
    {
      hide Reachable, Reaches;
      ReachesSelf(view);
      ReachesStep(view, view, H.Lock(g));
      ReachableStep(view, H.Lock(g));
      view := H.ApplyLock(view, g);
      var todo := subs;
      while todo != {}
        invariant Valid() && Reaches(old(view), view)
        invariant Serving(g, H.Picking(v, todo)) && view.log == old(view).log + [v]
        decreases todo
      {
        var id :| id in todo;
        ghost var s := view;
        TrySendLatest(g, id, v, todo);
        ReachesTransitive(old(view), s, view);
        todo := todo - {id};
      }
      forall id | id in subs
        ensures id in view.chans && view.chans[id].History() != []
        ensures Last(view.chans[id].History()) == v
      {
        ServedFacts(view, g, id, v);
      }
      ReachesStep(old(view), view, H.Unlock(g));
      ReachableStep(view, H.Unlock(g));
      view := H.Goto(view, g, H.Away).(lock := None);
    }
  }
}

/**
 The stream handlers of the API: each subscribes, streams, and unsubscribes on the way out,
 whatever ended it. Handlers are the only callers of Subscribe and Unsubscribe.
 */
module Handlers {
  import H = Hub
  import HubSafety

  /** `open`: the handlers between their Subscribe and their deferred Unsubscribe, with their ids. */
  datatype Server<T> = Server(hub: H.State<T>, open: map<nat, nat>)

  datatype Step<T> = Begin(h: nat) | End(h: nat) | Inner(step: H.Step<T>)

  ghost predicate Enabled<T>(s: Server<T>, step: Step<T>) {
    match step
    case Begin(h) => h !in s.open && H.Enabled(s.hub, H.Subscribe)
    case End(h) => h in s.open && H.Enabled(s.hub, H.Unsubscribe(s.open[h]))
    case Inner(i) => !i.Subscribe? && !i.Unsubscribe? && H.Enabled(s.hub, i)
  }

  function Apply<T>(s: Server<T>, step: Step<T>): Server<T>
    requires Enabled(s, step)
  {
    match step
    case Begin(h) => Server(H.Apply(s.hub, H.Subscribe), s.open[h := s.hub.nextId])
    case End(h) => Server(H.Apply(s.hub, H.Unsubscribe(s.open[h])), s.open - {h})
    case Inner(i) => Server(H.Apply(s.hub, i), s.open)
  }

  ghost predicate Run<T>(s: Server<T>, steps: seq<Step<T>>)
    decreases |steps|
  {
    steps == [] || (Enabled(s, steps[0]) && Run(Apply(s, steps[0]), steps[1..]))
  }

  ghost function After<T>(s: Server<T>, steps: seq<Step<T>>): Server<T>
    requires Run(s, steps)
    decreases |steps|
  {
    if steps == [] then s else After(Apply(s, steps[0]), steps[1..])
  }

  ghost predicate OneToOne(open: map<nat, nat>, subs: set<nat>) {
    && (forall h :: h in open ==> open[h] in subs)
    && (forall id :: id in subs ==> exists h :: h in open && open[h] == id)
    && (forall h, k :: h in open && k in open && open[h] == open[k] ==> h == k)
  }

  /** Subscriptions and streaming handlers correspond one to one. */
  ghost predicate Bracketed<T>(s: Server<T>) {
    OneToOne(s.open, s.hub.subs)
  }

  lemma PairAdded(open: map<nat, nat>, subs: set<nat>, h: nat, id: nat)
    requires OneToOne(open, subs) && h !in open && id !in subs
    ensures OneToOne(open[h := id], subs + {id})
  {
    var after := open[h := id];
    forall i | i in subs + {id} ensures exists k :: k in after && after[k] == i {
      if i == id {
        assert after[h] == i;
      } else {
        var k :| k in open && open[k] == i;
        assert after[k] == i;
      }
    }
  }

  lemma PairRemoved(open: map<nat, nat>, subs: set<nat>, h: nat)
    requires OneToOne(open, subs) && h in open
    ensures OneToOne(open - {h}, subs - {open[h]})
  {
    var after := open - {h};
    forall i | i in subs - {open[h]} ensures exists k :: k in after && after[k] == i {
      var k :| k in open && open[k] == i;
      assert after[k] == i;
    }
  }

  lemma {:induction false} RunKeeps<T>(s: Server<T>, steps: seq<Step<T>>)
    requires H.Inv(s.hub) && Bracketed(s) && Run(s, steps)
    ensures H.Inv(After(s, steps).hub) && Bracketed(After(s, steps))
    decreases |steps|
  {
    if steps != [] {
      match steps[0] {
        case Begin(h) =>
          HubSafety.StepKeeps(s.hub, H.Subscribe);
          HubSafety.SubscribeRegisters(s.hub);
          PairAdded(s.open, s.hub.subs, h, s.hub.nextId);
        case End(h) =>
          HubSafety.StepKeeps(s.hub, H.Unsubscribe(s.open[h]));
          HubSafety.UnsubscribeRemoves(s.hub, s.open[h]);
          PairRemoved(s.open, s.hub.subs, h);
        case Inner(i) =>
          HubSafety.StepKeeps(s.hub, i);
          HubSafety.OthersLeaveRegistry(s.hub, i);
      }
      RunKeeps(Apply(s, steps[0]), steps[1..]);
    }
  }

  predicate OnlyLive<T>(s: H.State<T>, g: nat) {
    forall k :: 0 <= k < |s.workers| ==> (!s.workers[k].stopped <==> k == g)
  }

  /**
   With no handler streaming, every generation has been stopped; with one streaming, exactly
   one generation has not. A streaming handler's channel is never closed under it.
   */
  lemma NoHandlerMeansInactive<T>(steps: seq<Step<T>>)
    requires Run(Server(H.Init<T>(), map[]), steps)
    ensures var s := After(Server(H.Init<T>(), map[]), steps);
            && (s.open == map[] ==> forall g :: 0 <= g < |s.hub.workers| ==> s.hub.workers[g].stopped)
            && (s.open != map[] ==> exists g :: 0 <= g < |s.hub.workers| && OnlyLive(s.hub, g))
            && (forall h :: h in s.open ==> s.open[h] in s.hub.chans && !s.hub.chans[s.open[h]].closed)
  {
    var s0 := Server(H.Init<T>(), map[]);
    HubSafety.InitInv<T>();
    RunKeeps(s0, steps);
    var s := After(s0, steps);
    if s.open == map[] {
      assert s.hub.subs == {};
    } else {
      var h :| h in s.open;
      assert s.open[h] in s.hub.subs;
      assert OnlyLive(s.hub, s.hub.handle.value);
    }
  }
}

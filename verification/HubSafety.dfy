/** What every interleaving of the broadcast protocol keeps. */
module HubSafety {
  import opened Common
  import opened Hub

  // ---------------------------------------------------------------- one step at a time

  /** A step that leaves a channel, its reach and its registration alone keeps its delivery. */
  lemma Untouched<T>(s: State<T>, t: State<T>, id: nat)
    requires id in s.chans && s.chans[id].born <= |s.log| && Delivery(s, id)
    requires id in t.chans && t.chans[id].born == s.chans[id].born
    requires t.chans[id].History() == s.chans[id].History() && t.log == s.log
    requires id in Unreached(t) <==> id in Unreached(s)
    requires id in t.subs ==> id in s.subs
    ensures Delivery(t, id)
  {
  }

  lemma SubscribeSkeleton<T>(s: State<T>)
    requires Skeleton(s) && s.lock.None?
    ensures Skeleton(ApplySubscribe(s))
    ensures s.nextId !in s.chans && s.nextId !in s.subs
    ensures Unreached(s) == {} == Unreached(ApplySubscribe(s))
  {
    assert |s.subs + {s.nextId}| == |s.subs| + 1;
  }

  lemma SubscribeKeeps<T>(s: State<T>)
    requires Inv(s) && s.lock.None?
    ensures Inv(ApplySubscribe(s))
  {
    hide Generations, Mutex, Freed, Unreached, Subsequence;
    var t := ApplySubscribe(s);
    SubscribeSkeleton(s);
    NewChannel(t, s.nextId);
    forall i | i in t.chans ensures Delivery(t, i) {
      if i != s.nextId { Untouched(s, t, i); }
    }
  }

  lemma NewChannel<T>(s: State<T>, id: nat)
    requires id in s.chans && s.chans[id] == Chan(|s.log|, [], [], false) && Unreached(s) == {}
    ensures Delivery(s, id)
  {
  }

  lemma UnsubscribeSkeleton<T>(s: State<T>, id: nat)
    requires Skeleton(s) && s.lock.None?
    ensures Skeleton(ApplyUnsubscribe(s, id))
  {
  }

  lemma UnsubscribeEffect<T>(s: State<T>, id: nat)
    requires s.lock.None?
    ensures var t := ApplyUnsubscribe(s, id);
            && t.log == s.log && t.lock.None? && t.subs <= s.subs && t.chans.Keys == s.chans.Keys
            && Unreached(s) == Unreached(t) == {}
  {
  }

  lemma UnsubscribeKeepsHistories<T>(s: State<T>, id: nat)
    ensures var t := ApplyUnsubscribe(s, id);
            && t.chans.Keys == s.chans.Keys
            && (forall i :: i in s.chans ==>
                  t.chans[i].born == s.chans[i].born && t.chans[i].History() == s.chans[i].History())
  {
  }

  lemma UnsubscribeKeeps<T>(s: State<T>, id: nat)
    requires Inv(s) && s.lock.None?
    ensures Inv(ApplyUnsubscribe(s, id))
  {
    hide Generations, Mutex, Freed, Unreached, Subsequence, Delivery, ApplyUnsubscribe;
    var t := ApplyUnsubscribe(s, id);
    UnsubscribeSkeleton(s, id);
    UnsubscribeEffect(s, id);
    UnsubscribeKeepsHistories(s, id);
    forall i | i in t.chans ensures Delivery(t, i) { Untouched(s, t, i); }
  }

  lemma WorkSkeleton<T>(s: State<T>, g: nat, next: Pc<T>)
    requires Skeleton(s) && Enabled(s, Work(g, next))
    ensures Skeleton(Goto(s, g, next)) && Unreached(Goto(s, g, next)) == Unreached(s)
  {
  }

  lemma WorkKeeps<T>(s: State<T>, g: nat, next: Pc<T>)
    requires Inv(s) && Enabled(s, Work(g, next))
    ensures Inv(Goto(s, g, next))
  {
    hide Generations, Mutex, Freed, Unreached, Subsequence, Delivery;
    var t := Goto(s, g, next);
    WorkSkeleton(s, g, next);
    forall i | i in t.chans ensures Delivery(t, i) { Untouched(s, t, i); }
  }

  lemma LockSkeleton<T>(s: State<T>, g: nat)
    requires Skeleton(s) && Enabled(s, Lock(g))
    ensures Skeleton(ApplyLock(s, g))
    ensures Unreached(ApplyLock(s, g)) == s.subs && Unreached(s) == {}
  {
  }

  /** A broadcast that has just taken the mutex owes every subscriber its value. */
  lemma Owed<T>(s: State<T>, t: State<T>, id: nat, v: T)
    requires id in s.chans && s.chans[id].born <= |s.log| && Delivery(s, id) && id !in Unreached(s)
    requires t.chans == s.chans && t.log == s.log + [v] && (id in Unreached(t) <==> id in t.subs)
    ensures Delivery(t, id)
  {
    var born := s.chans[id].born;
    assert t.log[born..|t.log| - 1] == s.log[born..];
    assert t.log[born..] == s.log[born..] + [v];
    SubsequenceGrow(s.chans[id].History(), s.log[born..], v);
  }

  lemma LockKeeps<T>(s: State<T>, g: nat)
    requires Inv(s) && Enabled(s, Lock(g))
    ensures Inv(ApplyLock(s, g))
  {
    hide Generations, Mutex, Freed, Unreached, Subsequence, Delivery;
    var t := ApplyLock(s, g);
    LockSkeleton(s, g);
    forall i | i in t.chans ensures Delivery(t, i) { Owed(s, t, i, s.workers[g].pc.v); }
  }

  /** Putting the value being broadcast into an empty slot brings that subscriber up to date. */
  lemma SentDelivers<T>(c: Chan<T>, log: seq<T>, v: T)
    requires c.buf == [] && c.born < |log| && Last(log) == v
    requires Subsequence(c.History(), log[c.born..|log| - 1])
    ensures Subsequence(c.(buf := [v]).History(), log[c.born..])
    ensures c.(buf := [v]).History() != [] && Last(c.(buf := [v]).History()) == v
  {
    assert c.(buf := [v]).History() == c.History() + [v];
    assert log[c.born..] == log[c.born..|log| - 1] + [v];
    SubsequenceGrow(c.History(), log[c.born..|log| - 1], v);
  }

  /** A select touches one channel: every other subscriber's delivery stands. */
  lemma OthersKept<T>(s: State<T>, t: State<T>, id: nat)
    requires Registry(s) && Delivered(s) && Registry(t)
    requires t.log == s.log && t.subs == s.subs && t.chans.Keys == s.chans.Keys
    requires forall i :: i in s.chans && i != id ==> t.chans[i] == s.chans[i]
    requires Unreached(t) - {id} == Unreached(s) - {id}
    ensures forall i :: i in t.chans && i != id ==> Delivery(t, i)
  {
    forall i | i in t.chans && i != id ensures Delivery(t, i) {
      assert i in Unreached(t) - {id} <==> i in Unreached(s) - {id};
      Untouched(s, t, i);
    }
  }

  /** The subscriber whose empty slot took the value being broadcast is up to date. */
  lemma Arrived<T>(s: State<T>, t: State<T>, id: nat, v: T)
    requires id in s.chans && s.chans[id].born <= |s.log| && s.chans[id].buf == []
    requires id in Unreached(s) && Delivery(s, id) && Last(s.log) == v
    requires id in t.chans && t.chans[id] == s.chans[id].(buf := [v]) && t.log == s.log
    requires id !in Unreached(t)
    ensures Delivery(t, id)
  {
    SentDelivers(s.chans[id], s.log, v);
  }

  lemma FirstRegistry<T>(s: State<T>, g: nat, id: nat)
    requires Skeleton(s) && Enabled(s, FirstSelect(g, id))
    ensures var t := ApplyFirst(s, g, id); !t.panicked && Registry(t) && Freed(t)
  {
  }

  lemma FirstMutex<T>(s: State<T>, g: nat, id: nat)
    requires Skeleton(s) && Enabled(s, FirstSelect(g, id))
    ensures var t := ApplyFirst(s, g, id); Generations(t) && Mutex(t)
  {
    hide Freed;
  }

  lemma FirstSkeleton<T>(s: State<T>, g: nat, id: nat)
    requires Skeleton(s) && Enabled(s, FirstSelect(g, id))
    ensures Skeleton(ApplyFirst(s, g, id))
  {
    hide Registry, Generations, Mutex, Freed, ApplyFirst;
    FirstRegistry(s, g, id);
    FirstMutex(s, g, id);
  }

  lemma FirstEffect<T>(s: State<T>, g: nat, id: nat)
    requires Skeleton(s) && Enabled(s, FirstSelect(g, id))
    ensures s.lock == Some(g) && id in s.subs && !s.chans[id].closed
    ensures id in Unreached(s)
    ensures var t := ApplyFirst(s, g, id);
            && t.lock == Some(g) && Unreached(t) - {id} == Unreached(s) - {id}
            && (id in Unreached(t) <==> s.chans[id].buf != [])
            && Last(s.log) == s.workers[g].pc.v
  {
  }

  lemma FirstKeeps<T>(s: State<T>, g: nat, id: nat)
    requires Inv(s) && Enabled(s, FirstSelect(g, id))
    ensures Inv(ApplyFirst(s, g, id))
  {
    hide Generations, Mutex, Freed, Unreached, Subsequence, Delivery;
    var t := ApplyFirst(s, g, id);
    FirstSkeleton(s, g, id);
    FirstEffect(s, g, id);
    OthersKept(s, t, id);
    if s.chans[id].buf == [] {
      Arrived(s, t, id, s.workers[g].pc.v);
    } else {
      Untouched(s, t, id);
    }
  }

  lemma SecondSkeleton<T>(s: State<T>, g: nat)
    requires Skeleton(s) && Enabled(s, SecondSelect(g))
    ensures Skeleton(ApplySecond(s, g))
    ensures var t := ApplySecond(s, g);
            && t.lock == s.lock == Some(g)
            && Unreached(t) == Unreached(s) && s.workers[g].pc.id in Unreached(s)
  {
  }

  /** Dropping the stale buffered value leaves an in-order history. */
  lemma DropStale<T>(c: Chan<T>, b: seq<T>)
    requires |c.buf| <= 1 && Subsequence(c.History(), b)
    ensures Subsequence(c.(buf := []).History(), b)
  {
    assert c.(buf := []).History() == c.received;
    if c.buf == [] {
      assert c.History() == c.received;
    } else {
      assert c.History() == c.received + [c.buf[0]];
      SubsequenceShrink(c.received, c.buf[0], b);
    }
  }

  lemma SecondKeeps<T>(s: State<T>, g: nat)
    requires Inv(s) && Enabled(s, SecondSelect(g))
    ensures Inv(ApplySecond(s, g))
  {
    hide Generations, Mutex, Freed, Unreached, Subsequence;
    var t := ApplySecond(s, g);
    SecondSkeleton(s, g);
    var id := s.workers[g].pc.id;
    OthersKept(s, t, id);
    assert Delivery(s, id);
    DropStale(s.chans[id], s.log[s.chans[id].born..|s.log| - 1]);
    assert Delivery(t, id);
  }

  lemma ThirdSkeleton<T>(s: State<T>, g: nat)
    requires Skeleton(s) && Enabled(s, ThirdSelect(g))
    ensures Skeleton(ApplyThird(s, g))
    ensures var pc := s.workers[g].pc; var t := ApplyThird(s, g);
            && t.lock == s.lock == Some(g) && !s.chans[pc.id].closed
            && pc.id in Unreached(s) && Unreached(t) == Unreached(s) - {pc.id}
            && Last(s.log) == pc.v
  {
  }

  lemma ThirdKeeps<T>(s: State<T>, g: nat)
    requires Inv(s) && Enabled(s, ThirdSelect(g))
    ensures Inv(ApplyThird(s, g))
  {
    hide Generations, Mutex, Unreached, Subsequence, Delivery;
    var t := ApplyThird(s, g);
    ThirdSkeleton(s, g);
    var pc := s.workers[g].pc;
    OthersKept(s, t, pc.id);
    Arrived(s, t, pc.id, pc.v);
  }

  lemma UnlockKeeps<T>(s: State<T>, g: nat)
    requires Inv(s) && Enabled(s, Unlock(g))
    ensures Inv(Goto(s, g, Away).(lock := None))
  {
    hide Generations, Mutex, Freed, Unreached, Subsequence, Delivery;
    var t := Goto(s, g, Away).(lock := None);
    UnlockSkeleton(s, g);
    forall i | i in t.chans ensures Delivery(t, i) { Untouched(s, t, i); }
  }

  lemma UnlockSkeleton<T>(s: State<T>, g: nat)
    requires Skeleton(s) && Enabled(s, Unlock(g))
    ensures Skeleton(Goto(s, g, Away).(lock := None))
    ensures Unreached(s) == {} == Unreached(Goto(s, g, Away).(lock := None))
  {
    assert s.lock == Some(g);
  }

  lemma ReceiveSkeleton<T>(s: State<T>, id: nat)
    requires Skeleton(s) && id in s.chans
    ensures Skeleton(ApplyReceive(s, id)) && Unreached(ApplyReceive(s, id)) == Unreached(s)
    ensures ApplyReceive(s, id).chans[id].History() == s.chans[id].History()
  {
  }

  lemma ReceiveKeeps<T>(s: State<T>, id: nat)
    requires Inv(s) && id in s.chans
    ensures Inv(ApplyReceive(s, id))
  {
    hide Generations, Mutex, Freed, Unreached, Subsequence, Delivery;
    var t := ApplyReceive(s, id);
    ReceiveSkeleton(s, id);
    forall i | i in t.chans ensures Delivery(t, i) { Untouched(s, t, i); }
  }

  lemma StepKeeps<T>(s: State<T>, step: Step<T>)
    requires Inv(s) && Enabled(s, step)
    ensures Inv(Apply(s, step))
  {
    match step
    case Subscribe => SubscribeKeeps(s);
    case Unsubscribe(id) => UnsubscribeKeeps(s, id);
    case Work(g, next) => WorkKeeps(s, g, next);
    case Lock(g) => LockKeeps(s, g);
    case FirstSelect(g, id) => FirstKeeps(s, g, id);
    case SecondSelect(g) => SecondKeeps(s, g);
    case ThirdSelect(g) => ThirdKeeps(s, g);
    case Unlock(g) => UnlockKeeps(s, g);
    case Receive(id) => ReceiveKeeps(s, id);
  }

  lemma {:induction false} RunKeeps<T>(s: State<T>, steps: seq<Step<T>>)
    requires Inv(s) && Run(s, steps)
    ensures Inv(After(s, steps))
    decreases |steps|
  {
    if steps != [] {
      StepKeeps(s, steps[0]);
      RunKeeps(Apply(s, steps[0]), steps[1..]);
    }
  }

  lemma RunOfOne<T>(s: State<T>, step: Step<T>)
    requires Enabled(s, step)
    ensures Run(s, [step]) && After(s, [step]) == Apply(s, step)
  {
    hide Enabled, Apply;
    var one := [step];
    assert one[0] == step && one[1..] == [];
    assert Run(Apply(s, step), one[1..]);
  }

  lemma {:induction false} RunAppend<T>(s: State<T>, a: seq<Step<T>>, b: seq<Step<T>>)
    requires Run(s, a) && Run(After(s, a), b)
    ensures Run(s, a + b) && After(s, a + b) == After(After(s, a), b)
    decreases |a|
  {
    if a == [] {
      assert a + b == b;
    } else {
      assert (a + b)[0] == a[0] && (a + b)[1..] == a[1..] + b;
      RunAppend(Apply(s, a[0]), a[1..], b);
    }
  }

  lemma InitInv<T>()
    ensures Inv<T>(Init())
  {
  }

  // ---------------------------------------------------------------- theorems over every run

  /**
   Latest-wins delivery. In every run, whenever no broadcast holds the mutex, what a
   subscriber received or has waiting is a subsequence, in broadcast order, of the
   broadcasts since it subscribed, and for a live subscriber it ends with the latest one.
   */
  lemma LatestWins<T>(steps: seq<Step<T>>, id: nat)
    requires Run(Init(), steps)
    requires After(Init<T>(), steps).lock.None? && id in After(Init<T>(), steps).chans
    ensures var s := After(Init<T>(), steps); var c := s.chans[id];
            && c.born <= |s.log|
            && Subsequence(c.received + c.buf, s.log[c.born..])
            && (id in s.subs && c.born < |s.log| ==>
                  c.received + c.buf != [] && Last(c.received + c.buf) == Last(s.log))
  {
    InitInv<T>();
    RunKeeps(Init(), steps);
    assert Delivery(After(Init<T>(), steps), id);
  }

  lemma ThirdSends<T>(s: State<T>, g: nat)
    requires Skeleton(s) && g < |s.workers| && s.workers[g].pc.Third?
    ensures var pc := s.workers[g].pc;
            && pc.id in s.chans && s.chans[pc.id].buf == [] && !s.chans[pc.id].closed
            && ApplyThird(s, g).chans[pc.id].buf == [pc.v]
  {
    hide Generations;
    assert s.lock == Some(g);
  }

  /** No run reaches the last default of trySendLatest: the third select can always send. */
  lemma LastDefaultUnreachable<T>(steps: seq<Step<T>>, g: nat)
    requires Run(Init(), steps)
    requires g < |After(Init<T>(), steps).workers| && After(Init<T>(), steps).workers[g].pc.Third?
    ensures var s := After(Init<T>(), steps); var pc := s.workers[g].pc;
            && pc.id in s.chans && s.chans[pc.id].buf == []
            && Apply(s, ThirdSelect(g)).chans[pc.id].buf == [pc.v]
  {
    hide Run, After, Skeleton, Delivered, ApplyThird, Init;
    InitInv<T>();
    RunKeeps(Init(), steps);
    ThirdSends(After(Init<T>(), steps), g);
  }

  /**
   A stop handle exists exactly while somebody is subscribed, and then exactly one
   generation, the one the handle stops, has not been stopped.
   */
  lemma OneLiveGeneration<T>(steps: seq<Step<T>>)
    requires Run(Init(), steps)
    ensures var s := After(Init<T>(), steps);
            && (s.handle.Some? <==> s.subs != {})
            && (forall g :: 0 <= g < |s.workers| ==> (!s.workers[g].stopped <==> s.handle == Some(g)))
            && (s.subs != {} ==> s.handle.value < |s.workers|)
  {
    InitInv<T>();
    RunKeeps(Init(), steps);
  }

  /** No run sends on a closed channel, closes a channel twice or closes done twice. */
  lemma NeverPanics<T>(steps: seq<Step<T>>)
    requires Run(Init(), steps)
    ensures var s := After(Init<T>(), steps);
            && !s.panicked
            && (forall id :: id in s.chans ==> (s.chans[id].closed <==> id !in s.subs))
            && s.subs <= s.chans.Keys
  {
    InitInv<T>();
    RunKeeps(Init(), steps);
  }

  /** What a step never takes back: ids, births, received values, closings, broadcasts. */
  ghost predicate Extends<T>(s: State<T>, t: State<T>) {
    && s.nextId <= t.nextId && s.log <= t.log && |s.workers| <= |t.workers|
    && (forall id :: id in s.chans ==>
          && id in t.chans && t.chans[id].born == s.chans[id].born
          && s.chans[id].received <= t.chans[id].received
          && (s.chans[id].closed ==> t.chans[id].closed))
    && (forall g :: 0 <= g < |s.workers| && s.workers[g].stopped ==> t.workers[g].stopped)
  }

  lemma UnsubscribeExtends<T>(s: State<T>, id: nat)
    ensures Extends(s, ApplyUnsubscribe(s, id))
  {
  }

  lemma FirstExtends<T>(s: State<T>, g: nat, id: nat)
    requires Enabled(s, FirstSelect(g, id))
    ensures Extends(s, ApplyFirst(s, g, id))
  {
  }

  lemma SecondExtends<T>(s: State<T>, g: nat)
    requires Enabled(s, SecondSelect(g))
    ensures Extends(s, ApplySecond(s, g))
  {
  }

  lemma ThirdExtends<T>(s: State<T>, g: nat)
    requires Enabled(s, ThirdSelect(g))
    ensures Extends(s, ApplyThird(s, g))
  {
  }

  lemma StepExtends<T>(s: State<T>, step: Step<T>)
    requires Registry(s) && Enabled(s, step)
    ensures Extends(s, Apply(s, step))
  {
    match step
    case Unsubscribe(id) => UnsubscribeExtends(s, id);
    case FirstSelect(g, id) => FirstExtends(s, g, id);
    case SecondSelect(g) => SecondExtends(s, g);
    case ThirdSelect(g) => ThirdExtends(s, g);
    case Subscribe => assert s.nextId !in s.chans;
    case _ =>
  }

  lemma ExtendsTransitive<T>(s: State<T>, t: State<T>, u: State<T>)
    requires Extends(s, t) && Extends(t, u)
    ensures Extends(s, u)
  {
  }

  /**
   Along every run ids and broadcasts are only added, received values stay received, and a
   closed channel or a stopped generation is never reopened: each is closed at most once.
   */
  lemma {:induction false} RunExtends<T>(s: State<T>, steps: seq<Step<T>>)
    requires Inv(s) && Run(s, steps)
    ensures Extends(s, After(s, steps))
    decreases |steps|
  {
    if steps != [] {
      var u := Apply(s, steps[0]);
      StepKeeps(s, steps[0]);
      StepExtends(s, steps[0]);
      RunExtends(u, steps[1..]);
      ExtendsTransitive(s, u, After(u, steps[1..]));
    }
  }

  /** Subscribe hands out an id no earlier Subscribe of the run handed out. */
  lemma FreshId<T>(steps: seq<Step<T>>)
    requires Run(Init(), steps)
    ensures After(Init<T>(), steps).nextId !in After(Init<T>(), steps).chans
  {
    InitInv<T>();
    RunKeeps(Init(), steps);
  }

  /** A repeated Unsubscribe changes nothing. */
  lemma UnsubscribeTwice<T>(s: State<T>, id: nat)
    requires Inv(s) && s.lock.None?
    ensures var t := ApplyUnsubscribe(s, id); ApplyUnsubscribe(t, id) == t && t.lock.None?
  {
  }

  lemma HolderPending<T>(s: State<T>)
    requires Inv(s) && s.lock.Some?
    ensures s.lock.value < |s.workers| && s.workers[s.lock.value].pc.Holds()
    ensures s.workers[s.lock.value].pc.Pending() <= s.chans.Keys
  {
    assert s.workers[s.lock.value].pc.Pending() <= s.subs <= s.chans.Keys;
  }

  /** While it holds the mutex, a broadcast can always take its next step. */
  lemma BroadcastNeverBlocks<T>(s: State<T>)
    requires Inv(s) && s.lock.Some?
    ensures var g := s.lock.value;
            || Enabled(s, Unlock(g)) || Enabled(s, SecondSelect(g)) || Enabled(s, ThirdSelect(g))
            || exists id :: Enabled(s, FirstSelect(g, id))
  {
    hide Inv;
    HolderPending(s);
    var g := s.lock.value;
    var pc := s.workers[g].pc;
    if pc.Picking? && pc.todo != {} {
      var id :| id in pc.todo;
      assert Enabled(s, FirstSelect(g, id));
    }
  }

  /** Steps a broadcast has left before it releases the mutex. */
  function Left<T>(pc: Pc<T>): nat {
    match pc
    case Picking(_, todo) => 3 * |todo| + 1
    case Second(_, todo, _) => 3 * |todo| + 3
    case Third(_, todo, _) => 3 * |todo| + 2
    case _ => 0
  }

  /** The holder of the mutex has moved one step on; nobody else has, and the registry is as it was. */
  ghost predicate Advanced<T>(s: State<T>, t: State<T>, g: nat) {
    && g < |s.workers| == |t.workers|
    && t.subs == s.subs && t.nextId == s.nextId && t.handle == s.handle
    && t.workers[g].stopped == s.workers[g].stopped
    && (forall k :: 0 <= k < |s.workers| && k != g ==> t.workers[k] == s.workers[k])
    && Left(t.workers[g].pc) < Left(s.workers[g].pc)
    && (if t.lock.Some? then t.lock == Some(g) && t.workers[g].pc.Holds() else t.workers[g].pc.Away?)
  }

  lemma FirstAdvances<T>(s: State<T>, g: nat, id: nat)
    requires s.lock == Some(g) && Enabled(s, FirstSelect(g, id))
    ensures Advanced(s, ApplyFirst(s, g, id), g)
  {
    var todo := s.workers[g].pc.todo;
    assert |todo - {id}| == |todo| - 1;
  }

  lemma SecondAdvances<T>(s: State<T>, g: nat)
    requires s.lock == Some(g) && Enabled(s, SecondSelect(g))
    ensures Advanced(s, ApplySecond(s, g), g)
  {
  }

  lemma ThirdAdvances<T>(s: State<T>, g: nat)
    requires s.lock == Some(g) && Enabled(s, ThirdSelect(g))
    ensures Advanced(s, ApplyThird(s, g), g)
  {
  }

  lemma UnlockAdvances<T>(s: State<T>, g: nat)
    requires Enabled(s, Unlock(g))
    ensures Advanced(s, Goto(s, g, Away).(lock := None), g)
  {
  }

  /** A broadcast in progress has a next step of its own, and that step brings it nearer to its end. */
  lemma BroadcastProgress<T>(s: State<T>) returns (step: Step<T>)
    requires Inv(s) && s.lock.Some?
    ensures Enabled(s, step) && Inv(Apply(s, step)) && Advanced(s, Apply(s, step), s.lock.value)
    ensures step.FirstSelect? || step.SecondSelect? || step.ThirdSelect? || step.Unlock?
  {
    hide Inv, Advanced, ApplyFirst, ApplySecond, ApplyThird, Goto;
    var g := s.lock.value;
    step := OwnStep(s);
    StepKeeps(s, step);
    match step
    case FirstSelect(_, id) => FirstAdvances(s, g, id);
    case SecondSelect(_) => SecondAdvances(s, g);
    case ThirdSelect(_) => ThirdAdvances(s, g);
    case Unlock(_) => UnlockAdvances(s, g);
  }

  lemma OwnStep<T>(s: State<T>) returns (step: Step<T>)
    requires Inv(s) && s.lock.Some?
    ensures Enabled(s, step)
    ensures var g := s.lock.value;
            step == Unlock(g) || step == SecondSelect(g) || step == ThirdSelect(g)
            || (step.FirstSelect? && step.g == g)
  {
    BroadcastNeverBlocks(s);
    var g := s.lock.value;
    if Enabled(s, Unlock(g)) {
      step := Unlock(g);
    } else if Enabled(s, SecondSelect(g)) {
      step := SecondSelect(g);
    } else if Enabled(s, ThirdSelect(g)) {
      step := ThirdSelect(g);
    } else {
      var id :| Enabled(s, FirstSelect(g, id));
      step := FirstSelect(g, id);
    }
  }

  /** A broadcast can always be completed: three steps a subscriber and one to unlock are enough. */
  lemma {:induction false} BroadcastCompletes<T>(s: State<T>) returns (steps: seq<Step<T>>)
    requires Inv(s) && s.lock.Some?
    ensures s.lock.value < |s.workers| && |steps| <= Left(s.workers[s.lock.value].pc)
    ensures Run(s, steps) && After(s, steps).lock.None?
    ensures After(s, steps).subs == s.subs && After(s, steps).nextId == s.nextId
    decreases if s.lock.value < |s.workers| then Left(s.workers[s.lock.value].pc) else 0
  {
    hide Inv, Enabled, Apply, Left;
    var step := BroadcastProgress(s);
    var t := Apply(s, step);
    var rest := [];
    if t.lock.Some? { rest := BroadcastCompletes(t); }
    steps := [step] + rest;
    assert steps[0] == step && steps[1..] == rest;
  }

  // ---------------------------------------------------------------- the registry, step by step

  lemma NextIdIsFresh<T>(s: State<T>)
    requires Registry(s)
    ensures s.nextId !in s.chans.Keys && s.nextId !in s.subs
  {
  }

  lemma SubscribeRegisters<T>(s: State<T>)
    requires Registry(s)
    ensures var t := ApplySubscribe(s);
            t.chans.Keys == s.chans.Keys + {s.nextId} && t.subs == s.subs + {s.nextId}
            && s.nextId !in s.chans.Keys && s.nextId !in s.subs
  {
    hide Registry;
    NextIdIsFresh(s);
  }

  lemma UnsubscribeRemoves<T>(s: State<T>, id: nat)
    requires Registry(s)
    ensures var t := ApplyUnsubscribe(s, id);
            t.chans.Keys == s.chans.Keys && t.subs == s.subs - {id}
  {
  }

  lemma OthersLeaveRegistry<T>(s: State<T>, step: Step<T>)
    requires Enabled(s, step) && !step.Subscribe? && !step.Unsubscribe?
    ensures var t := Apply(s, step); t.chans.Keys == s.chans.Keys && t.subs == s.subs
  {
    match step
    case FirstSelect(g, id) => assert Apply(s, step) == ApplyFirst(s, g, id);
    case ThirdSelect(g) => assert Apply(s, step) == ApplyThird(s, g);
    case _ =>
  }

  // ---------------------------------------------------------------- serving a newcomer

  /** Generation g is about to put its value into the empty, open channel of subscriber id. */
  ghost predicate Serves<T>(s: State<T>, g: nat, id: nat) {
    && id in s.subs && Enabled(s, FirstSelect(g, id))
    && ApplyFirst(s, g, id).chans[id].buf == [s.workers[g].pc.v]
  }

  lemma SubscribedUnder<T>(s: State<T>, g: nat)
    requires s.lock.None? && g < |s.workers|
    ensures var t := ApplySubscribe(s);
            && t.lock.None? && g < |t.workers| && t.workers[g] == s.workers[g]
            && s.nextId in t.subs && s.nextId in t.chans && t.chans[s.nextId] == Chan(|s.log|, [], [], false)
  {
  }

  lemma LockedServes<T>(t: State<T>, g: nat, id: nat)
    requires Enabled(t, Lock(g)) && id in t.subs && id in t.chans && t.chans[id].buf == [] && !t.chans[id].closed
    ensures Serves(ApplyLock(t, g), g, id)
  {
  }

  function LeftOf<T>(s: State<T>): nat {
    if s.lock.Some? && s.lock.value < |s.workers| then Left(s.workers[s.lock.value].pc) else 0
  }
}

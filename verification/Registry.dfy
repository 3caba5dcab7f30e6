/**
 The desktop shell's task registry: one supervisor per peer and one stream task per open
 view. Commands run one at a time, each to completion; a view task may end in between.
 Saving the peer list to disk is a parameter of a command: it may fail.
 */
module Registry {
  import opened Common
  import opened Peers

  datatype Key = Task(address: string) | View(key: string)

  datatype Phase = Running | Aborted | Finished

  /** A spawned task: the registry key it was spawned for, and what has become of it. */
  datatype Handle = Handle(owner: Key, phase: Phase)

  /** Tasks are named by their position in `handles`, in the order they were spawned. */
  datatype State = State(peers: seq<Peer>, tasks: map<string, nat>, views: map<string, nat>, handles: seq<Handle>)

  datatype Command =
    | AddPeer(name: string, address: string, port: u16, saves: bool)
    | RemovePeer(address: string, saves: bool)
    | RenamePeer(address: string, name: string, saves: bool)
    | SubscribeView(address: string, kind: string)
    | UnsubscribeView(address: string, kind: string)
    | SubscribeLogs(address: string)
    | UnsubscribeLogs(address: string)
    | Finish(id: nat)   // a view's stream ends; a supervisor retries for ever

  datatype Failure = Refused(error: Error) | SaveFailed

  // ---------------------------------------------------------------- specification

  function ViewKey(address: string, kind: string): string { address + "|" + kind }

  function Abort(handles: seq<Handle>, id: nat): seq<Handle> {
    if id < |handles| && handles[id].phase.Running? then handles[id := handles[id].(phase := Aborted)] else handles
  }

  function AbortOld(handles: seq<Handle>, table: map<string, nat>, key: string): seq<Handle> {
    if key in table then Abort(handles, table[key]) else handles
  }

  /** Spawns a supervisor, registers it, and aborts the one it displaces. */
  function Supervise(s: State, address: string): State {
    s.(tasks := s.tasks[address := |s.handles|],
       handles := AbortOld(s.handles + [Handle(Task(address), Running)], s.tasks, address))
  }

  function Unsupervise(s: State, address: string): State {
    s.(tasks := s.tasks - {address}, handles := AbortOld(s.handles, s.tasks, address))
  }

  function Watch(s: State, key: string): State {
    s.(views := s.views[key := |s.handles|],
       handles := AbortOld(s.handles + [Handle(View(key), Running)], s.views, key))
  }

  function Unwatch(s: State, key: string): State {
    s.(views := s.views - {key}, handles := AbortOld(s.handles, s.views, key))
  }

  predicate Knows(s: State, address: string) { address in Addresses(s.peers) }

  predicate Ends(s: State, id: nat) {
    id < |s.handles| && s.handles[id].owner.View? && s.handles[id].phase.Running?
  }

  function Step(s: State, c: Command): State {
    match c
    case AddPeer(name, address, port, saves) =>
      if Knows(s, address) then s
      else
        var added := s.(peers := s.peers + [Peer(name, address, port)]);
        if saves then Supervise(added, address) else added
    case RemovePeer(address, saves) =>
      if !Knows(s, address) then s
      else
        var removed := s.(peers := RemoveFirst(s.peers, address));
        if saves then Unsupervise(removed, address) else removed
    case RenamePeer(address, name, _) =>
      if Knows(s, address) then s.(peers := RenameFirst(s.peers, address, name)) else s
    case SubscribeView(address, kind) =>
      if Knows(s, address) then Watch(s, ViewKey(address, kind)) else s
    case UnsubscribeView(address, kind) => Unwatch(s, ViewKey(address, kind))
    case SubscribeLogs(address) =>
      if Knows(s, address) then Watch(s, ViewKey(address, "logs")) else s
    case UnsubscribeLogs(address) => Unwatch(s, ViewKey(address, "logs"))
    case Finish(id) =>
      if Ends(s, id) then s.(handles := s.handles[id := s.handles[id].(phase := Finished)]) else s
  }

  function SuperviseAll(s: State, peers: seq<Peer>): State {
    if peers == [] then s else Supervise(SuperviseAll(s, Front(peers)), Last(peers).address)
  }

  /** The state once the application has started on a loaded list. */
  function Setup(loaded: seq<Peer>): State {
    SuperviseAll(State(loaded, map[], map[], []), loaded)
  }

  function Run(s: State, commands: seq<Command>): State {
    if commands == [] then s else Step(Run(s, Front(commands)), Last(commands))
  }

  // ---------------------------------------------------------------- the shell

  class Shell {
    const file: PeersFile
    var tasks: map<string, nat>
    var views: map<string, nat>
    var handles: seq<Handle>

    ghost function Abs(): State
      reads this, file
    {
      State(file.peers, tasks, views, handles)
    }

    constructor (loaded: seq<Peer>)
      ensures fresh(file) && Abs() == Setup(loaded)
    {
      file := new PeersFile(loaded);
      tasks, views, handles := map[], map[], [];
      new;
      ghost var start := State(loaded, map[], map[], []);
      assert loaded[..0] == [];
      for i := 0 to |loaded|
        invariant Abs() == SuperviseAll(start, loaded[..i])
        invariant fresh(file)
      {
        assert Front(loaded[..i + 1]) == loaded[..i];
        SupervisePeer(loaded[i].address);
      }
      assert loaded[..|loaded|] == loaded;
    }

    method Spawn(owner: Key) returns (id: nat)
      modifies this`handles
      ensures id == old(|handles|) && handles == old(handles) + [Handle(owner, Running)]
    {
      id := |handles|;
      handles := handles + [Handle(owner, Running)];
    }

    method AbortHandle(id: nat)
      modifies this`handles
      ensures handles == Abort(old(handles), id)
    {
      if id < |handles| && handles[id].phase.Running? {
        handles := handles[id := handles[id].(phase := Aborted)];
      }
    }

    method SupervisePeer(address: string)
      modifies this
      ensures Abs() == Supervise(old(Abs()), address)
    {
      var handle := Spawn(Task(address));
      var displaced := if address in tasks then Some(tasks[address]) else None;
      tasks := tasks[address := handle];
      if displaced.Some? { AbortHandle(displaced.value); }
    }

    method InsertView(key: string)
      modifies this
      ensures Abs() == Watch(old(Abs()), key)
    {
      var handle := Spawn(View(key));
      var displaced := if key in views then Some(views[key]) else None;
      views := views[key := handle];
      if displaced.Some? { AbortHandle(displaced.value); }
    }

    method RemoveView(key: string)
      modifies this
      ensures Abs() == Unwatch(old(Abs()), key)
    {
      var displaced := if key in views then Some(views[key]) else None;
      views := views - {key};
      if displaced.Some? { AbortHandle(displaced.value); }
    }

    method AddPeer(name: string, address: string, port: u16, saves: bool) returns (err: Option<Failure>)
      modifies this, file
      ensures Abs() == Step(old(Abs()), Command.AddPeer(name, address, port, saves))
      ensures err == if old(Knows(Abs(), address)) then Some(Refused(AlreadyExists))
                     else if !saves then Some(SaveFailed) else None
    {
      var e := file.Add(name, address, port);
      if e.Some? { return Some(Refused(e.value)); }
      if !saves { return Some(SaveFailed); }
      SupervisePeer(address);
      err := None;
    }

    method RemovePeer(address: string, saves: bool) returns (err: Option<Failure>)
      modifies this, file
      ensures Abs() == Step(old(Abs()), Command.RemovePeer(address, saves))
      ensures err == if !old(Knows(Abs(), address)) then Some(Refused(PeerNotFound))
                     else if !saves then Some(SaveFailed) else None
    {
      var e := file.Remove(address);
      if e.Some? { return Some(Refused(e.value)); }
      if !saves { return Some(SaveFailed); }
      var displaced := if address in tasks then Some(tasks[address]) else None;
      tasks := tasks - {address};
      if displaced.Some? { AbortHandle(displaced.value); }
      err := None;
    }

    method RenamePeer(address: string, name: string, saves: bool) returns (err: Option<Failure>)
      modifies this, file
      ensures Abs() == Step(old(Abs()), Command.RenamePeer(address, name, saves))
      ensures err == if !old(Knows(Abs(), address)) then Some(Refused(PeerNotFound))
                     else if !saves then Some(SaveFailed) else None
    {
      var e := file.Rename(address, name);
      if e.Some? { return Some(Refused(e.value)); }
      if !saves { return Some(SaveFailed); }
      err := None;
    }

    method SubscribeView(address: string, kind: string)
      modifies this
      ensures Abs() == Step(old(Abs()), Command.SubscribeView(address, kind))
    {
      var known := file.Index(address);
      if known.None? { return; }
      InsertView(ViewKey(address, kind));
    }

    method UnsubscribeView(address: string, kind: string)
      modifies this
      ensures Abs() == Step(old(Abs()), Command.UnsubscribeView(address, kind))
    {
      RemoveView(ViewKey(address, kind));
    }

    method SubscribeLogs(address: string)
      modifies this
      ensures Abs() == Step(old(Abs()), Command.SubscribeLogs(address))
    {
      var known := file.Index(address);
      if known.None? { return; }
      InsertView(ViewKey(address, "logs"));
    }

    method UnsubscribeLogs(address: string)
      modifies this
      ensures Abs() == Step(old(Abs()), Command.UnsubscribeLogs(address))
    {
      RemoveView(ViewKey(address, "logs"));
    }
  }

  // ---------------------------------------------------------------- every task is accounted for

  function Lookup(s: State, key: Key): Option<nat> {
    match key
    case Task(a) => if a in s.tasks then Some(s.tasks[a]) else None
    case View(k) => if k in s.views then Some(s.views[k]) else None
  }

  /** What is registered is the handle spawned for that key; only a view's may have ended. */
  ghost predicate Registered(s: State) {
    forall key :: Lookup(s, key).Some? ==>
      var id := Lookup(s, key).value;
      && id < |s.handles| && s.handles[id].owner == key
      && !s.handles[id].phase.Aborted? && (key.Task? ==> s.handles[id].phase.Running?)
  }

  /** What runs is registered under the key it was spawned for; supervisors do not end. */
  ghost predicate NoneLost(s: State) {
    forall id :: 0 <= id < |s.handles| ==>
      && (s.handles[id].phase.Running? ==> Lookup(s, s.handles[id].owner) == Some(id))
      && (s.handles[id].phase.Finished? ==> s.handles[id].owner.View?)
  }

  ghost predicate Accounted(s: State) { Registered(s) && NoneLost(s) }

  /** t is s with `key` now naming `entry`, and the handle it named before aborted. */
  ghost predicate Rekeyed(s: State, t: State, key: Key, entry: Option<nat>, spawned: seq<Handle>) {
    && (forall k :: Lookup(t, k) == if k == key then entry else Lookup(s, k))
    && t.handles == match Lookup(s, key)
                    case None => s.handles + spawned
                    case Some(id) => Abort(s.handles + spawned, id)
  }

  lemma RegisterKeeps(s: State, t: State, key: Key)
    requires Accounted(s) && Rekeyed(s, t, key, Some(|s.handles|), [Handle(key, Running)])
    ensures Accounted(t)
  {
    hide Lookup;
    forall k | Lookup(t, k).Some? && k != key ensures Lookup(s, k).Some? {}
  }

  lemma DropKeeps(s: State, t: State, key: Key)
    requires Accounted(s) && Rekeyed(s, t, key, None, [])
    ensures Accounted(t)
  {
    hide Lookup;
    assert s.handles + [] == s.handles;
    forall k | Lookup(t, k).Some? ensures Lookup(s, k).Some? {}
  }

  lemma SuperviseKeeps(s: State, a: string)
    requires Accounted(s)
    ensures Accounted(Supervise(s, a))
  {
    hide Accounted, Abort;
    RegisterKeeps(s, Supervise(s, a), Task(a));
  }

  lemma UnsuperviseKeeps(s: State, a: string)
    requires Accounted(s)
    ensures Accounted(Unsupervise(s, a))
  {
    hide Accounted, Abort;
    assert s.handles + [] == s.handles;
    DropKeeps(s, Unsupervise(s, a), Task(a));
  }

  lemma WatchKeeps(s: State, k: string)
    requires Accounted(s)
    ensures Accounted(Watch(s, k))
  {
    hide Accounted, Abort;
    RegisterKeeps(s, Watch(s, k), View(k));
  }

  lemma UnwatchKeeps(s: State, k: string)
    requires Accounted(s)
    ensures Accounted(Unwatch(s, k))
  {
    hide Accounted, Abort;
    assert s.handles + [] == s.handles;
    DropKeeps(s, Unwatch(s, k), View(k));
  }

  lemma FinishKeeps(s: State, id: nat)
    requires Accounted(s)
    ensures Accounted(Step(s, Finish(id)))
  {
  }

  lemma PeersDoNotMatter(s: State, peers: seq<Peer>)
    requires Accounted(s)
    ensures Accounted(s.(peers := peers))
  {
    var t := s.(peers := peers);
    forall id | 0 <= id < |t.handles| ensures Lookup(t, t.handles[id].owner) == Lookup(s, s.handles[id].owner) {}
  }

  lemma StepAccounts(s: State, c: Command)
    requires Accounted(s)
    ensures Accounted(Step(s, c))
  {
    hide Accounted, Supervise, Unsupervise, Watch, Unwatch, Knows, Ends, ViewKey;
    match c
    case AddPeer(name, address, port, _) =>
      PeersDoNotMatter(s, s.peers + [Peer(name, address, port)]);
      SuperviseKeeps(s.(peers := s.peers + [Peer(name, address, port)]), address);
    case RemovePeer(address, _) =>
      PeersDoNotMatter(s, RemoveFirst(s.peers, address));
      UnsuperviseKeeps(s.(peers := RemoveFirst(s.peers, address)), address);
    case RenamePeer(address, name, _) => PeersDoNotMatter(s, RenameFirst(s.peers, address, name));
    case SubscribeView(address, kind) => WatchKeeps(s, ViewKey(address, kind));
    case UnsubscribeView(address, kind) => UnwatchKeeps(s, ViewKey(address, kind));
    case SubscribeLogs(address) => WatchKeeps(s, ViewKey(address, "logs"));
    case UnsubscribeLogs(address) => UnwatchKeeps(s, ViewKey(address, "logs"));
    case Finish(id) => FinishKeeps(s, id);
  }

  lemma {:induction false} SetupAccounts(s: State, peers: seq<Peer>)
    requires Accounted(s)
    ensures Accounted(SuperviseAll(s, peers))
  {
    hide Accounted, Supervise;
    if peers != [] {
      SetupAccounts(s, Front(peers));
      SuperviseKeeps(SuperviseAll(s, Front(peers)), Last(peers).address);
    }
  }

  lemma {:induction false} RunAccounts(s: State, commands: seq<Command>)
    requires Accounted(s)
    ensures Accounted(Run(s, commands))
  {
    hide Accounted, Step;
    if commands != [] {
      RunAccounts(s, Front(commands));
      StepAccounts(Run(s, Front(commands)), Last(commands));
    }
  }

  lemma StartedAccounts(loaded: seq<Peer>, commands: seq<Command>)
    ensures Accounted(Run(Setup(loaded), commands))
  {
    hide Step, SuperviseAll;
    var start := State(loaded, map[], map[], []);
    SetupAccounts(start, loaded);
    RunAccounts(Setup(loaded), commands);
  }

  /**
   In every run of the application, a task that still runs is the one its key names, so no
   key has two; a key never names an aborted task; and a supervisor runs exactly while its
   address names it.
   */
  lemma EveryTaskAccounted(loaded: seq<Peer>, commands: seq<Command>)
    ensures var s := Run(Setup(loaded), commands);
            && (forall i, j :: 0 <= i < j < |s.handles| && s.handles[i].phase.Running? && s.handles[j].phase.Running?
                               ==> s.handles[i].owner != s.handles[j].owner)
            && (forall key :: Lookup(s, key).Some? ==>
                  var id := Lookup(s, key).value;
                  id < |s.handles| && s.handles[id].owner == key && !s.handles[id].phase.Aborted?)
            && (forall id :: 0 <= id < |s.handles| && s.handles[id].phase.Running? ==>
                  Lookup(s, s.handles[id].owner) == Some(id))
            && (forall id :: 0 <= id < |s.handles| && s.handles[id].owner.Task? ==>
                  (s.handles[id].phase.Running? <==> Lookup(s, s.handles[id].owner) == Some(id)))
  {
    hide Run, Setup, Lookup;
    StartedAccounts(loaded, commands);
  }

  /** The key a command is about. */
  function Target(c: Command): Option<Key> {
    match c
    case AddPeer(_, address, _, _) => Some(Task(address))
    case RemovePeer(address, _) => Some(Task(address))
    case RenamePeer(_, _, _) => None
    case SubscribeView(address, kind) => Some(View(ViewKey(address, kind)))
    case UnsubscribeView(address, kind) => Some(View(ViewKey(address, kind)))
    case SubscribeLogs(address) => Some(View(ViewKey(address, "logs")))
    case UnsubscribeLogs(address) => Some(View(ViewKey(address, "logs")))
    case Finish(_) => None
  }

  /** What a key names, and what has become of that task. */
  function Entry(s: State, key: Key): Option<(nat, Handle)> {
    match Lookup(s, key)
    case Some(id) => if id < |s.handles| then Some((id, s.handles[id])) else None
    case None => None
  }

  lemma RekeyingIsolates(s: State, t: State, key: Key, entry: Option<nat>, spawned: seq<Handle>, other: Key)
    requires Accounted(s) && Rekeyed(s, t, key, entry, spawned) && other != key
    ensures Entry(t, other) == Entry(s, other)
  {
    hide Lookup;
    assert Lookup(t, other) == Lookup(s, other);
  }

  lemma TablesRekeyed(s: State, a: string)
    ensures Rekeyed(s, Supervise(s, a), Task(a), Some(|s.handles|), [Handle(Task(a), Running)])
    ensures Rekeyed(s, Unsupervise(s, a), Task(a), None, [])
    ensures Rekeyed(s, Watch(s, a), View(a), Some(|s.handles|), [Handle(View(a), Running)])
    ensures Rekeyed(s, Unwatch(s, a), View(a), None, [])
  {
    hide Abort;
    assert s.handles + [] == s.handles;
  }

  lemma RegistryIsolates(s: State, a: string, other: Key)
    requires Accounted(s)
    ensures other != Task(a) ==> Entry(Supervise(s, a), other) == Entry(s, other) == Entry(Unsupervise(s, a), other)
    ensures other != View(a) ==> Entry(Watch(s, a), other) == Entry(s, other) == Entry(Unwatch(s, a), other)
  {
    hide Accounted, Rekeyed, Supervise, Unsupervise, Watch, Unwatch, Entry;
    TablesRekeyed(s, a);
    if other != Task(a) {
      RekeyingIsolates(s, Supervise(s, a), Task(a), Some(|s.handles|), [Handle(Task(a), Running)], other);
      RekeyingIsolates(s, Unsupervise(s, a), Task(a), None, [], other);
    }
    if other != View(a) {
      RekeyingIsolates(s, Watch(s, a), View(a), Some(|s.handles|), [Handle(View(a), Running)], other);
      RekeyingIsolates(s, Unwatch(s, a), View(a), None, [], other);
    }
  }

  lemma EntryIgnoresPeers(s: State, peers: seq<Peer>, key: Key)
    ensures Entry(s.(peers := peers), key) == Entry(s, key)
  {
  }

  /**
   A command disturbs only the key it is about. In particular removing a peer leaves the
   streams of its open views registered and running.
   */
  lemma CommandsAreLocal(s: State, c: Command, key: Key)
    requires Accounted(s) && Target(c) != Some(key) && !c.Finish?
    ensures Entry(Step(s, c), key) == Entry(s, key)
  {
    hide Accounted, Entry, Supervise, Unsupervise, Watch, Unwatch, Knows, Ends, ViewKey;
    match c
    case AddPeer(name, address, port, _) =>
      var peers := s.peers + [Peer(name, address, port)];
      PeersDoNotMatter(s, peers);
      EntryIgnoresPeers(s, peers, key);
      RegistryIsolates(s.(peers := peers), address, key);
    case RemovePeer(address, _) =>
      var peers := RemoveFirst(s.peers, address);
      PeersDoNotMatter(s, peers);
      EntryIgnoresPeers(s, peers, key);
      RegistryIsolates(s.(peers := peers), address, key);
    case RenamePeer(address, name, _) => EntryIgnoresPeers(s, RenameFirst(s.peers, address, name), key);
    case SubscribeView(address, kind) => RegistryIsolates(s, ViewKey(address, kind), key);
    case UnsubscribeView(address, kind) => RegistryIsolates(s, ViewKey(address, kind), key);
    case SubscribeLogs(address) => RegistryIsolates(s, ViewKey(address, "logs"), key);
    case UnsubscribeLogs(address) => RegistryIsolates(s, ViewKey(address, "logs"), key);
  }

  lemma KeyEndsAtLastBar(a: string, k: string)
    requires '|' !in k
    ensures var key := ViewKey(a, k);
            && |a| < |key| && key[|a|] == '|' && (forall i :: |a| < i < |key| ==> key[i] != '|')
            && key[..|a|] == a && key[|a| + 1..] == k
  {
    var key := ViewKey(a, k);
    forall i | |a| < i < |key| ensures key[i] != '|' {
      assert key[i] == k[i - |a| - 1];
    }
  }

  /** Kinds hold no '|', so an address and a kind are recovered from their key. */
  lemma ViewKeyIsUnique(a: string, k: string, b: string, l: string)
    requires '|' !in k && '|' !in l
    ensures ViewKey(a, k) == ViewKey(b, l) <==> a == b && k == l
  {
    hide ViewKey;
    KeyEndsAtLastBar(a, k);
    KeyEndsAtLastBar(b, l);
  }

  // ---------------------------------------------------------------- what each command does

  /** The key names a task spawned for it just now, which runs; the one it named before does not. */
  ghost predicate Started(s: State, t: State, key: Key) {
    && Lookup(t, key) == Some(|s.handles|)
    && |t.handles| == |s.handles| + 1 && t.handles[|s.handles|] == Handle(key, Running)
    && Silenced(s, t, key)
  }

  /** Whatever the key named in s does not run in t. */
  ghost predicate Silenced(s: State, t: State, key: Key) {
    Lookup(s, key).Some? ==>
      var id := Lookup(s, key).value;
      id < |s.handles| && id < |t.handles| && !t.handles[id].phase.Running?
  }

  lemma RekeyingStarts(s: State, t: State, key: Key)
    requires Accounted(s) && Rekeyed(s, t, key, Some(|s.handles|), [Handle(key, Running)])
    ensures Started(s, t, key)
  {
    hide Lookup;
    assert Lookup(t, key) == Some(|s.handles|);
  }

  lemma RekeyingFrees(s: State, t: State, key: Key)
    requires Accounted(s) && Rekeyed(s, t, key, None, [])
    ensures Lookup(t, key) == None && |t.handles| == |s.handles| && Silenced(s, t, key)
  {
    hide Lookup;
    assert s.handles + [] == s.handles;
    assert Lookup(t, key) == None;
  }

  /** Unsubscribing a view, or the logs, frees its key and stops its task; no key, nothing happens. */
  lemma UnsubscribeStops(s: State, a: string, kind: string)
    requires Accounted(s)
    ensures var t := Step(s, UnsubscribeView(a, kind)); var key := a + "|" + kind;
            && key !in t.views && |t.handles| == |s.handles|
            && (key in s.views ==>
                  s.views[key] < |t.handles| && !t.handles[s.views[key]].phase.Running?)
            && (key !in s.views ==> t.handles == s.handles)
    ensures Step(s, UnsubscribeLogs(a)) == Step(s, UnsubscribeView(a, "logs"))
  {
    hide Rekeyed, Accounted, Abort;
    var key := ViewKey(a, kind);
    TablesRekeyed(s, key);
    RekeyingFrees(s, Unwatch(s, key), View(key));
    assert key in s.views ==> Lookup(s, View(key)) == Some(s.views[key]);
  }

  /** Subscribing a view, or the logs, of a listed peer starts its task and stops the one it displaces. */
  lemma SubscribeStarts(s: State, a: string, kind: string)
    requires Accounted(s)
    ensures var t := Step(s, SubscribeView(a, kind));
            if a in Addresses(s.peers) then Started(s, t, View(a + "|" + kind)) && t.peers == s.peers else t == s
    ensures Step(s, SubscribeLogs(a)) == Step(s, SubscribeView(a, "logs"))
  {
    hide Rekeyed, Accounted, AbortOld, Started;
    var key := ViewKey(a, kind);
    TablesRekeyed(s, key);
    RekeyingStarts(s, Watch(s, key), View(key));
  }

  lemma SuperviseStarts(s: State, a: string)
    requires Accounted(s)
    ensures Started(s, Supervise(s, a), Task(a))
    ensures var t := Unsupervise(s, a); a !in t.tasks && Silenced(s, t, Task(a))
  {
    hide Rekeyed, Accounted, AbortOld, Started, Silenced;
    TablesRekeyed(s, a);
    RekeyingStarts(s, Supervise(s, a), Task(a));
    RekeyingFrees(s, Unsupervise(s, a), Task(a));
  }

  /** A saved addition of a new address appends the peer and starts its supervisor; a listed one is refused. */
  lemma AdditionStarts(s: State, name: string, a: string, port: u16)
    requires Accounted(s)
    ensures var t := Step(s, AddPeer(name, a, port, true));
            if a in Addresses(s.peers) then t == s
            else t.peers == s.peers + [Peer(name, a, port)] && t.views == s.views && Started(s, t, Task(a))
  {
    hide Accounted, Started, AbortOld;
    var added := s.(peers := s.peers + [Peer(name, a, port)]);
    PeersDoNotMatter(s, added.peers);
    SuperviseStarts(added, a);
    StartedIgnoresPeers(s, added, Supervise(added, a), Task(a));
  }

  lemma StartedIgnoresPeers(s: State, added: State, t: State, key: Key)
    requires added == s.(peers := added.peers)
    ensures Started(added, t, key) <==> Started(s, t, key)
    ensures Silenced(added, t, key) <==> Silenced(s, t, key)
  {
  }

  /** A saved removal takes the first peer of the address away and stops its supervisor; an unlisted one is refused. */
  lemma RemovalStops(s: State, a: string) returns (k: nat)
    requires Accounted(s)
    ensures var t := Step(s, RemovePeer(a, true));
            if a in Addresses(s.peers)
            then First(s.peers, a, k) && t.peers == s.peers[..k] + s.peers[k + 1..]
                 && a !in t.tasks && Silenced(s, t, Task(a))
            else t == s
  {
    hide Accounted, Silenced, AbortOld, First, Addresses;
    k := 0;
    if a in Addresses(s.peers) {
      k := SomeFirst(s.peers, a);
      FirstSplits(s.peers, a, "", k);
      FirstInside(s.peers, a, k);
      var removed := s.(peers := RemoveFirst(s.peers, a));
      PeersDoNotMatter(s, removed.peers);
      SuperviseStarts(removed, a);
      StartedIgnoresPeers(s, removed, Unsupervise(removed, a), Task(a));
    }
  }

  /** Renaming gives the first peer of the address the new name, saved or not, and changes nothing else. */
  lemma RenamingNames(s: State, a: string, name: string, saves: bool) returns (k: nat)
    ensures var t := Step(s, RenamePeer(a, name, saves));
            if a in Addresses(s.peers)
            then First(s.peers, a, k) && t == s.(peers := s.peers[k := Peer(name, a, s.peers[k].port)])
            else t == s
  {
    hide First, Addresses;
    k := 0;
    if a in Addresses(s.peers) {
      k := SomeFirst(s.peers, a);
      FirstSplits(s.peers, a, name, k);
      FirstInside(s.peers, a, k);
    }
  }

  /** A view whose stream ends stays registered, as finished; a supervisor does not end. */
  lemma FinishingKeepsEntry(s: State, id: nat)
    requires Accounted(s) && id < |s.handles|
    ensures var t := Step(s, Finish(id)); var h := s.handles[id];
            if h.owner.View? && h.phase.Running?
            then t.handles[id] == Handle(h.owner, Finished) && Lookup(t, h.owner) == Some(id)
            else t == s
  {
  }

  // ---------------------------------------------------------------- supervisors and peers agree

  ghost predicate Synced(s: State) {
    forall a :: a in s.tasks <==> a in Addresses(s.peers)
  }

  lemma KnownAfterAdd(peers: seq<Peer>, p: Peer, a: string)
    ensures a in Addresses(peers + [p]) <==> a in Addresses(peers) || a == p.address
  {
    hide Addresses;
    OccursIff(peers, a);
    OccursIff(peers + [p], a);
    OccurrencesAppend(peers, p, a);
  }

  lemma KnownAfterRemove(peers: seq<Peer>, address: string, a: string)
    ensures a in Addresses(RemoveFirst(peers, address)) <==>
            if a == address then Occurrences(peers, a) > 1 else a in Addresses(peers)
  {
    hide Addresses;
    OccursIff(peers, a);
    OccursIff(RemoveFirst(peers, address), a);
    RemoveCounts(peers, address, a);
  }

  /**
   What a command must meet to keep the registry and the peer list in agreement: an addition
   and the removal of a peer that occurs once must be saved; the removal of one that occurs
   more than once must not be.
   */
  predicate StaysSynced(s: State, c: Command) {
    match c
    case AddPeer(_, address, _, saves) => saves || Knows(s, address)
    case RemovePeer(address, saves) =>
      !Knows(s, address) || saves == (Occurrences(s.peers, address) == 1)
    case _ => true
  }

  lemma AddSynced(s: State, name: string, address: string, port: u16, saves: bool)
    requires Synced(s) && !Knows(s, address)
    ensures Synced(Step(s, AddPeer(name, address, port, saves))) <==> saves
  {
    hide Addresses, AbortOld;
    var t := Step(s, AddPeer(name, address, port, saves));
    forall a ensures a in Addresses(t.peers) <==> a in Addresses(s.peers) || a == address {
      KnownAfterAdd(s.peers, Peer(name, address, port), a);
    }
    if !saves {
      assert address in Addresses(t.peers) && address !in t.tasks;
    }
  }

  lemma RemoveSynced(s: State, address: string, saves: bool)
    requires Synced(s) && Knows(s, address)
    ensures Synced(Step(s, RemovePeer(address, saves))) <==> saves == (Occurrences(s.peers, address) == 1)
  {
    hide Addresses, AbortOld, Occurrences, RemoveFirst;
    var t := Step(s, RemovePeer(address, saves));
    OccursIff(s.peers, address);
    forall a ensures a in Addresses(t.peers) <==>
                     if a == address then Occurrences(s.peers, a) > 1 else a in Addresses(s.peers) {
      KnownAfterRemove(s.peers, address, a);
    }
    assert address in t.tasks <==> !saves;
  }

  /** Exactly the commands meeting that condition keep the agreement. */
  lemma SyncedIff(s: State, c: Command)
    requires Synced(s)
    ensures Synced(Step(s, c)) <==> StaysSynced(s, c)
  {
    hide Addresses, AbortOld, Occurrences, RemoveFirst, RenameFirst, ViewKey;
    match c
    case AddPeer(name, address, port, saves) =>
      if !Knows(s, address) { AddSynced(s, name, address, port, saves); }
    case RemovePeer(address, saves) =>
      if Knows(s, address) { RemoveSynced(s, address, saves); }
    case RenamePeer(address, name, _) =>
      RenameKeepsAddresses(s.peers, address, name);
    case _ =>
  }

  lemma {:induction false} SuperviseAllNames(s: State, peers: seq<Peer>, a: string)
    ensures SuperviseAll(s, peers).peers == s.peers
    ensures a in SuperviseAll(s, peers).tasks <==> a in s.tasks || a in Addresses(peers)
  {
    hide AbortOld;
    if peers != [] {
      SuperviseAllNames(s, Front(peers), a);
      KnownAfterAdd(Front(peers), Last(peers), a);
      assert Front(peers) + [Last(peers)] == peers;
    }
  }

  /** Starting up agrees with any loaded list, even one with repeated addresses. */
  lemma SetupSynced(loaded: seq<Peer>)
    ensures Setup(loaded).peers == loaded && Synced(Setup(loaded))
  {
    hide SuperviseAll;
    var start := State(loaded, map[], map[], []);
    forall a ensures a in Setup(loaded).tasks <==> a in Addresses(loaded) {
      SuperviseAllNames(start, loaded, a);
    }
    SuperviseAllNames(start, loaded, "");
  }

  predicate Saved(c: Command) {
    (c.AddPeer? || c.RemovePeer? ==> c.saves)
  }

  lemma StepKeepsDistinct(s: State, c: Command)
    requires Distinct(s.peers)
    ensures Distinct(Step(s, c).peers)
  {
    hide Distinct, AbortOld, RemoveFirst, RenameFirst, Addresses, ViewKey;
    match c
    case AddPeer(name, address, port, _) =>
      OperationsKeepDistinct(s.peers, Peer(name, address, port), "");
    case RemovePeer(address, _) =>
      OperationsKeepDistinct(s.peers, Peer("", address, 0), "");
    case RenamePeer(address, name, _) =>
      OperationsKeepDistinct(s.peers, Peer("", address, 0), name);
    case _ =>
  }

  lemma SavedStaysSynced(s: State, c: Command)
    requires Distinct(s.peers) && Saved(c)
    ensures StaysSynced(s, c)
  {
    if c.RemovePeer? {
      DistinctIff(s.peers);
      OccursIff(s.peers, c.address);
      assert Occurrences(s.peers, c.address) <= 1;
    }
  }

  lemma {:induction false} RunSynced(s: State, commands: seq<Command>)
    requires Synced(s) && Distinct(s.peers) && forall c :: c in commands ==> Saved(c)
    ensures Synced(Run(s, commands)) && Distinct(Run(s, commands).peers)
  {
    hide Synced, Distinct, Step, Saved, StaysSynced;
    if commands != [] {
      RunSynced(s, Front(commands));
      var r := Run(s, Front(commands));
      assert Last(commands) in commands;
      SavedStaysSynced(r, Last(commands));
      SyncedIff(r, Last(commands));
      StepKeepsDistinct(r, Last(commands));
    }
  }

  ghost predicate Supervised(s: State, address: string) {
    exists id :: 0 <= id < |s.handles| && s.handles[id] == Handle(Task(address), Running)
  }

  /**
   From a list with distinct addresses and with every addition and removal saved, in every
   run exactly the listed addresses are registered, exactly those have a supervisor running,
   and each is listed once. (That there is only one supervisor is EveryTaskAccounted.)
   */
  lemma OneSupervisorPerPeer(loaded: seq<Peer>, commands: seq<Command>)
    requires Distinct(loaded) && forall c :: c in commands ==> Saved(c)
    ensures var s := Run(Setup(loaded), commands);
            && Synced(s) && Distinct(s.peers)
            && forall a :: Supervised(s, a) <==> a in Addresses(s.peers)
  {
    hide Run, Setup, Distinct, Addresses;
    SetupSynced(loaded);
    RunSynced(Setup(loaded), commands);
    StartedAccounts(loaded, commands);
    var s := Run(Setup(loaded), commands);
    forall a ensures Supervised(s, a) <==> a in Addresses(s.peers) {
      SupervisedIff(s, a);
    }
  }

  lemma SupervisedIff(s: State, a: string)
    requires Accounted(s)
    ensures Supervised(s, a) <==> a in s.tasks
  {
    if a in s.tasks {
      assert Lookup(s, Task(a)) == Some(s.tasks[a]);
      assert s.handles[s.tasks[a]] == Handle(Task(a), Running);
    }
  }

  /** Agreement lost to one command that could not be saved. */
  lemma UnsavedAddition()
    ensures var s := Setup([]);
            Synced(s) && !Synced(Step(s, AddPeer("lab", "10.44.0.2", 8443, false)))
  {
    hide Setup, Step, Synced;
    SetupSynced([]);
    SyncedIff(Setup([]), AddPeer("lab", "10.44.0.2", 8443, false));
  }

  /** And to one that was saved, removing one of two peers with one address. */
  lemma RepeatedAddress(p: Peer)
    ensures var s := Setup([p, p]);
            Synced(s) && !Synced(Step(s, RemovePeer(p.address, true)))
  {
    hide Setup, Step, Synced;
    SetupSynced([p, p]);
    SyncedIff(Setup([p, p]), RemovePeer(p.address, true));
    var peers := [p, p];
    assert peers[1..] == [p] && Addresses(peers)[0] == p.address;
    assert Occurrences([p], p.address) == 1;
  }

  // ---------------------------------------------------------------- after a failed save

  lemma {:induction false} UnsupervisedStays(s: State, a: string, commands: seq<Command>)
    requires Knows(s, a) && a !in s.tasks
    requires forall c :: c in commands && c.RemovePeer? ==> c.address != a
    ensures Knows(Run(s, commands), a) && a !in Run(s, commands).tasks
  {
    hide Step, Addresses;
    if commands != [] {
      UnsupervisedStays(s, a, Front(commands));
      assert Last(commands) in commands;
      UnsupervisedStep(Run(s, Front(commands)), a, Last(commands));
    }
  }

  lemma UnsupervisedStep(s: State, a: string, c: Command)
    requires Knows(s, a) && a !in s.tasks && !(c.RemovePeer? && c.address == a)
    ensures Knows(Step(s, c), a) && a !in Step(s, c).tasks
  {
    hide Addresses, AbortOld, RemoveFirst, RenameFirst, ViewKey;
    match c
    case AddPeer(name, address, port, _) => KnownAfterAdd(s.peers, Peer(name, address, port), a);
    case RemovePeer(address, _) => KnownAfterRemove(s.peers, address, a);
    case RenamePeer(address, name, _) => RenameKeepsAddresses(s.peers, address, name);
    case _ =>
  }

  lemma FailedAddition(s: State, name: string, a: string, port: u16)
    requires Synced(s) && !Knows(s, a)
    ensures var t := Step(s, AddPeer(name, a, port, false)); Knows(t, a) && a !in t.tasks
  {
    hide Addresses;
    KnownAfterAdd(s.peers, Peer(name, a, port), a);
  }

  /**
   An addition whose save failed leaves a peer that is listed and not supervised, and it
   stays so through every run that does not remove it: adding it again is refused.
   */
  lemma FailedAddSticks(s: State, name: string, a: string, port: u16, commands: seq<Command>)
    requires Accounted(s) && Synced(s) && !Knows(s, a)
    requires forall c :: c in commands && c.RemovePeer? ==> c.address != a
    ensures var t := Run(Step(s, AddPeer(name, a, port, false)), commands);
            Knows(t, a) && a !in t.tasks && !Supervised(t, a)
  {
    hide Step, Run, Accounted, Synced, Supervised, Knows;
    var t := Step(s, AddPeer(name, a, port, false));
    FailedAddition(s, name, a, port);
    UnsupervisedStays(t, a, commands);
    StepAccounts(s, AddPeer(name, a, port, false));
    RunAccounts(t, commands);
    SupervisedIff(Run(t, commands), a);
  }

  /** Removing the peer undoes the failed addition completely. */
  lemma FailedAddUndone(s: State, name: string, a: string, port: u16)
    requires Synced(s) && !Knows(s, a)
    ensures Step(Step(s, AddPeer(name, a, port, false)), RemovePeer(a, true)) == s
  {
    hide Addresses, RemoveFirst;
    FailedAddition(s, name, a, port);
    AddThenRemove(s.peers, Peer(name, a, port));
  }

  lemma {:induction false} OrphanStays(s: State, a: string, commands: seq<Command>)
    requires Accounted(s) && !Knows(s, a) && a in s.tasks
    requires forall c :: c in commands && c.AddPeer? ==> c.address != a
    ensures !Knows(Run(s, commands), a) && Supervised(Run(s, commands), a)
    ensures a in Run(s, commands).tasks && Run(s, commands).tasks[a] == s.tasks[a]
  {
    hide Step, Addresses, Accounted, Supervised;
    if commands != [] {
      OrphanStays(s, a, Front(commands));
      assert Last(commands) in commands;
      OrphanStep(Run(s, Front(commands)), a, Last(commands));
    }
    RunAccounts(s, commands);
    SupervisedIff(Run(s, commands), a);
  }

  lemma OrphanStep(s: State, a: string, c: Command)
    requires !Knows(s, a) && a in s.tasks && !(c.AddPeer? && c.address == a)
    ensures !Knows(Step(s, c), a) && a in Step(s, c).tasks && Step(s, c).tasks[a] == s.tasks[a]
  {
    hide Addresses, AbortOld, RemoveFirst, RenameFirst, ViewKey;
    match c
    case AddPeer(name, address, port, _) => KnownAfterAdd(s.peers, Peer(name, address, port), a);
    case RemovePeer(address, _) => KnownAfterRemove(s.peers, address, a);
    case RenamePeer(address, name, _) => RenameKeepsAddresses(s.peers, address, name);
    case _ =>
  }

  lemma FailedRemoval(s: State, a: string)
    requires Synced(s) && Occurrences(s.peers, a) == 1
    ensures var t := Step(s, RemovePeer(a, false));
            !Knows(t, a) && a in t.tasks && a in s.tasks && t.tasks[a] == s.tasks[a]
  {
    hide Addresses;
    OccursIff(s.peers, a);
    KnownAfterRemove(s.peers, a, a);
  }

  /**
   A removal whose save failed leaves a supervisor of an unlisted address, and it keeps
   running through every run that does not add the address: removing it again is refused.
   */
  lemma FailedRemoveSticks(s: State, a: string, commands: seq<Command>)
    requires Accounted(s) && Synced(s) && Occurrences(s.peers, a) == 1
    requires forall c :: c in commands && c.AddPeer? ==> c.address != a
    ensures var t := Run(Step(s, RemovePeer(a, false)), commands);
            && !Knows(t, a) && Supervised(t, a)
            && a in s.tasks && a in t.tasks && t.tasks[a] == s.tasks[a]
  {
    hide Step, Run, Accounted, Synced, Supervised, Knows, Occurrences;
    FailedRemoval(s, a);
    StepAccounts(s, RemovePeer(a, false));
    OrphanStays(Step(s, RemovePeer(a, false)), a, commands);
  }
}

/** The desktop's fleet store: per-host state with bounded metric history. */
module Fleet {
  import opened Common
  import opened Peers

  const HISTORY: nat := 120

  datatype Dev = Dev(rx: nat, tx: nat)

  datatype Metrics = Metrics(timestamp: int, cpu: real, memTotal: nat, memUsed: nat, network: map<string, Dev>)

  datatype History = History(t: seq<int>, cpu: seq<real>, mem: seq<real>, net: seq<real>)

  datatype PrevNet = PrevNet(total: nat, t: real)

  /** One host. `Info` stands for the agent's identity record. */
  datatype Host<Info> = Host(peer: Peer, online: bool, info: Option<Info>, latest: Option<Metrics>,
                             lastSeen: Option<int>, hist: History, prevNet: Option<PrevNet>)

  datatype State<Info> = State(order: seq<string>, hosts: map<string, Host<Info>>, selected: Option<string>)

  datatype Event<Info> =
    | SetPeers(peers: seq<Peer>)
    | Status(address: string, online: bool, info: Option<Info>)
    | Frame(address: string, metrics: Metrics, now: int)
    | Select(choice: Option<string>)

  function Init<Info>(): State<Info> { State([], map[], None) }

  function EmptyHost<Info>(p: Peer): Host<Info> {
    Host(p, false, None, None, None, History([], [], [], []), None)
  }

  // ---------------------------------------------------------------- network totals

  /** The bytes of all devices together. */
  ghost function NetTotal(network: map<string, Dev>): nat
    decreases |network|
  {
    if network == map[] then 0
    else
      var k :| k in network;
      network[k].rx + network[k].tx + NetTotal(network - {k})
  }

  /** The total does not depend on the order in which devices are added up. */
  lemma {:induction false} NetTotalWithout(network: map<string, Dev>, k: string)
    requires k in network
    ensures NetTotal(network) == network[k].rx + network[k].tx + NetTotal(network - {k})
    decreases |network|
  {
    var x :| x in network && NetTotal(network) == network[x].rx + network[x].tx + NetTotal(network - {x});
    if x != k {
      NetTotalWithout(network - {x}, k);
      NetTotalWithout(network - {k}, x);
      assert network - {x} - {k} == network - {k} - {x};
    }
  }

  method AddUp(network: map<string, Dev>) returns (total: nat)
    ensures total == NetTotal(network)
  {
    total := 0;
    var left := network;
    while left != map[]
      invariant left.Keys <= network.Keys && total + NetTotal(left) == NetTotal(network)
      decreases |left|
    {
      var k :| k in left;
      NetTotalWithout(left, k);
      total := total + left[k].rx + left[k].tx;
      left := left - {k};
    }
  }

  // ---------------------------------------------------------------- the transitions

  /** Appends v, keeping at most the last HISTORY values. */
  function Cap<T>(a: seq<T>, v: T): seq<T> {
    (if |a| >= HISTORY then a[|a| - HISTORY + 1..] else a) + [v]
  }

  function Push(h: History, t: int, cpu: real, mem: real, net: real): History {
    History(Cap(h.t, t), Cap(h.cpu, cpu), Cap(h.mem, mem), Cap(h.net, net))
  }

  function Sec(millis: int): real { millis as real / 1000.0 }

  function Seconds(m: Metrics): real { Sec(m.timestamp) }

  function MemFraction(m: Metrics): real {
    if m.memTotal > 0 then m.memUsed as real / m.memTotal as real else 0.0
  }

  /** Bytes per second since the previous frame; 0 without one or when no time has passed. */
  function Rate(prev: Option<PrevNet>, total: nat, t: real): real {
    if prev.Some? && t - prev.value.t > 0.0 then
      var r := (total - prev.value.total) as real / (t - prev.value.t);
      if r > 0.0 then r else 0.0
    else 0.0
  }

  ghost function Absorb<Info>(h: Host<Info>, m: Metrics, now: int): Host<Info> {
    var total, t := NetTotal(m.network), Seconds(m);
    h.(online := true, latest := Some(m), lastSeen := Some(now),
       hist := Push(h.hist, m.timestamp, m.cpu, MemFraction(m), Rate(h.prevNet, total, t)),
       prevNet := Some(PrevNet(total, t)))
  }

  /** The host entries for a peer list; known addresses keep their state. */
  function Hosts<Info>(known: map<string, Host<Info>>, peers: seq<Peer>): map<string, Host<Info>> {
    if peers == [] then map[]
    else
      var p := Last(peers);
      Hosts(known, Front(peers))[p.address := if p.address in known then known[p.address].(peer := p) else EmptyHost(p)]
  }

  /** The selection after a new peer list; an empty string counts as no selection. */
  function Reselect<Info>(selected: Option<string>, hosts: map<string, Host<Info>>, order: seq<string>)
    : Option<string>
  {
    if selected.Some? && selected.value != "" && selected.value in hosts then selected
    else if order != [] then Some(order[0]) else None
  }

  ghost function Step<Info>(s: State<Info>, e: Event<Info>): State<Info> {
    match e
    case SetPeers(peers) =>
      var hosts, order := Hosts(s.hosts, peers), Addresses(peers);
      State(order, hosts, Reselect(s.selected, hosts, order))
    case Status(a, online, info) =>
      if a !in s.hosts then s
      else
        var h := s.hosts[a];
        s.(hosts := s.hosts[a := h.(online := online, info := if info.Some? then info else h.info)])
    case Frame(a, m, now) =>
      if a !in s.hosts then s else s.(hosts := s.hosts[a := Absorb(s.hosts[a], m, now)])
    case Select(choice) => s.(selected := choice)
  }

  class Store<Info> {
    var state: State<Info>

    constructor ()
      ensures state == Init()
    {
      state := Init();
    }

    method SetPeers(peers: seq<Peer>)
      modifies this
      ensures state == Step(old(state), Event.SetPeers(peers))
    {
      var hosts: map<string, Host<Info>> := map[];
      for k := 0 to |peers|
        invariant state == old(state) && hosts == Hosts(state.hosts, peers[..k])
      {
        var p := peers[k];
        assert Front(peers[..k + 1]) == peers[..k] && Last(peers[..k + 1]) == p;
        hosts := hosts[p.address := if p.address in state.hosts then state.hosts[p.address].(peer := p)
                                    else EmptyHost(p)];
      }
      assert peers[..|peers|] == peers;
      var order := Addresses(peers);
      var selected := if state.selected.Some? && state.selected.value != "" && state.selected.value in hosts
                      then state.selected else if order != [] then Some(order[0]) else None;
      state := State(order, hosts, selected);
    }

    method ApplyStatus(address: string, online: bool, info: Option<Info>)
      modifies this
      ensures state == Step(old(state), Status(address, online, info))
    {
      if address in state.hosts {
        var h := state.hosts[address];
        h := h.(online := online, info := if info.Some? then info else h.info);
        state := state.(hosts := state.hosts[address := h]);
      }
    }

    method ApplyMetrics(address: string, m: Metrics, now: int)
      modifies this
      ensures state == Step(old(state), Frame(address, m, now))
    {
      if address in state.hosts {
        var h := state.hosts[address];
        var total := AddUp(m.network);
        var t := Seconds(m);
        var net := Rate(h.prevNet, total, t);
        h := h.(online := true, latest := Some(m), lastSeen := Some(now),
                hist := Push(h.hist, m.timestamp, m.cpu, MemFraction(m), net),
                prevNet := Some(PrevNet(total, t)));
        state := state.(hosts := state.hosts[address := h]);
      }
    }
  }

  // ---------------------------------------------------------------- whole runs

  ghost function After<Info>(es: seq<Event<Info>>): State<Info> {
    if es == [] then Init() else Step(After(Front(es)), Last(es))
  }

  predicate Lists(peers: seq<Peer>, a: string) { exists i :: 0 <= i < |peers| && peers[i].address == a }

  /** Whether the latest peer list names the address. */
  predicate Present<Info>(es: seq<Event<Info>>, a: string) {
    es != [] && (if Last(es).SetPeers? then Lists(Last(es).peers, a) else Present(Front(es), a))
  }

  /** The frames received for an address since it was last added to the peer list. */
  function Frames<Info>(es: seq<Event<Info>>, a: string): seq<Metrics> {
    if es == [] then []
    else
      var before := Frames(Front(es), a);
      match Last(es)
      case SetPeers(peers) => if Lists(peers, a) && Present(Front(es), a) then before else []
      case Frame(b, m, _) => if b == a && Present(Front(es), a) then before + [m] else before
      case _ => before
  }

  /** The last HISTORY values of a series. */
  function Window<T>(s: seq<T>): (w: seq<T>)
    ensures |w| == if |s| < HISTORY then |s| else HISTORY
    ensures w == s[|s| - |w|..]
  {
    if |s| <= HISTORY then s else s[|s| - HISTORY..]
  }

  lemma CapWindow<T>(s: seq<T>, v: T)
    ensures Cap(Window(s), v) == Window(s + [v])
  {
  }

  ghost function Net(m: Metrics): PrevNet { PrevNet(NetTotal(m.network), Seconds(m)) }

  ghost function NetBefore(fs: seq<Metrics>): Option<PrevNet> {
    if fs == [] then None else Some(Net(Last(fs)))
  }

  // The four series a list of frames gives rise to.

  function Times(fs: seq<Metrics>): seq<int> {
    if fs == [] then [] else Times(Front(fs)) + [Last(fs).timestamp]
  }

  function Cpus(fs: seq<Metrics>): seq<real> {
    if fs == [] then [] else Cpus(Front(fs)) + [Last(fs).cpu]
  }

  function Mems(fs: seq<Metrics>): seq<real> {
    if fs == [] then [] else Mems(Front(fs)) + [MemFraction(Last(fs))]
  }

  ghost function Rates(fs: seq<Metrics>): seq<real> {
    if fs == [] then []
    else Rates(Front(fs)) + [Rate(NetBefore(Front(fs)), Net(Last(fs)).total, Net(Last(fs)).t)]
  }

  ghost function HistoryOf(fs: seq<Metrics>): History {
    History(Window(Times(fs)), Window(Cpus(fs)), Window(Mems(fs)), Window(Rates(fs)))
  }

  /** What a host's history says, given the frames it received since it was added. */
  ghost predicate Reflects<Info>(h: Host<Info>, fs: seq<Metrics>) {
    && h.hist == HistoryOf(fs)
    && h.prevNet == NetBefore(fs)
    && h.latest == (if fs == [] then None else Some(Last(fs)))
  }

  lemma {:induction false} HostsBuilt<Info>(known: map<string, Host<Info>>, peers: seq<Peer>, a: string)
    ensures a in Hosts(known, peers) <==> Lists(peers, a)
    ensures a in Hosts(known, peers) ==>
              var h := Hosts(known, peers)[a];
              h == if a in known then known[a].(peer := h.peer) else EmptyHost(h.peer)
  {
    if peers != [] {
      HostsBuilt(known, Front(peers), a);
      assert Lists(peers, a) <==> Lists(Front(peers), a) || Last(peers).address == a by {
        if i :| 0 <= i < |peers| && peers[i].address == a && i < |peers| - 1 {
          assert Front(peers)[i].address == a;
        }
        if i :| 0 <= i < |Front(peers)| && Front(peers)[i].address == a {
          assert peers[i].address == a;
        }
      }
    }
  }

  lemma AbsorbReflects<Info>(h: Host<Info>, fs: seq<Metrics>, m: Metrics, now: int)
    requires Reflects(h, fs)
    ensures Reflects(Absorb(h, m, now), fs + [m])
  {
    assert Front(fs + [m]) == fs;
    CapWindow(Times(fs), m.timestamp);
    CapWindow(Cpus(fs), m.cpu);
    CapWindow(Mems(fs), MemFraction(m));
    CapWindow(Rates(fs), Rate(NetBefore(fs), Net(m).total, Net(m).t));
  }

  lemma EmptyReflects<Info>(h: Host<Info>)
    requires h.hist == History([], [], [], []) && h.prevNet.None? && h.latest.None?
    ensures Reflects(h, [])
  {
  }

  /**
   Over every run of events the store knows exactly the addresses of the latest peer list, and
   each history holds the last 120 samples, or all if fewer, of the frames received since that
   host was added, across further peer lists and status events.
   */
  lemma {:induction false} HistoriesAreWindows<Info>(es: seq<Event<Info>>, a: string)
    ensures a in After(es).hosts <==> Present(es, a)
    ensures a in After(es).hosts ==> Reflects(After(es).hosts[a], Frames(es, a))
    ensures !Present(es, a) ==> Frames(es, a) == []
  {
    hide Reflects, Step, Lists;
    if es != [] {
      HistoriesAreWindows(Front(es), a);
      StepReflects(After(Front(es)), Last(es), a, Frames(Front(es), a));
    }
  }

  lemma PeersReflect<Info>(s: State<Info>, peers: seq<Peer>, a: string, fs: seq<Metrics>)
    requires a in s.hosts ==> Reflects(s.hosts[a], fs)
    ensures a in Step(s, SetPeers(peers)).hosts <==> Lists(peers, a)
    ensures a in Step(s, SetPeers(peers)).hosts ==>
              Reflects(Step(s, SetPeers(peers)).hosts[a], if a !in s.hosts then [] else fs)
  {
    hide Hosts, Reselect, HistoryOf, NetBefore, Lists;
    HostsBuilt(s.hosts, peers, a);
    if Lists(peers, a) && a !in s.hosts { EmptyReflects(Hosts(s.hosts, peers)[a]); }
  }

  lemma FrameReflects<Info>(s: State<Info>, b: string, m: Metrics, now: int, a: string, fs: seq<Metrics>)
    requires a in s.hosts ==> Reflects(s.hosts[a], fs)
    ensures a in Step(s, Frame(b, m, now)).hosts <==> a in s.hosts
    ensures a in s.hosts ==> Reflects(Step(s, Frame(b, m, now)).hosts[a], if b == a then fs + [m] else fs)
  {
    hide Reflects, Absorb;
    if b == a && a in s.hosts { AbsorbReflects(s.hosts[a], fs, m, now); }
  }

  lemma StatusReflects<Info>(s: State<Info>, e: Event<Info>, a: string, fs: seq<Metrics>)
    requires e.Status? || e.Select?
    requires a in s.hosts ==> Reflects(s.hosts[a], fs)
    ensures a in Step(s, e).hosts <==> a in s.hosts
    ensures a in s.hosts ==> Reflects(Step(s, e).hosts[a], fs)
  {
    hide HistoryOf, NetBefore;
  }

  lemma StepReflects<Info>(s: State<Info>, e: Event<Info>, a: string, fs: seq<Metrics>)
    requires a in s.hosts ==> Reflects(s.hosts[a], fs)
    ensures e.SetPeers? ==> (a in Step(s, e).hosts <==> Lists(e.peers, a))
    ensures !e.SetPeers? ==> (a in Step(s, e).hosts <==> a in s.hosts)
    ensures a in Step(s, e).hosts ==>
              Reflects(Step(s, e).hosts[a],
                       if a !in s.hosts then [] else if e.Frame? && e.address == a then fs + [e.metrics] else fs)
  {
    hide Reflects, Step, Lists;
    match e
    case SetPeers(peers) => PeersReflect(s, peers, a, fs);
    case Frame(b, m, now) => FrameReflects(s, b, m, now, a, fs);
    case _ => StatusReflects(s, e, a, fs);
  }

  /** The displayed order names exactly the known hosts. */
  lemma {:induction false} OrderMatchesHosts<Info>(es: seq<Event<Info>>, a: string)
    ensures a in After(es).order <==> a in After(es).hosts
  {
    if es != [] {
      OrderMatchesHosts(Front(es), a);
      if Last(es).SetPeers? {
        var peers := Last(es).peers;
        HostsBuilt(After(Front(es)).hosts, peers, a);
        if i :| 0 <= i < |peers| && peers[i].address == a { assert Addresses(peers)[i] == a; }
      }
    }
  }

  lemma {:induction false} SeriesLengths(fs: seq<Metrics>)
    ensures |Times(fs)| == |Cpus(fs)| == |Mems(fs)| == |Rates(fs)| == |fs|
    ensures forall i :: 0 <= i < |fs| ==> Rates(fs)[i] >= 0.0
  {
    if fs != [] { SeriesLengths(Front(fs)); }
  }

  /** In every reachable state the four series of a host have one length, at most 120, and no rate is negative. */
  lemma HistoryShape<Info>(es: seq<Event<Info>>, a: string)
    requires a in After(es).hosts
    ensures var h := After(es).hosts[a].hist; var n := |Frames(es, a)|;
            && |h.t| == |h.cpu| == |h.mem| == |h.net| == (if n < 120 then n else 120)
            && forall i :: 0 <= i < |h.net| ==> h.net[i] >= 0.0
  {
    HistoriesAreWindows(es, a);
    SeriesLengths(Frames(es, a));
  }

  /** A new peer list keeps a selection it still contains, and otherwise selects its first host. */
  lemma SelectionSurvives<Info>(s: State<Info>, peers: seq<Peer>)
    ensures var t := Step(s, SetPeers(peers));
            && (t.selected.None? <==> peers == [])
            && (t.selected.Some? ==> Lists(peers, t.selected.value))
            && (if s.selected.Some? && s.selected.value != "" && Lists(peers, s.selected.value)
                then t.selected == s.selected
                else peers != [] ==> t.selected == Some(peers[0].address))
  {
    if s.selected.Some? { HostsBuilt(s.hosts, peers, s.selected.value); }
    if peers != [] { assert Lists(peers, peers[0].address); }
  }

  // ---------------------------------------------------------------- peers and selection

  /** p is the last peer of its address in the list. */
  predicate LastOf(peers: seq<Peer>, p: Peer) {
    exists i :: 0 <= i < |peers| && peers[i] == p && forall j :: i < j < |peers| ==> peers[j].address != p.address
  }

  lemma {:induction false} HostsPeer<Info>(known: map<string, Host<Info>>, peers: seq<Peer>, a: string)
    ensures a in Hosts(known, peers) ==>
              Hosts(known, peers)[a].peer.address == a && LastOf(peers, Hosts(known, peers)[a].peer)
  {
    if peers != [] {
      HostsPeer(known, Front(peers), a);
      if Last(peers).address == a {
        assert peers[|peers| - 1] == Last(peers);
      } else if a in Hosts(known, peers) {
        LastOfFront(peers, Hosts(known, peers)[a].peer);
      }
    }
  }

  lemma LastOfFront(peers: seq<Peer>, p: Peer)
    requires peers != [] && LastOf(Front(peers), p) && Last(peers).address != p.address
    ensures LastOf(peers, p)
  {
    var i :| 0 <= i < |Front(peers)| && Front(peers)[i] == p
             && forall j :: i < j < |Front(peers)| ==> Front(peers)[j].address != p.address;
    assert peers[i] == p;
    forall j | i < j < |peers| ensures peers[j].address != p.address {
      assert j < |peers| - 1 ==> peers[j] == Front(peers)[j];
    }
  }

  /** The peers most recently announced. */
  function Announced<Info>(es: seq<Event<Info>>): seq<Peer> {
    if es == [] then [] else if Last(es).SetPeers? then Last(es).peers else Announced(Front(es))
  }

  /**
   In every run the order is that of the latest peer list, and a host shows the peer, name and
   port included, that the latest list gives for its address.
   */
  lemma {:induction false} PeersAreLatest<Info>(es: seq<Event<Info>>, a: string)
    ensures |After(es).order| == |Announced(es)|
    ensures forall i :: 0 <= i < |Announced(es)| ==> After(es).order[i] == Announced(es)[i].address
    ensures a in After(es).hosts ==>
              After(es).hosts[a].peer.address == a && LastOf(Announced(es), After(es).hosts[a].peer)
  {
    hide LastOf, Step;
    if es != [] {
      PeersAreLatest(Front(es), a);
      StepPeers(After(Front(es)), Last(es), a);
    }
  }

  lemma StepPeers<Info>(s: State<Info>, e: Event<Info>, a: string)
    ensures e.SetPeers? ==> Step(s, e).order == Addresses(e.peers)
    ensures e.SetPeers? && a in Step(s, e).hosts ==>
              Step(s, e).hosts[a].peer.address == a && LastOf(e.peers, Step(s, e).hosts[a].peer)
    ensures !e.SetPeers? ==> Step(s, e).order == s.order
    ensures !e.SetPeers? && a in Step(s, e).hosts ==> a in s.hosts && Step(s, e).hosts[a].peer == s.hosts[a].peer
  {
    hide LastOf, Hosts, Push, NetTotal, Rate, MemFraction;
    if e.SetPeers? { HostsPeer(s.hosts, e.peers, a); }
  }

  /** Only a peer list or the user moves the selection. */
  lemma SelectionMoves<Info>(s: State<Info>, e: Event<Info>)
    ensures e.Select? ==> Step(s, e) == s.(selected := e.choice)
    ensures e.Status? || e.Frame? ==> Step(s, e).selected == s.selected && Step(s, e).order == s.order
  {
  }

  // ---------------------------------------------------------------- status

  predicate Concerns<Info>(e: Event<Info>, a: string) {
    (e.Status? || e.Frame?) && e.address == a
  }

  /** The status events and frames for an address since it was last added to the peer list. */
  function About<Info>(es: seq<Event<Info>>, a: string): seq<Event<Info>> {
    if es == [] then []
    else
      var before := About(Front(es), a);
      match Last(es)
      case SetPeers(peers) => if Lists(peers, a) && Present(Front(es), a) then before else []
      case e => if Concerns(e, a) && Present(Front(es), a) then before + [e] else before
  }

  /** Whether an event reports the host reachable: a frame does, a status says so itself. */
  predicate Alive<Info>(e: Event<Info>) { e.Frame? || (e.Status? && e.online) }

  /** The identity most recently reported. */
  function LatestInfo<Info>(es: seq<Event<Info>>): Option<Info> {
    if es == [] then None
    else if Last(es).Status? && Last(es).info.Some? then Last(es).info
    else LatestInfo(Front(es))
  }

  /** When the most recent frame arrived. */
  function LatestSeen<Info>(es: seq<Event<Info>>): Option<int> {
    if es == [] then None
    else if Last(es).Frame? then Some(Last(es).now)
    else LatestSeen(Front(es))
  }

  ghost predicate Reports<Info>(h: Host<Info>, about: seq<Event<Info>>) {
    && (h.online <==> about != [] && Alive(Last(about)))
    && h.info == LatestInfo(about)
    && h.lastSeen == LatestSeen(about)
  }

  lemma StepReports<Info>(s: State<Info>, e: Event<Info>, a: string, about: seq<Event<Info>>)
    requires a in s.hosts ==> Reports(s.hosts[a], about)
    ensures a in Step(s, e).hosts ==>
              Reports(Step(s, e).hosts[a],
                      if a !in s.hosts then [] else if Concerns(e, a) then about + [e] else about)
  {
    assert Front(about + [e]) == about;
    if e.SetPeers? { HostsBuilt(s.hosts, e.peers, a); }
  }

  /**
   In every run a host is shown online exactly when the last event about it since it was added
   was a frame or a status saying so, its identity is the last one reported, however many
   events brought none, and it was last seen when its last frame arrived.
   */
  lemma {:induction false} StatusIsLatest<Info>(es: seq<Event<Info>>, a: string)
    ensures a in After(es).hosts <==> Present(es, a)
    ensures a in After(es).hosts ==> Reports(After(es).hosts[a], About(es, a))
    ensures !Present(es, a) ==> About(es, a) == []
  {
    hide Reports, Step, Lists, Reflects;
    HistoriesAreWindows(es, a);
    if es != [] {
      StatusIsLatest(Front(es), a);
      StepReports(After(Front(es)), Last(es), a, About(Front(es), a));
    }
  }

  // ---------------------------------------------------------------- bytes are conserved

  /** Time increases and totals never fall from frame to frame. */
  ghost predicate Monotone(fs: seq<Metrics>) {
    forall i :: 0 < i < |fs| ==>
      Net(fs[i - 1]).t < Net(fs[i]).t && Net(fs[i - 1]).total <= Net(fs[i]).total
  }

  lemma RateTerm(a: PrevNet, b: PrevNet)
    requires a.t < b.t && a.total <= b.total
    ensures Rate(Some(a), b.total, b.t) * (b.t - a.t) == (b.total - a.total) as real
  {
    var d, n := b.t - a.t, (b.total - a.total) as real;
    assert (n / d) * d == n;
    if n / d < 0.0 { assert (n / d) * d <= 0.0; }
  }

  lemma MonotoneFront(fs: seq<Metrics>)
    requires Monotone(fs) && |fs| > 1
    ensures Monotone(Front(fs))
    ensures Net(Last(Front(fs))).t < Net(Last(fs)).t && Net(Last(Front(fs))).total <= Net(Last(fs)).total
  {
    hide Net;
    assert fs[|fs| - 2] == Last(Front(fs)) && fs[|fs| - 1] == Last(fs);
  }

  /** A series of rates, each times the seconds since the timestamp before it. */
  function Moved(t: seq<int>, net: seq<real>): real
    requires |t| == |net|
  {
    if |t| <= 1 then 0.0
    else Moved(Front(t), Front(net)) + Last(net) * (Last(t) as real / 1000.0 - Last(Front(t)) as real / 1000.0)
  }

  /** t and net are the timestamps and rates of the frames, the first rate aside. */
  ghost predicate SeriesOf(fs: seq<Metrics>, t: seq<int>, net: seq<real>) {
    && |t| == |net| == |fs|
    && (forall i :: 0 <= i < |fs| ==> t[i] == fs[i].timestamp)
    && (forall i :: 0 < i < |fs| ==> net[i] == Rate(Some(Net(fs[i - 1])), Net(fs[i]).total, Net(fs[i]).t))
  }

  lemma SeriesFront(fs: seq<Metrics>, t: seq<int>, net: seq<real>)
    requires SeriesOf(fs, t, net) && |fs| > 1
    ensures SeriesOf(Front(fs), Front(t), Front(net))
    ensures Last(t) == Last(fs).timestamp && Last(Front(t)) == Last(Front(fs)).timestamp
    ensures Last(net) == Rate(Some(Net(Last(Front(fs)))), Net(Last(fs)).total, Net(Last(fs)).t)
  {
    hide Rate, Net;
  }

  lemma {:induction false} MovedBytes(fs: seq<Metrics>, t: seq<int>, net: seq<real>)
    requires SeriesOf(fs, t, net) && Monotone(fs) && fs != []
    ensures Moved(t, net) == (Net(Last(fs)).total - Net(fs[0]).total) as real
  {
    hide Monotone, Rate, SeriesOf, NetTotal;
    SameLength(fs, t, net);
    if |fs| > 1 {
      SeriesFront(fs, t, net);
      MonotoneFront(fs);
      MovedBytes(Front(fs), Front(t), Front(net));
      RateTerm(Net(Last(Front(fs))), Net(Last(fs)));
    }
  }

  lemma SameLength(fs: seq<Metrics>, t: seq<int>, net: seq<real>)
    requires SeriesOf(fs, t, net)
    ensures |t| == |net| == |fs|
  {
  }

  /** What the recorded series hold at each position. */
  lemma {:induction false} SeriesAt(fs: seq<Metrics>, k: nat)
    requires k < |fs|
    ensures |Times(fs)| == |Rates(fs)| == |fs| && Times(fs)[k] == fs[k].timestamp
    ensures Rates(fs)[k] == Rate(NetBefore(fs[..k]), Net(fs[k]).total, Net(fs[k]).t)
  {
    hide Rate, Net, NetBefore;
    SeriesLengths(fs);
    if k < |fs| - 1 {
      SeriesAt(Front(fs), k);
      assert Front(fs)[..k] == fs[..k] && Front(fs)[k] == fs[k];
    } else {
      assert fs[..k] == Front(fs);
    }
  }

  lemma WindowAt<T>(s: seq<T>, i: nat)
    requires i < |Window(s)|
    ensures Window(s)[i] == s[|s| - |Window(s)| + i]
  {
  }

  lemma NetBeforeAt(fs: seq<Metrics>, k: nat)
    requires 0 < k <= |fs|
    ensures NetBefore(fs[..k]) == Some(Net(fs[k - 1]))
  {
    hide Net;
    assert Last(fs[..k]) == fs[k - 1];
  }

  lemma WindowSeriesAt(fs: seq<Metrics>, i: nat)
    requires |Times(fs)| == |Rates(fs)| == |fs| && i < |Window(fs)|
    ensures Window(Times(fs))[i] == Window(fs)[i].timestamp
    ensures i > 0 ==>
              Window(Rates(fs))[i] == Rate(Some(Net(Window(fs)[i - 1])), Net(Window(fs)[i]).total, Net(Window(fs)[i]).t)
  {
    hide Rate, Net, NetBefore, Times, Rates, Window;
    var k := |fs| - |Window(fs)| + i;
    WindowAt(fs, i);
    WindowAt(Times(fs), i);
    WindowAt(Rates(fs), i);
    SeriesAt(fs, k);
    if i > 0 {
      WindowAt(fs, i - 1);
      NetBeforeAt(fs, k);
    }
  }

  lemma WindowSeries(fs: seq<Metrics>)
    ensures SeriesOf(Window(fs), Window(Times(fs)), Window(Rates(fs)))
  {
    hide Rate, Net, Times, Rates, Window;
    SeriesLengths(fs);
    forall i | 0 <= i < |Window(fs)|
      ensures Window(Times(fs))[i] == Window(fs)[i].timestamp
      ensures i > 0 ==> Window(Rates(fs))[i] ==
                        Rate(Some(Net(Window(fs)[i - 1])), Net(Window(fs)[i]).total, Net(Window(fs)[i]).t)
    {
      WindowSeriesAt(fs, i);
    }
  }

  lemma {:induction false} SamplesAt(fs: seq<Metrics>, k: nat)
    requires k < |fs|
    ensures |Cpus(fs)| == |Mems(fs)| == |fs| && Cpus(fs)[k] == fs[k].cpu && Mems(fs)[k] == MemFraction(fs[k])
  {
    hide MemFraction;
    SeriesLengths(fs);
    if k < |fs| - 1 {
      SamplesAt(Front(fs), k);
      assert Front(fs)[k] == fs[k];
    }
  }

  /** Bytes per second, a fall in the total or in time counting as none. */
  lemma RateSpelledOut(a: PrevNet, b: Metrics)
    ensures var dt := b.timestamp as real / 1000.0 - a.t; var moved := (NetTotal(b.network) - a.total) as real;
            Rate(Some(a), Net(b).total, Net(b).t) == if dt > 0.0 && moved > 0.0 then moved / dt else 0.0
  {
    hide NetTotal;
    var dt, moved := b.timestamp as real / 1000.0 - a.t, (NetTotal(b.network) - a.total) as real;
    if dt > 0.0 { Quotients(moved, dt); }
  }

  lemma Quotients(n: real, d: real)
    requires d > 0.0
    ensures n / d > 0.0 <==> n > 0.0
  {
    assert (n / d) * d == n;
    if n / d > 0.0 { assert (n / d) * d > 0.0; } else { assert (n / d) * d <= 0.0; }
  }

  lemma WindowSamples(fs: seq<Metrics>, i: nat)
    requires i < |Window(fs)|
    ensures var h := HistoryOf(fs); var m := Window(fs)[i];
            && |h.t| == |h.cpu| == |h.mem| == |h.net| == |Window(fs)|
            && h.t[i] == m.timestamp && h.cpu[i] == m.cpu && h.mem[i] == MemFraction(m)
            && (i > 0 ==> h.net[i] == Rate(Some(Net(Window(fs)[i - 1])), Net(m).total, Net(m).t))
  {
    hide Times, Rates, Cpus, Mems, Window, Rate, Net, MemFraction;
    SeriesLengths(fs);
    WindowSeriesAt(fs, i);
    SamplesAt(fs, |fs| - |Window(fs)| + i);
    WindowAt(fs, i);
    WindowAt(Cpus(fs), i);
    WindowAt(Mems(fs), i);
  }

  /** The first frame of a host has nothing to compare with. */
  lemma FirstRate(fs: seq<Metrics>)
    ensures 0 < |fs| <= 120 ==> HistoryOf(fs).net != [] && HistoryOf(fs).net[0] == 0.0
  {
    hide Times, Rates, Cpus, Mems, Net;
    if 0 < |fs| <= 120 {
      SeriesAt(fs, 0);
      assert fs[..0] == [];
    }
  }

  lemma HostHistory<Info>(es: seq<Event<Info>>, a: string)
    requires a in After(es).hosts
    ensures After(es).hosts[a].hist == HistoryOf(Frames(es, a))
  {
    hide After, Frames, HistoryOf;
    HistoriesAreWindows(es, a);
  }

  /**
   What a host shows, sample by sample: timestamp, cpu usage and the used fraction of memory of
   each frame in the window, and the bytes per second since the frame before it.
   */
  lemma RecordedSamples<Info>(es: seq<Event<Info>>, a: string, i: nat)
    requires a in After(es).hosts && i < |Window(Frames(es, a))|
    ensures var h := After(es).hosts[a].hist; var w := Window(Frames(es, a)); var m := w[i];
            && |h.t| == |h.cpu| == |h.mem| == |h.net| == |w|
            && h.t[i] == m.timestamp && h.cpu[i] == m.cpu
            && h.mem[i] == (if m.memTotal > 0 then m.memUsed as real / m.memTotal as real else 0.0)
            && (i > 0 ==>
                  var dt := m.timestamp as real / 1000.0 - w[i - 1].timestamp as real / 1000.0;
                  var moved := (NetTotal(m.network) - NetTotal(w[i - 1].network)) as real;
                  h.net[i] == if dt > 0.0 && moved > 0.0 then moved / dt else 0.0)
            && (i == 0 && |Frames(es, a)| <= 120 ==> h.net[0] == 0.0)
  {
    hide After, Frames, HistoryOf, NetTotal, Window, Rate;
    HostHistory(es, a);
    WindowSamples(Frames(es, a), i);
    FirstRate(Frames(es, a));
    if i > 0 { RateSpelledOut(Net(Window(Frames(es, a))[i - 1]), Window(Frames(es, a))[i]); }
  }

  /**
   Conservation. In every run, if over the frames that a host's history still shows time
   increases and totals never fall, then the recorded rates times the seconds between recorded
   timestamps add up to the bytes transferred between the first and the last of those frames.
   */
  lemma BytesConserved<Info>(es: seq<Event<Info>>, a: string)
    requires a in After(es).hosts && Frames(es, a) != [] && Monotone(Window(Frames(es, a)))
    ensures var h := After(es).hosts[a].hist; var w := Window(Frames(es, a));
            && |h.t| == |h.net| == |w| > 0
            && Moved(h.t, h.net) == (NetTotal(Last(w).network) - NetTotal(w[0].network)) as real
  {
    hide Monotone, After, Frames, Times, Rates, Moved, NetTotal, SeriesOf;
    HistoriesAreWindows(es, a);
    var fs := Frames(es, a);
    WindowSeries(fs);
    SameLength(Window(fs), Window(Times(fs)), Window(Rates(fs)));
    MovedBytes(Window(fs), Window(Times(fs)), Window(Rates(fs)));
  }
}

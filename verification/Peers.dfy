/** The desktop's peer list: a vector keyed, by convention only, by address. */
module Peers {
  import opened Common

  type u16 = x: int | 0 <= x < 0x1_0000

  datatype Peer = Peer(name: string, address: string, port: u16)

  datatype Error = AlreadyExists | PeerNotFound

  function Addresses(peers: seq<Peer>): (r: seq<string>)
    ensures |r| == |peers| && forall i :: 0 <= i < |r| ==> r[i] == peers[i].address
  {
    seq(|peers|, i requires 0 <= i < |peers| => peers[i].address)
  }

  ghost predicate Distinct(peers: seq<Peer>) {
    forall i, j :: 0 <= i < j < |peers| ==> peers[i].address != peers[j].address
  }

  /** How many peers carry the address. */
  function Occurrences(peers: seq<Peer>, address: string): nat {
    if peers == [] then 0
    else (if peers[0].address == address then 1 else 0) + Occurrences(peers[1..], address)
  }

  // ---------------------------------------------------------------- specifications

  /** The list without the first peer of that address. */
  function RemoveFirst(peers: seq<Peer>, address: string): seq<Peer> {
    if peers == [] then []
    else if peers[0].address == address then peers[1..]
    else [peers[0]] + RemoveFirst(peers[1..], address)
  }

  /** The list with the first peer of that address renamed. */
  function RenameFirst(peers: seq<Peer>, address: string, name: string): seq<Peer> {
    if peers == [] then []
    else if peers[0].address == address then [peers[0].(name := name)] + peers[1..]
    else [peers[0]] + RenameFirst(peers[1..], address, name)
  }

  predicate First(peers: seq<Peer>, address: string, k: nat) {
    k < |peers| && peers[k].address == address && forall j :: 0 <= j < k ==> peers[j].address != address
  }

  lemma Cut(peers: seq<Peer>, k: nat, p: Peer)
    requires 0 < k < |peers|
    ensures peers[..k] + peers[k + 1..] == [peers[0]] + (peers[1..][..k - 1] + peers[1..][k..])
    ensures peers[k := p] == [peers[0]] + peers[1..][k - 1 := p]
  {
  }

  lemma {:induction false} FirstSplits(peers: seq<Peer>, address: string, name: string, k: nat)
    requires First(peers, address, k)
    ensures RemoveFirst(peers, address) == peers[..k] + peers[k + 1..]
    ensures RenameFirst(peers, address, name) == peers[k := peers[k].(name := name)]
  {
    if k > 0 {
      FirstSplits(peers[1..], address, name, k - 1);
      Cut(peers, k, peers[k].(name := name));
    }
  }

  lemma FirstInside(peers: seq<Peer>, address: string, k: nat)
    requires First(peers, address, k)
    ensures k < |peers| && peers[k].address == address
  {
  }

  lemma FirstLater(p: Peer, rest: seq<Peer>, address: string, k: nat)
    requires p.address != address && First(rest, address, k)
    ensures First([p] + rest, address, k + 1)
  {
  }

  lemma FirstAtOnce(p: Peer, rest: seq<Peer>)
    ensures First([p] + rest, p.address, 0)
  {
  }

  lemma {:induction false} SomeFirst(peers: seq<Peer>, address: string) returns (k: nat)
    requires address in Addresses(peers)
    ensures First(peers, address, k)
  {
    hide Addresses, First;
    var p, rest := peers[0], peers[1..];
    assert peers == [p] + rest;
    if p.address == address {
      k := 0;
      FirstAtOnce(p, rest);
    } else {
      AddressesCons(p, rest);
      k := SomeFirst(rest, address);
      FirstLater(p, rest, address, k);
      k := k + 1;
    }
  }

  // ---------------------------------------------------------------- the file's operations

  class PeersFile {
    var peers: seq<Peer>

    constructor (loaded: seq<Peer>)
      ensures peers == loaded
    {
      peers := loaded;
    }

    method Index(address: string) returns (r: Option<nat>)
      ensures r.Some? <==> address in Addresses(peers)
      ensures r.Some? ==> First(peers, address, r.value)
    {
      var i := 0;
      while i < |peers|
        invariant i <= |peers| && forall j :: 0 <= j < i ==> peers[j].address != address
      {
        if peers[i].address == address {
          assert Addresses(peers)[i] == address;
          return Some(i);
        }
        i := i + 1;
      }
      r := None;
    }

    method Add(name: string, address: string, port: u16) returns (err: Option<Error>)
      modifies this
      ensures err == if address in old(Addresses(peers)) then Some(AlreadyExists) else None
      ensures peers == if err.Some? then old(peers) else old(peers) + [Peer(name, address, port)]
    {
      var i := Index(address);
      if i.Some? { return Some(AlreadyExists); }
      peers := peers + [Peer(name, address, port)];
      err := None;
    }

    method Remove(address: string) returns (err: Option<Error>)
      modifies this
      ensures err == if address in old(Addresses(peers)) then None else Some(PeerNotFound)
      ensures peers == if err.Some? then old(peers) else RemoveFirst(old(peers), address)
    {
      var i := Index(address);
      if i.None? { return Some(PeerNotFound); }
      FirstSplits(peers, address, "", i.value);
      peers := peers[..i.value] + peers[i.value + 1..];
      err := None;
    }

    method Rename(address: string, name: string) returns (err: Option<Error>)
      modifies this
      ensures err == if address in old(Addresses(peers)) then None else Some(PeerNotFound)
      ensures peers == if err.Some? then old(peers) else RenameFirst(old(peers), address, name)
    {
      var i := Index(address);
      if i.None? { return Some(PeerNotFound); }
      FirstSplits(peers, address, name, i.value);
      peers := peers[i.value := peers[i.value].(name := name)];
      err := None;
    }
  }

  // ---------------------------------------------------------------- what the operations mean

  lemma {:induction false} OccursIff(peers: seq<Peer>, address: string)
    ensures Occurrences(peers, address) > 0 <==> address in Addresses(peers)
  {
    if peers != [] {
      OccursIff(peers[1..], address);
      assert Addresses(peers) == [peers[0].address] + Addresses(peers[1..]);
    }
  }

  lemma {:induction false} OccurrencesAppend(peers: seq<Peer>, p: Peer, address: string)
    ensures Occurrences(peers + [p], address)
         == Occurrences(peers, address) + if p.address == address then 1 else 0
  {
    if peers == [] {
      assert peers + [p] == [p];
    } else {
      OccurrencesAppend(peers[1..], p, address);
      assert (peers + [p])[1..] == peers[1..] + [p];
    }
  }

  /** Removing takes away exactly one peer of that address, if there is one, and no other. */
  lemma {:induction false} RemoveCounts(peers: seq<Peer>, address: string, other: string)
    ensures Occurrences(RemoveFirst(peers, address), other)
         == Occurrences(peers, other) - if other == address && Occurrences(peers, address) > 0 then 1 else 0
  {
    if peers != [] && peers[0].address != address {
      var rest := RemoveFirst(peers[1..], address);
      RemoveCounts(peers[1..], address, other);
      assert ([peers[0]] + rest)[1..] == rest;
    }
  }

  lemma AddressesCons(p: Peer, rest: seq<Peer>)
    ensures Addresses([p] + rest) == [p.address] + Addresses(rest)
  {
  }

  /** Renaming keeps every address where it is. */
  lemma {:induction false} RenameKeepsAddresses(peers: seq<Peer>, address: string, name: string)
    ensures Addresses(RenameFirst(peers, address, name)) == Addresses(peers)
  {
    hide Addresses;
    if peers != [] {
      var head, tail := peers[0], peers[1..];
      RenameKeepsAddresses(tail, address, name);
      AddressesCons(head, tail);
      AddressesCons(head.(name := name), tail);
      AddressesCons(head, RenameFirst(tail, address, name));
      assert [head] + tail == peers;
    }
  }

  lemma RemoveCons(p: Peer, rest: seq<Peer>, address: string)
    ensures RemoveFirst([p] + rest, address) == if p.address == address then rest else [p] + RemoveFirst(rest, address)
  {
  }

  /** Adding an absent address and removing it again restores the list, order included. */
  lemma {:induction false} AddThenRemove(peers: seq<Peer>, p: Peer)
    requires p.address !in Addresses(peers)
    ensures RemoveFirst(peers + [p], p.address) == peers
  {
    hide RemoveFirst, Addresses;
    if peers == [] {
      RemoveCons(p, [], p.address);
      assert peers + [p] == [p] + [];
    } else {
      var head, tail := peers[0], peers[1..];
      assert peers == [head] + tail;
      AddressesCons(head, tail);
      AddThenRemove(tail, p);
      Associative([head], tail, [p]);
      RemoveCons(head, tail + [p], p.address);
    }
  }

  /** The last of two renames wins, and a rename is forgotten when the peer is removed. */
  lemma {:induction false} RenameOverwrites(peers: seq<Peer>, address: string, n: string, m: string)
    ensures RenameFirst(RenameFirst(peers, address, n), address, m) == RenameFirst(peers, address, m)
    ensures RemoveFirst(RenameFirst(peers, address, n), address) == RemoveFirst(peers, address)
  {
    if peers != [] && peers[0].address != address {
      RenameOverwrites(peers[1..], address, n, m);
      var rest := RenameFirst(peers[1..], address, n);
      assert ([peers[0]] + rest)[1..] == rest;
    }
  }

  lemma DistinctCons(p: Peer, tail: seq<Peer>)
    requires p.address !in Addresses(tail) && Distinct(tail)
    ensures Distinct([p] + tail)
  {
    hide Addresses;
    var all := [p] + tail;
    forall i, j | 0 <= i < j < |all| ensures all[i].address != all[j].address {
      assert all[j].address == Addresses(tail)[j - 1];
      assert all[j] == tail[j - 1] && (i > 0 ==> all[i] == tail[i - 1]);
    }
  }

  lemma DistinctUncons(p: Peer, tail: seq<Peer>)
    requires Distinct([p] + tail)
    ensures p.address !in Addresses(tail) && Distinct(tail)
  {
    hide Addresses;
    var all := [p] + tail;
    forall i | 0 <= i < |tail| ensures all[0].address != Addresses(tail)[i] && all[i + 1] == tail[i] {
      assert all[i + 1] == tail[i];
    }
  }

  lemma DistinctStep(peers: seq<Peer>)
    requires peers != []
    ensures Distinct(peers) <==> peers[0].address !in Addresses(peers[1..]) && Distinct(peers[1..])
  {
    hide Distinct, Addresses;
    assert peers == [peers[0]] + peers[1..];
    if Distinct(peers) {
      DistinctUncons(peers[0], peers[1..]);
    } else if peers[0].address !in Addresses(peers[1..]) && Distinct(peers[1..]) {
      DistinctCons(peers[0], peers[1..]);
    }
  }

  ghost predicate Single(peers: seq<Peer>) { forall a :: Occurrences(peers, a) <= 1 }

  lemma SingleStep(peers: seq<Peer>)
    requires peers != []
    ensures Single(peers) <==> peers[0].address !in Addresses(peers[1..]) && Single(peers[1..])
  {
    var a, tail := peers[0].address, peers[1..];
    OccursIff(tail, a);
    if Single(peers) {
      assert Occurrences(peers, a) <= 1;
      forall b ensures Occurrences(tail, b) <= 1 {
        assert Occurrences(peers, b) <= 1;
      }
    }
    if a !in Addresses(tail) && Single(tail) {
      forall b ensures Occurrences(peers, b) <= 1 {
        assert Occurrences(tail, b) <= 1;
      }
    }
  }

  /** Distinctness is the same as no address occurring twice. */
  lemma {:induction false} DistinctIff(peers: seq<Peer>)
    ensures Distinct(peers) <==> Single(peers)
  {
    if peers != [] {
      DistinctIff(peers[1..]);
      DistinctStep(peers);
      SingleStep(peers);
    }
  }

  /** Every operation on the list keeps its addresses distinct. */
  lemma OperationsKeepDistinct(peers: seq<Peer>, p: Peer, name: string)
    requires Distinct(peers)
    ensures p.address !in Addresses(peers) ==> Distinct(peers + [p])
    ensures Distinct(RemoveFirst(peers, p.address))
    ensures Distinct(RenameFirst(peers, p.address, name))
  {
    DistinctIff(peers);
    RemoveKeepsSingle(peers, p.address);
    DistinctIff(RemoveFirst(peers, p.address));
    RenameKeepsAddresses(peers, p.address, name);
    DistinctByAddresses(peers, RenameFirst(peers, p.address, name));
    if p.address !in Addresses(peers) {
      AppendKeepsDistinct(peers, p);
    }
  }

  lemma AppendKeepsDistinct(peers: seq<Peer>, p: Peer)
    requires Distinct(peers) && p.address !in Addresses(peers)
    ensures Distinct(peers + [p])
  {
    forall i | 0 <= i < |peers| ensures peers[i].address != p.address {
      assert Addresses(peers)[i] == peers[i].address;
    }
  }

  lemma RemoveKeepsSingle(peers: seq<Peer>, address: string)
    requires Single(peers)
    ensures Single(RemoveFirst(peers, address))
  {
    forall b ensures Occurrences(RemoveFirst(peers, address), b) <= 1 {
      RemoveCounts(peers, address, b);
    }
  }

  lemma DistinctByAddresses(a: seq<Peer>, b: seq<Peer>)
    requires Addresses(a) == Addresses(b)
    ensures Distinct(a) <==> Distinct(b)
  {
    assert |a| == |Addresses(a)| == |b|;
    forall i | 0 <= i < |a| ensures a[i].address == b[i].address {
      assert a[i].address == Addresses(a)[i] == Addresses(b)[i];
    }
  }
}

/** A peer's routing state, `IO::request`, and the dispatch scan at the tail of
    `EndPoint::interpretRequest`, as functions on values. Class EndPoint (module Dispatcher)
    performs them in place; module Pipeline interleaves them with the other threads. */
module Peers {
  import opened Types

  /** `locIp` and `locPort` are the local address that a new connection binds to. */
  datatype Peer = Peer(ip: string, port: nat, fd: int, que: seq<Query>, locIp: string, locPort: nat)

  /** A new peer. The constructor leaves `_port` uninitialised: `junk` is what it happens to hold. */
  function NewPeer(locIp: string, locPort: nat, junk: nat): Peer {
    Peer("", junk, CLOSED, [], locIp, locPort)
  }

  predicate Assigned(p: Peer) {
    p.ip != ""
  }

  /** Free to be claimed. */
  predicate Free(p: Peer) {
    p.ip == "" && p.port == 0 && p.fd == CLOSED
  }

  predicate MatchesAddress(p: Peer, r: Request) {
    r.ip != "" && r.ip == p.ip && r.port != 0 && r.port == p.port
  }

  predicate MatchesFd(p: Peer, r: Request) {
    r.fd != CLOSED && r.fd == p.fd
  }

  predicate Claims(p: Peer, r: Request) {
    r.ip != "" && p.ip == "" && r.port != 0 && p.port == 0 && p.fd == CLOSED && r.fd == p.fd
  }

  /** `IO::request` answers true. */
  predicate Accepts(p: Peer, r: Request) {
    MatchesAddress(p, r) || MatchesFd(p, r) || Claims(p, r)
  }

  function Taken(p: Peer, r: Request): Peer {
    var q := if p.ip == "" && p.port == 0 then p.(ip := r.ip, port := r.port) else p;
    q.(que := q.que + [Query(r.kind, r.msg)])
  }

  /** Index of the first peer that accepts, or the number of peers. */
  function FirstMatch(peers: seq<Peer>, r: Request): (i: nat)
    ensures i <= |peers|
    ensures i < |peers| ==> Accepts(peers[i], r)
    ensures forall j :: 0 <= j < i ==> !Accepts(peers[j], r)
  {
    if peers == [] || Accepts(peers[0], r) then 0 else 1 + FirstMatch(peers[1..], r)
  }

  /** An unmatched request only appends a new peer; nothing is queued anywhere. */
  function Dispatch(peers: seq<Peer>, r: Request, junk: nat): seq<Peer> {
    var i := FirstMatch(peers, r);
    if i < |peers| then peers[i := Taken(peers[i], r)] else peers + [NewPeer(r.ip, r.port, junk)]
  }

  // ----- Who owns an address -----

  /** Addresses are set completely or not at all, no address is owned twice, no peer that is still
      free stands before an owner, and whoever owns no address is disconnected with nothing queued. */
  ghost predicate Routable(peers: seq<Peer>) {
    && (forall i :: 0 <= i < |peers| && Assigned(peers[i]) ==> peers[i].port != 0)
    && (forall i :: 0 <= i < |peers| && !Assigned(peers[i]) ==> peers[i].fd == CLOSED && peers[i].que == [])
    && (forall i, j :: 0 <= i < j < |peers| && Assigned(peers[i]) && Assigned(peers[j]) ==>
          peers[i].ip != peers[j].ip || peers[i].port != peers[j].port)
    && (forall i, j :: 0 <= i < j < |peers| && Assigned(peers[j]) ==> !Free(peers[i]))
  }

  predicate Owns(p: Peer, ip: string, port: nat) {
    Assigned(p) && p.ip == ip && p.port == port
  }

  /** A request that names a usable address and no descriptor. */
  predicate ByAddress(r: Request) {
    r.ip != "" && r.port != 0 && r.fd == CLOSED
  }

  lemma FirstMatchIs(peers: seq<Peer>, r: Request, i: nat)
    requires i < |peers| && Accepts(peers[i], r) && forall j :: 0 <= j < i ==> !Accepts(peers[j], r)
    ensures FirstMatch(peers, r) == i
  {
  }

  /** The scan refines a map from addresses to peers: what names an owned address goes to its owner. */
  lemma OwnerReceives(peers: seq<Peer>, i: nat, r: Request)
    requires Routable(peers) && i < |peers| && ByAddress(r) && Owns(peers[i], r.ip, r.port)
    ensures FirstMatch(peers, r) == i
    ensures forall junk :: Dispatch(peers, r, junk) == peers[i := peers[i].(que := peers[i].que + [Query(r.kind, r.msg)])]
  {
    FirstMatchIs(peers, r, i);
  }

  /** Somebody takes a request exactly when the address it names has an owner, or the descriptor it
      names has a holder, or it is by address and a peer is free; otherwise nothing is queued. */
  lemma AcceptedExactly(peers: seq<Peer>, r: Request, junk: nat)
    requires Routable(peers)
    ensures FirstMatch(peers, r) < |peers| <==>
            || (r.ip != "" && r.port != 0 && exists p :: p in peers && Owns(p, r.ip, r.port))
            || (r.fd != CLOSED && exists p :: p in peers && p.fd == r.fd)
            || (ByAddress(r) && exists p :: p in peers && Free(p))
    ensures FirstMatch(peers, r) == |peers| ==> Dispatch(peers, r, junk) == peers + [NewPeer(r.ip, r.port, junk)]
  {
    var i := FirstMatch(peers, r);
    if i < |peers| {
      assert peers[i] in peers;
    } else {
      forall p | p in peers ensures !Accepts(p, r) {
        var j :| 0 <= j < |peers| && peers[j] == p;
        assert !Accepts(peers[j], r);
      }
    }
  }

  lemma DispatchRoutable(peers: seq<Peer>, r: Request, junk: nat)
    requires Routable(peers)
    ensures Routable(Dispatch(peers, r, junk))
  {
    var i := FirstMatch(peers, r);
    var next := Dispatch(peers, r, junk);
    if i < |peers| && !Assigned(peers[i]) {
      assert Claims(peers[i], r);
      assert forall j :: 0 <= j < |peers| && j != i ==> next[j] == peers[j];
      forall j | 0 <= j < |peers| && Assigned(peers[j]) ensures j < i && !MatchesAddress(peers[j], r) {
        assert Free(peers[i]);
      }
    }
  }

  // ----- Owners first -----

  /** The peers that own an address come before all others. */
  ghost predicate OwnersFirst(peers: seq<Peer>) {
    forall i, j :: 0 <= i < j < |peers| && Assigned(peers[j]) ==> Assigned(peers[i])
  }

  /** A peer without an address whose port happened to start with another value than zero. */
  predicate Dead(p: Peer) {
    p.ip == "" && p.port != 0
  }

  /** The request claims a free peer that stands behind a dead one. */
  ghost predicate ClaimsPast(peers: seq<Peer>, r: Request) {
    var i := FirstMatch(peers, r);
    i < |peers| && Free(peers[i]) && exists j :: 0 <= j < i && Dead(peers[j])
  }

  /** Dispatch keeps the owners first exactly when it does not claim a peer behind a dead one. */
  lemma DispatchOwnersFirst(peers: seq<Peer>, r: Request, junk: nat)
    requires Routable(peers) && OwnersFirst(peers)
    ensures OwnersFirst(Dispatch(peers, r, junk)) <==> !ClaimsPast(peers, r)
  {
    var i := FirstMatch(peers, r);
    var next := Dispatch(peers, r, junk);
    if i < |peers| && !Assigned(peers[i]) {
      assert Claims(peers[i], r) && Assigned(next[i]);
      assert forall j :: 0 <= j < |peers| && j != i ==> next[j] == peers[j];
      forall j | 0 <= j < i ensures Assigned(peers[j]) <==> !Dead(peers[j]) {
        assert !Claims(peers[j], r);
      }
    }
  }

  /** A dead peer is never claimed. */
  lemma DeadStays(peers: seq<Peer>, r: Request, junk: nat, i: nat)
    requires Routable(peers) && i < |peers| && Dead(peers[i])
    ensures Dispatch(peers, r, junk)[i] == peers[i]
  {
  }

  /** So owners that are not first never come to be first. */
  lemma NeverFirstAgain(peers: seq<Peer>, r: Request, junk: nat)
    requires Routable(peers) && !OwnersFirst(peers)
    ensures !OwnersFirst(Dispatch(peers, r, junk))
  {
    var i, j :| 0 <= i < j < |peers| && Assigned(peers[j]) && !Assigned(peers[i]);
    assert Dead(peers[i]);
    DeadStays(peers, r, junk, i);
    assert Assigned(Dispatch(peers, r, junk)[j]);
  }

  ghost predicate NoneDead(peers: seq<Peer>) {
    forall i :: 0 <= i < |peers| ==> !Dead(peers[i])
  }

  lemma NoneDies(peers: seq<Peer>, r: Request)
    requires Routable(peers) && NoneDead(peers)
    ensures NoneDead(Dispatch(peers, r, 0))
  {
  }

  /** The vector starts with a dead peer, and the same new address is asked for twice: the second
      peer owns it, the first owns nothing. */
  lemma DeadPeerIsPassed(dead: nat, r: Request)
    requires dead != 0 && ByAddress(r)
    ensures var peers := Dispatch(Dispatch([NewPeer("", 0, dead)], r, 0), r, 0);
            |peers| == 2 && !Assigned(peers[0]) && Owns(peers[1], r.ip, r.port) && !OwnersFirst(peers)
  {
    var start := [NewPeer("", 0, dead)];
    assert !Accepts(start[0], r);
    ScanAgain(start, r, 0);
  }

  /** What other threads may do to the peers between two scans: their descriptors and queues move,
      their addresses do not, and a peer without an address stays as it is. */
  ghost predicate Served(before: seq<Peer>, after: seq<Peer>) {
    && |before| == |after|
    && forall i :: 0 <= i < |before| ==>
         && after[i].ip == before[i].ip && after[i].port == before[i].port
         && (!Assigned(before[i]) ==> after[i].fd == before[i].fd)
  }

  lemma SameAnswer(before: Peer, after: Peer, r: Request)
    requires ByAddress(r) && after.ip == before.ip && after.port == before.port
    requires !Assigned(before) ==> after.fd == before.fd
    ensures Accepts(after, r) <==> Accepts(before, r)
  {
  }

  lemma SameScan(before: seq<Peer>, after: seq<Peer>, r: Request)
    requires ByAddress(r) && Served(before, after)
    ensures FirstMatch(after, r) == FirstMatch(before, r)
  {
    forall i | 0 <= i < |before| ensures Accepts(after[i], r) <==> Accepts(before[i], r) {
      SameAnswer(before[i], after[i], r);
    }
    var i := FirstMatch(before, r);
    if i < |before| {
      FirstMatchIs(after, r, i);
    }
  }

  /** The scan after a dispatch of the same request. */
  lemma ScanAgain(peers: seq<Peer>, r: Request, junk: nat)
    requires ByAddress(r)
    ensures var next := Dispatch(peers, r, junk);
            var i := FirstMatch(peers, r);
            FirstMatch(next, r) == if i < |peers| || junk == 0 then i else |next|
  {
    var next := Dispatch(peers, r, junk);
    var i := FirstMatch(peers, r);
    assert forall j :: 0 <= j < i ==> next[j] == peers[j] && !Accepts(next[j], r);
    if i < |peers| {
      FirstMatchIs(next, r, i);
    } else if junk == 0 {
      assert Claims(next[i], r);
      FirstMatchIs(next, r, i);
    } else {
      assert !Accepts(next[i], r);
    }
  }

  /** Of two requests for one address, with no scan between them, the second finds a peer exactly
      when the first did or the peer that the first one appended happens to start with port zero. */
  lemma SecondRequest(peers: seq<Peer>, r: Request, junk: nat, later: seq<Peer>)
    requires ByAddress(r) && Served(Dispatch(peers, r, junk), later)
    ensures FirstMatch(later, r) < |later| <==> FirstMatch(peers, r) < |peers| || junk == 0
    ensures |later| == if FirstMatch(peers, r) < |peers| then |peers| else |peers| + 1
    ensures FirstMatch(peers, r) == |peers| && junk == 0 ==> FirstMatch(later, r) == |peers|
  {
    ScanAgain(peers, r, junk);
    SameScan(Dispatch(peers, r, junk), later, r);
  }

  /** What fails address validation has an empty ip: without a descriptor no peer takes it. */
  lemma {:induction false} EmptyIpGoesNowhere(peers: seq<Peer>, r: Request)
    requires r.ip == "" && r.fd == CLOSED
    ensures FirstMatch(peers, r) == |peers|
  {
    if peers != [] {
      EmptyIpGoesNowhere(peers[1..], r);
    }
  }
}

/** The life of a host's peers: ten states, two counters of connected peers and a queue of peers
    whose news the application has not seen, kept in step by every operation; and that no news is
    lost on the way, where packets of a peer that is to be disconnected later are no news. */
module PeerStates {
  datatype State =
    | Disconnected | Connecting | AcknowledgingConnect | ConnectionPending | ConnectionSucceeded
    | Connected | DisconnectLater | Disconnecting | AcknowledgingDisconnect | Zombie

  /** Place in the enumeration ENetPeerState. */
  function Rank(s: State): nat {
    match s
    case Disconnected => 0
    case Connecting => 1
    case AcknowledgingConnect => 2
    case ConnectionPending => 3
    case ConnectionSucceeded => 4
    case Connected => 5
    case DisconnectLater => 6
    case Disconnecting => 7
    case AcknowledgingDisconnect => 8
    case Zombie => 9
  }

  /** The comparisons of states that the code makes. */
  lemma RankMeans(s: State)
    ensures Rank(s) >= 3 <==> s != Disconnected && s != Connecting && s != AcknowledgingConnect
    ensures s != Connecting && Rank(s) < 4 <==> s == Disconnected || s == AcknowledgingConnect || s == ConnectionPending
    ensures Rank(s) == 0 || Rank(s) >= 7
      <==> s == Disconnected || s == Disconnecting || s == AcknowledgingDisconnect || s == Zombie
  {
  }

  /** `waiting` is the number of packets ready for the application. */
  datatype Peer = Peer(state: State, incomingBandwidth: nat, needsDispatch: bool, waiting: nat)

  predicate IsConnected(p: Peer) { p.state == Connected || p.state == DisconnectLater }

  predicate IsLimited(p: Peer) { IsConnected(p) && p.incomingBandwidth != 0 }

  /** There is something to tell the application: a connection made or lost, or a packet of a peer
      that is connected and stays so. */
  predicate HasNews(p: Peer) {
    || p.state == ConnectionPending || p.state == ConnectionSucceeded || p.state == Zombie
    || (p.state == Connected && p.waiting > 0)
  }

  /** News is in the dispatch queue, and packets wait only on peers that are or were connected. */
  predicate Announced(p: Peer) {
    && (HasNews(p) ==> p.needsDispatch)
    && (p.waiting > 0 ==> IsConnected(p) || p.state == Zombie)
  }

  ghost function Count(ps: seq<Peer>, f: Peer -> bool): nat {
    if ps == [] then 0 else (if f(ps[0]) then 1 else 0) + Count(ps[1..], f)
  }

  lemma {:induction false} CountUpdate(ps: seq<Peer>, i: nat, q: Peer, f: Peer -> bool)
    requires i < |ps|
    ensures Count(ps[i := q], f) + (if f(ps[i]) then 1 else 0) == Count(ps, f) + (if f(q) then 1 else 0)
    decreases |ps|
  {
    if i == 0 {
      assert ps[0 := q][1..] == ps[1..];
    } else {
      assert ps[i := q][1..] == ps[1..][i - 1 := q];
      CountUpdate(ps[1..], i - 1, q, f);
    }
  }

  lemma {:induction false} CountNone(ps: seq<Peer>, f: Peer -> bool)
    requires forall i | 0 <= i < |ps| :: !f(ps[i])
    ensures Count(ps, f) == 0
    decreases |ps|
  {
    if ps != [] { CountNone(ps[1..], f); }
  }

  /** The queue without peer i. */
  function Without(q: seq<nat>, i: nat): seq<nat> {
    if q == [] then [] else (if q[0] == i then [] else [q[0]]) + Without(q[1..], i)
  }

  lemma {:induction false} WithoutCounts(q: seq<nat>, i: nat, j: nat)
    ensures multiset(Without(q, i))[j] == if j == i then 0 else multiset(q)[j]
    ensures j in Without(q, i) ==> j in q
    decreases |q|
  {
    if q != [] {
      WithoutCounts(q[1..], i, j);
      assert q == [q[0]] + q[1..];
    }
  }

  /** The others keep their order. */
  lemma {:induction false} WithoutOne(a: seq<nat>, i: nat, b: seq<nat>)
    requires i !in a && i !in b
    ensures Without(a + [i] + b, i) == a + b
    decreases |a|
  {
    if a == [] {
      assert ([i] + b)[1..] == b && a + [i] + b == [i] + b;
      WithoutNone(b, i);
    } else {
      assert (a + [i] + b)[1..] == a[1..] + [i] + b;
      WithoutOne(a[1..], i, b);
    }
  }

  lemma {:induction false} WithoutNone(q: seq<nat>, i: nat)
    requires i !in q
    ensures Without(q, i) == q
    decreases |q|
  {
    if q != [] { WithoutNone(q[1..], i); }
  }

  /** A peer is in the queue once if it needs dispatch, and not otherwise. */
  ghost predicate QueueIs(ps: seq<Peer>, q: seq<nat>) {
    && (forall i: nat | i < |ps| :: multiset(q)[i] == if ps[i].needsDispatch then 1 else 0)
    && (forall i | i in q :: i < |ps|)
  }

  lemma QueueWithout(ps: seq<Peer>, q: seq<nat>, i: nat, p: Peer)
    requires QueueIs(ps, q) && i < |ps| && !p.needsDispatch
    ensures QueueIs(ps[i := p], if ps[i].needsDispatch then Without(q, i) else q)
  {
    var q' := Without(q, i);
    forall j: nat ensures multiset(q')[j] == if j == i then 0 else multiset(q)[j] {
      WithoutCounts(q, i, j);
    }
    forall j | j in q' ensures j < |ps| { WithoutCounts(q, i, j); }
  }

  lemma QueueSame(ps: seq<Peer>, q: seq<nat>, i: nat, p: Peer)
    requires QueueIs(ps, q) && i < |ps| && p.needsDispatch == ps[i].needsDispatch
    ensures QueueIs(ps[i := p], q)
  {
  }

  lemma QueuePopped(ps: seq<Peer>, q: seq<nat>, p: Peer)
    requires QueueIs(ps, q) && q != [] && !p.needsDispatch
    ensures q[0] < |ps| && ps[q[0]].needsDispatch && QueueIs(ps[q[0] := p], q[1..])
  {
    var i, rest := q[0], q[1..];
    assert q == [i] + rest && i in q;
    assert multiset(q) == multiset{i} + multiset(rest) && multiset(q)[i] == 1;
    forall j: nat ensures multiset(rest)[j] + (if j == i then 1 else 0) == multiset(q)[j] { }
    forall j | j in rest ensures j < |ps| { assert j in q; }
  }

  /** The queue after peer i, which was p, has become p'. */
  function QueueFor(q: seq<nat>, i: nat, p: Peer, p': Peer): seq<nat> {
    if p'.needsDispatch then (if p.needsDispatch then q else q + [i])
    else if p.needsDispatch then Without(q, i) else q
  }

  /** A peer that comes into the queue goes to its end; one that leaves it leaves the others as they
      were; and nothing else changes. */
  lemma QueueForMeans(a: seq<nat>, i: nat, b: seq<nat>, p: Peer, p': Peer)
    requires i !in a && i !in b
    ensures !p.needsDispatch && p'.needsDispatch ==> QueueFor(a + b, i, p, p') == a + b + [i]
    ensures p.needsDispatch && !p'.needsDispatch ==> QueueFor(a + [i] + b, i, p, p') == a + b
    ensures p.needsDispatch && p'.needsDispatch ==> QueueFor(a + [i] + b, i, p, p') == a + [i] + b
    ensures !p.needsDispatch && !p'.needsDispatch ==> QueueFor(a + b, i, p, p') == a + b
  {
    WithoutOne(a, i, b);
  }

  /** Place of the first peer in the queue that has news, or the queue's length. */
  function FirstNews(ps: seq<Peer>, q: seq<nat>, k: nat): (n: nat)
    requires k <= |q| && forall x | 0 <= x < |q| :: q[x] < |ps|
    ensures k <= n <= |q|
    decreases |q| - k
  {
    if k == |q| || HasNews(ps[q[k]]) then k else FirstNews(ps, q, k + 1)
  }

  /** The command that an acknowledgement was found to be for. */
  datatype Found = FoundVerifyConnect | FoundDisconnect | FoundOther

  datatype Event = NoEvent | ConnectEvent(peer: nat) | DisconnectEvent(peer: nat) | ReceiveEvent(peer: nat)

  /** What telling of a peer makes of it. */
  function AfterNews(p: Peer): Peer {
    match p.state
    case ConnectionPending => p.(state := Connected, needsDispatch := false)
    case ConnectionSucceeded => p.(state := Connected, needsDispatch := false)
    case Zombie => Peer(Disconnected, 0, false, 0)
    case Connected => if p.waiting == 0 then p.(needsDispatch := false)
                      else p.(waiting := p.waiting - 1, needsDispatch := p.waiting > 1)
    case _ => p.(needsDispatch := false)
  }

  /** The event for peer i, which is p. */
  function NewsOf(i: nat, p: Peer): (e: Event)
    ensures e == NoEvent <==> !HasNews(p)
  {
    if !HasNews(p) then NoEvent
    else if p.state == Zombie then DisconnectEvent(i)
    else if p.state == Connected then ReceiveEvent(i) else ConnectEvent(i)
  }

  /** What a turn of enet_protocol_dispatch_incoming_commands makes of peer i, which was p: the event
      and the peer for each of the ten states. */
  ghost predicate ToldOf(i: nat, p: Peer, e: Event, p': Peer) {
    match p.state
    case ConnectionPending => e == ConnectEvent(i) && p' == p.(state := Connected, needsDispatch := false)
    case ConnectionSucceeded => e == ConnectEvent(i) && p' == p.(state := Connected, needsDispatch := false)
    case Zombie => e == DisconnectEvent(i) && p' == Peer(Disconnected, 0, false, 0)
    case Connected =>
      if p.waiting > 0 then e == ReceiveEvent(i) && p' == p.(waiting := p.waiting - 1, needsDispatch := p.waiting > 1)
      else e == NoEvent && p' == p.(needsDispatch := false)
    case _ => e == NoEvent && p' == p.(needsDispatch := false)
  }

  lemma NewsTold(i: nat, p: Peer)
    ensures ToldOf(i, p, NewsOf(i, p), AfterNews(p))
  {
  }

  /** Packets that wait on a peer are told of exactly while it is connected. A peer that is to be
      disconnected later leaves the queue without an event, and its packets go on waiting; on a
      zombie the event is its disconnection, which drops them. */
  lemma UntoldPackets(i: nat, p: Peer)
    requires Announced(p) && p.waiting > 0
    ensures NewsOf(i, p) == ReceiveEvent(i) <==> p.state == Connected
    ensures NewsOf(i, p) == NoEvent <==> p.state == DisconnectLater
    ensures p.state == DisconnectLater ==> AfterNews(p) == p.(needsDispatch := false)
    ensures NewsOf(i, p) == DisconnectEvent(i) <==> p.state == Zombie
    ensures p.state == Zombie ==> AfterNews(p).waiting == 0
  {
  }

  lemma NoNews(p: Peer)
    requires Announced(p) && !p.needsDispatch
    ensures !HasNews(p)
  {
  }

  /** Leaving the queue does not change the news. */
  lemma NewsStays(i: nat, p: Peer)
    ensures var q := p.(needsDispatch := false);
      && HasNews(q) == HasNews(p) && AfterNews(q) == AfterNews(p) && NewsOf(i, q) == NewsOf(i, p)
      && (!HasNews(p) ==> AfterNews(p) == q)
      && (Announced(p) ==> Announced(q.(needsDispatch := true)))
  {
  }

  lemma InQueue(ps: seq<Peer>, q: seq<nat>)
    requires QueueIs(ps, q)
    ensures forall j: nat | j < |ps| :: j in q <==> ps[j].needsDispatch
    ensures forall x | 0 <= x < |q| :: q[x] < |ps|
  {
    forall j: nat | j < |ps| ensures j in q <==> ps[j].needsDispatch {
      assert j in q <==> j in multiset(q);
    }
    forall x | 0 <= x < |q| ensures q[x] < |ps| { assert q[x] in q; }
  }

  /** The first peer with news, and those before it without. */
  lemma NewsInOrder(ps: seq<Peer>, q: seq<nat>, n: nat)
    requires n < |q| && (forall x | 0 <= x < |q| :: q[x] < |ps|) && FirstNews(ps, q, 0) == FirstNews(ps, q, n) == n
    ensures ToldOf(q[n], ps[q[n]], NewsOf(q[n], ps[q[n]]), AfterNews(ps[q[n]]))
    ensures forall x | 0 <= x < n :: ToldOf(q[x], ps[q[x]], NoEvent, AfterNews(ps[q[x]]))
  {
    hide HasNews, ToldOf, NewsOf, AfterNews;
    NewsTold(q[n], ps[q[n]]);
    forall x | 0 <= x < n ensures ToldOf(q[x], ps[q[x]], NoEvent, AfterNews(ps[q[x]])) {
      FirstIsFirst(ps, q, 0, x);
      NewsTold(q[x], ps[q[x]]);
    }
  }

  lemma {:induction false} FirstIsFirst(ps: seq<Peer>, q: seq<nat>, k: nat, x: nat)
    requires k <= |q| && forall y | 0 <= y < |q| :: q[y] < |ps|
    requires k <= x < FirstNews(ps, q, k)
    ensures !HasNews(ps[q[x]])
    decreases x - k
  {
    if k < x { FirstIsFirst(ps, q, k + 1, x); }
  }

  class Host {
    var peers: seq<Peer>
    var dispatchQueue: seq<nat>
    var connectedPeers: nat
    var bandwidthLimitedPeers: nat
    var recalculateBandwidthLimits: bool

    /** The counters count, and the queue holds exactly the peers that need dispatch, once each. */
    ghost predicate Valid()
      reads this
    {
      && connectedPeers == Count(peers, IsConnected)
      && bandwidthLimitedPeers == Count(peers, IsLimited)
      && QueueIs(peers, dispatchQueue)
    }

    /** In every state an application can see: no news is lost. */
    ghost predicate Sound()
      reads this
    {
      Valid() && forall i | 0 <= i < |peers| :: Announced(peers[i])
    }

    constructor (peerCount: nat)
      ensures Sound() && |peers| == peerCount && forall i | 0 <= i < peerCount :: peers[i] == Peer(Disconnected, 0, false, 0)
    {
      peers := seq(peerCount, _ => Peer(Disconnected, 0, false, 0));
      dispatchQueue := [];
      connectedPeers := 0;
      bandwidthLimitedPeers := 0;
      recalculateBandwidthLimits := false;
      new;
      CountNone(peers, IsConnected);
      CountNone(peers, IsLimited);
    }

    /** enet_protocol_change_state, with enet_peer_on_connect and enet_peer_on_disconnect. */
    method ChangeState(i: nat, s: State)
      requires Valid() && i < |peers|
      modifies this`peers, this`connectedPeers, this`bandwidthLimitedPeers
      ensures Valid() && peers == old(peers)[i := old(peers[i]).(state := s)]
    {
      var p := peers[i];
      CountUpdate(peers, i, p.(state := s), IsConnected);
      CountUpdate(peers, i, p.(state := s), IsLimited);
      if s == Connected || s == DisconnectLater {
        if !IsConnected(p) {
          if p.incomingBandwidth != 0 { bandwidthLimitedPeers := bandwidthLimitedPeers + 1; }
          connectedPeers := connectedPeers + 1;
        }
      } else {
        OnDisconnect(i);
      }
      peers := peers[i := p.(state := s)];
    }

    /** enet_peer_on_disconnect: the counters only. */
    method OnDisconnect(i: nat)
      requires i < |peers| && connectedPeers == Count(peers, IsConnected) && bandwidthLimitedPeers == Count(peers, IsLimited)
      modifies this`connectedPeers, this`bandwidthLimitedPeers
      ensures connectedPeers + (if IsConnected(peers[i]) then 1 else 0) == Count(peers, IsConnected)
      ensures bandwidthLimitedPeers + (if IsLimited(peers[i]) then 1 else 0) == Count(peers, IsLimited)
    {
      var p := peers[i];
      CountUpdate(peers, i, p.(state := Disconnected), IsConnected);
      CountUpdate(peers, i, p.(state := Disconnected), IsLimited);
      if IsConnected(p) {
        if p.incomingBandwidth != 0 { bandwidthLimitedPeers := bandwidthLimitedPeers - 1; }
        connectedPeers := connectedPeers - 1;
      }
    }

    /** Puts a peer at the end of the dispatch queue, if it is not in it. */
    method Enqueue(i: nat)
      requires Valid() && i < |peers|
      modifies this`peers, this`dispatchQueue
      ensures Valid() && peers == old(peers)[i := old(peers[i]).(needsDispatch := true)]
      ensures dispatchQueue == QueueFor(old(dispatchQueue), i, old(peers[i]), peers[i])
    {
      var p := peers[i];
      CountUpdate(peers, i, p.(needsDispatch := true), IsConnected);
      CountUpdate(peers, i, p.(needsDispatch := true), IsLimited);
      if !p.needsDispatch {
        dispatchQueue := dispatchQueue + [i];
        peers := peers[i := p.(needsDispatch := true)];
      }
    }

    /** enet_protocol_dispatch_state */
    method DispatchState(i: nat, s: State)
      requires Valid() && i < |peers|
      modifies this`peers, this`connectedPeers, this`bandwidthLimitedPeers, this`dispatchQueue
      ensures Valid() && peers == old(peers)[i := old(peers[i]).(state := s, needsDispatch := true)]
      ensures dispatchQueue == QueueFor(old(dispatchQueue), i, old(peers[i]), peers[i])
    {
      ChangeState(i, s);
      Enqueue(i);
    }

    /** enet_peer_reset_queues */
    method ResetQueues(i: nat)
      requires Valid() && i < |peers|
      modifies this`peers, this`dispatchQueue
      ensures Valid() && peers == old(peers)[i := old(peers[i]).(needsDispatch := false, waiting := 0)]
      ensures dispatchQueue == QueueFor(old(dispatchQueue), i, old(peers[i]), peers[i])
    {
      var p, q := peers[i], peers[i].(needsDispatch := false, waiting := 0);
      CountUpdate(peers, i, q, IsConnected);
      CountUpdate(peers, i, q, IsLimited);
      QueueWithout(peers, dispatchQueue, i, q);
      if p.needsDispatch { dispatchQueue := Without(dispatchQueue, i); }
      peers := peers[i := q];
    }

    /** enet_peer_reset */
    method Reset(i: nat)
      requires Valid() && i < |peers|
      modifies this`peers, this`connectedPeers, this`bandwidthLimitedPeers, this`dispatchQueue
      ensures Valid() && peers == old(peers)[i := Peer(Disconnected, 0, false, 0)]
      ensures dispatchQueue == QueueFor(old(dispatchQueue), i, old(peers[i]), peers[i])
    {
      CountUpdate(peers, i, peers[i].(state := Disconnected, incomingBandwidth := 0), IsConnected);
      CountUpdate(peers, i, peers[i].(state := Disconnected, incomingBandwidth := 0), IsLimited);
      OnDisconnect(i);
      peers := peers[i := peers[i].(state := Disconnected, incomingBandwidth := 0)];
      ResetQueues(i);
    }

    /** enet_protocol_notify_connect; `event` tells whether the caller waits for an event. */
    method NotifyConnect(i: nat, event: bool) returns (e: Event)
      requires Sound() && i < |peers| && peers[i].waiting == 0
      modifies this
      ensures Sound() && |peers| == |old(peers)| && recalculateBandwidthLimits
      ensures dispatchQueue == QueueFor(old(dispatchQueue), i, old(peers[i]), peers[i])
      ensures event ==> e == ConnectEvent(i) && peers == old(peers)[i := old(peers[i]).(state := Connected)]
      ensures !event ==> e == NoEvent && peers == old(peers)[i := old(peers[i]).(
        state := if old(peers[i]).state == Connecting then ConnectionSucceeded else ConnectionPending, needsDispatch := true)]
    {
      recalculateBandwidthLimits := true;
      if event {
        ChangeState(i, Connected);
        return ConnectEvent(i);
      }
      DispatchState(i, if peers[i].state == Connecting then ConnectionSucceeded else ConnectionPending);
      e := NoEvent;
    }

    /** enet_protocol_notify_disconnect, also for time-outs: peers the application never heard of
        are reset silently. */
    method NotifyDisconnect(i: nat, event: bool) returns (e: Event)
      requires Sound() && i < |peers|
      modifies this
      ensures Sound() && |peers| == |old(peers)|
      ensures dispatchQueue == QueueFor(old(dispatchQueue), i, old(peers[i]), peers[i])
      ensures recalculateBandwidthLimits == (old(recalculateBandwidthLimits) || Rank(old(peers[i]).state) >= 3)
      ensures var silent := old(peers[i]).state != Connecting && Rank(old(peers[i]).state) < 4;
        && e == (if !silent && event then DisconnectEvent(i) else NoEvent)
        && peers == old(peers)[i := if silent || event then Peer(Disconnected, 0, false, 0)
                                    else old(peers[i]).(state := Zombie, needsDispatch := true)]
    {
      e := NoEvent;
      var s := peers[i].state;
      if Rank(s) >= 3 { recalculateBandwidthLimits := true; }
      if s != Connecting && Rank(s) < 4 {
        Reset(i);
      } else if event {
        e := DisconnectEvent(i);
        Reset(i);
      } else {
        DispatchState(i, Zombie);
      }
    }

    /** enet_protocol_handle_connect takes a free peer, enet_host_connect another. */
    method TakePeer(i: nat, incomingBandwidth: nat, outgoing: bool)
      requires Sound() && i < |peers| && peers[i].state == Disconnected
      modifies this`peers
      ensures Sound() && peers == old(peers)[i := old(peers[i]).(
        state := if outgoing then Connecting else AcknowledgingConnect,
        incomingBandwidth := if outgoing then old(peers[i]).incomingBandwidth else incomingBandwidth)]
    {
      var q := peers[i].(state := if outgoing then Connecting else AcknowledgingConnect,
                         incomingBandwidth := if outgoing then peers[i].incomingBandwidth else incomingBandwidth);
      CountUpdate(peers, i, q, IsConnected);
      CountUpdate(peers, i, q, IsLimited);
      peers := peers[i := q];
    }

    /** enet_protocol_handle_verify_connect; `agreed` is whether its parameters are acceptable. */
    method HandleVerifyConnect(i: nat, incomingBandwidth: nat, agreed: bool, event: bool) returns (e: Event)
      requires Sound() && i < |peers|
      modifies this
      ensures Sound() && |peers| == |old(peers)|
      ensures dispatchQueue == QueueFor(old(dispatchQueue), i, old(peers[i]), peers[i])
      ensures e == if old(peers[i]).state == Connecting && agreed && event then ConnectEvent(i) else NoEvent
      ensures old(peers[i]).state != Connecting ==> peers == old(peers)
      ensures old(peers[i]).state == Connecting ==> peers == old(peers)[i :=
        if !agreed then old(peers[i]).(state := Zombie, needsDispatch := true)
        else if event then old(peers[i]).(state := Connected, incomingBandwidth := incomingBandwidth)
        else old(peers[i]).(state := ConnectionSucceeded, incomingBandwidth := incomingBandwidth, needsDispatch := true)]
    {
      hide Count, QueueIs, Without;
      e := NoEvent;
      if peers[i].state != Connecting { return; }
      if !agreed {
        DispatchState(i, Zombie);
        return;
      }
      var q := peers[i].(incomingBandwidth := incomingBandwidth);
      CountUpdate(peers, i, q, IsConnected);
      CountUpdate(peers, i, q, IsLimited);
      QueueSame(peers, dispatchQueue, i, q);
      peers := peers[i := q];
      e := NotifyConnect(i, event);
    }

    /** enet_protocol_handle_bandwidth_limit */
    method HandleBandwidthLimit(i: nat, incomingBandwidth: nat) returns (ok: bool)
      requires Sound() && i < |peers|
      modifies this`peers, this`bandwidthLimitedPeers
      ensures Sound() && (ok <==> IsConnected(old(peers[i])))
      ensures peers == if ok then old(peers)[i := old(peers[i]).(incomingBandwidth := incomingBandwidth)] else old(peers)
    {
      var p := peers[i];
      if !IsConnected(p) { return false; }
      var q := p.(incomingBandwidth := incomingBandwidth);
      CountUpdate(peers, i, q, IsConnected);
      CountUpdate(peers, i, q, IsLimited);
      CountUpdate(peers, i, p.(incomingBandwidth := 0), IsLimited);
      if p.incomingBandwidth != 0 { bandwidthLimitedPeers := bandwidthLimitedPeers - 1; }
      peers := peers[i := q];
      if q.incomingBandwidth != 0 { bandwidthLimitedPeers := bandwidthLimitedPeers + 1; }
      ok := true;
    }

    /** enet_protocol_handle_disconnect; `acknowledge` is the command's flag. */
    method HandleDisconnect(i: nat, acknowledge: bool)
      requires Sound() && i < |peers|
      modifies this
      ensures Sound() && |peers| == |old(peers)|
      ensures recalculateBandwidthLimits == (old(recalculateBandwidthLimits) || old(peers[i]).state == ConnectionPending)
      ensures dispatchQueue ==
        if peers[i] == old(peers[i]) then old(dispatchQueue)
        else QueueFor(old(dispatchQueue), i, old(peers[i]), Peer(Disconnected, 0, false, 0))
             + if peers[i].needsDispatch then [i] else []
      ensures var p := old(peers[i]); var quiet := p.(needsDispatch := false, waiting := 0);
        peers == old(peers)[i :=
          match p.state
          case Disconnected => p
          case Zombie => p
          case AcknowledgingDisconnect => p
          case ConnectionSucceeded => quiet.(state := Zombie, needsDispatch := true)
          case Disconnecting => quiet.(state := Zombie, needsDispatch := true)
          case Connecting => quiet.(state := Zombie, needsDispatch := true)
          case AcknowledgingConnect => Peer(Disconnected, 0, false, 0)
          case ConnectionPending => Peer(Disconnected, 0, false, 0)
          case _ => if acknowledge then quiet.(state := AcknowledgingDisconnect)
                    else quiet.(state := Zombie, needsDispatch := true)]
    {
      hide Count, QueueIs, Without;
      var s := peers[i].state;
      if s == Disconnected || s == Zombie || s == AcknowledgingDisconnect { return; }
      ResetQueues(i);
      if s == ConnectionSucceeded || s == Disconnecting || s == Connecting {
        DispatchState(i, Zombie);
      } else if s != Connected && s != DisconnectLater {
        if s == ConnectionPending { recalculateBandwidthLimits := true; }
        Reset(i);
      } else if acknowledge {
        ChangeState(i, AcknowledgingDisconnect);
      } else {
        DispatchState(i, Zombie);
      }
    }

    /** The turn of enet_protocol_send_acknowledgements in which a disconnect is acknowledged. */
    method AcknowledgeDisconnect(i: nat)
      requires Sound() && i < |peers|
      modifies this`peers, this`connectedPeers, this`bandwidthLimitedPeers, this`dispatchQueue
      ensures Sound() && peers == old(peers)[i := old(peers[i]).(state := Zombie, needsDispatch := true)]
      ensures dispatchQueue == QueueFor(old(dispatchQueue), i, old(peers[i]), peers[i])
    {
      hide Count, QueueIs, Without;
      DispatchState(i, Zombie);
    }

    /** enet_peer_disconnect */
    method Disconnect(i: nat)
      requires Sound() && i < |peers|
      modifies this
      ensures Sound() && |peers| == |old(peers)|
      ensures dispatchQueue == QueueFor(old(dispatchQueue), i, old(peers[i]), peers[i])
      ensures var p := old(peers[i]);
        peers == old(peers)[i :=
          if p.state == Disconnecting || p.state == Disconnected || p.state == AcknowledgingDisconnect || p.state == Zombie then p
          else if IsConnected(p) then p.(state := Disconnecting, needsDispatch := false, waiting := 0)
          else Peer(Disconnected, 0, false, 0)]
    {
      hide Count, QueueIs, Without;
      var s := peers[i].state;
      if s == Disconnecting || s == Disconnected || s == AcknowledgingDisconnect || s == Zombie { return; }
      ResetQueues(i);
      if s == Connected || s == DisconnectLater {
        CountUpdate(peers, i, peers[i].(state := Disconnecting), IsConnected);
        CountUpdate(peers, i, peers[i].(state := Disconnecting), IsLimited);
        QueueSame(peers, dispatchQueue, i, peers[i].(state := Disconnecting));
        OnDisconnect(i);
        peers := peers[i := peers[i].(state := Disconnecting)];
      } else {
        Reset(i);
      }
    }

    /** enet_peer_disconnect_now; sending the notice changes no state. */
    method DisconnectNow(i: nat)
      requires Sound() && i < |peers|
      modifies this
      ensures Sound() && peers == if old(peers[i]).state == Disconnected then old(peers)
                                   else old(peers)[i := Peer(Disconnected, 0, false, 0)]
      ensures dispatchQueue == QueueFor(old(dispatchQueue), i, old(peers[i]), peers[i])
    {
      var s := peers[i].state;
      if s == Disconnected { return; }
      if s != Zombie && s != Disconnecting { ResetQueues(i); }
      Reset(i);
    }

    /** enet_peer_disconnect_later; `idle` is whether nothing is queued or unacknowledged. */
    method DisconnectLaterOn(i: nat, idle: bool)
      requires Sound() && i < |peers|
      modifies this
      ensures Sound() && |peers| == |old(peers)|
      ensures dispatchQueue == QueueFor(old(dispatchQueue), i, old(peers[i]), peers[i])
      ensures IsConnected(old(peers[i])) && !idle ==> peers == old(peers)[i := old(peers[i]).(state := DisconnectLater)]
      ensures IsConnected(old(peers[i])) && idle ==>
        peers == old(peers)[i := old(peers[i]).(state := Disconnecting, needsDispatch := false, waiting := 0)]
      ensures !IsConnected(old(peers[i])) ==>
        peers == old(peers)[i := if Rank(old(peers[i]).state) == 0 || Rank(old(peers[i]).state) >= 7 then old(peers[i])
                                 else Peer(Disconnected, 0, false, 0)]
    {
      var p := peers[i];
      if IsConnected(p) && !idle {
        CountUpdate(peers, i, p.(state := DisconnectLater), IsConnected);
        CountUpdate(peers, i, p.(state := DisconnectLater), IsLimited);
        peers := peers[i := p.(state := DisconnectLater)];
      } else {
        Disconnect(i);
      }
    }

    /** The end of enet_protocol_handle_acknowledge: what the acknowledged command means for the
        state. `idle` is whether nothing is queued or unacknowledged any more. */
    method HandleAcknowledge(i: nat, found: Found, idle: bool, event: bool) returns (ok: bool, e: Event)
      requires Sound() && i < |peers|
      modifies this
      ensures Sound() && |peers| == |old(peers)|
      ensures dispatchQueue == QueueFor(old(dispatchQueue), i, old(peers[i]), peers[i])
      ensures e == if !ok || !event then NoEvent
                   else if old(peers[i]).state == AcknowledgingConnect then ConnectEvent(i)
                   else if old(peers[i]).state == Disconnecting then DisconnectEvent(i) else NoEvent
      ensures var p := old(peers[i]);
        match p.state
        case AcknowledgingConnect =>
          && (ok <==> found == FoundVerifyConnect)
          && peers == old(peers)[i := if !ok then p else if event then p.(state := Connected)
                                      else p.(state := ConnectionPending, needsDispatch := true)]
        case Disconnecting =>
          && (ok <==> found == FoundDisconnect)
          && peers == old(peers)[i := if !ok then p else if event then Peer(Disconnected, 0, false, 0)
                                      else p.(state := Zombie, needsDispatch := true)]
        case DisconnectLater =>
          ok && peers == old(peers)[i := if idle then p.(state := Disconnecting, needsDispatch := false, waiting := 0) else p]
        case _ => ok && peers == old(peers)
    {
      e := NoEvent;
      ok := true;
      match peers[i].state {
        case AcknowledgingConnect =>
          if found != FoundVerifyConnect { return false, NoEvent; }
          e := NotifyConnect(i, event);
        case Disconnecting =>
          if found != FoundDisconnect { return false, NoEvent; }
          e := NotifyDisconnect(i, event);
        case DisconnectLater =>
          if idle { Disconnect(i); }
        case _ =>
      }
    }

    /** A packet becomes ready on a peer: the tail of the dispatch functions of its channels. */
    method PacketReady(i: nat)
      requires Sound() && i < |peers| && IsConnected(peers[i])
      modifies this`peers, this`dispatchQueue
      ensures Sound() && peers == old(peers)[i := old(peers[i]).(waiting := old(peers[i]).waiting + 1, needsDispatch := true)]
      ensures dispatchQueue == QueueFor(old(dispatchQueue), i, old(peers[i]), peers[i])
    {
      var q := peers[i].(waiting := peers[i].waiting + 1);
      CountUpdate(peers, i, q, IsConnected);
      CountUpdate(peers, i, q, IsLimited);
      peers := peers[i := q];
      Enqueue(i);
    }

    /** Takes the first peer off the queue. */
    method PopQueue() returns (i: nat)
      requires Valid() && dispatchQueue != []
      modifies this`peers, this`dispatchQueue
      ensures Valid() && i == old(dispatchQueue[0]) && i < |old(peers)| && dispatchQueue == old(dispatchQueue)[1..]
      ensures old(peers)[i].needsDispatch && peers == old(peers)[i := old(peers)[i].(needsDispatch := false)]
    {
      i := dispatchQueue[0];
      assert i in dispatchQueue;
      QueuePopped(peers, dispatchQueue, peers[i].(needsDispatch := false));
      var q := peers[i].(needsDispatch := false);
      CountUpdate(peers, i, q, IsConnected);
      CountUpdate(peers, i, q, IsLimited);
      dispatchQueue := dispatchQueue[1..];
      peers := peers[i := q];
    }

    /** Tells of the peer just taken off the queue, if it has news. */
    method Tell(i: nat) returns (e: Event)
      requires Valid() && i < |peers| && !peers[i].needsDispatch && Announced(peers[i].(needsDispatch := true))
      requires forall j | 0 <= j < |peers| && j != i :: Announced(peers[j])
      modifies this
      ensures Sound() && peers == old(peers)[i := AfterNews(old(peers[i]))]
      ensures e == NewsOf(i, old(peers[i]))
      ensures dispatchQueue == old(dispatchQueue) + if AfterNews(old(peers[i])).needsDispatch then [i] else []
      ensures recalculateBandwidthLimits == (old(recalculateBandwidthLimits) || e.DisconnectEvent?)
    {
      hide Count, QueueIs, Without;
      var p := peers[i];
      e := NoEvent;
      if p.state == ConnectionPending || p.state == ConnectionSucceeded {
        ChangeState(i, Connected);
        e := ConnectEvent(i);
      } else if p.state == Zombie {
        recalculateBandwidthLimits := true;
        Reset(i);
        e := DisconnectEvent(i);
      } else if p.state == Connected && p.waiting > 0 {
        var q := p.(waiting := p.waiting - 1);
        CountUpdate(peers, i, q, IsConnected);
        CountUpdate(peers, i, q, IsLimited);
        QueueSame(peers, dispatchQueue, i, q);
        peers := peers[i := q];
        if q.waiting > 0 { Enqueue(i); }
        e := ReceiveEvent(i);
      }
    }

    /** Of the queue q of peers ps, the first n peers have left without news. */
    ghost predicate Gone(ps: seq<Peer>, q: seq<nat>, n: nat)
      reads this
    {
      && Sound() && |peers| == |ps| && n <= |q| && dispatchQueue == q[n..]
      && (forall x | 0 <= x < |q| :: q[x] < |ps|)
      && FirstNews(ps, q, 0) == FirstNews(ps, q, n)
      && (forall j: nat | j < |peers| :: peers[j] == ps[j].(needsDispatch := j in dispatchQueue))
      && (forall j: nat | j < |peers| && j !in dispatchQueue :: !HasNews(ps[j]))
    }

    /** The loop body: one peer leaves the queue. */
    method DispatchTurn(ghost ps: seq<Peer>, ghost q: seq<nat>, ghost n: nat) returns (e: Event)
      requires Gone(ps, q, n) && dispatchQueue != []
      modifies this
      ensures e == NoEvent ==> Gone(ps, q, n + 1) && recalculateBandwidthLimits == old(recalculateBandwidthLimits)
      ensures n < |q| && q[n] < |ps| == |peers|
      ensures e != NoEvent ==> var p := AfterNews(ps[q[n]]);
        && Sound() && HasNews(ps[q[n]]) && FirstNews(ps, q, n) == n
        && e == NewsOf(q[n], ps[q[n]]) && peers[q[n]] == p
        && dispatchQueue == q[n + 1..] + (if p.needsDispatch then [q[n]] else [])
        && (forall j: nat | j < |peers| && j != q[n] :: peers[j] == ps[j].(needsDispatch := j in q[n + 1..]))
        && recalculateBandwidthLimits == (old(recalculateBandwidthLimits) || e.DisconnectEvent?)
    {
      hide Count, QueueIs, HasNews, AfterNews, NewsOf, Announced, Without;
      InQueue(peers, dispatchQueue);
      var i := PopQueue();
      InQueue(peers, dispatchQueue);
      assert peers[i] == ps[i].(needsDispatch := false) && q[n] == i;
      NewsStays(i, ps[i]);
      e := Tell(i);
    }

    /** enet_protocol_dispatch_incoming_commands: the first peer in the queue that has news is told
        of; the peers before it have left the queue, all others are as they were. There is no event
        only when no peer has news. The event and the peer's new state follow from its state. */
    method DispatchIncoming() returns (e: Event)
      requires Sound()
      modifies this
      ensures Sound() && |peers| == |old(peers)| && forall x | 0 <= x < |old(dispatchQueue)| :: old(dispatchQueue)[x] < |peers|
      ensures e == NoEvent <==> forall j | 0 <= j < |peers| :: !HasNews(old(peers)[j])
      ensures var q := old(dispatchQueue); var k := FirstNews(old(peers), q, 0);
        if k == |q| then
          && e == NoEvent && dispatchQueue == []
          && forall j: nat | j < |peers| :: peers[j] == old(peers)[j].(needsDispatch := false)
        else
          var p := AfterNews(old(peers)[q[k]]);
          && e == NewsOf(q[k], old(peers)[q[k]]) && peers[q[k]] == p
          && e != NoEvent && ToldOf(q[k], old(peers)[q[k]], e, peers[q[k]])
          && (forall x | 0 <= x < k :: ToldOf(q[x], old(peers)[q[x]], NoEvent, AfterNews(old(peers)[q[x]])))
          && dispatchQueue == q[k + 1..] + (if p.needsDispatch then [q[k]] else [])
          && forall j: nat | j < |peers| && j != q[k] :: peers[j] == old(peers)[j].(needsDispatch := j in q[k + 1..])
      ensures recalculateBandwidthLimits == (old(recalculateBandwidthLimits) || e.DisconnectEvent?)
    {
      hide Count, QueueIs, HasNews, AfterNews, NewsOf, Announced, Without, ToldOf;
      ghost var ps, q := peers, dispatchQueue;
      ghost var n := 0;
      InQueue(peers, dispatchQueue);
      forall j: nat | j < |peers| && j !in dispatchQueue ensures !HasNews(ps[j]) { NoNews(ps[j]); }
      while dispatchQueue != []
        invariant Gone(ps, q, n) && recalculateBandwidthLimits == old(recalculateBandwidthLimits)
        decreases |dispatchQueue|
      {
        e := DispatchTurn(ps, q, n);
        if e != NoEvent {
          NewsInOrder(ps, q, n);
          return;
        }
        n := n + 1;
      }
      e := NoEvent;
    }
  }
}

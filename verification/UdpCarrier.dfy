/** The demultiplexer of mode "udp" (udpcarrier.go): one shared pool socket whose datagrams go, by
    source address, to the flow of that peer, or start a new one. */
module UdpCarrier {
  type Peer = nat
  type User = nat
  type Payload = nat

  const CHANNEL_SLOTS := 64
  const FLOW_QUEUE_CAP := 4096

  class UdpPoolFlow {
    const peer: Peer
    var inbound: seq<Payload>

    constructor (peer: Peer)
      ensures this.peer == peer && inbound == []
    {
      this.peer, inbound := peer, [];
    }

    /** A send that never blocks: a full channel drops the datagram. */
    method Offer(data: Payload)
      modifies this`inbound
      ensures inbound == PushedOrDropped(old(inbound), data)
    {
      if |inbound| < CHANNEL_SLOTS {
        inbound := inbound + [data];
      }
    }
  }

  /** A send that never blocks, on a channel of 64 slots. */
  function PushedOrDropped<T>(queue: seq<T>, x: T): seq<T> {
    if |queue| < CHANNEL_SLOTS then queue + [x] else queue
  }

  class Demultiplexer {
    var udpFlows: map<Peer, UdpPoolFlow>
    var udpFlowCh: seq<UdpPoolFlow>

    constructor ()
      ensures udpFlows == map[] && udpFlowCh == []
    {
      udpFlows, udpFlowCh := map[], [];
    }

    /** Every flow is filed under its own peer. */
    ghost predicate Valid()
      reads this
    {
      forall k :: k in udpFlows ==> udpFlows[k].peer == k
    }

    /** One datagram off the pool socket; `authentic` says whether it is the current auth tag. */
    method OnDatagram(peer: Peer, data: Payload, authentic: bool)
      requires Valid()
      modifies this, udpFlows.Values
      ensures Valid()
      ensures peer in old(udpFlows) ==>
                && udpFlows == old(udpFlows) && udpFlowCh == old(udpFlowCh)
                && udpFlows[peer].inbound == PushedOrDropped(old(udpFlows[peer].inbound), data)
                && forall k :: k in udpFlows && udpFlows[k] != udpFlows[peer]
                       ==> udpFlows[k].inbound == old(udpFlows[k].inbound)
      ensures peer !in old(udpFlows) && (!authentic || |old(udpFlowCh)| >= FLOW_QUEUE_CAP) ==>
                udpFlows == old(udpFlows) && udpFlowCh == old(udpFlowCh)
      ensures peer !in old(udpFlows) && authentic && |old(udpFlowCh)| < FLOW_QUEUE_CAP ==>
                && peer in udpFlows && fresh(udpFlows[peer]) && udpFlows[peer].inbound == []
                && udpFlows == old(udpFlows)[peer := udpFlows[peer]]
                && udpFlowCh == old(udpFlowCh) + [udpFlows[peer]]
      ensures peer !in old(udpFlows) ==>
                forall k :: k in old(udpFlows) ==> old(udpFlows)[k].inbound == old(udpFlows[k].inbound)
    {
      if peer in udpFlows {
        assert udpFlows[peer] in udpFlows.Values;
        udpFlows[peer].Offer(data);
        return;
      }
      if !authentic {
        return;
      }
      var flow := new UdpPoolFlow(peer);
      udpFlows := udpFlows[peer := flow];
      if |udpFlowCh| < FLOW_QUEUE_CAP {
        udpFlowCh := udpFlowCh + [flow];
      } else {
        udpFlows := udpFlows - {peer};
      }
    }

    /** Retires idle flows from the map; one that is still queued stays queued. */
    method Reap(idle: set<Peer>)
      requires Valid()
      modifies this`udpFlows
      ensures Valid() && udpFlows == old(udpFlows) - idle
    {
      udpFlows := udpFlows - idle;
    }
  }
}

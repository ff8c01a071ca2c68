/**
 Allocation of proxy-port slices to clients: the validation that refuses a conflicting
 request, the registry update, and what every sequence of requests keeps.
 */
module Provisioning {
  import opened Options

  const POOL_MIN := 11100
  const POOL_MAX := 22000

  datatype Entry = Entry(client: string, gatewayPort: int, start: int, end: int)

  /** Registry entries in the order in which they were added. */
  type Registry = seq<Entry>

  datatype Request = Request(client: string, gatewayPort: int, start: int, end: int)

  datatype Refusal =
    | EmptyRange | OutsidePool | ClientExists
    | GatewayUsedBy(client: string) | OverlapsSliceOf(client: string)

  predicate RangesOverlap(s1: int, e1: int, s2: int, e2: int) { s1 <= e2 && s2 <= e1 }

  predicate HasClient(reg: Registry, client: string) {
    exists i :: 0 <= i < |reg| && reg[i].client == client
  }

  /** Why another client's entry rules the request out, if it does. */
  function Conflict(entry: Entry, r: Request): Option<Refusal> {
    if entry.client == r.client then None
    else if entry.gatewayPort == r.gatewayPort then Some(GatewayUsedBy(entry.client))
    else if RangesOverlap(r.start, r.end, entry.start, entry.end) then Some(OverlapsSliceOf(entry.client))
    else None
  }

  /** None when the request may go ahead; otherwise the first reason in checking order. */
  method ValidateAllocation(reg: Registry, r: Request, allowExisting: bool) returns (refusal: Option<Refusal>)
    ensures refusal.None? <==>
              && POOL_MIN <= r.start && r.end <= POOL_MAX
              && (HasClient(reg, r.client) ==> allowExisting)
              && forall i :: 0 <= i < |reg| ==> Conflict(reg[i], r).None?
    ensures refusal == Some(OutsidePool) <==> !(POOL_MIN <= r.start && r.end <= POOL_MAX)
    ensures refusal == Some(ClientExists) <==>
              POOL_MIN <= r.start && r.end <= POOL_MAX && HasClient(reg, r.client) && !allowExisting
    ensures refusal.Some? && !refusal.value.OutsidePool? && !refusal.value.ClientExists? ==>
              exists i :: 0 <= i < |reg| && Conflict(reg[i], r) == refusal
                          && forall j :: 0 <= j < i ==> Conflict(reg[j], r).None?
    ensures refusal.None? ==>
              && 11100 <= r.start && r.end <= 22000
              && forall i :: 0 <= i < |reg| && reg[i].client != r.client ==>
                   reg[i].gatewayPort != r.gatewayPort && (r.end < reg[i].start || reg[i].end < r.start)
    ensures refusal.Some? && refusal.value.GatewayUsedBy? ==>
              exists i :: 0 <= i < |reg| && reg[i].client == refusal.value.client && reg[i].client != r.client
                          && reg[i].gatewayPort == r.gatewayPort
    ensures refusal.Some? && refusal.value.OverlapsSliceOf? ==>
              exists i :: 0 <= i < |reg| && reg[i].client == refusal.value.client && reg[i].client != r.client
                          && reg[i].gatewayPort != r.gatewayPort && r.start <= reg[i].end && reg[i].start <= r.end
  {
    if r.start < POOL_MIN || r.end > POOL_MAX {
      return Some(OutsidePool);
    }
    if HasClient(reg, r.client) && !allowExisting {
      return Some(ClientExists);
    }
    for i := 0 to |reg|
      invariant forall j :: 0 <= j < i ==> Conflict(reg[j], r).None?
    {
      if reg[i].client == r.client {
        continue;
      }
      if reg[i].gatewayPort == r.gatewayPort {
        return Some(GatewayUsedBy(reg[i].client));
      }
      if RangesOverlap(r.start, r.end, reg[i].start, reg[i].end) {
        return Some(OverlapsSliceOf(reg[i].client));
      }
    }
    refusal := None;
  }

  /** One proxy row per port of the slice. */
  function ProxyPorts(start: int, end: int): (ports: seq<int>)
    ensures forall p :: p in ports <==> start <= p <= end
    ensures |ports| == if start <= end then end - start + 1 else 0
    decreases end - start
  {
    if start > end then [] else ProxyPorts(start, end - 1) + [end]
  }

  /** For slices that hold a port, the interval test is exactly a shared port. */
  lemma OverlapIsASharedPort(s1: int, e1: int, s2: int, e2: int)
    requires s1 <= e1 && s2 <= e2
    ensures RangesOverlap(s1, e1, s2, e2) <==>
            exists p :: p in ProxyPorts(s1, e1) && p in ProxyPorts(s2, e2)
  {
    if RangesOverlap(s1, e1, s2, e2) {
      var p := if s1 >= s2 then s1 else s2;
      assert p in ProxyPorts(s1, e1) && p in ProxyPorts(s2, e2);
    }
  }

  predicate Accepted(reg: Registry, r: Request) {
    && r.start <= r.end && POOL_MIN <= r.start && r.end <= POOL_MAX
    && !HasClient(reg, r.client)
    && forall i :: 0 <= i < |reg| ==> Conflict(reg[i], r).None?
  }

  function Registered(reg: Registry, r: Request): Registry {
    if Accepted(reg, r) then reg + [Entry(r.client, r.gatewayPort, r.start, r.end)] else reg
  }

  ghost predicate Sound(reg: Registry) {
    && (forall i :: 0 <= i < |reg| ==> POOL_MIN <= reg[i].start <= reg[i].end <= POOL_MAX)
    && forall i, j :: 0 <= i < j < |reg| ==>
         && reg[i].client != reg[j].client && reg[i].gatewayPort != reg[j].gatewayPort
         && !RangesOverlap(reg[i].start, reg[i].end, reg[j].start, reg[j].end)
  }

  class Provisioner {
    var registry: Registry

    constructor ()
      ensures registry == []
    {
      registry := [];
    }

    /** The render path: parse check, validation, registry entry, emitted proxy rows. */
    method Provision(r: Request) returns (refusal: Option<Refusal>, ports: seq<int>)
      modifies this
      ensures registry == Registered(old(registry), r)
      ensures refusal.None? <==> Accepted(old(registry), r)
      ensures registry == old(registry) + if refusal.None? then [Entry(r.client, r.gatewayPort, r.start, r.end)] else []
      ensures refusal == Some(EmptyRange) <==> r.start > r.end
      ensures ports == if refusal.None? then ProxyPorts(r.start, r.end) else []
      ensures old(Sound(registry)) ==> Sound(registry)
    {
      if r.start > r.end {
        return Some(EmptyRange), [];
      }
      refusal := ValidateAllocation(registry, r, false);
      if refusal.Some? {
        return refusal, [];
      }
      ports := ProxyPorts(r.start, r.end);
      registry := registry + [Entry(r.client, r.gatewayPort, r.start, r.end)];
    }
  }

  function After(requests: seq<Request>): Registry {
    if requests == [] then [] else Registered(After(requests[..|requests| - 1]), requests[|requests| - 1])
  }

  /** Whatever is requested in whatever order: every slice stays inside the pool, clients
      and gateway ports stay distinct, and no port is handed to two clients. */
  lemma {:induction false} NoPortIsSharedEver(requests: seq<Request>)
    ensures Sound(After(requests))
    ensures var reg := After(requests);
            forall i, j, p | 0 <= i < |reg| && 0 <= j < |reg| && p in ProxyPorts(reg[i].start, reg[i].end)
                             && p in ProxyPorts(reg[j].start, reg[j].end) :: i == j
  {
    if requests == [] {
    } else {
      NoPortIsSharedEver(requests[..|requests| - 1]);
    }
    var reg := After(requests);
    forall i, j, p | 0 <= i < j < |reg| && p in ProxyPorts(reg[i].start, reg[i].end)
      ensures p !in ProxyPorts(reg[j].start, reg[j].end)
    {
      OverlapIsASharedPort(reg[i].start, reg[i].end, reg[j].start, reg[j].end);
    }
  }

  predicate NoClash(entry: Entry, r: Request) {
    && entry.client != r.client && entry.gatewayPort != r.gatewayPort
    && forall p | p in ProxyPorts(r.start, r.end) :: p !in ProxyPorts(entry.start, entry.end)
  }

  /** Nothing is refused without cause: over every run, a request with a slice inside the
      pool goes through exactly when its client, its gateway port and its ports are free. */
  lemma AcceptedIffFree(requests: seq<Request>, r: Request)
    requires 11100 <= r.start <= r.end <= 22000
    ensures Accepted(After(requests), r) <==>
            forall i :: 0 <= i < |After(requests)| ==> NoClash(After(requests)[i], r)
  {
    NoPortIsSharedEver(requests);
    var reg := After(requests);
    forall i | 0 <= i < |reg|
      ensures NoClash(reg[i], r) <==> reg[i].client != r.client && Conflict(reg[i], r).None?
    {
      OverlapIsASharedPort(r.start, r.end, reg[i].start, reg[i].end);
    }
  }
}

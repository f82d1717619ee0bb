/**
 Kubernetes backends become addresses (crates/controller/src/ingress_kubernetes.rs).
 What the cluster answered is given; a request that failed is `None`.
 */
module IngressKubernetes {
  import opened Prelude
  import opened IngressRender

  datatype PortRef = Number(number: int) | Named(name: string)

  datatype ServicePort = ServicePort(name: string, port: int, nodePort: Option<int>)

  /** `balancers` are the addresses of the service's load balancer. */
  datatype Service = Service(balancers: seq<string>, ports: seq<ServicePort>)

  /** An endpoint that does not say whether it is ready is. */
  datatype Endpoint = Endpoint(ready: Option<bool>, addresses: seq<string>)

  datatype SlicePort = SlicePort(name: string, port: Option<int>)

  datatype Slice = Slice(ports: seq<SlicePort>, endpoints: seq<Endpoint>)

  datatype Mode = LoadBalancer | NodePort | Pods

  /** What a backend asks for and what its cluster answered. */
  datatype Answer = Answer(mode: Mode, port: PortRef, service: Option<Service>, workers: Option<seq<string>>, slices: Option<seq<Slice>>)

  predicate Wanted(p: ServicePort, port: PortRef) {
    match port
    case Number(n) => p.port == n
    case Named(name) => p.name == name
  }

  function PickPort(ports: seq<ServicePort>, port: PortRef): (p: Option<ServicePort>)
    ensures p.Some? ==> p.value in ports && Wanted(p.value, port)
    ensures p.None? ==> forall q :: q in ports ==> !Wanted(q, port)
  {
    if ports == [] then None else if Wanted(ports[0], port) then Some(ports[0]) else PickPort(ports[1..], port)
  }

  function At(addresses: seq<string>, port: int): (dials: seq<Dial>)
    ensures |dials| == |addresses|
  {
    seq(|addresses|, k requires 0 <= k < |addresses| => HostPort(addresses[k], port))
  }

  /** The number of the first port of that name, if it has one. */
  function SlicePortOf(ports: seq<SlicePort>, name: string): (port: Option<int>) {
    if ports == [] then None else if ports[0].name == name then ports[0].port else SlicePortOf(ports[1..], name)
  }

  function ReadyAt(endpoints: seq<Endpoint>, port: int): (dials: seq<Dial>) {
    if endpoints == [] then []
    else
      var last := endpoints[|endpoints| - 1];
      ReadyAt(endpoints[..|endpoints| - 1], port) + if last.ready == Some(false) then [] else At(last.addresses, port)
  }

  function ReadyIn(slices: seq<Slice>, name: string): (dials: seq<Dial>) {
    if slices == [] then []
    else
      var last := slices[|slices| - 1];
      var port := SlicePortOf(last.ports, name);
      ReadyIn(slices[..|slices| - 1], name) + if port.None? then [] else ReadyAt(last.endpoints, port.value)
  }

  /** The addresses of a backend, or a problem. */
  function AddressesOf(a: Answer): (dials: Option<seq<Dial>>)
    ensures dials != Some([])
  {
    if a.service.None? then None
    else
      var service := a.service.value;
      var p := PickPort(service.ports, a.port);
      if p.None? then None
      else
        match a.mode
        case LoadBalancer => Filled(At(service.balancers, p.value.port))
        case NodePort => if a.workers.None? || p.value.nodePort.None? then None else Filled(At(a.workers.value, p.value.nodePort.value))
        case Pods => if a.slices.None? then None else Filled(ReadyIn(a.slices.value, p.value.name))
  }

  /** An empty list is a problem. */
  function Filled(dials: seq<Dial>): (r: Option<seq<Dial>>)
    ensures r.Some? <==> dials != []
  {
    if dials == [] then None else Some(dials)
  }

  // ---- the loops -------------------------------------------------------------

  method PodDials(slices: seq<Slice>, name: string) returns (dials: seq<Dial>)
    ensures dials == ReadyIn(slices, name)
  {
    dials := [];
    for i := 0 to |slices|
      invariant dials == ReadyIn(slices[..i], name)
    {
      assert slices[..i + 1][..i] == slices[..i] && slices[..i + 1][i] == slices[i];
      var port := SlicePortOf(slices[i].ports, name);
      if port.Some? {
        dials := EndpointDials(dials, slices[i].endpoints, port.value);
      }
    }
    assert slices[..|slices|] == slices;
  }

  method EndpointDials(before: seq<Dial>, endpoints: seq<Endpoint>, port: int) returns (dials: seq<Dial>)
    ensures dials == before + ReadyAt(endpoints, port)
  {
    dials := before;
    for i := 0 to |endpoints|
      invariant dials == before + ReadyAt(endpoints[..i], port)
    {
      var e := endpoints[i];
      assert endpoints[..i + 1][..i] == endpoints[..i] && endpoints[..i + 1][i] == e;
      if e.ready != Some(false) {
        Assoc(before, ReadyAt(endpoints[..i], port), At(e.addresses, port));
        dials := dials + At(e.addresses, port);
      }
    }
    assert endpoints[..|endpoints|] == endpoints;
  }

  method ResolveOne(a: Answer) returns (dials: Option<seq<Dial>>)
    ensures dials == AddressesOf(a)
  {
    if a.service.None? {
      return None;
    }
    var p := PickPort(a.service.value.ports, a.port);
    if p.None? {
      return None;
    }
    match a.mode {
      case LoadBalancer =>
        dials := Filled(At(a.service.value.balancers, p.value.port));
      case NodePort =>
        if a.workers.None? || p.value.nodePort.None? {
          return None;
        }
        dials := Filled(At(a.workers.value, p.value.nodePort.value));
      case Pods =>
        if a.slices.None? {
          return None;
        }
        var found := PodDials(a.slices.value, p.value.name);
        dials := Filled(found);
    }
  }

  // ---- which addresses -------------------------------------------------------

  predicate ReadyEndpoint(endpoints: seq<Endpoint>, address: string) {
    exists k :: 0 <= k < |endpoints| && endpoints[k].ready != Some(false) && address in endpoints[k].addresses
  }

  /** Port `k` is the first of that name. */
  predicate FirstNamed(ports: seq<SlicePort>, name: string, k: nat) {
    k < |ports| && ports[k].name == name && forall j :: 0 <= j < k ==> ports[j].name != name
  }

  predicate SliceListens(ports: seq<SlicePort>, name: string, port: int) {
    exists k: nat :: k < |ports| && FirstNamed(ports, name, k) && ports[k].port == Some(port)
  }

  lemma {:induction false} SliceListensIff(ports: seq<SlicePort>, name: string, port: int)
    ensures SliceListens(ports, name, port) <==> SlicePortOf(ports, name) == Some(port)
  {
    if ports != [] {
      var rest := ports[1..];
      SliceListensIff(rest, name, port);
      if ports[0].name == name {
        assert FirstNamed(ports, name, 0);
      } else {
        if k: nat :| k < |rest| && FirstNamed(rest, name, k) && rest[k].port == Some(port) {
          assert forall j :: 0 < j <= k ==> ports[j] == rest[j - 1];
          assert FirstNamed(ports, name, k + 1) && ports[k + 1].port == Some(port);
        }
        if k: nat :| k < |ports| && FirstNamed(ports, name, k) && ports[k].port == Some(port) {
          assert forall j :: 0 <= j < k ==> rest[j] == ports[j + 1];
          assert FirstNamed(rest, name, k - 1) && rest[k - 1].port == Some(port);
        }
      }
    }
  }

  predicate FromSlice(slice: Slice, name: string, d: Dial) {
    d.HostPort? && SliceListens(slice.ports, name, d.port) && ReadyEndpoint(slice.endpoints, d.address)
  }

  predicate ReadySlice(slices: seq<Slice>, name: string, d: Dial) {
    exists k :: 0 <= k < |slices| && FromSlice(slices[k], name, d)
  }

  lemma AtMembers(addresses: seq<string>, port: int, d: Dial)
    ensures d in At(addresses, port) <==> d.HostPort? && d.port == port && d.address in addresses
  {
    if d.HostPort? && d.port == port && d.address in addresses {
      var k :| 0 <= k < |addresses| && addresses[k] == d.address;
      assert At(addresses, port)[k] == d;
    }
  }

  lemma {:induction false} ReadyAtMembers(endpoints: seq<Endpoint>, port: int, d: Dial)
    ensures d in ReadyAt(endpoints, port) <==> d.HostPort? && d.port == port && ReadyEndpoint(endpoints, d.address)
  {
    if endpoints != [] {
      var front, last := endpoints[..|endpoints| - 1], endpoints[|endpoints| - 1];
      ReadyAtMembers(front, port, d);
      AtMembers(last.addresses, port, d);
      if d.HostPort? {
        assert forall k :: 0 <= k < |front| ==> front[k] == endpoints[k];
        assert ReadyEndpoint(endpoints, d.address) <==> ReadyEndpoint(front, d.address) || (last.ready != Some(false) && d.address in last.addresses);
      }
    }
  }

  lemma LastSlice(slices: seq<Slice>, name: string, d: Dial)
    requires slices != []
    ensures ReadySlice(slices, name, d) <==> ReadySlice(slices[..|slices| - 1], name, d) || FromSlice(slices[|slices| - 1], name, d)
  {
    var front := slices[..|slices| - 1];
    assert forall k :: 0 <= k < |front| ==> front[k] == slices[k];
  }

  /** In `pods` mode a backend dials exactly the addresses of endpoints not marked unready, on the port of their own slice. */
  lemma {:induction false} ReadyInMembers(slices: seq<Slice>, name: string, d: Dial)
    ensures d in ReadyIn(slices, name) <==> ReadySlice(slices, name, d)
  {
    if slices != [] {
      var front, last := slices[..|slices| - 1], slices[|slices| - 1];
      ReadyInMembers(front, name, d);
      LastSlice(slices, name, d);
      var port := SlicePortOf(last.ports, name);
      if d.HostPort? {
        SliceListensIff(last.ports, name, d.port);
      }
      if port.Some? {
        ReadyAtMembers(last.endpoints, port.value, d);
        assert d in ReadyAt(last.endpoints, port.value) <==> FromSlice(last, name, d);
      }
    }
  }

  /** The service port has the number or the name asked for. */
  predicate Asked(p: ServicePort, port: PortRef) {
    if port.Number? then p.port == port.number else p.name == port.name
  }

  /** Port `k` is the first one asked for. */
  predicate FirstAsked(ports: seq<ServicePort>, port: PortRef, k: nat) {
    k < |ports| && Asked(ports[k], port) && forall j :: 0 <= j < k ==> !Asked(ports[j], port)
  }

  lemma {:induction false} FirstAskedIff(ports: seq<ServicePort>, port: PortRef, p: ServicePort)
    ensures PickPort(ports, port) == Some(p) <==> exists k: nat :: k < |ports| && FirstAsked(ports, port, k) && ports[k] == p
  {
    if ports != [] {
      var rest := ports[1..];
      FirstAskedIff(rest, port, p);
      if Asked(ports[0], port) {
        assert FirstAsked(ports, port, 0);
      } else {
        if k: nat :| k < |rest| && FirstAsked(rest, port, k) && rest[k] == p {
          assert forall j :: 0 < j <= k ==> ports[j] == rest[j - 1];
          assert FirstAsked(ports, port, k + 1) && ports[k + 1] == p;
        }
        if k: nat :| k < |ports| && FirstAsked(ports, port, k) && ports[k] == p {
          assert forall j :: 0 <= j < k ==> rest[j] == ports[j + 1];
          assert FirstAsked(rest, port, k - 1) && rest[k - 1] == p;
        }
      }
    }
  }

  /** Behind this service port the cluster has the address. */
  predicate OffersAt(a: Answer, p: ServicePort, d: Dial)
    requires a.service.Some?
  {
    d.HostPort?
    && match a.mode
       case LoadBalancer => d.port == p.port && d.address in a.service.value.balancers
       case NodePort => a.workers.Some? && p.nodePort == Some(d.port) && d.address in a.workers.value
       case Pods => a.slices.Some? && ReadySlice(a.slices.value, p.name, d)
  }

  /** The cluster offers this address for what the backend asks for. */
  predicate Offers(a: Answer, d: Dial) {
    && a.service.Some?
    && var ports := a.service.value.ports;
       exists k: nat :: k < |ports| && FirstAsked(ports, a.port, k) && OffersAt(a, ports[k], d)
  }

  lemma OffersIff(a: Answer, d: Dial)
    requires a.service.Some?
    ensures var p := PickPort(a.service.value.ports, a.port);
            Offers(a, d) <==> p.Some? && OffersAt(a, p.value, d)
  {
    var ports := a.service.value.ports;
    forall k: nat | k < |ports| && FirstAsked(ports, a.port, k) ensures PickPort(ports, a.port) == Some(ports[k]) {
      FirstAskedIff(ports, a.port, ports[k]);
    }
    if PickPort(ports, a.port).Some? {
      FirstAskedIff(ports, a.port, PickPort(ports, a.port).value);
    }
  }

  /** A backend resolves to exactly the addresses its cluster offers, and fails when there is none. */
  lemma DialsWhatIsOffered(a: Answer, d: Dial)
    ensures Offers(a, d) <==> AddressesOf(a).Some? && d in AddressesOf(a).value
  {
    if a.service.Some? {
      OffersIff(a, d);
      if PickPort(a.service.value.ports, a.port).Some? {
        var p := PickPort(a.service.value.ports, a.port).value;
        match a.mode {
          case LoadBalancer => AtMembers(a.service.value.balancers, p.port, d);
          case NodePort =>
            if a.workers.Some? && p.nodePort.Some? {
              AtMembers(a.workers.value, p.nodePort.value, d);
            }
          case Pods =>
            if a.slices.Some? {
              ReadyInMembers(a.slices.value, p.name, d);
            }
        }
      }
    }
  }
}

/** src/resolve.rs: turning the hostname of a CONNECT request into socket addresses. */
module Resolve {
  import opened Common
  import opened Net
  import opened Text
  import opened KubeTypes

  // ---------------------------------------------------------------------------
  // The hostname grammar: name[.namespace].(endpoints|pod|pod-by-name).local[.]
  // ---------------------------------------------------------------------------

  datatype Command = EndpointsCommand | PodCommand | PodByNameCommand

  function CommandName(c: Command): string {
    match c
    case EndpointsCommand => "endpoints"
    case PodCommand => "pod"
    case PodByNameCommand => "pod-by-name"
  }

  /** Reads the third capture group of the pattern. */
  function ParseCommand(s: string): (r: Option<Command>)
    ensures r.Some? ==> CommandName(r.value) == s
    ensures r.None? ==> forall c :: CommandName(c) != s
  {
    if s == "endpoints" then Some(EndpointsCommand)
    else if s == "pod" then Some(PodCommand)
    else if s == "pod-by-name" then Some(PodByNameCommand)
    else None
  }

  /** `[a-zA-Z0-9-]`. */
  predicate IsLabelChar(c: char) {
    ('a' <= c <= 'z') || ('A' <= c <= 'Z') || ('0' <= c <= '9') || c == '-'
  }

  /** `[a-zA-Z0-9-]{1,63}`. */
  predicate IsLabel(s: string) {
    1 <= |s| <= 63 && forall i :: 0 <= i < |s| ==> IsLabelChar(s[i])
  }

  /** The captures of a matching hostname: the name, the namespace if given, the command. */
  datatype Custom = Custom(name: string, namespace: Option<string>, command: Command)

  predicate WellFormed(c: Custom) {
    IsLabel(c.name) && (c.namespace.Some? ==> IsLabel(c.namespace.value))
  }

  /**
   * The string the pattern `^(L)(?:\.(L))?\.(endpoints|pod|pod-by-name)\.local\.?$`
   * matches with these captures, `trailingDot` saying whether the final `\.?` is used.
   */
  function Render(c: Custom, trailingDot: bool): string {
    c.name + (if c.namespace.Some? then "." + c.namespace.value else "")
    + "." + CommandName(c.command) + ".local" + (if trailingDot then "." else "")
  }

  /** The dot-separated labels of `Render(c, false)`. */
  function Labels(c: Custom): seq<string> {
    [c.name] + (if c.namespace.Some? then [c.namespace.value] else []) + [CommandName(c.command), "local"]
  }

  /**
   * The regular-expression match of `resolve`: labels contain no dot, so a
   * hostname matches exactly when splitting it at its dots (ignoring one final
   * dot) gives name, optional namespace, command and `local`.
   */
  function Classify(hostname: string): (r: Option<Custom>)
    ensures r.Some? ==> WellFormed(r.value)
  {
    var all := Split(hostname, '.');
    var labels := if |all| > 1 && all[|all| - 1] == "" then all[..|all| - 1] else all;
    if |labels| == 3 && IsLabel(labels[0]) && ParseCommand(labels[1]).Some? && labels[2] == "local" then
      Some(Custom(labels[0], None, ParseCommand(labels[1]).value))
    else if |labels| == 4 && IsLabel(labels[0]) && IsLabel(labels[1])
            && ParseCommand(labels[2]).Some? && labels[3] == "local" then
      Some(Custom(labels[0], Some(labels[1]), ParseCommand(labels[2]).value))
    else
      None
  }

  lemma LabelHasNoDot(s: string)
    requires IsLabel(s)
    ensures '.' !in s
  {
  }

  lemma JoinCons(x: string, rest: seq<string>)
    requires |rest| >= 1
    ensures Join([x] + rest, '.') == x + "." + Join(rest, '.')
  {
    assert ([x] + rest)[1..] == rest;
  }

  lemma RenderLabels(c: Custom)
    ensures Render(c, false) == Join(Labels(c), '.')
    ensures Render(c, true) == Render(c, false) + "."
  {
    var cmd := CommandName(c.command);
    JoinCons(cmd, ["local"]);
    RenderNested(c, cmd);
    if c.namespace.Some? {
      var ns := c.namespace.value;
      JoinCons(ns, [cmd, "local"]);
      JoinCons(c.name, [ns, cmd, "local"]);
      assert Labels(c) == [c.name] + [ns, cmd, "local"];
    } else {
      JoinCons(c.name, [cmd, "local"]);
      assert Labels(c) == [c.name] + [cmd, "local"];
    }
  }

  /** `Render` written out with its concatenations nested to the right, label by label. */
  lemma RenderNested(c: Custom, cmd: string)
    requires cmd == CommandName(c.command)
    ensures c.namespace.Some? ==>
              Render(c, false) == c.name + "." + (c.namespace.value + "." + (cmd + "." + "local"))
    ensures c.namespace.None? ==> Render(c, false) == c.name + "." + (cmd + "." + "local")
    ensures Render(c, true) == Render(c, false) + "."
  {
  }

  /** The hostname `Render` writes splits back into the labels, and an empty piece for the dot. */
  lemma SplitRender(c: Custom, trailingDot: bool)
    requires WellFormed(c)
    ensures Split(Render(c, trailingDot), '.') == Labels(c) + (if trailingDot then [""] else [])
  {
    var labels := Labels(c);
    var parts := labels + (if trailingDot then [""] else []);
    LabelHasNoDot(c.name);
    if c.namespace.Some? { LabelHasNoDot(c.namespace.value); }
    assert forall c' :: '.' !in CommandName(c');
    assert forall i :: 0 <= i < |parts| ==> '.' !in parts[i];
    RenderLabels(c);
    if trailingDot {
      JoinSnoc(labels, "", '.');
      assert Render(c, true) == Join(parts, '.');
    } else {
      assert parts == labels;
    }
    SplitJoin(parts, '.');
  }

  /** Every string of the grammar is recognised, with its own captures: the decomposition is unique. */
  lemma ClassifyRender(c: Custom, trailingDot: bool)
    requires WellFormed(c)
    ensures Classify(Render(c, trailingDot)) == Some(c)
  {
    SplitRender(c, trailingDot);
    var parts := Labels(c) + (if trailingDot then [""] else []);
    if trailingDot {
      assert parts[..|parts| - 1] == Labels(c);
    }
    assert ParseCommand(CommandName(c.command)) == Some(c.command);
  }

  /** Every recognised hostname is a string of the grammar, with the captures reported. */
  lemma ClassifySound(hostname: string)
    requires Classify(hostname).Some?
    ensures exists trailingDot :: hostname == Render(Classify(hostname).value, trailingDot)
  {
    var c := Classify(hostname).value;
    var all := Split(hostname, '.');
    JoinSplit(hostname, '.');
    var dropped := |all| > 1 && all[|all| - 1] == "";
    var labels := if dropped then all[..|all| - 1] else all;
    assert labels == Labels(c);
    RenderLabels(c);
    if dropped {
      assert all == labels + [""];
      JoinSnoc(labels, "", '.');
      assert hostname == Render(c, true);
    } else {
      assert hostname == Render(c, false);
    }
  }

  // ---------------------------------------------------------------------------
  // Where a hostname is resolved
  // ---------------------------------------------------------------------------

  /** `ResolveCtx` without the Kubernetes client, whose single use is a parameter of `Resolve`. */
  datatype ResolveCtx = ResolveCtx(clusterLocal: string, defaultNamespace: string, dnsServers: seq<IpAddr>)

  /** The branch `resolve` takes for a hostname. */
  datatype Route = ViaEndpoints(namespace: string, name: string) | Unsupported(command: string) | ViaClusterDns

  function RouteOf(ctx: ResolveCtx, hostname: string): (r: Route)
    ensures r.ViaClusterDns? <==> Classify(hostname).None?
    ensures r.ViaEndpoints? ==> IsLabel(r.name)
  {
    match Classify(hostname)
    case None => ViaClusterDns
    case Some(c) =>
      var namespace := c.namespace.GetOr(ctx.defaultNamespace);
      if c.command == EndpointsCommand then ViaEndpoints(namespace, c.name)
      else Unsupported(CommandName(c.command))
  }

  /** A hostname of the grammar is looked up in the namespace it names, or else in the default one. */
  lemma RouteOfRendered(ctx: ResolveCtx, c: Custom, trailingDot: bool)
    requires WellFormed(c)
    ensures RouteOf(ctx, Render(c, trailingDot)) ==
              if c.command == EndpointsCommand then
                ViaEndpoints(if c.namespace.Some? then c.namespace.value else ctx.defaultNamespace, c.name)
              else
                Unsupported(CommandName(c.command))
  {
    ClassifyRender(c, trailingDot);
  }

  /** The endpoint form with a namespace spelled out: the second label is the namespace. */
  lemma EndpointsHostnameNamespaced(ctx: ResolveCtx, name: string, namespace: string)
    requires IsLabel(name) && IsLabel(namespace)
    ensures RouteOf(ctx, name + "." + namespace + ".endpoints.local") == ViaEndpoints(namespace, name)
  {
    var c := Custom(name, Some(namespace), EndpointsCommand);
    RouteOfRendered(ctx, c, false);
    assert Render(c, false) == name + "." + namespace + ".endpoints.local";
  }

  /** The endpoint form without a namespace spelled out: the default namespace is used. */
  lemma EndpointsHostnameDefault(ctx: ResolveCtx, name: string)
    requires IsLabel(name)
    ensures RouteOf(ctx, name + ".endpoints.local") == ViaEndpoints(ctx.defaultNamespace, name)
  {
    var c := Custom(name, None, EndpointsCommand);
    RouteOfRendered(ctx, c, false);
    assert Render(c, false) == name + ".endpoints.local";
  }

  // ---------------------------------------------------------------------------
  // The `endpoints` branch
  // ---------------------------------------------------------------------------

  lemma SingletonMember(ports: set<I32>, p: I32)
    requires |ports| == 1 && p in ports
    ensures ports == {p}
  {
    assert |ports - {p}| == 0;
  }

  /**
   * The outcome of the `endpoints` branch for the Endpoints object the API
   * returned: the first unparseable address is an error; no ports or no
   * addresses give no socket addresses; one distinct port is used for every
   * address (an error if it is not a u16); several give way to the port the
   * client asked for.
   */
  predicate EndpointsAnswer(endpoints: Endpoints, specifiedPort: U16, parse: IpParser, r: Result<seq<SocketAddr>>) {
    var subsets := endpoints.subsets.GetOr([]);
    var ports := PortNumbers(subsets);
    match ParseAll(AddressTexts(subsets), parse)
    case Err(e) => r == Err(e)
    case Ok(ips) =>
      if ports == {} || ips == [] then r == Ok([])
      else if |ports| == 1 then
        forall p :: p in ports ==>
          r == if 0 <= p < 0x1_0000 then Ok(WithPort(ips, p as U16)) else Err(PortOutOfRange(p))
      else
        r == Ok(WithPort(ips, specifiedPort))
  }

  /** `EndpointsAnswer` leaves exactly one outcome. */
  lemma EndpointsAnswerUnique(endpoints: Endpoints, specifiedPort: U16, parse: IpParser, r1: Result<seq<SocketAddr>>, r2: Result<seq<SocketAddr>>)
    requires EndpointsAnswer(endpoints, specifiedPort, parse, r1)
    requires EndpointsAnswer(endpoints, specifiedPort, parse, r2)
    ensures r1 == r2
  {
    var ports := PortNumbers(endpoints.subsets.GetOr([]));
    if |ports| == 1 {
      var p :| p in ports;
    }
  }

  /** A successful answer has one socket address per collected address string, in order. */
  lemma EndpointsAnswerAddresses(endpoints: Endpoints, specifiedPort: U16, parse: IpParser, r: Result<seq<SocketAddr>>)
    requires EndpointsAnswer(endpoints, specifiedPort, parse, r)
    requires r.Ok? && r.value != []
    ensures var texts := AddressTexts(endpoints.subsets.GetOr([]));
            |r.value| == |texts| && forall i :: 0 <= i < |texts| ==> parse(texts[i]) == Some(r.value[i].ip)
    ensures var ports := PortNumbers(endpoints.subsets.GetOr([]));
            forall a :: a in r.value ==> if |ports| == 1 then ports == {a.port} else a.port == specifiedPort
  {
    var ports := PortNumbers(endpoints.subsets.GetOr([]));
    if |ports| == 1 {
      var p :| p in ports;
      SingletonMember(ports, p);
    }
  }

  /**
   * The nested loops of the `endpoints` branch: folds every subset's ports into
   * a set and parses its addresses into a list, stopping at the first address
   * that is not an IP.
   */
  method CollectEndpoints(endpoints: Endpoints, parse: IpParser) returns (r: Result<(seq<IpAddr>, set<I32>)>)
    ensures var subsets := endpoints.subsets.GetOr([]);
            match ParseAll(AddressTexts(subsets), parse)
            case Err(e) => r == Err(e)
            case Ok(ips) => r == Ok((ips, PortNumbers(subsets)))
  {
    var ips: seq<IpAddr> := [];
    var ports: set<I32> := {};
    var subsets := endpoints.subsets.GetOr([]);
    for i := 0 to |subsets|
      invariant ports == PortNumbers(subsets[..i])
      invariant ParseAll(AddressTexts(subsets[..i]), parse) == Ok(ips)
    {
      var subset := subsets[i];
      PrefixStep(subsets, i);
      var subsetPorts := subset.ports.GetOr([]);
      for j := 0 to |subsetPorts|
        invariant ports == PortNumbers(subsets[..i]) + (set k | 0 <= k < j :: subsetPorts[k].port)
      {
        ports := ports + {subsetPorts[j].port};
      }
      var addresses := subset.addresses.GetOr([]);
      assert AddressTexts(subsets[..i]) + Texts(addresses[..0]) == AddressTexts(subsets[..i]);
      for k := 0 to |addresses|
        invariant ParseAll(AddressTexts(subsets[..i]) + Texts(addresses[..k]), parse) == Ok(ips)
      {
        var text := addresses[k].ip;
        var ip := parse(text);
        if ip.None? {
          FirstFailure(subsets, i, k, parse);
          return Err(ParseIp(text));
        }
        AddressParsed(AddressTexts(subsets[..i]), addresses, k, ips, ip.value, parse);
        ips := ips + [ip.value];
      }
      assert addresses[..|addresses|] == addresses;
    }
    assert subsets[..|subsets|] == subsets;
    r := Ok((ips, ports));
  }

  lemma AddressParsed(done: seq<string>, addresses: seq<EndpointAddress>, k: nat, ips: seq<IpAddr>, ip: IpAddr, parse: IpParser)
    requires k < |addresses|
    requires ParseAll(done + Texts(addresses[..k]), parse) == Ok(ips)
    requires parse(addresses[k].ip) == Some(ip)
    ensures ParseAll(done + Texts(addresses[..k + 1]), parse) == Ok(ips + [ip])
  {
    assert Texts(addresses[..k + 1]) == Texts(addresses[..k]) + [addresses[k].ip];
    assert done + Texts(addresses[..k + 1]) == (done + Texts(addresses[..k])) + [addresses[k].ip];
    ParseAllAppend(done + Texts(addresses[..k]), [addresses[k].ip], parse);
    assert [addresses[k].ip][1..] == [];
    assert [ip] + [] == [ip];
    assert ParseAll([addresses[k].ip], parse) == Ok([ip]);
  }

  /** The `endpoints` branch of `resolve`: collect, then choose the port. */
  method ResolveEndpoints(endpoints: Endpoints, specifiedPort: U16, parse: IpParser) returns (r: Result<seq<SocketAddr>>)
    ensures EndpointsAnswer(endpoints, specifiedPort, parse, r)
  {
    var collected := CollectEndpoints(endpoints, parse);
    if collected.Err? {
      return Err(collected.error);
    }
    var (ips, ports) := collected.value;
    if |ports| == 0 || |ips| == 0 {
      return Ok([]);
    }
    if |ports| == 1 {
      var p :| p in ports;
      SingletonMember(ports, p);
      if 0 <= p < 0x1_0000 {
        r := Ok(WithPort(ips, p as U16));
      } else {
        r := Err(PortOutOfRange(p));
      }
    } else {
      r := Ok(WithPort(ips, specifiedPort));
    }
  }

  /** Extending the processed prefix by one subset adds its ports and its address strings. */
  lemma PrefixStep(subsets: seq<EndpointSubset>, i: nat)
    requires i < |subsets|
    ensures PortNumbers(subsets[..i + 1]) == PortNumbers(subsets[..i]) + SubsetPorts(subsets[i])
    ensures AddressTexts(subsets[..i + 1]) == AddressTexts(subsets[..i]) + SubsetTexts(subsets[i])
  {
    assert subsets[..i + 1] == subsets[..i] + [subsets[i]];
    PortNumbersAppend(subsets[..i], [subsets[i]]);
    AddressTextsAppend(subsets[..i], [subsets[i]]);
    assert [subsets[i]][1..] == [];
  }

  /** An unparseable address, after parseable ones, is the error of the whole fold. */
  lemma FirstFailure(subsets: seq<EndpointSubset>, i: nat, k: nat, parse: IpParser)
    requires i < |subsets|
    requires k < |subsets[i].addresses.GetOr([])|
    requires ParseAll(AddressTexts(subsets[..i]) + Texts(subsets[i].addresses.GetOr([])[..k]), parse).Ok?
    requires parse(subsets[i].addresses.GetOr([])[k].ip).None?
    ensures ParseAll(AddressTexts(subsets), parse) == Err(ParseIp(subsets[i].addresses.GetOr([])[k].ip))
  {
    var addresses := subsets[i].addresses.GetOr([]);
    var text := addresses[k].ip;
    var done := AddressTexts(subsets[..i]) + Texts(addresses[..k]);
    var later := Texts(addresses[k + 1..]) + AddressTexts(subsets[i + 1..]);
    AroundAddress(subsets, i, k);
    ParseAllAppend(done, [text] + later, parse);
    ParseAllAppend([text], later, parse);
  }

  /** The address strings of all subsets, cut around the `k`th address of subset `i`. */
  lemma AroundAddress(subsets: seq<EndpointSubset>, i: nat, k: nat)
    requires i < |subsets|
    requires k < |subsets[i].addresses.GetOr([])|
    ensures var addresses := subsets[i].addresses.GetOr([]);
            AddressTexts(subsets) ==
              (AddressTexts(subsets[..i]) + Texts(addresses[..k]))
              + ([addresses[k].ip] + (Texts(addresses[k + 1..]) + AddressTexts(subsets[i + 1..])))
  {
    var addresses := subsets[i].addresses.GetOr([]);
    var tail := [subsets[i]] + subsets[i + 1..];
    assert subsets == subsets[..i] + tail;
    AddressTextsAppend(subsets[..i], tail);
    assert tail[1..] == subsets[i + 1..];
    assert AddressTexts(tail) == Texts(addresses) + AddressTexts(subsets[i + 1..]);
    TextsAround(addresses, k);
  }

  lemma TextsAround(addresses: seq<EndpointAddress>, k: nat)
    requires k < |addresses|
    ensures Texts(addresses) == Texts(addresses[..k]) + [addresses[k].ip] + Texts(addresses[k + 1..])
  {
  }

  // ---------------------------------------------------------------------------
  // The cluster DNS branch
  // ---------------------------------------------------------------------------

  datatype Protocol = Udp | Tcp

  /** The fields of hickory's `NameServerConfig` the proxy sets to something other than `None`. */
  datatype NameServerConfig = NameServerConfig(protocol: Protocol, socketAddr: SocketAddr, trustNegativeResponses: bool)

  /** hickory's `ResolverConfig`: name servers and search domains, each in insertion order. */
  datatype ResolverConfig = ResolverConfig(nameServers: seq<NameServerConfig>, search: seq<string>) {
    function AddNameServer(server: NameServerConfig): ResolverConfig {
      this.(nameServers := nameServers + [server])
    }
    function AddSearch(domain: string): ResolverConfig {
      this.(search := search + [domain])
    }
  }

  const DnsServerPort: U16 := 53

  /** The three search domains added for every DNS server. */
  function SearchDomains(ctx: ResolveCtx): seq<string> {
    [ctx.defaultNamespace + ".svc." + ctx.clusterLocal, "svc." + ctx.clusterLocal, ctx.clusterLocal]
  }

  /**
   * The configuration `resolve_against_kube_dns` builds: one UDP name server on
   * port 53 per DNS server, in order, trusting negative responses; and the
   * three search domains once per DNS server, so none when there is none.
   */
  predicate IsKubeDnsConfig(ctx: ResolveCtx, config: ResolverConfig) {
    && |config.nameServers| == |ctx.dnsServers|
    && (forall i :: 0 <= i < |ctx.dnsServers| ==>
          config.nameServers[i] == NameServerConfig(Udp, SocketAddr(ctx.dnsServers[i], DnsServerPort), true))
    && |config.search| == 3 * |ctx.dnsServers|
    && (forall j :: 0 <= j < |config.search| ==> config.search[j] == SearchDomains(ctx)[j % 3])
  }

  lemma KubeDnsConfigUnique(ctx: ResolveCtx, a: ResolverConfig, b: ResolverConfig)
    requires IsKubeDnsConfig(ctx, a) && IsKubeDnsConfig(ctx, b)
    ensures a == b
  {
    assert a.nameServers == b.nameServers;
    assert a.search == b.search;
  }

  /** The configuration loop of `resolve_against_kube_dns`. */
  method BuildResolverConfig(ctx: ResolveCtx) returns (config: ResolverConfig)
    ensures IsKubeDnsConfig(ctx, config)
  {
    config := ResolverConfig([], []);
    var domains := SearchDomains(ctx);
    for i := 0 to |ctx.dnsServers|
      invariant |config.nameServers| == i
      invariant forall k :: 0 <= k < i ==>
                  config.nameServers[k] == NameServerConfig(Udp, SocketAddr(ctx.dnsServers[k], DnsServerPort), true)
      invariant |config.search| == 3 * i
      invariant forall j :: 0 <= j < |config.search| ==> config.search[j] == domains[j % 3]
    {
      config := config.AddNameServer(NameServerConfig(Udp, SocketAddr(ctx.dnsServers[i], DnsServerPort), true));
      config := config.AddSearch(domains[0]);
      config := config.AddSearch(domains[1]);
      config := config.AddSearch(domains[2]);
      assert (3 * i) % 3 == 0 && (3 * i + 1) % 3 == 1 && (3 * i + 2) % 3 == 2;
    }
  }

  // ---------------------------------------------------------------------------
  // resolve
  // ---------------------------------------------------------------------------

  /** `Api::<Endpoints>::namespaced(client, namespace).get(name)`. */
  type EndpointsApi = (string, string) -> Result<Endpoints>

  /** hickory's `lookup_ip` with a given configuration. */
  type DnsLookup = (ResolverConfig, string) -> Result<seq<IpAddr>>

  /** The answer of the cluster DNS branch: the lookup's error, or each IP found with the client's port. */
  function DnsAnswer(found: Result<seq<IpAddr>>, specifiedPort: U16): (r: Result<seq<SocketAddr>>)
    ensures found.Err? <==> r.Err?
    ensures found.Err? ==> r.error == found.error
    ensures found.Ok? ==> |r.value| == |found.value|
                          && forall i :: 0 <= i < |found.value| ==> r.value[i] == SocketAddr(found.value[i], specifiedPort)
  {
    match found
    case Err(e) => Err(e)
    case Ok(ips) => Ok(WithPort(ips, specifiedPort))
  }

  /**
   * `resolve`: a hostname of the grammar is answered from the Endpoints object
   * of its namespace and name, `pod` and `pod-by-name` are not implemented, and
   * every other hostname is looked up through the cluster's DNS servers, each
   * IP paired with the port the client asked for.
   */
  method Resolve(ctx: ResolveCtx, hostname: string, specifiedPort: U16,
                 api: EndpointsApi, lookup: DnsLookup, parse: IpParser) returns (r: Result<seq<SocketAddr>>)
    ensures match RouteOf(ctx, hostname)
            case ViaEndpoints(namespace, name) =>
              if api(namespace, name).Err? then r == Err(api(namespace, name).error)
              else EndpointsAnswer(api(namespace, name).value, specifiedPort, parse, r)
            case Unsupported(command) => r == Err(Unimplemented(command))
            case ViaClusterDns =>
              exists config :: IsKubeDnsConfig(ctx, config) && r == DnsAnswer(lookup(config, hostname), specifiedPort)
  {
    match Classify(hostname) {
      case Some(custom) =>
        var namespace := custom.namespace.GetOr(ctx.defaultNamespace);
        match custom.command {
          case EndpointsCommand =>
            match api(namespace, custom.name) {
              case Err(e) => return Err(e);
              case Ok(endpoints) => r := ResolveEndpoints(endpoints, specifiedPort, parse);
            }
          case _ => return Err(Unimplemented(CommandName(custom.command)));
        }
      case None =>
        var config := BuildResolverConfig(ctx);
        match lookup(config, hostname) {
          case Err(e) => r := Err(e);
          case Ok(ips) => r := Ok(WithPort(ips, specifiedPort));
        }
    }
  }
}

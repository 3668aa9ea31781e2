/** src/k8s.rs: finding the cluster's DNS servers and the `kubectl proxy` banner. */
module K8s {
  import opened Common
  import opened Net
  import opened Text
  import opened KubeTypes

  /** `has_port`: some entry of `ports` has the port number `port`. */
  function HasPort(port: I32, ports: seq<EndpointPort>): (r: bool)
    ensures r <==> exists i :: 0 <= i < |ports| && ports[i].port == port
  {
    if ports == [] then false
    else
      assert forall i :: 1 <= i < |ports| ==> ports[i] == ports[1..][i - 1];
      ports[0].port == port || HasPort(port, ports[1..])
  }

  const DnsPort: I32 := 53

  /** The filter of `find_dns`: a subset whose port list is present and includes 53. */
  predicate ServesDns(subset: EndpointSubset) {
    match subset.ports
    case Some(ports) => HasPort(DnsPort, ports)
    case None => false
  }

  /** The subsets that serve DNS, in their original order. */
  function DnsSubsets(subsets: seq<EndpointSubset>): (r: seq<EndpointSubset>)
    ensures |r| <= |subsets|
    ensures forall s :: s in r <==> s in subsets && ServesDns(s)
  {
    if subsets == [] then []
    else
      var rest := DnsSubsets(subsets[1..]);
      assert forall s :: s in subsets <==> s == subsets[0] || s in subsets[1..];
      if ServesDns(subsets[0]) then [subsets[0]] + rest else rest
  }

  /** Filtering keeps order: it distributes over concatenation. */
  lemma {:induction false} DnsSubsetsAppend(a: seq<EndpointSubset>, b: seq<EndpointSubset>)
    ensures DnsSubsets(a + b) == DnsSubsets(a) + DnsSubsets(b)
  {
    if a == [] {
      assert a + b == b;
    } else {
      assert (a + b)[0] == a[0];
      assert (a + b)[1..] == a[1..] + b;
      DnsSubsetsAppend(a[1..], b);
    }
  }

  /**
   * `find_dns`, given the `kube-system/kube-dns` Endpoints the API returned:
   * an error when `subsets` is absent; otherwise the IPs of the DNS-serving
   * subsets' addresses, in order, or the error of the first that does not parse.
   */
  function FindDns(endpoints: Endpoints, parse: IpParser): (r: Result<seq<IpAddr>>)
    ensures endpoints.subsets.None? <==> r == Err(NoKubeDnsEndpoints)
    ensures endpoints.subsets == Some([]) ==> r == Ok([])
    ensures r.Ok? ==> forall ip :: ip in r.value ==>
              exists s, a :: s in endpoints.subsets.value && ServesDns(s) && s.addresses.Some?
                             && a in s.addresses.value && parse(a.ip) == Some(ip)
  {
    match endpoints.subsets
    case None => Err(NoKubeDnsEndpoints)
    case Some(subsets) =>
      var r := ParseAll(AddressTexts(DnsSubsets(subsets)), parse);
      if r.Ok? then FoundParsed(subsets, parse, r.value); r else r
  }

  /** Every IP `find_dns` returns comes from an address listed by a DNS-serving subset. */
  lemma FoundParsed(subsets: seq<EndpointSubset>, parse: IpParser, ips: seq<IpAddr>)
    requires ParseAll(AddressTexts(DnsSubsets(subsets)), parse) == Ok(ips)
    ensures forall ip :: ip in ips ==>
              exists s, a :: s in subsets && ServesDns(s) && s.addresses.Some?
                             && a in s.addresses.value && parse(a.ip) == Some(ip)
  {
    var kept := DnsSubsets(subsets);
    var texts := AddressTexts(kept);
    forall ip | ip in ips
      ensures exists s, a :: s in subsets && ServesDns(s) && s.addresses.Some?
                             && a in s.addresses.value && parse(a.ip) == Some(ip)
    {
      var n :| 0 <= n < |ips| && ips[n] == ip;
      AddressTextsMember(kept, texts[n]);
      var i :| 0 <= i < |kept| && texts[n] in SubsetTexts(kept[i]);
      var addresses := kept[i].addresses.GetOr([]);
      var j :| 0 <= j < |addresses| && Texts(addresses)[j] == texts[n];
      assert kept[i] in kept;
      assert addresses[j] in kept[i].addresses.value;
    }
  }

  /** A subset without port 53 (or without a port list) changes nothing wherever it stands. */
  lemma FindDnsIgnoresNonDns(before: seq<EndpointSubset>, s: EndpointSubset, after: seq<EndpointSubset>, parse: IpParser)
    requires !ServesDns(s)
    ensures FindDns(Endpoints(Some(before + [s] + after)), parse) == FindDns(Endpoints(Some(before + after)), parse)
  {
    DnsSubsetsAppend(before + [s], after);
    DnsSubsetsAppend(before, [s]);
    DnsSubsetsAppend(before, after);
    assert [s][1..] == [];
    assert DnsSubsets([s]) == [];
    assert DnsSubsets(before + [s] + after) == DnsSubsets(before + after);
  }

  /** When every subset serves DNS, `find_dns` is the in-order parse of all address strings. */
  lemma {:induction false} FindDnsAllServing(subsets: seq<EndpointSubset>, parse: IpParser)
    requires forall i :: 0 <= i < |subsets| ==> ServesDns(subsets[i])
    ensures FindDns(Endpoints(Some(subsets)), parse) == ParseAll(AddressTexts(subsets), parse)
  {
    KeepsAllServing(subsets);
  }

  lemma {:induction false} KeepsAllServing(subsets: seq<EndpointSubset>)
    requires forall i :: 0 <= i < |subsets| ==> ServesDns(subsets[i])
    ensures DnsSubsets(subsets) == subsets
  {
    if subsets != [] {
      assert forall i :: 0 <= i < |subsets[1..]| ==> subsets[1..][i] == subsets[i + 1];
      KeepsAllServing(subsets[1..]);
      assert [subsets[0]] + subsets[1..] == subsets;
    }
  }

  const BannerPrefix := "Starting to serve on "

  /**
   * The banner check of `client_forking_proxy`: the first line `kubectl proxy`
   * prints must start with `BannerPrefix`; the API server URL is `http://`
   * followed by the rest of the line, trimmed.
   */
  method ProxyUrl(line: string) returns (r: Result<string>)
    ensures r.Err? <==> !StartsWith(line, BannerPrefix)
    ensures r.Err? ==> r.error == ProxyNotStarted(line)
    ensures r.Ok? ==> exists server :: line == BannerPrefix + server && r.value == "http://" + Trim(server)
  {
    if !StartsWith(line, BannerPrefix) {
      return Err(ProxyNotStarted(line));
    }
    var url := "http://";
    var server := Trim(line[|BannerPrefix|..]);
    url := url + server;
    assert line == BannerPrefix + line[|BannerPrefix|..];
    r := Ok(url);
  }

  /** The banner kubectl prints, `Starting to serve on <address>` and a line end, yields `http://<address>`. */
  lemma BannerUrl(address: string, lineEnd: string)
    requires address != [] ==> !IsWhitespace(address[0]) && !IsWhitespace(address[|address| - 1])
    requires forall k :: 0 <= k < |lineEnd| ==> IsWhitespace(lineEnd[k])
    ensures StartsWith(BannerPrefix + address + lineEnd, BannerPrefix)
    ensures (BannerPrefix + address + lineEnd)[|BannerPrefix|..] == address + lineEnd
    ensures Trim(address + lineEnd) == address
  {
    var line := BannerPrefix + address + lineEnd;
    assert line[..|BannerPrefix|] == BannerPrefix;
    assert line[|BannerPrefix|..] == address + lineEnd;
    TrimSurrounded([], address, lineEnd);
    assert [] + address + lineEnd == address + lineEnd;
  }
}

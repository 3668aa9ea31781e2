/**
 * The part of the Kubernetes `Endpoints` object (k8s_openapi's `core::v1`) the
 * proxy reads, and the two folds over its subsets that both Rust files perform.
 */
module KubeTypes {
  import opened Common
  import opened Net

  datatype EndpointPort = EndpointPort(name: Option<string>, port: I32)
  datatype EndpointAddress = EndpointAddress(ip: string)
  datatype EndpointSubset = EndpointSubset(addresses: Option<seq<EndpointAddress>>, ports: Option<seq<EndpointPort>>)
  datatype Endpoints = Endpoints(subsets: Option<seq<EndpointSubset>>)

  /** The `ip` strings of a list of addresses, in order. */
  function Texts(addresses: seq<EndpointAddress>): (r: seq<string>)
    ensures |r| == |addresses| && forall i :: 0 <= i < |addresses| ==> r[i] == addresses[i].ip
  {
    seq(|addresses|, i requires 0 <= i < |addresses| => addresses[i].ip)
  }

  /** The address strings of a subset; an absent list contributes none (`unwrap_or_default`). */
  function SubsetTexts(subset: EndpointSubset): seq<string> {
    Texts(subset.addresses.GetOr([]))
  }

  /** Every subset's address strings, subset after subset, duplicates kept. */
  function AddressTexts(subsets: seq<EndpointSubset>): seq<string> {
    if subsets == [] then [] else SubsetTexts(subsets[0]) + AddressTexts(subsets[1..])
  }

  /** The port numbers a subset lists; an absent list contributes none. */
  function SubsetPorts(subset: EndpointSubset): set<I32> {
    var ports := subset.ports.GetOr([]);
    set i | 0 <= i < |ports| :: ports[i].port
  }

  /** Every distinct port number of every subset. */
  function PortNumbers(subsets: seq<EndpointSubset>): set<I32> {
    if subsets == [] then {} else SubsetPorts(subsets[0]) + PortNumbers(subsets[1..])
  }

  /** Address strings keep the order of the subsets: the fold distributes over concatenation. */
  lemma {:induction false} AddressTextsAppend(a: seq<EndpointSubset>, b: seq<EndpointSubset>)
    ensures AddressTexts(a + b) == AddressTexts(a) + AddressTexts(b)
  {
    if a == [] {
      assert a + b == b;
    } else {
      assert (a + b)[1..] == a[1..] + b;
      AddressTextsAppend(a[1..], b);
    }
  }

  /** A string is collected exactly when some subset lists an address with that `ip`. */
  lemma {:induction false} AddressTextsMember(subsets: seq<EndpointSubset>, text: string)
    ensures text in AddressTexts(subsets) <==>
              exists i :: 0 <= i < |subsets| && text in SubsetTexts(subsets[i])
  {
    if subsets != [] {
      AddressTextsMember(subsets[1..], text);
      assert forall i :: 1 <= i < |subsets| ==> subsets[i] == subsets[1..][i - 1];
      if exists i :: 0 <= i < |subsets| && text in SubsetTexts(subsets[i]) {
        var i :| 0 <= i < |subsets| && text in SubsetTexts(subsets[i]);
        if i > 0 { assert subsets[1..][i - 1] == subsets[i]; }
      }
    }
  }

  lemma {:induction false} PortNumbersAppend(a: seq<EndpointSubset>, b: seq<EndpointSubset>)
    ensures PortNumbers(a + b) == PortNumbers(a) + PortNumbers(b)
  {
    if a == [] {
      assert a + b == b;
    } else {
      assert (a + b)[1..] == a[1..] + b;
      PortNumbersAppend(a[1..], b);
    }
  }

  /** A port number is collected exactly when some subset has an entry with that port. */
  lemma {:induction false} PortNumbersMember(subsets: seq<EndpointSubset>, p: I32)
    ensures p in PortNumbers(subsets) <==>
              exists i :: 0 <= i < |subsets| && p in SubsetPorts(subsets[i])
  {
    if subsets != [] {
      PortNumbersMember(subsets[1..], p);
      assert forall i :: 1 <= i < |subsets| ==> subsets[i] == subsets[1..][i - 1];
      if exists i :: 0 <= i < |subsets| && p in SubsetPorts(subsets[i]) {
        var i :| 0 <= i < |subsets| && p in SubsetPorts(subsets[i]);
        if i > 0 { assert subsets[1..][i - 1] == subsets[i]; }
      }
    }
  }
}

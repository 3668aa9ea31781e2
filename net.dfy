/** IP and socket addresses, and the two mappings over IP lists both Rust files use. */
module Net {
  import opened Common

  type U16 = x: int | 0 <= x < 0x1_0000
  type I32 = x: int | -0x8000_0000 <= x < 0x8000_0000

  /** `std::net::IpAddr`; which text denotes which address is left to the parser below. */
  datatype IpAddr = V4(octets: seq<byte>) | V6(segments: seq<U16>)

  /** `std::net::SocketAddr`. */
  datatype SocketAddr = SocketAddr(ip: IpAddr, port: U16)

  /** `IpAddr::from_str`, as a partial function supplied by the caller. */
  type IpParser = string -> Option<IpAddr>

  /**
   * Parses every text in order and collects into a `Result`, as
   * `.map(IpAddr::from_str).collect::<Result<Vec<_>>>()` and a loop of `?` do:
   * the first text that does not parse aborts with its error.
   */
  function ParseAll(texts: seq<string>, parse: IpParser): (r: Result<seq<IpAddr>>)
    ensures r.Ok? <==> forall i :: 0 <= i < |texts| ==> parse(texts[i]).Some?
    ensures r.Ok? ==> |r.value| == |texts|
    ensures r.Ok? ==> forall i :: 0 <= i < |texts| ==> parse(texts[i]) == Some(r.value[i])
    ensures r.Err? ==> exists i :: 0 <= i < |texts| && parse(texts[i]).None? && r.error == ParseIp(texts[i])
                                   && forall j :: 0 <= j < i ==> parse(texts[j]).Some?
  {
    if texts == [] then Ok([])
    else
      match parse(texts[0])
      case None => Err(ParseIp(texts[0]))
      case Some(ip) =>
        match ParseAll(texts[1..], parse)
        case Err(e) =>
          assert forall j :: 1 <= j < |texts| ==> texts[j] == texts[1..][j - 1];
          Err(e)
        case Ok(rest) => Ok([ip] + rest)
  }

  /** Parsing a concatenation: the first list's outcome, then the second's. */
  lemma {:induction false} ParseAllAppend(a: seq<string>, b: seq<string>, parse: IpParser)
    ensures ParseAll(a + b, parse) ==
              match ParseAll(a, parse)
              case Err(e) => Err(e)
              case Ok(x) =>
                match ParseAll(b, parse)
                case Err(e) => Err(e)
                case Ok(y) => Ok(x + y)
  {
    if a == [] {
      assert a + b == b;
      match ParseAll(b, parse)
      case Err(e) =>
      case Ok(y) => assert [] + y == y;
    } else {
      assert (a + b)[0] == a[0];
      assert (a + b)[1..] == a[1..] + b;
      ParseAllAppend(a[1..], b, parse);
      match parse(a[0])
      case None =>
      case Some(ip) =>
        match ParseAll(a[1..], parse)
        case Err(e) =>
        case Ok(x) =>
          match ParseAll(b, parse)
          case Err(e) =>
          case Ok(y) => assert [ip] + (x + y) == ([ip] + x) + y;
    }
  }

  /** Pairs every IP with one port, in order: `.map(|ip| SocketAddr::new(ip, port)).collect()`. */
  function WithPort(ips: seq<IpAddr>, port: U16): (r: seq<SocketAddr>)
    ensures |r| == |ips|
    ensures forall i :: 0 <= i < |ips| ==> r[i] == SocketAddr(ips[i], port)
  {
    if ips == [] then [] else [SocketAddr(ips[0], port)] + WithPort(ips[1..], port)
  }
}

/** Option and Result wrappers, bytes, and the errors the proxy reports. */
module Common {

  /** A value that may be absent (Rust's `Option`). */
  datatype Option<+T> = None | Some(value: T) {
    /** `unwrap_or`: the value, or `default` when absent. */
    function GetOr(default: T): T {
      if Some? then value else default
    }
  }

  /** An octet of a network buffer. */
  type byte = b: int | 0 <= b < 0x100

  /** Every failure the modelled code raises, with `?`, `bail!`, `ensure!` or `unimplemented!`. */
  datatype Error =
    | Upstream(message: string)            // passed through from the Kubernetes API, the DNS resolver or a socket
    | NoKubeDnsEndpoints                   // kube-dns has no `subsets` at all
    | ParseIp(text: string)                // an endpoint address is not an IP address
    | ProxyNotStarted(line: string)        // `kubectl proxy` printed something other than its banner
    | PortOutOfRange(port: int)            // the single endpoint port does not fit a u16
    | Unimplemented(command: string)       // the `pod` and `pod-by-name` hostnames
    | UnexpectedEof                        // a read returned no bytes before the preamble was complete
    | Unrecognised(valid: seq<byte>)       // the first byte is not the start of `CONNECT`
    | InvalidMethod(requestMethod: Option<string>)
    | NoPath                               // a complete request without a path
    | HttpParse                            // the HTTP parser rejected the bytes

  /** anyhow's `Result<T>`: a value or an `Error`. */
  datatype Result<+T> = Ok(value: T) | Err(error: Error)
}

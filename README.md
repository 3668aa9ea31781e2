# begonia-proxy request logic in Dafny

begonia-proxy is a small HTTP CONNECT proxy for Kubernetes. A client sends
`CONNECT <hostname> HTTP/1.1`. The proxy reads that preamble, resolves the
hostname, and joins the two sockets. This project models the deterministic
parts of that path. Each network or cluster call is a parameter whose answer
the caller supplies.

- `Connect` (`src/main.rs`): `read_initialisation`, the loop that reads the
  preamble into a fixed buffer and turns it into a `ConnectType`. The client
  socket is a `Socket` object holding the chunks its reads will deliver.
  `httparse` is a function from the buffer's bytes to `Partial`, `Complete` or
  `Invalid`. As in the code, the parser gets the whole buffer, not only the
  `progress` bytes read so far.
- `Resolve` (`src/resolve.rs`): the hostname grammar
  `name[.namespace].(endpoints|pod|pod-by-name).local[.]` and its namespace
  default. The `endpoints` branch folds ports into a set and addresses into an
  IP list, then picks the port. Other hostnames go to cluster DNS: the code
  builds a resolver configuration, asks for IPs, and pairs each with the
  client's port.
- `K8s` (`src/k8s.rs`): `has_port`, and `find_dns`, which filters the
  kube-dns Endpoints to the subsets serving port 53 and flattens and parses
  their addresses. It also has the `kubectl proxy` banner check that
  `client_forking_proxy` turns into the API server URL.
- `KubeTypes`, `Net`, `Text`, `Common`: the fields of Kubernetes' `Endpoints`
  object the code reads, IP and socket addresses, the parts of Rust's `str`
  the code uses (`starts_with`, `trim`), and `Option`/`Result`/errors.

Modelling choices:
- `IpAddr::from_str` is a caller-supplied `string -> Option<IpAddr>`.
- The Kubernetes `get` is a caller-supplied `(namespace, name) -> Result<Endpoints>`.
- hickory's `lookup_ip` is a caller-supplied `(ResolverConfig, hostname) -> Result<seq<IpAddr>>`.
  The model proves which configuration it is given.
- A socket read into an empty slice returns 0 bytes. So a buffer that fills
  before the request is complete ends in the "unexpected eof" error.
- `unimplemented!` for `pod` and `pod-by-name` is the outcome
  `Err(Unimplemented(command))` rather than a panic.

## Model

| member | source | states |
|---|---|---|
| `Net.ParseAll` | src/k8s.rs:37-38 | Collecting parsed IPs succeeds iff every text parses; the list then matches the texts one to one, in order; otherwise the error names the first text that fails |
| `Net.ParseAllAppend` | src/resolve.rs:67-78 | Parsing a concatenation is parsing the first part, then the second, with the first error winning |
| `Net.WithPort` | src/resolve.rs:96-99 | One socket address per IP, same order, every one with the given port |
| `Text.StartsWith` | src/k8s.rs:66 | `str::starts_with`: the prefix is at most as long as the string and equals its first characters |
| `Text.TrimStart` | src/k8s.rs:71 | Removes exactly the leading whitespace (Unicode White_Space, as Rust's `char::is_whitespace`) |
| `Text.TrimEnd` | src/k8s.rs:71 | Removes exactly the trailing whitespace |
| `Text.Trim` | src/k8s.rs:71 | The result is a slice of the input with only whitespace outside it and no whitespace at either end |
| `Text.TrimSurrounded` | src/k8s.rs:71 | Whitespace around a core without edge whitespace is exactly what trimming removes |
| `KubeTypes.AddressTexts` | src/resolve.rs:71-77 | The address strings of all subsets, subset by subset, in listed order; an absent address list contributes none |
| `KubeTypes.PortNumbers` | src/resolve.rs:67-70 | The set of every port number any subset lists; an absent port list contributes none |
| `KubeTypes.AddressTextsAppend` | src/resolve.rs:67-78 | Collected address strings keep subset order, then address order: the fold distributes over concatenation |
| `KubeTypes.AddressTextsMember` | src/k8s.rs:33-36 | A string is collected iff some subset lists an address with that IP; an absent address list contributes nothing |
| `KubeTypes.PortNumbersAppend` | src/resolve.rs:67-70 | The port set of a concatenation is the union of the parts' port sets |
| `KubeTypes.PortNumbersMember` | src/resolve.rs:67-70 | A port is in the set iff some subset lists it; an absent port list contributes nothing |
| `K8s.HasPort` | src/k8s.rs:16-18 | True iff some entry's port equals the given port |
| `K8s.ServesDns` | src/k8s.rs:29-32 | A subset serves DNS when its port list is present and has an entry with port 53 |
| `K8s.DnsSubsets` | src/k8s.rs:29-32 | Keeps exactly the subsets with a present port list that contains 53 |
| `K8s.DnsSubsetsAppend` | src/k8s.rs:29-32 | The filter keeps order: it distributes over concatenation |
| `K8s.FindDns` | src/k8s.rs:25-38 | `Err(NoKubeDnsEndpoints)` exactly when `subsets` is absent (a parse failure is the other error); empty subsets give an empty list; every returned IP comes from an address of a DNS-serving subset |
| `K8s.FindDnsIgnoresNonDns` | src/k8s.rs:29-32 | A subset without port 53, or without a port list, changes nothing wherever it stands |
| `K8s.FindDnsAllServing` | src/k8s.rs:25-38 | When every subset serves port 53, the result is the in-order parse of all address strings |
| `K8s.ProxyUrl` | src/k8s.rs:62-72 | An error, carrying the line, iff the line does not start with "Starting to serve on "; otherwise "http://" followed by the rest of the line, trimmed |
| `K8s.BannerUrl` | src/k8s.rs:64-72 | kubectl's banner followed by a line end passes the check, and its address comes out of trimming unchanged |
| `Resolve.ParseCommand` | src/resolve.rs:45 | Recognises exactly the three command words |
| `Resolve.Render` | src/resolve.rs:43-46 | The string the hostname pattern matches with the given captures, with or without the final dot |
| `Resolve.Classify` | src/resolve.rs:42-50 | Any match's name and namespace are labels of 1 to 63 characters from `[A-Za-z0-9-]` |
| `Resolve.SplitRender` | src/resolve.rs:42-56 | A rendered hostname splits at its dots into exactly its labels, plus one empty piece for a final dot |
| `Resolve.ClassifyRender` | src/resolve.rs:42-56 | Every hostname of the grammar matches, with its own name, namespace and command, with or without the final dot; so the split is unique |
| `Resolve.ClassifySound` | src/resolve.rs:42-56 | Every matching hostname is a string of the grammar with the reported captures |
| `Resolve.RouteOf` | src/resolve.rs:50-58 | Cluster DNS is used iff the hostname does not match; an Endpoints lookup uses a label as the name |
| `Resolve.RouteOfRendered` | src/resolve.rs:50-58 | A grammar hostname reads the Endpoints of its second label's namespace, or of the default namespace without one; `pod`/`pod-by-name` are unimplemented |
| `Resolve.EndpointsHostnameNamespaced` | src/resolve.rs:51-55 | `name.ns.endpoints.local` is routed to endpoints `name` in namespace `ns` |
| `Resolve.EndpointsHostnameDefault` | src/resolve.rs:51-55 | `name.endpoints.local` is routed to endpoints `name` in the default namespace |
| `Resolve.EndpointsAnswer` | src/resolve.rs:80-99 | The `endpoints` outcome: the first parse error; an empty result for no ports or no IPs; with one distinct port, that port for every IP, or an out-of-range error when it is not a u16; otherwise the client's port |
| `Resolve.EndpointsAnswerUnique` | src/resolve.rs:80-99 | The `endpoints` outcome (parse error; empty result for no ports or no IPs; the single port, or an out-of-range error; else the client's port) is fully determined |
| `Resolve.EndpointsAnswerAddresses` | src/resolve.rs:84-99 | A non-empty answer has one address per collected IP text, in subset then address order, duplicates kept; every port is the single collected port when exactly one was collected, and the client's port otherwise |
| `Resolve.CollectEndpoints` | src/resolve.rs:60-78 | The nested loops yield the in-order parse of every subset's addresses and the set of every port, or the first parse error |
| `Resolve.ResolveEndpoints` | src/resolve.rs:59-100 | The `endpoints` branch's outcome satisfies the answer rule for the fetched object |
| `Resolve.IsKubeDnsConfig` | src/resolve.rs:113-129 | One UDP name server on port 53, trusting negative answers, per DNS server in order; the three search domains repeated once per server |
| `Resolve.KubeDnsConfigUnique` | src/resolve.rs:113-129 | The resolver configuration rule determines one configuration |
| `Resolve.BuildResolverConfig` | src/resolve.rs:113-129 | One UDP name server on port 53, trusting negative answers, per DNS server, in input order; the three search domains once per server (3k entries, none for no servers) |
| `Resolve.DnsAnswer` | src/resolve.rs:105-109 | A failed lookup is passed on unchanged; a successful one gives one socket address per IP, in order, each with the client's port |
| `Resolve.Resolve` | src/resolve.rs:37-110 | Matching hostnames use the Endpoints of their namespace and name, or are unimplemented; others use the DNS answer under the kube-dns configuration, each IP paired with the client's port in order; errors pass through |
| `Connect.Receive` | src/main.rs:30-31 | A read returns at most the free room, from the next chunk; it returns nothing exactly when there is no room, the stream has ended, or the peer closed; a stream without failures yields none and keeps none |
| `Connect.Socket.Read` | src/main.rs:30 | Writes the bytes read at `buf[from..]`, leaves the rest of the buffer alone, and consumes them from the stream |
| `Connect.ReadInitialisation` | src/main.rs:24-60 | The loop's outcome, the stream it leaves and the buffer it leaves are those of the preamble rule from zero valid bytes; its invariant keeps `progress` within the buffer |
| `Connect.TakeTurn` | src/main.rs:29-58 | One pass of the loop stops with the turn's outcome or reads on from the turn's progress, leaving the turn's stream and buffer |
| `Connect.NextTurn` | src/main.rs:28-58 | A turn that reads on grows `progress` by exactly the bytes the read returned, stored at `buf[progress..]`, with the valid bytes before and the stale bytes after left alone, so the parser sees the valid bytes followed by old buffer contents; the buffer keeps its size |
| `Connect.AfterRead` | src/main.rs:31-58 | The checks after a read only decide the outcome: stream and buffer are kept, and reading on happens only after at least one byte |
| `Connect.Preamble` | src/main.rs:29-59 | Turns until one is done; `progress` grows every turn that reads on, so the loop ends after at most one read more than the buffer's size, with an outcome, and the buffer keeps its size |
| `Connect.ReadFromFreshBuffer` | src/main.rs:63-64 | `worker` reads into a zeroed 4096-byte buffer; outcome and leftover stream are the preamble rule's |
| `Connect.PreambleConnect` | src/main.rs:36-53 | Success is always `Http` whose hostname is the path the parser reported, with method exactly "CONNECT", for the very buffer the reader filled, which starts with `C` or `c` |
| `Connect.PreambleNeverCompletes` | src/main.rs:29-42 | If the parser never completes and the socket never fails, the reader ends in "unexpected eof" or an unrecognised first byte |
| `Connect.FirstByteRejected` | src/main.rs:36-57 | A first byte other than `C` or `c` is refused at once, with the bytes read |
| `Connect.PreambleEof` | src/main.rs:31-33 | A read returning no bytes, at any progress, ends the reader with unexpected eof, the buffer unchanged and a close consumed |
| `Connect.PreambleCompletes` | src/main.rs:36-51 | At any point, a read that brings bytes into a buffer starting with `C`/`c` that parses as a complete `CONNECT` with a path yields `Http` with that path, leaving the rest of the stream and the filled buffer |
| `Connect.PreambleWrongMethod` | src/main.rs:43-47 | At any point, a complete request whose method is not exactly `CONNECT` is refused with that method |
| `Connect.PreambleNoPath` | src/main.rs:48-53 | At any point, a complete `CONNECT` without a path is refused with the no-path error |
| `Connect.PreamblePartial` | src/main.rs:40-42 | At any point, a partial parse reads on: the outcome is the reader's from the filled buffer, with the bytes read added to `progress`, on the rest of the stream |

## Left out

- Kubernetes API calls (`Api::<Endpoints>::get`, `apiserver_version`): their answers are parameters.
- hickory's resolver and its `lookup_ip`: the answer is a parameter of the configuration and hostname.
- `Name::from_str` in the resolver configuration: search domains are plain strings. The error this parser can raise is not modelled.
- `IpAddr::from_str`, `url::Url::parse`, `kube::Config` and `Client` construction: foreign parsers and builders. Only the URL string is computed.
- `httparse` internals: modelled as a function of the bytes.
- Spawning `kubectl proxy` and reading its stdout: process input/output. Only the check on the first line is modelled.
- `worker` beyond its buffer, `main`, the accept loop, `tokio::spawn` and the two-way copy: socket plumbing and concurrency. `worker` calls `resolve` with two arguments while `resolve` takes three, so that call is not modelled.
- The `pod` and `pod-by-name` commands: the code calls `unimplemented!`, modelled as an `Unimplemented` error.
- The `#[cfg(never)]` block in `main`: it is never compiled.
- Logging, and the text of error messages.
- The `Socks4Ip` and `Socks4Host` variants of `ConnectType`: declared but never produced.
- A read that never returns (an open client that sends nothing; the code sets no timeout): every modelled read returns, and the end of the chunk list is the end of the stream.
- The stream after the preamble: `worker` hands whatever the reader left unread to the two-way copy, which is not modelled. `ReadInitialisation` states what it leaves, stream and buffer; `worker` does not read the buffer again.

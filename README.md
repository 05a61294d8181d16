# netpulsar probe engine and system information, in Dafny

This project models the core of netpulsar, a desktop network toolkit. It covers:

- **Ping.** The ICMP, TCP, UDP, HTTP and QUIC ping drivers. Each sends `count` probes, reports every sample as a progress event, and returns a run summary: minimum, integer mean and maximum RTT, and the number of replies. The settings are first normalised.
- **Traceroute.** The ICMP and UDP traceroutes. The TTL (or hop limit) grows from 1 until the destination answers or `max_hops` is reached, with up to `tries_per_hop` probes per hop. The traceroute front end normalises the setting and announces how the trace started and ended.
- **Scans.** The host scan (echo requests to every target), the TCP and QUIC port scans (one probe per port, classified as open, closed or filtered), and the neighbour scan (a host scan of the gateway's /24, joined with the neighbour table).
- **Neighbour tables.** The platform readers behind the neighbour scan: the Linux netlink dump with `/proc/net/arp` as fallback, the macOS/BSD `sysctl` routing dump, and the Windows `GetIpNetTable2` rows.
- **Sockets.** The socket configurations and the calls the probe sockets make on the operating system's socket (`IcmpConfig`, `UdpConfig`), and the socket listing with its TCP states and flag folds.
- **Application data.** The log levels and default configuration, DNS lookups, the choice of public IPv4/IPv6 address, the OS summary, and the endpoint records of the scans.

Everything the program learns from the outside world is an explicit parameter of the model. This covers socket calls, replies, timers, HTTP and QUIC exchanges, the resolver, the environment and the kernel's tables. For example, a ping driver takes one attempt outcome per probe (`IcmpAttempt`, `TcpAttempt`, …), and a traceroute takes one `HopOracle` per TTL. Work the source runs concurrently is modelled by one completion order of the probes, a permutation of dispatch order. Where the source's integer width shows, the model writes it out. The `u32` counters of the scans wrap around modulo 2^32, and the traceroute's UDP destination port is a 16-bit wrapping sum. RTT sums are unbounded integers; the one place this differs from the source is listed under "Left out".

Loops of the source are `method`s with invariants. Each of them is proved against a function on the inputs, and the properties the source promises are proved as lemmas about that function: bounds, round trips, order, preserved invariants, and what a run emits.

## Model

| member | source | states |
|---|---|---|
| NetTypes.UnspecifiedLike | src-tauri/src/probe/ping/udp.rs:71-77 | the unspecified address a socket is bound to has the destination's family |
| NetTypes.ParseIpv4 | src-tauri/src/net/neigh/os/linux.rs:200 | a parsed address text is always an IPv4 address |
| NetTypes.OctetRoundTrip | src-tauri/src/net/neigh/os/linux.rs:200 | the decimal text of a byte reads back as that byte and has no dot |
| NetTypes.Ipv4TextRoundTrip | src-tauri/src/net/neigh/os/linux.rs:200 | the dotted-quad text of an IPv4 address parses back to the address |
| Packet.PingV6AcceptsMoreThanEchoReplies | src-tauri/src/probe/packet.rs:54-80 | the IPv6 ping accepts every echo reply, and also any other ICMPv6 message, such as a Destination Unreachable that is no echo reply |
| Packet.EchoAndUnreachableExclusive | src-tauri/src/probe/ping/udp.rs:26-54 | no message is both an echo reply and a Destination Unreachable for the same family, whatever the IPv6 destination |
| SocketModel.FirstFailure | src-tauri/src/socket/udp.rs:150-178 | a socket set-up fails exactly when one of its calls fails, and then with the error of the first call that fails: every call before it succeeded |
| SocketIcmp.FromSockType | src-tauri/src/socket/icmp.rs:33-40 | only DGRAM and RAW convert to an ICMP socket type; any other type is the panic case |
| SocketIcmp.ToSockType | src-tauri/src/socket/icmp.rs:42-48 | an ICMP socket type converts to DGRAM or RAW |
| SocketIcmp.SockTypeRoundTrip | src-tauri/src/socket/icmp.rs:33-48 | converting to a socket2 type and back gives the ICMP type back, and a type that converts is the one the ICMP type converts to |
| SocketIcmp.DgramOrRaw | src-tauri/src/socket/icmp.rs:22-31 | exactly one of is_dgram and is_raw holds |
| SocketIcmp.BuildersSetOwnField | src-tauri/src/socket/icmp.rs:93-139 | each with_ method sets exactly its own field to the given value and leaves every other field unchanged |
| SocketIcmp.NewIcmpConfig | src-tauri/src/socket/icmp.rs:75-91 | V4 gives the IPv4 family and V6 the IPv6 family, with the DGRAM hint and every option unset |
| SocketIcmp.OptionCallsFollowConfig | src-tauri/src/socket/icmp.rs:171-200 | the socket is made non-blocking first; a TTL, a hop limit and a bind address are applied exactly when configured, with their values, and the bind comes last |
| SocketIcmp.OpenIcmpSocket | src-tauri/src/socket/icmp.rs:152-226 | the socket opens exactly when the hinted type or else the other type can be created and every option call succeeds; it has the configured family and the type that was created |
| SocketIcmp.KindOf | src-tauri/src/socket/icmp.rs:254-259 | the kind is V4 exactly for an IPv4 socket |
| SocketIcmp.OpenedKeepsKind | src-tauri/src/socket/icmp.rs:254-259 | a socket opened from the configuration of a kind reports that kind back |
| SocketUdp.UdpToSockType | src-tauri/src/socket/udp.rs:26-32 | Dgram converts to DGRAM and Raw to RAW, and only they do |
| SocketUdp.UdpDgramOrRaw | src-tauri/src/socket/udp.rs:15-24 | exactly one of is_dgram and is_raw holds |
| SocketUdp.UdpBuildersSetOwnField | src-tauri/src/socket/udp.rs:83-129 | each with_ method sets exactly its own field to the given value and leaves every other field unchanged |
| SocketUdp.DefaultUdpConfig | src-tauri/src/socket/udp.rs:60-81 | the default, which new also gives, is IPv4 and DGRAM with every option unset |
| SocketUdp.UdpOptionCallsFollowConfig | src-tauri/src/socket/udp.rs:156-161 | a TTL and a hop limit are applied exactly when configured, with their values |
| SocketUdp.UdpFlagCallsFollowConfig | src-tauri/src/socket/udp.rs:150-155 | address reuse and broadcast are applied exactly when configured, with their values |
| SocketUdp.UdpTimeoutCallsFollowConfig | src-tauri/src/socket/udp.rs:162-167 | the read and write timeouts are applied exactly when configured |
| SocketUdp.UdpBindComesLast | src-tauri/src/socket/udp.rs:169-178 | the address is bound exactly when configured and last of all; the device is bound only on Linux and only when configured |
| SocketUdp.OpenUdpSocket | src-tauri/src/socket/udp.rs:140-194 | the socket opens exactly when the configured type can be created, with no fallback, every option call succeeds and the hand-over to tokio succeeds; otherwise the error is that of the first step that failed |
| ProbeModel.KindName | src-tauri/src/model/probe.rs:15-34 | every kind has a non-empty name, which is also its display text |
| ProbeModel.KindNamesDistinct | src-tauri/src/model/probe.rs:15-34 | two kinds have the same name exactly when they are the same kind |
| ProbeModel.NewStatus | src-tauri/src/model/probe.rs:45-50 | a new status is Done with an empty message |
| ProbeModel.WithErrorMessage | src-tauri/src/model/probe.rs:51-57 | the status is an error, neither ok nor timeout, and keeps the message verbatim |
| ProbeModel.WithTimeoutMessage | src-tauri/src/model/probe.rs:58-64 | the status is a timeout, neither ok nor error, and keeps the message verbatim |
| ProbeModel.ExactlyOneKind | src-tauri/src/model/probe.rs:65-73 | exactly one of is_ok, is_error and is_timeout holds |
| PingModel.ParseProtocol | src-tauri/src/model/ping.rs:28-40 | a parsed protocol's name equals the text up to ASCII case |
| PingModel.ParseProtocolExact | src-tauri/src/model/ping.rs:28-40 | a text parses as a protocol exactly when it equals that protocol's name up to case, so anything else is an error |
| PingModel.ParseDisplayRoundTrip | src-tauri/src/model/ping.rs:15-40 | the display name of every protocol parses back to the protocol |
| PingModel.CountsBounded | src-tauri/src/model/ping.rs:107-110 | the replied RTTs are as many as the replied samples, which are no more than the Done samples, which are no more than all samples |
| PingModel.OkRttsMembers | src-tauri/src/model/ping.rs:108-110 | the RTT list holds the RTT of every Done sample that has one and nothing else |
| PingModel.ConsistentCountsAgree | src-tauri/src/model/ping.rs:108-109 | when Done goes with an RTT and nothing else does, counting Done samples and counting replied samples agree |
| PingModel.FromSamples | src-tauri/src/model/ping.rs:99-132 | the samples and identity fields are kept, transmitted is the number of samples and received the number of Done samples, with or without an RTT; min, avg and max exist exactly when some Done sample has an RTT, and then min and max are RTTs of such samples that bound every such RTT, and avg is the floor of the RTTs' sum divided by their number |
| RttStats.MinMaxBound | src-tauri/src/probe/ping/icmp.rs:27-35 | the minimum and maximum are elements of the sequence and bound every element |
| RttStats.SumAtLeast | src-tauri/src/probe/ping/icmp.rs:34-36 | the sum is at least the length times the minimum |
| RttStats.SumAtMost | src-tauri/src/probe/ping/icmp.rs:34-36 | the sum is at most the length times the maximum |
| RttStats.DivBetween | src-tauri/src/probe/ping/icmp.rs:36 | an integer quotient of a total between n times lo and n times hi lies between lo and hi |
| RttStats.MinLeMeanLeMax | src-tauri/src/probe/ping/icmp.rs:20-38 | the integer mean lies between the minimum and the maximum |
| RttStats.PrefixStep | src-tauri/src/probe/ping/icmp.rs:27-35 | one more element adds to the sum and updates the minimum and maximum by comparison alone |
| RttStats.SummarizeRtts | src-tauri/src/probe/ping/icmp.rs:20-38 | no RTTs give three absent values; otherwise min and max are elements bounding every RTT, and the average is the floor of the sum over the count, between them |
| PingRun.AppendSample | src-tauri/src/probe/ping/icmp.rs:113-145 | one more sample adds its own RTT and reply to the running quantities and its own progress event, followed by a pause unless it is the last probe |
| PingRun.RecordSample | src-tauri/src/probe/ping/icmp.rs:113-145 | the end of a probe appends the sample and keeps the RTT list, the received count and the emitted events equal to those of the samples so far |
| PingRun.FinishRun | src-tauri/src/probe/ping/icmp.rs:148-176 | the returned statistics are those of all the samples and exactly one done event carrying them follows the events already sent |
| PingRun.PausesBetweenProbes | src-tauri/src/probe/ping/icmp.rs:143-145 | a full run of count probes pauses count - 1 times and ends with a progress event, never a pause |
| PingRun.ProgressCounters | src-tauri/src/probe/ping/icmp.rs:123-139 | each progress event reports the probe at its position as transmitted and the replies so far as received, never more than transmitted |
| PingRun.DriverStatIsFromSamples | src-tauri/src/probe/ping/icmp.rs:148-167 | for samples where Done goes with an RTT, a driver's statistics are those of `PingStat::from_samples` |
| PingIcmp.IcmpPingConfig | src-tauri/src/probe/ping/icmp.rs:46-54 | the hop limit becomes the TTL for an IPv4 destination and the hop limit for an IPv6 one, never both, on a datagram-hinted socket of that family |
| PingIcmp.IcmpSampleReplied | src-tauri/src/probe/ping/icmp.rs:77-125 | a probe has an RTT and is Done exactly when a buffer arrived that parses as an echo reply of the destination's family, and the RTT is the measured one; the sample carries its sequence number and no port |
| PingIcmp.IcmpProbe | src-tauri/src/probe/ping/icmp.rs:74-121 | the probe's sample: a send or receive error or an unexpected reply is an error with its message, no answer in time is a timeout, an accepted echo gives Done with its RTT |
| PingIcmp.IcmpProbes | src-tauri/src/probe/ping/icmp.rs:73-146 | the loop produces one sample per sequence number 1 to count, in order, with the events and RTT list of those samples |
| PingIcmp.IcmpPing | src-tauri/src/probe/ping/icmp.rs:40-179 | a socket failure returns the source's error and emits nothing; otherwise the statistics are those of the count samples, and the progress events are followed by exactly one done event; the socket is asked for with the configuration of `IcmpPingConfig` |
| PingTcp.TcpPingPort | src-tauri/src/probe/ping/tcp.rs:39 | the destination port is the configured one, 80 when unset |
| PingTcp.TcpPingConfig | src-tauri/src/probe/ping/tcp.rs:48-64 | each attempt's socket is a stream socket of the destination's family, with no-delay on, the hop limit as TTL for IPv4 and as hop limit for IPv6, never both; `TcpPing` opens exactly this configuration for every attempt |
| PingTcp.TcpSampleReplied | src-tauri/src/probe/ping/tcp.rs:66-141 | a probe is a reply exactly when the connection was established, with the handshake time as RTT; it is a timeout exactly when connecting timed out; every sample carries the port |
| PingTcp.TcpProbe | src-tauri/src/probe/ping/tcp.rs:66-141 | a socket failure is an error sample without RTT and the run goes on; a connection is Done with its RTT; a timed-out connect is a timeout; any other failure is an error |
| PingTcp.TcpPing | src-tauri/src/probe/ping/tcp.rs:33-194 | the run always succeeds with one sample per sequence number 1 to count, the statistics of those samples, and their progress events followed by exactly one done event; every attempt opens the socket configuration of `TcpPingConfig` |
| PingUdp.UdpPingConfig | src-tauri/src/probe/ping/udp.rs:69-77 | the sending socket has the destination's family, the hop limit as TTL for IPv4 and as hop limit for IPv6, never both, and is bound to that family's unspecified address on port 0 |
| PingUdp.FirstUnreachable | src-tauri/src/probe/ping/udp.rs:112-122 | a Destination Unreachable is found exactly when some arrival is one for the destination's family |
| PingUdp.AwaitUnreachable | src-tauri/src/probe/ping/udp.rs:112-122 | the receive loop skips every other ICMP message and stops at the first Destination Unreachable, whatever its code or sender |
| PingUdp.RecvErrorCountsAsReply | src-tauri/src/probe/ping/udp.rs:111-130 | as written, a receive error with no Destination Unreachable at all gives a Done sample with an RTT |
| PingUdp.UdpSampleReplied | src-tauri/src/probe/ping/udp.rs:100-147 | a probe is a reply exactly when a Destination Unreachable for the destination's family arrived, and a timeout exactly when none did before the timer; every sample has port 33435 |
| PingUdp.AsWrittenDiffersOnlyOnRecvError | src-tauri/src/probe/ping/udp.rs:111-136 | the corrected sample differs from the one as written exactly on a receive error without a Destination Unreachable |
| PingUdp.UdpProbe | src-tauri/src/probe/ping/udp.rs:96-147 | a send error is an error without RTT; otherwise the wait ends with a reply, a receive error or a timeout; the sample is the corrected one of Findings, so a receive error is an Error without RTT |
| PingUdp.UdpProbes | src-tauri/src/probe/ping/udp.rs:96-171 | one sample per sequence number 1 to count, in order, with the events and RTT list of those samples (the corrected samples of Findings) |
| PingUdp.UdpPing | src-tauri/src/probe/ping/udp.rs:58-239 | on Windows the run fails with the source's message and emits nothing; a failure making the UDP socket or reading its local address is returned before the ICMP socket is asked for, and a failure making the ICMP socket is returned after; neither emits anything; otherwise the statistics of the count samples, always to port 33435, and exactly one done event after the progress events; the statistics are those of the corrected samples of Findings; off Windows the sender is asked for with `UdpPingConfig`, and the listener with `IcmpConfig::new` of the destination's family exactly when the UDP side succeeded |
| PingHttp.HttpPort | src-tauri/src/probe/ping/http.rs:53-59 | the port is the configured one; when unset it is 443 exactly for a host that starts with "https://" and 80 otherwise |
| PingHttp.Ipv6UrlUnbracketed | src-tauri/src/probe/ping/http.rs:49-66 | as written, an IPv6 destination without a host name gives the URL "http://::1:80/", whose authority is not well formed |
| PingHttp.AuthorityHost | src-tauri/src/probe/ping/http.rs:65 | the host put into the authority is free of colons or a bracketed IPv6 literal |
| PingHttp.HttpUrl | src-tauri/src/probe/ping/http.rs:61-66 | a host that is already an http or https URL is used verbatim; for any host without a colon the URL is the source's `scheme://host:port/` |
| PingHttp.HttpUrlScheme | src-tauri/src/probe/ping/http.rs:61-66 | a built URL is https exactly on port 443 and http otherwise, with a well-formed authority host |
| PingHttp.HttpSampleReplied | src-tauri/src/probe/ping/http.rs:81-108 | a probe is a reply exactly when a response arrived, whatever its status code; it is a timeout exactly when nothing arrived in time; a client error is an error |
| PingHttp.HttpProbe | src-tauri/src/probe/ping/http.rs:74-108 | the request's sample: timeout, client error or Done with the time to the response head, always with the run's port |
| PingHttp.HttpProbes | src-tauri/src/probe/ping/http.rs:73-133 | one sample per sequence number 1 to count, in order, with the events and RTT list of those samples (the corrected samples of Findings) |
| PingHttp.HttpPing | src-tauri/src/probe/ping/http.rs:37-165 | a client that cannot be built fails the run with no events; otherwise the URL is the corrected one of Findings, built from the host and port rules with an IPv6 host in brackets, every sample carries the port, and the statistics and one done event follow the count samples |
| PingQuic.QuicPingPort | src-tauri/src/probe/ping/quic.rs:51 | the port is the configured one, 443 when unset |
| PingQuic.QuicServerName | src-tauri/src/probe/ping/quic.rs:54-57 | the TLS server name is the configured host name, "netpulsar.local" when unset |
| PingQuic.QuicSamples | src-tauri/src/probe/ping/quic.rs:64-126 | one sample per handshake |
| PingQuic.QuicSamplesAt | src-tauri/src/probe/ping/quic.rs:64-102 | sample i is made from handshake i and numbered i + 1 |
| PingQuic.QuicSamplesStep | src-tauri/src/probe/ping/quic.rs:64-121 | one more handshake appends exactly its own sample |
| PingQuic.QuicSampleReplied | src-tauri/src/probe/ping/quic.rs:72-92 | a probe is a reply exactly when the handshake completed; a failure is a timeout exactly when its lower-cased text contains "elapsed" or "timeout", and otherwise an error that keeps the text |
| PingQuic.FirstEndpointFailure | src-tauri/src/probe/ping/quic.rs:64-65 | the position found is that of an endpoint failure with none before it; none is found exactly when every endpoint was made |
| PingQuic.FirstEndpointFailureIs | src-tauri/src/probe/ping/quic.rs:64-65 | the first failing endpoint is the one found |
| PingQuic.QuicProbe | src-tauri/src/probe/ping/quic.rs:66-102 | one handshake's sample, with the run's port |
| PingQuic.QuicProbes | src-tauri/src/probe/ping/quic.rs:64-126 | the loop stops at the first endpoint failure with that error, having reported exactly the probes before it; otherwise it reports all count probes |
| PingQuic.QuicPing | src-tauri/src/probe/ping/quic.rs:35-159 | an endpoint failure ends the run with that error after the progress events of the earlier probes and without a done event; otherwise the statistics of all the samples and one done event; the handshakes use the server name of `QuicServerName` |
| TraceModel.TimeoutHop | src-tauri/src/probe/trace/mod.rs:46-57 | a timeout hop keeps its number, has no address, no RTT, is not reached and carries the note "timeout" |
| TraceModel.Sanitize | src-tauri/src/probe/trace/mod.rs:59-67 | a zero hop count becomes 30 and a zero try count 1, any other count is kept, and every other setting is unchanged |
| TraceModel.SanitizeIdempotent | src-tauri/src/probe/trace/mod.rs:59-67 | normalising a setting a second time changes nothing |
| TraceModel.Walk | src-tauri/src/probe/trace/icmp.rs:80-135 | a hop never sends more probes than it has tries, sends all of them unless it stopped early, and keeps its TTL as hop number |
| TraceModel.WalkStopped | src-tauri/src/probe/trace/icmp.rs:95-131 | once an error or the destination ended a hop's probes, later outcomes change nothing |
| TraceModel.BestIndex | src-tauri/src/probe/trace/icmp.rs:118-123 | the chosen probe, when there is one, is a reply among those sent |
| TraceModel.BestIndexIsEarliestMinimum | src-tauri/src/probe/trace/icmp.rs:118-123 | there is no chosen probe exactly when no reply came; otherwise no reply has a smaller RTT and every earlier reply a strictly larger one |
| TraceModel.BestIsEarliestMinimum | src-tauri/src/probe/trace/icmp.rs:114-123 | the hop carries the RTT and sender of the earliest fastest reply among the probes sent, and neither when none of them was answered |
| TraceModel.CarriesBestStep | src-tauri/src/probe/trace/icmp.rs:114-123 | adopting a strictly faster reply, or keeping the hop as it was on anything else, keeps it carrying the earliest fastest reply |
| TraceModel.StepKeepsOrAdopts | src-tauri/src/probe/trace/icmp.rs:95-123 | one probe changes the hop's RTT and address only by adopting a reply whose RTT is smaller or the first one; an error or a timeout leaves them as they were |
| TraceModel.HowHopEnds | src-tauri/src/probe/trace/icmp.rs:88-135 | every probe but the last one sent was a timeout or a reply from elsewhere; the hop stopped early exactly when the last one was an error or the destination's answer; it is reached exactly when that last one was a reply; its note is the error that stopped it, "send error: …" or "recv error: …" |
| TraceModel.ReachedHopShape | src-tauri/src/probe/trace/icmp.rs:114-140 | the reported hop has the TTL as number, and a reached hop has an address, an RTT and no note |
| TraceModel.TimeoutNoteIffAllUnanswered | src-tauri/src/probe/trace/icmp.rs:137-140 | a hop is reported with the note "timeout" exactly when every probe sent for it went unanswered |
| TraceModel.TraceNumbering | src-tauri/src/probe/trace/icmp.rs:62-145 | the hops reported are numbered consecutively from the first TTL and never pass the maximum; Ok(false) means every TTL up to the maximum was reported; an error is the socket error of the TTL after the last hop reported |
| TraceModel.TraceReach | src-tauri/src/probe/trace/icmp.rs:125-145 | only the last hop reported can be reached, and the trace gives Ok(true) exactly when it was |
| TraceModel.ShiftOrIsSum | src-tauri/src/probe/trace/icmp.rs:89 | for 8-bit TTL and try numbers widened to 16 bits, shifting the TTL left by 8 and or-ing in the try number is TTL * 256 + try |
| TraceModel.EchoSeqDistinct | src-tauri/src/probe/trace/icmp.rs:88-90 | no two (TTL, try) pairs share an echo sequence number |
| TraceModel.WrappingAdd16 | src-tauri/src/probe/trace/udp.rs:89-90 | a 16-bit wrapping addition is the sum modulo 65536 |
| TraceModel.UdpTracePortValue | src-tauri/src/probe/trace/udp.rs:89-90 | the destination port is 33435 + TTL + try and never wraps; it identifies only the sum, so try t+1 at one TTL uses the port of try t at the next TTL |
| TraceModel.ProbeKeysAt | src-tauri/src/probe/trace/icmp.rs:88-90 | the i-th key of a hop's probes is the sequence number or port of its i-th try |
| TraceModel.ProbeHop | src-tauri/src/probe/trace/icmp.rs:80-140 | the probe loop of one TTL produces exactly the hop report of its probes' outcomes, and sends one key per probe it sent, in try order |
| TraceModel.TraceFromUnfold | src-tauri/src/probe/trace/icmp.rs:62-145 | a TTL whose socket fails ends the trace with that error; otherwise its hop is reported and a reached hop ends the trace with Ok(true) while any other hop is followed by the trace from the next TTL |
| TraceModel.TraceAppendHop | src-tauri/src/probe/trace/icmp.rs:125-143 | reporting the hop of one TTL moves the trace on to the next TTL, or ends it with Ok(true) when the hop was reached |
| TraceModel.TraceFromEnd | src-tauri/src/probe/trace/icmp.rs:62 | past the maximum TTL the trace reports nothing more and gives Ok(false) |
| TraceIcmp.IcmpTraceConfig | src-tauri/src/probe/trace/icmp.rs:63-75 | the socket of one TTL is an ICMP datagram socket of the destination's family with the TTL as IPv4 TTL or as IPv6 hop limit, never both, bound to the source address on port 0 exactly when the source has the destination's family |
| TraceIcmp.IcmpTraceConfigsAt | src-tauri/src/probe/trace/icmp.rs:62-77 | the i-th socket opened is the one of TTL i + 1 |
| TraceIcmp.IcmpTraceroute | src-tauri/src/probe/trace/icmp.rs:42-146 | the hops reported and the result are exactly the trace of the per-TTL outcomes; one socket is asked for per hop reported, plus the one that failed, never more than the maximum, each the socket of its TTL |
| TraceUdp.UdpTraceIcmpConfig | src-tauri/src/probe/trace/udp.rs:53-59 | the listening socket is an ICMP socket of the destination's family with no TTL, hop limit or bind address |
| TraceUdp.UdpTraceConfig | src-tauri/src/probe/trace/udp.rs:64-75 | the sending socket of one TTL is a UDP datagram socket of the destination's family with the TTL as IPv4 TTL or as IPv6 hop limit, never both, bound to the unspecified address of that family on port 0 |
| TraceUdp.UdpTraceConfigsAt | src-tauri/src/probe/trace/udp.rs:63-77 | the i-th sending socket opened is the one of TTL i + 1 |
| TraceUdp.UdpTraceRun | src-tauri/src/probe/trace/udp.rs:44-166 | on Windows the trace is the unsupported error with no hop; a listening socket that cannot be opened is its error with no hop; otherwise the trace of the per-TTL outcomes |
| TraceUdp.UdpTraceroute | src-tauri/src/probe/trace/udp.rs:44-166 | the hops reported and the result are exactly the UDP trace; no sending socket is asked for on Windows or without the listening socket; the sockets asked for are those of TTLs 1, 2, … and never more than the maximum |
| TraceUdp.TraceHops | src-tauri/src/probe/trace/udp.rs:61-149 | the TTL loop gives exactly the trace of the per-TTL outcomes, asking for one sending socket per hop reported plus the one that failed |
| Traceroute.ProgressEvents | src-tauri/src/probe/trace/icmp.rs:130-142 | one progress event per hop reported, carrying that hop, in order |
| Traceroute.RunTraceroute | src-tauri/src/probe/trace/mod.rs:70-98 | the setting is normalised first; the result is Ok exactly when the trace of the chosen protocol did not fail, and otherwise its error; the events are the start event, the trace's progress events, and the done event only when the trace did not fail |
| Traceroute.RunShape | src-tauri/src/probe/trace/mod.rs:79-82 | whichever the protocol, at most the maximum number of hops are reported, numbered from 1, and the trace is Ok(true) exactly when the last of them was reached |
| Traceroute.OutcomeShape | src-tauri/src/probe/trace/mod.rs:75-97 | the events start with the normalised setting, then carry each hop in turn, and end with a done event exactly when the trace did not fail; done says reached exactly when the last hop reported was reached, and carries the maximum hop count, address, hostname and protocol |
| ScanModel.OwnAddrs | src-tauri/src/model/scan.rs:83-96 | the interface's addresses are exactly its IPv4 and its IPv6 addresses |
| ScanModel.Subnet24At | src-tauri/src/model/scan.rs:87-91 | the i-th host of the /24 is the gateway's first three octets with i + 1 as last octet |
| ScanModel.NeighborScanDefault | src-tauri/src/model/scan.rs:83-106 | the targets are the hosts of the gateway's /24, and the setting has hop limit 64, a 1000 ms timeout, one probe, the payload "np:neigh", ordered dispatch and a concurrency of 100 |
| ScanModel.NeighborTargetsShape | src-tauri/src/model/scan.rs:85-91 | with a gateway IPv4 address the targets are the 254 hosts .1 to .254 of its /24 in ascending order: the network and broadcast addresses are left out and every other address of the /24 is there |
| ScanModel.NoGatewayNoTargets | src-tauri/src/model/scan.rs:84-96 | without a gateway, or with a gateway that has no IPv4 address, there are no targets |
| PortScan.Wrap32 | src-tauri/src/probe/scan/tcp.rs:28-29 | a u32 count is the count itself whenever it fits in 32 bits |
| PortScan.Wrap32Succ | src-tauri/src/probe/scan/tcp.rs:90 | bumping the 32-bit done counter with wrap-around gives the wrapped count of one more probe |
| PortScan.DispatchOrder | src-tauri/src/probe/scan/tcp.rs:19-22 | the ports are started as expanded when ordered, and otherwise in a shuffle that holds the same ports the same number of times |
| PortScan.CompletionsAt | src-tauri/src/probe/scan/tcp.rs:90-103 | the j-th progress sample reports the j-th probe to finish, with done j + 1 |
| PortScan.CompletionsShape | src-tauri/src/probe/scan/tcp.rs:28-103 | when the port count fits in 32 bits, there is one progress sample per port, sample j carries done j + 1 and total the port count, the done values are distinct and run from 1 to total, and no progress sample has a service name |
| PortScan.CompletionsCover | src-tauri/src/probe/scan/tcp.rs:33-106 | the probe of every dispatched port is reported, exactly once |
| PortScan.ServiceName | src-tauri/src/probe/scan/tcp.rs:114-119 | a port gets a service name exactly when the service database has an entry for it |
| PortScan.OpenOfExact | src-tauri/src/probe/scan/tcp.rs:108-122 | the collector keeps exactly the Open samples, each with the service name of its port from the database, and nothing else |
| PortScan.OpenOfAppend | src-tauri/src/probe/scan/tcp.rs:111-122 | a sample that arrives is appended, named, when it is Open, and ignored otherwise |
| PortScan.CollectSamples | src-tauri/src/probe/scan/tcp.rs:28-122 | the progress samples are those of the probes in the order they finish, counted by the shared done counter, and the collected samples are the Open ones among them in arrival order |
| PortScanTcp.ConnectErrorStateFiltered | src-tauri/src/probe/scan/tcp.rs:74-87 | a connect error never means Open; it means Filtered exactly for a timeout, an unreachable network or host, or an unavailable address, and Closed for every other error |
| PortScanTcp.TcpVerdictCases | src-tauri/src/probe/scan/tcp.rs:44-88 | a port is Open exactly when the connection was established, and then with its RTT and no message; a socket that cannot be made is Filtered with "tcp socket error: …"; a connect error keeps its text as message |
| PortScanTcp.InsertByPortKeeps | src-tauri/src/probe/scan/tcp.rs:124-125 | inserting a sample adds exactly that sample |
| PortScanTcp.InsertByPortSorted | src-tauri/src/probe/scan/tcp.rs:124-125 | inserting a sample into samples sorted by port keeps them sorted |
| PortScanTcp.SortByPort | src-tauri/src/probe/scan/tcp.rs:124-125 | the result is sorted by port and is a permutation of the input |
| PortScanTcp.TcpPortScan | src-tauri/src/probe/scan/tcp.rs:13-137 | the progress samples are the verdicts of the dispatched ports in completion order; the report carries the run id and the setting's address, hostname and protocol, and holds the Open samples, named, sorted by port; the `portscan:done` event carries that same report |
| PortScanTcp.TcpReportExact | src-tauri/src/probe/scan/tcp.rs:108-133 | the report holds exactly the samples of the ports found Open, each named from the TCP service database |
| PortScanQuic.QuicVerdictCases | src-tauri/src/probe/scan/quic.rs:54-91 | a port is Open exactly when the handshake completed, and then with its RTT and no message; an endpoint that cannot be made is Filtered with "quic endpoint error: …"; a failed handshake is Filtered only for an I/O timeout, and an error of any other type is Closed |
| PortScanQuic.QuicScanServerName | src-tauri/src/probe/scan/quic.rs:57-58 | the TLS server name is the configured hostname, else the address text; `QuicPortScan` makes its handshakes with this name |
| PortScanQuic.QuicPortScan | src-tauri/src/probe/scan/quic.rs:17-136 | the progress samples are the verdicts of the dispatched ports in completion order; the report carries the run id, the setting's address, hostname and protocol and the Open samples, named from the UDP service database, in the order they arrived; the `portscan:done` event carries that same report; the handshakes use the server name of `QuicScanServerName` |
| HostScan.EchoPayload | src-tauri/src/probe/scan/icmp.rs:66-69 | the echo payload is the configured one, "np:hs" when unset |
| HostScan.Concurrency | src-tauri/src/probe/scan/icmp.rs:70 | the number of hosts probed at once is the configured one, 256 when unset |
| HostScan.ScanHopLimit | src-tauri/src/probe/scan/icmp.rs:77-85 | the sockets' TTL or hop limit is the configured one, raised to 1 when it is 0 |
| HostScan.SendsPerHost | src-tauri/src/probe/scan/icmp.rs:112 | every host gets up to the configured count of requests, and at least one |
| HostScan.SocketConfigsOfFamily | src-tauri/src/probe/scan/icmp.rs:75-89 | the IPv4 socket is an IPv4 ICMP socket with only its TTL set and the IPv6 socket an IPv6 one with only its hop limit set, both to the scan's hop limit |
| HostScan.Receive | src-tauri/src/probe/scan/icmp.rs:26-54 | a buffer that parses as an echo reply of the socket's family takes the pending entry of its sender, when there is one, and wakes that sender; anything else leaves the pending entries as they were and wakes nobody |
| HostScan.ReceiveAnswersRegistered | src-tauri/src/probe/scan/icmp.rs:163-193 | once a request has registered its entry, an echo reply of the family from its destination removes exactly that entry and wakes it with its sequence number, leaving the map `ProbeHost` leaves after an answer; a reply from another address keeps the entry, and a non-reply changes nothing, so the request ends by its timeout |
| HostScan.HostWalk | src-tauri/src/probe/scan/icmp.rs:163-207 | never more requests are sent than allowed, and all of them when no reply came |
| HostScan.FirstAnswer | src-tauri/src/probe/scan/icmp.rs:193-197 | the first answered request, when there is one, is answered and every request before it was not; otherwise no request was answered |
| HostScan.HostWalkFirstAnswer | src-tauri/src/probe/scan/icmp.rs:163-207 | a host gets requests until its first reply and then carries that reply's RTT, having sent one request more than the unanswered ones before it; without a reply every request is sent and the error of the last one stays |
| HostScan.HostWalkStopped | src-tauri/src/probe/scan/icmp.rs:194-197 | after a reply the outcomes of later requests change nothing |
| HostScan.HostTask | src-tauri/src/probe/scan/icmp.rs:130-231 | a host is reported alive exactly when it carries an RTT |
| HostScan.ProbeHost | src-tauri/src/probe/scan/icmp.rs:159-207 | the requests to one host give the outcome of its first reply, or the last error, and leave no pending entry for that host behind |
| HostScan.HostCompletionsAt | src-tauri/src/probe/scan/icmp.rs:209-231 | the j-th progress record reports the j-th host to finish, with done j + 1 |
| HostScan.PartitionSizes | src-tauri/src/probe/scan/icmp.rs:236-244 | every progress record lands in exactly one of the alive and unreachable lists |
| HostScan.PartitionExact | src-tauri/src/probe/scan/icmp.rs:236-244 | the alive list holds exactly the alive records, each as address and RTT, and the unreachable list exactly the addresses of the unreachable ones |
| HostScan.AppendProgress | src-tauri/src/probe/scan/icmp.rs:239-244 | a record that arrives extends the alive list when alive and the unreachable list otherwise |
| HostScan.RunHostTask | src-tauri/src/probe/scan/icmp.rs:130-157 | a host whose family has no socket is unreachable with "no suitable socket for IP family" and touches no pending entry; any other host is probed over its family's socket, which leaves no pending entry for it in that family's map and leaves the other map alone |
| HostScan.CollectHosts | src-tauri/src/probe/scan/icmp.rs:112-244 | the progress records are those of the hosts in the order they finish, counted by the shared done counter, and the two lists are the partition of those records |
| HostScan.HostScanRun | src-tauri/src/probe/scan/icmp.rs:56-265 | the IPv4 socket is made exactly when some target is IPv4 and the IPv6 socket exactly when some target is IPv6 and no IPv4 socket failed before it; a failing socket is the scan's error with no progress; otherwise every host is reported as it finishes, and the report holds the run id, the alive and unreachable lists and the target count; `hostscan:done` is emitted exactly when the scan succeeds, and it carries that same report |
| HostScan.HostTaskWithSocket | src-tauri/src/probe/scan/icmp.rs:130-228 | every target has the socket of its family, so no host reports the missing-socket message: an alive host carries the RTT of its first reply and an unreachable one the error of its last request |
| HostScan.HostCompletionsShape | src-tauri/src/probe/scan/icmp.rs:209-231 | when the target count fits in 32 bits, record j carries done j + 1, total the target count and the address of the j-th host to finish, and an RTT exactly when the host is alive |
| HostScan.HostReportSizes | src-tauri/src/probe/scan/icmp.rs:236-262 | together the alive and unreachable lists have one entry per target |
| NeighborScan.VendorOf | src-tauri/src/probe/scan/neigh.rs:43-50 | a host has a vendor exactly when it has a hardware address the vendor database knows with a vendor detail, and then that detail |
| NeighborScan.NeighborTags | src-tauri/src/probe/scan/neigh.rs:52-74 | a host carries at most three tags |
| NeighborScan.NeighborTagsExact | src-tauri/src/probe/scan/neigh.rs:52-74 | "Self" is there exactly for an own address, "Gateway" exactly for a gateway address of the host's family, "DNS" exactly for a DNS server; no other tag, none twice, and always in the order Self, Gateway, DNS |
| NeighborScan.NeighborsOf | src-tauri/src/probe/scan/neigh.rs:40-83 | there is one neighbour record per alive host |
| NeighborScan.NeighborsOfAt | src-tauri/src/probe/scan/neigh.rs:42-83 | record i is the i-th alive host with its address and RTT, the table's hardware address for it when the table has one, that address' vendor and its tags |
| NeighborScan.ClassifyTags | src-tauri/src/probe/scan/neigh.rs:52-74 | the tags pushed for a host are exactly its tags |
| NeighborScan.CollectNeighbors | src-tauri/src/probe/scan/neigh.rs:40-83 | the loop over the alive hosts builds exactly their neighbour records, in order |
| NeighborScan.NeighborScanRun | src-tauri/src/probe/scan/neigh.rs:8-98 | `hostscan:start` with the run id comes first; the host scan of the default neighbour setting runs next, and its error is returned as it is, with no further event; otherwise its `hostscan:done` follows with its report, and then the neighbour table is read and its failure is returned; otherwise `neighborscan:done` with the run id ends the run, and the report holds the run id, the records of the alive hosts and the scan's total |
| NeighborScan.NeighborTargetsV4 | src-tauri/src/model/scan.rs:85-91 | the neighbour targets are all IPv4, so the IPv6 socket is never made |
| NeighborScan.NeighborsFromAlive | src-tauri/src/probe/scan/neigh.rs:42-83 | every neighbour record comes from an alive progress record, with that record's address and RTT |
| SocketInfo.FromNetstatState | netpulsar-core/src/net/socket.rs:36-52 | the status is Unknown exactly for the library's unnamed states |
| SocketInfo.FromNetstatStateInjective | netpulsar-core/src/net/socket.rs:36-52 | distinct library states map to distinct statuses, so each named state keeps its own name |
| SocketInfo.FromTcpFlags | netpulsar-core/src/net/socket.rs:53-68 | SynSent, SynReceived, Established, Closing and FinWait1 are given exactly for the control-bit sets {SYN}, {SYN, ACK}, {ACK}, {FIN, ACK} and {FIN}; every other byte gives Unknown |
| SocketInfo.ExtraBitsUnknown | netpulsar-core/src/net/socket.rs:53-68 | a flags byte with RST, PSH, URG, ECE or CWR set is Unknown |
| SocketInfo.StatusTextInjective | netpulsar-core/src/net/socket.rs:71-93 | the displayed texts of the thirteen statuses are pairwise distinct |
| SocketInfo.DefaultOption | netpulsar-core/src/net/socket.rs:146-153 | the default option holds both families and both protocols |
| SocketInfo.FamilyFlagsExact | netpulsar-core/src/net/socket.rs:162-175 | the family flags have the IPv4 bit exactly when IPv4 is listed, the IPv6 bit exactly when IPv6 is listed, and no other bit |
| SocketInfo.FamilyFlagsMembersOnly | netpulsar-core/src/net/socket.rs:162-175 | lists with the same members give the same flags, whatever their order and repetitions; the empty list gives no flags |
| SocketInfo.GetAddressFamilyFlags | netpulsar-core/src/net/socket.rs:162-175 | the loop's flags are the or of the listed families' bits |
| SocketInfo.ProtocolFlagsExact | netpulsar-core/src/net/socket.rs:176-189 | the protocol flags have the TCP bit exactly when TCP is listed, the UDP bit exactly when UDP is listed, and no other bit |
| SocketInfo.ProtocolFlagsMembersOnly | netpulsar-core/src/net/socket.rs:176-189 | order and repetition of the protocols do not change the flags; the empty list gives none |
| SocketInfo.GetProtocolFlags | netpulsar-core/src/net/socket.rs:176-189 | the loop's flags are the or of the listed protocols' bits |
| SocketInfo.ProcessesOfExact | netpulsar-core/src/net/socket.rs:200-205 | a process is listed exactly when it is the map's entry for one of the socket's PIDs |
| SocketInfo.CollectProcesses | netpulsar-core/src/net/socket.rs:200-205 | the PID loop keeps the map's entries for the PIDs found, in PID order, and skips the others |
| SocketInfo.FamilyOf | netpulsar-core/src/net/socket.rs:215 | the IP version is IPv4 exactly for an IPv4 local address |
| SocketInfo.RecordsOf | netpulsar-core/src/net/socket.rs:199-234 | one record per socket-table entry |
| SocketInfo.RecordsOfAt | netpulsar-core/src/net/socket.rs:206-233 | record i has entry i's local end and processes; a UDP record has no remote end, status Unknown and protocol UDP; a TCP record has the remote end and the mapped state; the IP version follows the local address |
| SocketInfo.GetSocketsInfo | netpulsar-core/src/net/socket.rs:192-236 | the socket table is asked with the option's family and protocol flags, and the records are those of its entries, in order |
| NeighLinux.NlmsgAlign | src-tauri/src/net/neigh/os/linux.rs:19-25 | a length rounds up to the smallest multiple of the 4-byte netlink alignment that is not below it |
| NeighLinux.NlmsgAlignIdempotent | src-tauri/src/net/neigh/os/linux.rs:22-25 | aligning an aligned length leaves it unchanged, and 0 stays 0 |
| NeighLinux.FromStrRadix16 | src-tauri/src/net/neigh/os/linux.rs:166 | a hexadecimal byte is read only from a non-empty text that is not a bare sign |
| NeighLinux.GroupByte | src-tauri/src/net/neigh/os/linux.rs:163-166 | a MAC group is read as a byte only when it has one or two characters |
| NeighLinux.GroupByteCases | src-tauri/src/net/neigh/os/linux.rs:163-166 | three-character, empty, bare-sign and negative groups are refused; a leading '+' and either letter case are accepted |
| NeighLinux.GroupBytes | src-tauri/src/net/neigh/os/linux.rs:161-168 | the group loop yields one byte per group or nothing |
| NeighLinux.GroupBytesAt | src-tauri/src/net/neigh/os/linux.rs:161-168 | byte i of a parsed address is the value of group i |
| NeighLinux.GroupBytesPrefixNone | src-tauri/src/net/neigh/os/linux.rs:162-166 | a group that fails makes the whole address fail, whatever follows it |
| NeighLinux.GroupBytesAllSome | src-tauri/src/net/neigh/os/linux.rs:161-168 | when every group reads as its byte the address is those bytes |
| NeighLinux.DashToColon | src-tauri/src/net/neigh/os/linux.rs:156 | replacing '-' by ':' keeps the length and leaves no '-' |
| NeighLinux.DashToColonJoin | src-tauri/src/net/neigh/os/linux.rs:155-157 | groups joined by '-' or ':' read as the same ':'-joined text |
| NeighLinux.ParseMacStr | src-tauri/src/net/neigh/os/linux.rs:154-169 | the loop-based parse agrees with the reference reading of a MAC text: six groups of one or two hex digits, split at '-' or ':' |
| NeighLinux.Hex2RoundTrip | src-tauri/src/net/neigh/os/linux.rs:163-166 | a byte written as two hex digits, in either case, reads back as the byte |
| NeighLinux.MacTextRoundTrip | src-tauri/src/net/neigh/os/linux.rs:154-169 | a MAC written with ':' or '-' separators, upper or lower case, parses back to itself |
| NeighLinux.ArpLineEntry | src-tauri/src/net/neigh/os/linux.rs:187-204 | an entry taken from a /proc/net/arp line is always an IPv4 neighbor |
| NeighLinux.ArpLineRoundTrip | src-tauri/src/net/neigh/os/linux.rs:187-204 | a six-column line with a dotted quad and a MAC gives an entry exactly when its flags column is 0x2 in any case, and then the entry is that address and MAC |
| NeighLinux.LineEffect | src-tauri/src/net/neigh/os/linux.rs:182-204 | a line read error stops the table with that error; a line inserts exactly when it is a complete entry after the header, and inserts that entry |
| NeighLinux.LineEffects | src-tauri/src/net/neigh/os/linux.rs:182-205 | one effect per line read |
| NeighLinux.LineEffectsAt | src-tauri/src/net/neigh/os/linux.rs:182-205 | the effect of line i depends only on its index and its text |
| NeighLinux.ProcArpEntry | src-tauri/src/net/neigh/os/linux.rs:182-206 | every address in the table comes from some line after the header, and no later line names that address again: the last line wins |
| NeighLinux.ProcArpLaterLine | src-tauri/src/net/neigh/os/linux.rs:200-203 | a further complete line overwrites the table's entry for its address and changes nothing else |
| NeighLinux.FoldErrFrom | src-tauri/src/net/neigh/os/linux.rs:183 | once a line read has failed, later lines do not change the outcome |
| NeighLinux.FoldErrStays | src-tauri/src/net/neigh/os/linux.rs:183 | a read error on an otherwise good prefix is the result of the whole file |
| NeighLinux.ReadProcNetArp | src-tauri/src/net/neigh/os/linux.rs:171-207 | a file that cannot be opened gives its error; otherwise the loop's table is the fold of the per-line effects |
| NeighLinux.NeighAddrToIp | src-tauri/src/net/neigh/os/linux.rs:145-152 | IPv4 and IPv6 neighbor addresses convert to themselves; other families give none |
| NeighLinux.AttrsScanLast | src-tauri/src/net/neigh/os/linux.rs:236-248 | the address kept is that of the last Destination attribute; the MAC kept is that of the last six-byte link-layer attribute, and there is none exactly when no such attribute exists |
| NeighLinux.ScanAttributes | src-tauri/src/net/neigh/os/linux.rs:236-248 | the attribute loop computes the reference scan |
| NeighLinux.NeighEffects | src-tauri/src/net/neigh/os/linux.rs:232-253 | one effect per netlink neighbor and none of them is a failure |
| NeighLinux.NeighsToMap | src-tauri/src/net/neigh/os/linux.rs:229-256 | the loop's table is the fold of the per-neighbor effects and is always Ok |
| NeighLinux.RecvFromKeeps | src-tauri/src/net/neigh/os/linux.rs:75-114 | reception only appends to the messages already kept, and everything it appends carries the dump's sequence number and an inner payload |
| NeighLinux.WalkDatagram | src-tauri/src/net/neigh/os/linux.rs:75-114 | walking one datagram either ends the reception with the reference result or leaves it to continue with the next datagram from the messages kept so far |
| NeighLinux.RecvMulti | src-tauri/src/net/neigh/os/linux.rs:60-125 | the receive loop's result is the reference reception from the first datagram |
| NeighLinux.SendDump | src-tauri/src/net/neigh/os/linux.rs:36-58 | a buffer shorter than a netlink header is refused with the source's InvalidData message; otherwise the send succeeds exactly when the socket send does |
| NeighLinux.DumpNeigh | src-tauri/src/net/neigh/os/linux.rs:127-143 | an open or send failure is returned as is; otherwise the result is the reception's error or its neighbor messages |
| NeighLinux.ChooseTable | src-tauri/src/net/neigh/os/linux.rs:211-227 | a non-empty netlink table wins, then a non-empty /proc/net/arp table; the result is empty only when neither source gives a non-empty table |
| NeighLinux.GetNeighborTable | src-tauri/src/net/neigh/os/linux.rs:209-227 | the table is always Ok and is the choice between the netlink dump's table and the /proc/net/arp table |
| NeighWindows.InterestingStates | src-tauri/src/net/neigh/os/windows.rs:76-87 | of the seven neighbor states, only Unreachable and Incomplete are not kept |
| NeighWindows.SockaddrInetToIp | src-tauri/src/net/neigh/os/windows.rs:89-106 | an AF_INET address gives the IPv4 address with its four bytes in order, an AF_INET6 address gives its sixteen bytes, any other family gives none |
| NeighWindows.RowEffect | src-tauri/src/net/neigh/os/windows.rs:48-67 | a table row never fails the dump |
| NeighWindows.RowEffects | src-tauri/src/net/neigh/os/windows.rs:48-68 | one effect per row, none of them a failure |
| NeighWindows.RowEffectsAt | src-tauri/src/net/neigh/os/windows.rs:48-68 | the effect of row i is that row's own effect |
| NeighWindows.RowTable | src-tauri/src/net/neigh/os/windows.rs:48-68 | an address is in the table exactly when some kept row (six-byte hardware address, interesting state, known family) names it; its MAC is the hardware address of the last such row |
| NeighWindows.DumpIpnet | src-tauri/src/net/neigh/os/windows.rs:31-74 | a failing GetIpNetTable2 gives the source's error, a null table gives an empty map, otherwise the loop's map is the fold of the row effects |
| NeighWindows.Merged | src-tauri/src/net/neigh/os/windows.rs:18-29 | the table holds the addresses of both dumps that succeeded, with the IPv6 dump's entry winning where both have one |
| NeighWindows.GetNeighborTable | src-tauri/src/net/neigh/os/windows.rs:18-29 | the table is always Ok and is the merge of the IPv4 and IPv6 dumps, a failed dump counting as empty |
| NeighModel.SignedDecimal | src-tauri/src/net/neigh/os/darwin.rs:196 | the text of an i32 starts with a minus sign exactly when the value is negative |
| NeighModel.Ipv4Of | src-tauri/src/net/neigh/os/darwin.rs:166-170 | four bytes in network order are the IPv4 address with those octets |
| NeighModel.Ipv6Of | src-tauri/src/net/neigh/os/darwin.rs:179-181 | sixteen bytes in network order are the IPv6 address with those octets |
| NeighModel.FoldStep | src-tauri/src/net/neigh/os/darwin.rs:295-321 | after a failure nothing more happens; otherwise an ignored record keeps the table, an inserting one sets its address' entry, and a failing one ends the read with its error |
| NeighModel.FoldErr | src-tauri/src/net/neigh/os/darwin.rs:310-312 | a table read fails exactly when some record fails, and then with the error of the first failing record |
| NeighModel.FoldKeys | src-tauri/src/net/neigh/os/darwin.rs:316-317 | without a failure the table maps exactly the addresses some record inserts |
| NeighModel.FoldLastWins | src-tauri/src/net/neigh/os/darwin.rs:316-317 | each address maps to the link-layer address of the last record that inserts it |
| NeighDarwin.RoundUp | src-tauri/src/net/neigh/os/darwin.rs:153-160 | the rounded length is a positive multiple of 4: 4 for a zero length, otherwise the least multiple of 4 at or above the length |
| NeighDarwin.CodeToError | src-tauri/src/net/neigh/os/darwin.rs:188-197 | errno 17 is AlreadyExists, 3 NotFound, 3436 OutOfMemory and any other Other, always with the message "rtm_errno " and the signed errno |
| NeighDarwin.LeI32 | src-tauri/src/net/neigh/os/darwin.rs:67 | a header errno lies in the i32 range |
| NeighDarwin.IpFromSockaddr | src-tauri/src/net/neigh/os/darwin.rs:162-186 | an AF_INET record gives the IPv4 address of its bytes 4 to 8; an AF_INET6 record gives the IPv6 address of its bytes 8 to 24 exactly when it is a whole sockaddr_in6; any other family gives nothing |
| NeighDarwin.LinkMac | src-tauri/src/net/neigh/os/darwin.rs:233-268 | a link-layer record has an address exactly when its length covers the struct, its address length is at least 6, its sa_len covers its own length and the name and address fit; the address is then the six bytes after the interface name, inside the record |
| NeighDarwin.Offsets | src-tauri/src/net/neigh/os/darwin.rs:205-274 | the records read lie each with a whole sockaddr header inside the block, each further on than the one before |
| NeighDarwin.ViewsFrom | src-tauri/src/net/neigh/os/darwin.rs:222-232 | every IPv4 record the pair walk sees holds an IPv4 address |
| NeighDarwin.ViewsFromAt | src-tauri/src/net/neigh/os/darwin.rs:205-275 | the walk sees one record per offset it reads, the i-th being the record at the i-th offset |
| NeighDarwin.PairScanNone | src-tauri/src/net/neigh/os/darwin.rs:200-278 | the walk finds no pair exactly when the block, with what is already known, lacks an IPv4 address or a valid link-layer address |
| NeighDarwin.PairScanFound | src-tauri/src/net/neigh/os/darwin.rs:226-266 | a pair found joins an IPv4 address and a link-layer address both read from the block's records |
| NeighDarwin.PairScanStops | src-tauri/src/net/neigh/os/darwin.rs:228-266 | once both addresses are known the walk returns, and records after that point change nothing |
| NeighDarwin.MessageToArpPair | src-tauri/src/net/neigh/os/darwin.rs:199-278 | the loop over the sockaddr records gives exactly the pair walk of the block's records |
| NeighDarwin.MessagePairIsV4 | src-tauri/src/net/neigh/os/darwin.rs:222-232 | the pair's address is always IPv4: IPv6 records are passed over |
| NeighDarwin.ShortRecordSliceInverted | src-tauri/src/net/neigh/os/darwin.rs:300-315 | as written, a 92-byte dump holding one version-5 record with a zero errno that claims to be 10 bytes long passes the length checks and has its block sliced from 92 to 10, a slice that panics |
| NeighDarwin.RecordAction | src-tauri/src/net/neigh/os/darwin.rs:297-320 | with records shorter than their header skipped, a skip moves forward inside the dump, a parsed block lies after the header and inside its record, and a failure carries a non-zero errno |
| NeighDarwin.RecordActionAgrees | src-tauri/src/net/neigh/os/darwin.rs:297-320 | the corrected decision differs from the one as written only on the records where the written code slices backwards |
| NeighDarwin.RecordActionCases | src-tauri/src/net/neigh/os/darwin.rs:305-315 | a record of another version is skipped, a version-5 record with a non-zero errno fails, and a version-5 record with a zero errno, at least a header long, has its block parsed |
| NeighDarwin.EffectsStep | src-tauri/src/net/neigh/os/darwin.rs:297-321 | the effects from a record on are nothing at a stop, an ignored record then the rest after a skip, the record's failure alone, or the block's effect then the rest after a parse |
| NeighDarwin.Effects | src-tauri/src/net/neigh/os/darwin.rs:310-312 | no record but the last one read fails |
| NeighDarwin.ReadRecord | src-tauri/src/net/neigh/os/darwin.rs:299-315 | the header checks of one record give exactly the corrected record decision of Findings, which skips a record shorter than its header |
| NeighDarwin.GetNeighborTable | src-tauri/src/net/neigh/os/darwin.rs:280-324 | a failing dump is the read's error; otherwise the table is the fold of the records' effects: the first failing errno, or the map of every pair found, a later pair for an address replacing an earlier one; records shorter than their header are skipped, as in the corrected walk of Findings |
| Config.AllowsIsRankOrder | src-tauri/src/config.rs:99-106 | a filter lets a level through exactly when the level is at least as severe in the order DEBUG, INFO, WARN, ERROR |
| Config.AllowsTotalOrder | src-tauri/src/config.rs:99-106 | `allows` is reflexive, transitive, total and antisymmetric |
| Config.LevelText | src-tauri/src/config.rs:108-116 | a level's text is one of the four level names |
| Config.LevelTextInjective | src-tauri/src/config.rs:108-116 | different levels have different texts |
| Config.NewAppConfig | src-tauri/src/config.rs:35-43 | the default configuration has startup off, a 1000 ms refresh interval, the system theme and the bits data unit |
| DnsResolver.GetResolver | src-tauri/src/net/dns/resolver.rs:15-24 | the resolver is built exactly when the system configuration can be read; otherwise the error carries the source's prefix |
| DnsResolver.Fqdn | src-tauri/src/net/dns/resolver.rs:44-51 | the qualified name ends in '.', is the name itself when it already did, and gains exactly one '.' otherwise |
| DnsResolver.FqdnIdempotent | src-tauri/src/net/dns/resolver.rs:44-51 | qualifying a qualified name changes nothing |
| DnsResolver.Records | src-tauri/src/net/dns/resolver.rs:53-195 | a failed lookup gives an empty list and a successful one its records |
| DnsResolver.SplitOnce | src-tauri/src/net/dns/resolver.rs:160-173 | there is no split exactly when the text has no '='; otherwise the text is key, '=', value with no '=' in the key |
| DnsResolver.TxtRecordOf | src-tauri/src/net/dns/resolver.rs:160-173 | a text with '=' is split at its first '=', one without is all key with an empty value |
| DnsResolver.TxtRecordRoundTrip | src-tauri/src/net/dns/resolver.rs:160-173 | a key without '=' joined to any value by '=' splits back into that key and value |
| DnsResolver.SplitOnceFirst | src-tauri/src/net/dns/resolver.rs:160-173 | the split is made at the first '=' |
| DnsResolver.TxtRecords | src-tauri/src/net/dns/resolver.rs:153-177 | one TXT record per text, in order |
| DnsResolver.LookupAll | src-tauri/src/net/dns/resolver.rs:53-222 | the lookup always succeeds and carries the name as given; each of the nine lists is the resolver's answer to the query of the qualified name, empty when that query failed, and the TXT list has one record per text, in order |
| DnsResolver.LookupAllQualified | src-tauri/src/net/dns/resolver.rs:197-222 | a name and its qualified form give the same records |
| DnsResolver.LookupAllFailures | src-tauri/src/net/dns/resolver.rs:197-222 | when every lookup fails every list is empty |
| Internet.FetchPublicIp | src-tauri/src/net/internet.rs:13-24 | the fetch succeeds exactly on a 2xx response whose body is an IpInfo, and then gives that body; each failing step gives its own error text |
| Internet.Answer | src-tauri/src/net/internet.rs:45-46 | a fetch contributes an answer exactly when it succeeded, and then that body |
| Internet.IsIpv6Colon | src-tauri/src/net/internet.rs:26-28 | an answer is taken for IPv6 exactly when it says v6 or its address has a ':' |
| Internet.DottedQuadIsNotIpv6 | src-tauri/src/net/internet.rs:26-28 | a dotted-quad address that does not say v6 is not taken for IPv6 |
| Internet.Select | src-tauri/src/net/internet.rs:48-59 | an IPv6 generic answer fills the IPv6 slot and leaves the IPv4 slot to the IPv4 endpoint; an IPv4 generic answer fills the IPv4 slot alone; with no generic answer only the IPv4 endpoint's answer is kept |
| Internet.SelectSlots | src-tauri/src/net/internet.rs:48-59 | the IPv6 slot only ever holds the generic answer taken for IPv6; the IPv4 slot holds the generic answer or the IPv4 endpoint's |
| Internet.GetPublicIp | src-tauri/src/net/internet.rs:31-61 | the only error is a client that cannot be built; otherwise the result is the selection of the two answers, an IPv6 answer is the generic response's body and a failed generic request leaves IPv6 empty |
| SysOs.Hostname | src-tauri/src/net/sys/os.rs:3-8 | the host name as the system gives it, or "unknown" when it is unavailable or not Unicode |
| SysOs.NormalizeOsName | src-tauri/src/net/sys/os.rs:10-15 | macOS is spelled "macOS"; every other type keeps its own display name |
| SysOs.Bitness | src-tauri/src/net/sys/os.rs:30-35 | "64-bit" exactly on a 64-bit target, "32-bit" otherwise |
| SysOs.Pick | src-tauri/src/net/sys/os.rs:58-63 | the lowercase variable is preferred and the uppercase one is the fallback only when the lowercase one is unset; a blank value counts as none |
| SysOs.BlankLowerHidesUpper | src-tauri/src/net/sys/os.rs:58-63 | a blank lowercase variable hides a set uppercase one |
| SysOs.PickIgnoresKeyCase | src-tauri/src/net/sys/os.rs:58-63 | the key's own letter case makes no difference |
| SysOs.CollectProxyEnv | src-tauri/src/net/sys/os.rs:56-71 | the four proxy fields are the picks of http_proxy, https_proxy, all_proxy and no_proxy |
| SysOs.LinuxKernelVersion | src-tauri/src/net/sys/os.rs:75-83 | a version exists exactly when /proc/version was read and has at least three words, and it is exactly the first three words joined by single spaces |
| SysOs.LinuxKernelVersionOfWords | src-tauri/src/net/sys/os.rs:75-83 | for a text of single-space-separated words the version is the first three joined by spaces |
| SysOs.Trim | src-tauri/src/net/sys/os.rs:62 | trimming gives the empty text exactly for a blank text; otherwise it is the slice from the first to the last non-whitespace character |
| SysOs.SplitFirstPiece | src-tauri/src/net/sys/os.rs:94 | the first piece of a split is a separator-free prefix, followed by the separator when it is shorter than the text |
| SysOs.MacosKernelVersion | src-tauri/src/net/sys/os.rs:87-99 | a version exists exactly when uname succeeded |
| SysOs.MacosKernelVersionSlice | src-tauri/src/net/sys/os.rs:93-95 | the macOS version is a slice of the uname text with no ':' and no surrounding whitespace |
| SysOs.TrimOfPrefix | src-tauri/src/net/sys/os.rs:94-95 | the trimmed first piece is a slice of the whole text and uses only its characters |
| SysOs.WindowsKernelVersion | src-tauri/src/net/sys/os.rs:103-120 | a version exists exactly when RtlGetVersion succeeded |
| SysOs.WindowsKernelVersionRoundTrip | src-tauri/src/net/sys/os.rs:113-116 | the Windows version is "Windows NT Kernel " followed by three dot-separated decimals that read back as major, minor and build |
| SysOs.KernelVersion | src-tauri/src/net/sys/os.rs:73-125 | each platform's version comes from its own source, and other platforms have none |
| SysOs.SystemInfo | src-tauri/src/net/sys/os.rs:17-53 | every field of the system information comes from its source: missing edition and codename read "unknown" |
| Endpoints.NewPort | src-tauri/src/model/endpoint.rs:22-25 | the port has the number and transport given |
| Endpoints.PortFrom | src-tauri/src/model/endpoint.rs:32-39 | converting a (number, transport) pair gives the port with that number and transport |
| Endpoints.PortFromIsNew | src-tauri/src/model/endpoint.rs:22-39 | the conversion from a pair and the constructor agree |
| Endpoints.PortSocketAddr | src-tauri/src/model/endpoint.rs:26-29 | the socket address joins the IP given with the port's number |
| Endpoints.TransportName | src-tauri/src/model/endpoint.rs:46-50 | a transport's name has no colon and at least three letters |
| Endpoints.PortTextParts | src-tauri/src/model/endpoint.rs:41-54 | a port's text splits at its one colon into the transport's name and the decimal number, and the number reads back |
| Endpoints.PortTextInjective | src-tauri/src/model/endpoint.rs:41-54 | different ports have different texts |
| Endpoints.NewHost | src-tauri/src/model/endpoint.rs:73-79 | a new host has the address given and no hostname |
| Endpoints.HostWithHostname | src-tauri/src/model/endpoint.rs:80-87 | a host made with a hostname carries it |
| Endpoints.Upserted | src-tauri/src/model/endpoint.rs:128-133 | after an upsert the element is there, and the elements are exactly the old ones and it |
| Endpoints.UpsertedIdempotent | src-tauri/src/model/endpoint.rs:128-133 | upserting twice is upserting once; an element already there changes nothing and a new one is appended |
| Endpoints.UpsertAllMerges | src-tauri/src/model/endpoint.rs:143-153 | merging keeps the old list as a prefix, holds every element of either list and nothing else, and the elements added are new and pairwise distinct |
| Endpoints.UpsertAllDistinct | src-tauri/src/model/endpoint.rs:143-153 | merging into a list without duplicates gives a list without duplicates |
| Endpoints.PortAddrs | src-tauri/src/model/endpoint.rs:155-162 | there are never more addresses than ports |
| Endpoints.PortAddrsExact | src-tauri/src/model/endpoint.rs:155-162 | an address is there exactly when some port of the transport has its number, and every address carries the endpoint's IP |
| Endpoints.PortAddrsAppend | src-tauri/src/model/endpoint.rs:157-161 | a port of another transport adds nothing and a port of the transport adds its address at the end, so the addresses keep the ports' order |
| Endpoints.Endpoint.constructor | src-tauri/src/model/endpoint.rs:113-119 | a new endpoint has the address given and no hostname, hardware address, tags or ports |
| Endpoints.Endpoint.WithHostname | src-tauri/src/model/endpoint.rs:120-127 | an endpoint made with a hostname carries it and nothing else |
| Endpoints.Endpoint.UpsertPort | src-tauri/src/model/endpoint.rs:128-133 | the port is there afterwards, appended only when new, and nothing else of the endpoint changes |
| Endpoints.Endpoint.Merge | src-tauri/src/model/endpoint.rs:134-154 | hostname and hardware address are kept when known and taken from the other endpoint otherwise; the other's tags and ports are upserted in order; the address is unchanged |
| Endpoints.Endpoint.SocketAddrs | src-tauri/src/model/endpoint.rs:155-162 | an address is there exactly when some port of the endpoint with that transport has its number, and every address carries the endpoint's IP |

## Left out

- Concurrency. `buffer_unordered`, the spawned receiver task of the host scan, its oneshot channels, the `Mutex` around the pending map and the atomic counters are not modelled. The model takes one completion order of the concurrent probes (`IsCompletionOrder`, a permutation of dispatch order) and applies each probe's effects in that order, as a sequential interleaving would.
- Timers. The tokio timeouts and sleeps are not modelled. A receive that passes its deadline is an outcome the oracle gives (`Expired`, a timed-out attempt).
- Clocks and randomness. RTTs are arbitrary `u64` values given by the oracles, so the truncating `elapsed().as_millis() as u64` cast is not modelled. Random echo ids and the port shuffle are arbitrary values and an arbitrary permutation.
- Socket and OS calls. socket2/tokio/quinn sockets, `sysctl`, netlink I/O, `GetIpNetTable2`, file and environment reads are not modelled. Their results are parameters.
- QUIC. src-tauri/src/socket/quic.rs is not part of this model. Each QUIC handshake is an oracle outcome, and the `QuicConfig` the QUIC scan builds (certificate-verification skip, ALPN list) is not modelled.
- Packets. Packet building, and the nex_packet parsing behind src-tauri/src/probe/packet.rs, are not modelled. A received buffer comes in already decoded (`BufferView`), and the reply classifiers are modelled on that view. The ICMPv6 classifier's acceptance of any ICMPv6 message is kept.
- `expand_ports`. probe/scan/mod.rs is not part of this model, so the port list of a port scan is an arbitrary sequence.
- Service and vendor databases. The ndb_tcp_service, ndb_udp_service and ndb_oui lookups are arbitrary partial maps.
- Floats. The progress `percent` (f32) and `PingStat::loss_rate` (f64) are not modelled.
- Integer text. `IpAddr::to_string` for IPv6, and the text of any address the source only passes on, are parameters of the model. IPv4 dotted-quad text and decimal integers are written out.
- PortScanTcp.SortByPort: states that the result is sorted by port and is a permutation of the input. It does not state that samples with the same port keep their order, as the stable `sort_by_key` guarantees, because that needs the permutation tracked index by index.
- Ping run ids: the progress and done payloads of a ping (src-tauri/src/model/ping.rs) carry the run's id, and `PingRun.PingEvent` leaves it out. Every event of a run carries the same id, which the driver passes on unchanged. The scan reports and the neighbour scan's events do carry it.
- Neighbour table entry point: src-tauri/src/net/neigh/os/mod.rs re-exports `get_arp_table` from each platform module, but the platform modules define `get_neighbor_table` instead. The model follows the platform modules: `NeighLinux.GetNeighborTable`, `NeighDarwin.GetNeighborTable` and `NeighWindows.GetNeighborTable` stand for the `get_arp_table` that src-tauri/src/net/neigh/mod.rs calls.
- NeighDarwin: the `sysctl` call and its ENOMEM retry are not modelled. The routing dump is a parameter.
- NeighLinux: netlink `deserialize` is an oracle that says what the bytes of one message decode to. The 1 MiB `RECV_BUFSZ` receive buffer is not modelled, so a datagram is never truncated.
- NeighWindows: `FreeMibTable` and the raw table pointers are not modelled. The table comes in as its rows.
- SocketInfo: the `unwrap` of the OS socket listing, which panics when the listing fails, is not modelled. The listing is a parameter and is always present.
- DnsResolver: `DnsResolver::new` and `from_resolver` only wrap the library resolver and are not modelled. The library resolver is the `Resolver` oracle. TLSA and CERT certificate data come as their base64 text, and `to_utf8` of a TXT record comes as its text.
- Config: `AppConfig::load`, `AppConfig::save` and `LoggingConfig::new` are disk I/O and the logging defaults, and are not modelled. `LogLevel::to_level_filter` maps onto the tracing library's own type and is not modelled.
- SysOs: `os_info` and its `Display` text are parameters. An environment value that is not valid Unicode is modelled as unset, as `std::env::var` reports it through its error. The `anyhow` context chain of a failure is modelled by its outer message only.
- Strings: case mapping is ASCII only, and `trim` uses a table of the Unicode White_Space characters.
- SocketModel: the `SocketConnection` structs that no core operation uses are not modelled.
- SocketIcmp.OpenIcmpSocket: does not model failure of `socket.r#type()?` or `UdpSocket::from_std()?`, because the socket has just been created with the type asked for and the conversion fails only on resource exhaustion.
- PingModel.FromSamples: the average divides an unbounded sum. The source's `sum::<u64>()` in src-tauri/src/model/ping.rs overflows once the RTTs of the Done samples add up to 2^64 ms or more (a panic in debug builds, wrap-around in release builds), and the model does not capture that.
- RttStats.SummarizeRtts: sums without a bound. The source's `u128` accumulator cannot overflow for fewer than 2^64 RTTs, and the `as u64` of the mean does not truncate, because the mean lies between the minimum and the maximum.
- PingUdp.UdpProbe, PingUdp.UdpProbes, PingUdp.UdpPing: are built on the corrected `UdpSample` of "Findings", where a receive error is an Error sample without an RTT. The source as written counts a receive error as a Done reply with an RTT (`UdpSampleAsWritten`), and the drivers' statistics do not model that outcome.
- NeighDarwin.ReadRecord, NeighDarwin.GetNeighborTable: use the corrected `RecordAction` of "Findings", which skips a record whose `rtm_msglen` is below the 92-byte header. The source panics on such a record (`RecordActionAsWritten`), and the walk does not model the panic.
- PingHttp.HttpPing: returns the corrected `HttpUrl` of "Findings", which puts an IPv6 host in brackets. The source builds `http://::1:80/` instead (`HttpUrlAsWritten`). The two URLs agree for every host without a colon.
- PingUdp: the inline min/avg/max fold of `udp_ping_icmp_unreach` is modelled by the same `SummarizeRtts` as the other drivers, since it computes the same three values.
- HostScan: the source address of a probe is used only to build the packet, so it is not modelled. Two probes to the same target share one pending entry in the source, which is a matter of concurrent interleaving: the model gives each target its own entry.
- Lifecycle code. src-tauri/src/app.rs, log.rs, fs.rs, state.rs, service/ and command/ are not part of this model.

## Findings

| source | as written | input that shows it | evidently intended | confidence | as-written member | corrected member |
|---|---|---|---|---|---|---|
| src-tauri/src/probe/ping/udp.rs:111-125 | a receive error leaves the inner loop with `break`, and the surrounding `timeout(..).is_ok()` then counts the probe as answered | a probe whose `recv_from` fails before the deadline | a probe counts as answered only when a Port Unreachable from the destination arrived | not executed | PingUdp.UdpSampleAsWritten, PingUdp.RecvErrorCountsAsReply | PingUdp.UdpSample, PingUdp.UdpSampleReplied |
| src-tauri/src/net/neigh/os/darwin.rs:300-315 | the length guard only checks that the header fits, so a record with `rtm_msglen` below 92 reaches `buf[92..msglen]`, whose start is past its end, and the slice panics | a 92-byte dump whose one record has `rtm_msglen` 10, version 5 and errno 0 | a record too short for its header is skipped or rejected with an error | not executed | NeighDarwin.RecordActionAsWritten, NeighDarwin.ShortRecordSliceInverted | NeighDarwin.RecordAction, NeighDarwin.RecordActionAgrees |
| src-tauri/src/probe/ping/http.rs:61-66 | the URL is built as `http://{host}:{port}/` with the IP text as host, so an IPv6 literal is not bracketed | target `::1`, no hostname, port 80: the URL is `http://::1:80/` | IPv6 literals written as `[::1]` in the URL authority, as RFC 3986 section 3.2.2 requires | not executed | PingHttp.HttpUrlAsWritten, PingHttp.Ipv6UrlUnbracketed | PingHttp.HttpUrl, PingHttp.HttpUrlScheme |

# gclpr browser tunnel: a Dafny model and its proofs

gclpr lets a client open a browser on the server machine. In tunnel mode the browser's connections to a
loopback port of the server are carried, over one authenticated connection, to a service on the client's
loopback interface. This project models that tunnel and the code around it, and proves what it does in every
run, for every input.

| file | what it models |
|---|---|
| `Protocol.dfy` | the server half, the client half and the two frame channels as one transition system |
| `ProtocolInvariant.dfy`, `ProtocolPreserved.dfy` | its inductive invariant, stated one stream at a time, and its preservation |
| `TunnelTheorems.dfy`, `TunnelTermination.dfy`, `TunnelClosing.dfy` | what follows for every reachable state and every run |
| `Transport.dfy` | the accept, read and pipe loops as code over mutable state; what they do is a path of the transition system |
| `Frames.dfy`, `Codec.dfy`, `Wire.dfy`, `Channel.dfy` | length-prefixed frames, the MAC'd codec, many writers under one lock, and the three together |
| `Attach.dfy`, `SecConn.dfy` | the first-frame dispatcher with its replay, and signed requests |
| `Lifecycle.dfy` | sessions on the server: reservation, attach, timers, launch, close |
| `Targets.dfy` | from the URL to the bound listeners and the URL that is opened |
| `Callback.dfy` | detection of the OAuth callback request |
| `LineEndings.dfy`, `TrustedKeys.dfy`, `KeyGrip.dfy` | clipboard line endings, the trusted-keys file, the keygrip encoding |
| `Bytes.dfy`, `Options.dfy` | what the other files share |

## How to read the tunnel model

A state holds, for both sides, every stream ever seen (`End`: its goroutine, its map membership, its socket,
all bytes read from and written to that socket), the frame-reading loop, and whether the endpoint still
writes. A channel is the list of frames already taken by the reader plus the list in flight. A step
(`Action`) is one access to something shared: a map operation, a socket operation, a frame put on or taken
off a channel. The deferred `dropStream` of a pipe is two steps, so its socket can be seen open after it left
the map. Several accesses make one step in `closeSession`, in `closeAll`, in the reaction to a failed
announcement or forward (close the stream, close the session), in a write to a socket with its bookkeeping or
with the close after its failure, in the `dropStream` of a reader (which closed the socket before), and in
reading the callback flag, which is never reset, together with the `finish` that follows. Reads, dials, write failures (also after a part was written), link failures, timers and the
client's timeout are free choices of the environment. The goroutines are:

- one process per accepted browser connection on the server: allocate an id, register, announce, then pipe;
- one pipe per dialled connection on the client;
- one reading loop per side, which looks a stream up in one step and uses it in a later one;
- the keepalive.

`Reached(s)` means that some run leads from the state after attach to `s`. Everything about the tunnel is
stated for `Reached` states, or for all runs from them.

Functions of the operating system and of cryptography are parameters: a MAC is any function with 32 bytes of
output, signing any scheme in which what was signed verifies, a hash any function, binding any sequence of
answers in which a port asked for is the port given.

## Findings

- Keepalive pings do not keep a session alive: the server answers them without touching the idle timer
  (server/tunnel_transport.go:270-272; `Lifecycle.PingsDoNotKeepAlive`). `Lifecycle.PingedToTheEnd` follows a
  session that is pinged every second to its idle close.
- With `-oauth`, an authorization URL that is itself a loopback URL is rewritten in place of its
  `redirect_uri` (server/tunnel.go:369-373). Two things follow. If every requested port was taken, the
  callback leads nowhere, although the documentation promises a rewritten `redirect_uri`
  (`Targets.LoopbackLoginLosesCallback`). And the login page itself is sent to the callback's listener as soon
  as a fallback was used, or, for a page on `localhost`, if a single listener was bound, even with every port
  free (server/tunnel.go:400-412; `Targets.LoopbackLoginMoves`). `Targets.OAuthUrlReachable` has the exact
  condition for either.
- Callback detection depends on how a request was cut into frames (cmd/cli/tunnel_client.go:234-243), exactly
  if its first 8192 bytes and its first 8191 + 32768 bytes, the shortest and the longest part that a cut can
  leave in the buffer, give different answers (`Callback.SplittingIrrelevant`). `Callback.CutsDisagree` gives
  a request with a long header and two cuts of it, of which only one is detected. A request whose header is
  still longer is missed by every cut (`Callback.LongHeadersAreMissed`). All cuts give the answer of the whole
  request exactly if its first 8192 bytes do (`Callback.EveryCutIsRight`).
- `WriteFrame` does not check its input (util/frame.go:15-25), so only payloads within the limit read back
  (`Frames.ReadsBack`); the data frames of the tunnel never exceed it (`TunnelTheorems.DataFits`).
- The documentation names `localhost`, `127.0.0.1` and `::1` as tunnel hosts (README.md:220); the code takes
  every loopback address and every capitalisation of the name, with or without a trailing dot
  (server/tunnel.go:272-279), and so does the model.

## Model

| member | source | states |
|---|---|---|
| TunnelTheorems.BytesArriveInOrder | server/tunnel_transport.go:164-268 | in every reachable state, for every stream, what was written to either socket is an initial part of what was read from the other socket of the same stream, and the client dialled the address of the listener that accepted it |
| TunnelTheorems.HalfCloseIsComplete | cmd/cli/tunnel_client.go:248-253 | a socket's write side is shut only after every byte ever read at the other end was written to it, in both directions |
| TunnelTheorems.Conversations | server/tunnel_transport.go:164-221 | per stream the frames sent downstream are Open Data* (EOF or Close)?, those sent upstream Data* (EOF or Close)?, or a lone Close if the dial failed |
| TunnelTheorems.AtMostOneEnd | cmd/cli/tunnel_client.go:315-350 | neither side sends anything about a stream after its own terminal frame |
| TunnelTheorems.NeverOverwritten | cmd/cli/tunnel_client.go:300-313 | when the client registers a stream, it never saw that id before, and it dialled the address the server announced |
| TunnelTheorems.NoForeignFrame | server/tunnel_transport.go:276-280 | between two honest sides the server never reaches the unknown-frame branch that closes the session |
| TunnelTheorems.DataFits | server/tunnel_transport.go:192-203 | every data frame on either channel is non-empty and fits the pipe buffer |
| TunnelTheorems.ChannelsAreWires | server/tunnel_transport.go:69-108 | in every run the bytes of either channel parse, unseal and decode to exactly the frames sent, ending on a frame boundary, if the encoded addresses of the accepted connections fit a frame |
| TunnelTheorems.OpenNamesListener | server/tunnel_transport.go:171-178 | the only open frames on either channel are the server's, each with the address of an accepted connection |
| TunnelTheorems.FramesCarryBytes | server/tunnel_transport.go:190-221 | the frames of a pipe over any series of reads carry exactly the bytes read, and end the stream if and only if the pipe stopped |
| TunnelTheorems.ServerHasNoOrphans | server/tunnel_transport.go:255-312 | while the connection is up, a stream in the server's map has its Open on the way, or a running client pipe, or the client's end in flight or being handled, or was half-closed |
| TunnelTheorems.ClientHasNoOrphans | cmd/cli/tunnel_client.go:213-259 | the mirror statement for a stream in the client's map |
| TunnelTheorems.ClosedSessionHoldsNothing | server/tunnel_transport.go:156-183 | after a close the only open browser sockets belong to accept loops that raced with it or to pipes between the delete and the close of dropStream, and their own next steps close them |
| TunnelTheorems.ClosedSessionSettles | server/tunnel.go:82-105 | at rest after a close every browser socket ever registered is closed |
| TunnelTheorems.FinishedAfterAnswer | cmd/cli/tunnel_client.go:333-343 | the worker ends itself only after the browser sent a callback request and every byte of a non-empty answer was put on the channel |
| TunnelTheorems.DetectionIsExact | cmd/cli/tunnel_client.go:223-247 | in every reachable state the callback flag is the predicate on the request buffer, and the buffer is an initial part of the browser's bytes, complete below 8192 bytes |
| TunnelTheorems.RestIsSettled | server/tunnel_transport.go:190-283 | when neither side can move and the connection is up, nothing is in flight, every socket still open has been given every byte read at the other end, and the two maps differ only in half-closed streams |
| TunnelTheorems.ChunkGoesThrough | server/tunnel_transport.go:190-221 | for every chunk there is a run that carries it end to end and half-closes the local socket |
| TunnelTheorems.IdsDistinct | server/tunnel.go:456-458 | the first n stream ids are pairwise different if and only if n is at most 2^32 |
| TunnelTermination.QuietStepUsesWork | cmd/cli/tunnel_client.go:254-265 | every step that brings no new bytes, connection or tick decreases an explicit measure |
| TunnelTermination.QuietRunsEnd | server/tunnel_transport.go:262-275 | runs without new input are finite, with a bound: Close against Close, Ping against Pong and failed dials never echo for ever |
| TunnelTermination.ClosedSessionEnds | server/tunnel.go:82-105 | from any closed state every run of the two sides by themselves is bounded, and where it can go no further every browser socket ever accepted is closed |
| TunnelTermination.RestIsReached | server/tunnel_transport.go:190-283 | from every state the two sides by themselves can come to rest |
| TunnelClosing.DeadConnectionEnds | server/tunnel_transport.go:224-230 | however the connection dies, the two sides take only boundedly many more steps by themselves, and where they can go no further the session is closed, no browser socket is open and both reading loops have ended |
| TunnelClosing.DeadConnectionCloses | server/tunnel_transport.go:224-230 | in every reachable state in which nothing more can happen on a dead connection, the session and every browser socket are closed |
| TunnelClosing.ClosedExactlyBy | server/tunnel_transport.go:166-205 | the session is closed by its timers, a failed read of the peer, an unknown frame type or a failed write to the peer, and by nothing else; a close closes every socket in the map |
| TunnelClosing.FailedWriteCloses | server/tunnel_transport.go:178-207 | a failed announcement or forward closes its stream and the session and ends the goroutine |
| TunnelClosing.ClientCloseEmpties | cmd/cli/tunnel_client.go:408-419 | closeAll leaves no stream in the map, and open only the sockets of pipes in the middle of dropStream |
| TunnelClosing.AnsweredCallbackFinishes | cmd/cli/tunnel_client.go:333-343 | a callback that was seen and answered ends the worker and closes its endpoint |
| TunnelClosing.PingsAreAnswered | server/tunnel_transport.go:270-272 | in every run, on either side, the pings read are as many as the pongs sent plus the one being answered |
| TunnelClosing.TickPings | cmd/cli/tunnel_client.go:271-297 | a keepalive tick puts exactly one ping on a working channel and changes nothing else |
| ProtocolPreserved.StepKeeps | server/tunnel_transport.go:141-312 | every step of either side keeps the invariant of all streams |
| ProtocolPreserved.Reachable | cmd/cli/tunnel_client.go:202-419 | every state of every run satisfies the invariant |
| ProtocolPreserved.WriteClientLocal | cmd/cli/tunnel_client.go:228-247 | a write to the local socket, whole, failed or partial, keeps the invariant of its stream, including buffer and callback flag |
| ProtocolPreserved.EndSessionLocal | server/tunnel.go:235-250 | closing the session keeps the invariant of every stream |
| Transport.Half.ServeBrowser | server/tunnel_transport.go:164-186 | allocate, register and announce are exactly these steps of the transition system; a failed announcement leaves the stream in the map and ends its goroutine |
| Transport.Half.ReadFrame | server/tunnel_transport.go:223-283 | one turn of the reading loop of either side takes exactly the steps given by the frame, the lookup and the outcome of the dial or write, and consumes one frame |
| Transport.Half.OpenStream | cmd/cli/tunnel_client.go:300-313 | a dialled stream enters the map with a live socket and a running pipe, and nothing else changes |
| Transport.Half.Deliver | cmd/cli/tunnel_client.go:223-247 | the socket gets the bytes that were written, the request buffer and the flag follow, and after a failure the stream is closed and dropped |
| Transport.Half.CloseWrite | server/tunnel_transport.go:133-139 | handling EOF shuts the write side of a live socket only, and nothing else changes |
| Transport.Half.CloseStream | server/tunnel_transport.go:262-269 | handling Close closes the socket and removes the stream, in this order, and nothing else changes |
| Transport.Half.DropStream | server/tunnel_transport.go:301-312 | removes and closes the stream if it is in the map, else changes nothing |
| Transport.Half.Pipe | server/tunnel_transport.go:190-221 | over any series of reads the pipe takes exactly the specified steps, reads and forwards every byte up to the first end, error or failed write, sends the terminal frame of that end, and stops if and only if there is one, with the stream dropped |
| Transport.Half.SayGoodbye | cmd/cli/tunnel_client.go:333-347 | EOF after a clean end, else Close; the worker ends if and only if the end was clean, the callback was seen, the answer is not empty and it did not end before |
| Transport.Half.EndWorker | cmd/cli/tunnel_client.go:371-378 | finish takes effect at most once, for an answered callback only, and closes the endpoint |
| Transport.Half.CloseSession | server/tunnel.go:235-250 | only the first close has effects: every mapped socket is closed, the endpoint goes down |
| Transport.Half.CloseAll | cmd/cli/tunnel_client.go:408-419 | closes every mapped socket and empties the map |
| Frames.ReadsBack | util/frame.go:15-43 | a written frame is read back, whatever follows it, if and only if it is within the size limit |
| Frames.ParseIsFraming | util/frame.go:29-43 | whatever is read is the one encoding of the frame plus the rest |
| Frames.AllReadBack | util/frame.go:15-43 | a list of frames reads back in order, whatever follows |
| Frames.EncodingIsInjective | util/frame.go:15-25 | different lists of frames have different encodings |
| Frames.ReadingAccountsForAll | util/frame.go:29-43 | every stream is the encoding of the frames read from it plus a rest that explains the failure |
| Frames.CleanEofIsBoundary | util/frame.go:31-33 | bare io.EOF ends a stream if and only if it stops on a frame boundary |
| Frames.Source.ReadFull | util/frame.go:29-43 | full reads over any chunking consume exactly what they return |
| Frames.Source.ReadFrame | util/frame.go:29-43 | reading from any chunking gives the parse of the bytes and leaves the rest |
| Frames.Source.ReadFrames | util/frame.go:29-43 | reading all frames depends on the bytes only, not on the chunks |
| Frames.Sink.WriteFrame | util/frame.go:15-25 | header and payload are written, or a proper part of the frame if the connection fails |
| Codec.UnsealSealed | server/tunnel_transport.go:69-108 | what one side seals, the other side opens to the same type, id and payload |
| Codec.SealedBytes | server/tunnel_transport.go:69-86 | a sealed frame is type, id and payload followed by the MAC of all three |
| Codec.OpensExactly | server/tunnel_transport.go:88-101 | a payload opens if and only if it has at least 37 bytes and its last 32 are the MAC of everything before them |
| Codec.OtherKeyRefuses | cmd/cli/tunnel_client.go:84-104 | under another key a sealed frame is refused unless both keys give its body the same MAC |
| Codec.OnlySealedOpens | cmd/cli/tunnel_client.go:84-104 | a payload opens if and only if some frame was sealed to it under the same key |
| Codec.WireCarriesFrames | cmd/cli/tunnel_client.go:69-104 | a sequence of protocol frames survives encoding, sealing, framing and back |
| Codec.TypeNumbers | server/tunnel_transport.go:19-36 | the numbers of the frame types, and that the id is the stream's |
| Codec.LawfulJsonExists | server/tunnel_transport.go:43-45 | an invertible address encoding with bounded growth exists, so the assumption on JSON can be met |
| Codec.Endpoint.WriteFrame | server/tunnel_transport.go:69-86 | the buffer filled field by field, with the MAC of all of it, is framed onto the connection |
| Codec.Endpoint.ReadFrame | server/tunnel_transport.go:88-108 | succeeds exactly on a frame whose last 32 bytes are the MAC of the rest, and returns it |
| Codec.Endpoint.Close | server/tunnel_transport.go:59-67 | the first close closes the connection, which takes no byte afterwards; a second one does not reach it |
| Wire.WireIsWholeFrames | server/tunnel_transport.go:59-86 | for any interleaving of writers, failures and closes the wire is the frames written, each writer's in its own order and none missing while healthy, plus at most the part of one frame, that of the lock holder or of the failed write; the reader gets exactly those frames, and a close on a healthy connection never cuts one |
| Wire.RunKeeps | cmd/cli/tunnel_client.go:59-82 | the shape of the wire and the order of the writers are kept by every run |
| Wire.NothingAfterClose | server/tunnel_transport.go:59-86 | in every run, once close has taken the lock no byte gets onto the wire and no call succeeds |
| Channel.DecodedInterleaving | server/tunnel_transport.go:59-108 | for any number of writers, interleaving, failures and closes, the frames that the other side decodes are an interleaving of initial parts of what the writers sent, each in its own order, none that was finished missing while healthy |
| Attach.Transparent | server/server.go:161-188 | a connection not taken by the tunnel reaches RPC byte for byte as sent |
| Attach.TakenExactly | server/server.go:182-209 | a session gets its peer if and only if the stream starts with an attach frame sealed under its key and naming it, and the endpoint continues right behind that frame |
| Attach.VerdictOnFrame | server/server.go:174-209 | the verdict on every first frame by its bytes alone: RPC unless it is of type attach and long enough, dropped if it names no session, taken if its last 32 bytes are the MAC of the rest under that session's key, else refused |
| Attach.VerdictWithoutFrame | server/server.go:161-180 | a connection without a first frame is dropped, or left to RPC if the length is out of bounds |
| Attach.AttachIsNotRpc | server/server.go:182-209 | an attach frame under any key never reaches RPC: it is taken or refused by the session it names, or the connection is dropped if there is none |
| Attach.PeekIsDecoded | server/server.go:189-204 | the session id that was peeked is the one decoded after the MAC check |
| Attach.AppendFrame | server/server.go:231-239 | the replay buffer is the frame that was read |
| Attach.Peek | server/server.go:161-171 | looking ahead consumes nothing, over any chunking |
| Attach.Accept | server/server.go:161-209 | the dispatching code on any chunking takes the decision of the specification and hands on the right reader |
| SecConn.DeliveredExactly | server/server.go:50-80 | a trusted client's request is delivered unchanged if and only if the server is unlocked and the request is not empty |
| SecConn.DeliveredOnlyVouched | server/server.go:50-80 | whoever wrote it, an input is delivered if and only if the server is unlocked, magic and major version match and it opens under the listed key it names |
| SecConn.StreamOnlyVouched | server/server.go:37-81 | everything a connection delivers was opened under a listed key, in order, up to the first frame that is not |
| SecConn.DeliveredWasSigned | server/server.go:74-80 | with an unforgeable scheme, everything delivered was signed with the secret half of a listed key |
| SecConn.SignedEndToEnd | cmd/cli/main_cli.go:215-222 | any series of non-empty requests passes the dispatcher as RPC, whatever sessions exist, and is delivered in order and unchanged |
| SecConn.LawfulSchemeExists | server/server.go:50-80 | the assumptions on signing and hashing can be met |
| SecConn.Write | cmd/cli/main_cli.go:215-222 | one frame of magic, key hash and signed payload |
| SecConn.Read | server/server.go:37-81 | succeeds if and only if the server is unlocked and can vouch for the frame; the caller's buffer then gets the whole payload if and only if it is large enough, though the full length is always reported |
| Lifecycle.StepKeeps | server/tunnel.go:156-250 | every step keeps the invariant of sessions, timers, listeners and connections |
| Lifecycle.ListenersConserved | server/tunnel.go:82-105 | the open listeners are exactly those of the sessions in the map, each owned by one session |
| Lifecycle.SessionSafety | server/server.go:210-228 | the browser is launched at most once and exactly if a peer attached, ready implies peer, no frame is written without a peer, close effects happen exactly once |
| Lifecycle.OnlyAttachLaunches | server/server.go:195-226 | in every run a launched browser goes back to a valid attach that named the session while it was listed, before which there was no launch, no peer, no frame written and no connection past its wait |
| Lifecycle.NoStreamBeforeAttach | server/tunnel_transport.go:156-183 | a connection is registered or announced only for a session with a peer |
| Lifecycle.TimersBite | server/tunnel.go:205-212 | a live session is never older than its attach timeout without a peer and never idle beyond its idle timeout |
| Lifecycle.TimersAreExact | server/tunnel.go:113-134 | the idle timer can fire on a live session exactly at its deadline after the last touch, the attach timer exactly at its deadline and only without a peer |
| Lifecycle.TouchKeepsAlive | server/tunnel_transport.go:236-263 | after traffic of the peer, an accepted connection or the attach, in every run, the idle timer cannot fire before the idle timeout has passed |
| Lifecycle.ReservationTimers | server/tunnel.go:156-212 | in every run from an Open, the attach timer fires exactly at the timeout asked for or at 10 seconds, the untouched idle timer at its timeout or at 30 |
| Lifecycle.OpenReserves | server/tunnel.go:156-203 | Open reserves its listeners if and only if it has a target, a bound listener and a 32-byte key; else nothing changes |
| Lifecycle.ClosedExactlyBy | server/tunnel.go:205-250 | a session ends by an explicit close, its timers, an unknown frame, a read failure, an invalid attach or a failed launch, and by nothing else; its timers are then stopped |
| Lifecycle.CloseIsFinal | server/tunnel.go:235-250 | in every run a closed session stays closed: no second close, no launch, no peer, no frame |
| Lifecycle.FirstAttach | server/server.go:210-228 | the first valid attach gives the peer, stops the attach timer and launches once; if the launch fails the session and its listeners are closed |
| Lifecycle.WrittenExactlyBy | server/tunnel_transport.go:178-183 | frames go to the peer of a listed session only, for announcements and pings |
| Lifecycle.WaitingEnds | server/tunnel_transport.go:156-163 | a waiting connection goes on once there is a peer, is dropped once the session is closed, and else waits |
| Lifecycle.PingsDoNotKeepAlive | server/tunnel_transport.go:270-272 | in every run in which no attach, traffic or connection of a session happens, whatever else happens on the server, pings on it included, the session is closed once its idle deadline has passed |
| Lifecycle.PingedToTheEnd | server/tunnel_transport.go:270-272 | for every idle timeout, the state of a session pinged every second since its attach is reachable up to the deadline, where the idle timer closes it and time cannot go on |
| Lifecycle.Tunnel.Open | server/tunnel.go:156-233 | reserves exactly the bound listeners, or fails and leaves everything as it was, also when the key is refused after binding |
| Lifecycle.Tunnel.CloseListeners | server/tunnel.go:92-94 | closes exactly the given listeners |
| Lifecycle.Tunnel.CloseSession | server/tunnel.go:235-250 | removes a listed session with its listeners and timers, once |
| Lifecycle.Tunnel.Touch | server/tunnel.go:125-134 | restarts the idle timer and changes nothing else |
| Lifecycle.Tunnel.TakePeer | server/server.go:217-220 | peer, ready signal, touch and launch flag of the first valid attach |
| Lifecycle.Tunnel.Attach | server/server.go:195-229 | attach from the lookup on, in all its outcomes; the browser is launched exactly for the first valid attach |
| Targets.TunnelUrlReachable | server/tunnel.go:359-389 | for targets built from a loopback URL and any pattern of binds with one success, the opened URL leads to a bound listener and differs in host and port only |
| Targets.OAuthUrlReachable | server/tunnel.go:359-412 | the redirect_uri of the opened URL leads to a bound listener if and only if the outer URL is not loopback or some listener got the requested port; the outer authority survives if and only if the outer URL is not loopback, or neither a fallback nor a single listener for localhost asks for a rewrite, or it already names the first listener; scheme, path and other parameters are unchanged |
| Targets.LoopbackLoginLosesCallback | server/tunnel.go:369-373 | a concrete loopback login page whose callback is lost |
| Targets.LoopbackLoginMoves | server/tunnel.go:400-412 | a concrete loopback login page that is sent to the callback's listener although every port was free |
| Targets.TunnelStandsFor | cmd/cli/tunnel_targets.go:12-49 | every listener bound for a tunnel URL has an address of its host and dials the named port: for `localhost` at the listener's own address, for any other spelling at the host as written |
| Targets.TargetsExactly | cmd/cli/tunnel_targets.go:12-49 | there are targets for exactly the loopback http and https URLs without a port or with one from 1 to 65535 |
| Targets.DefaultPorts | cmd/cli/tunnel_targets.go:34-49 | a URL or redirect_uri without a port has the targets of the same with 80 for http and 443 for https |
| Targets.FreePortsServeAll | server/tunnel.go:300-357 | with every port free, every address a browser may try for the URL is served at its port, and the URL is opened unchanged |
| Targets.FreePortsServeCallback | server/tunnel.go:300-388 | the same for a redirect_uri, which then stays unchanged |
| Targets.RefusalIsNoConflict | server/tunnel.go:342-357 | an address whose port is refused for another reason than a conflict is not bound to a random port |
| Targets.OAuthStandsFor | cmd/cli/oauth_targets.go:13-36 | the same for the redirect_uri, dialled at 127.0.0.1 if it named localhost |
| Targets.BindListeners | server/tunnel.go:300-340 | the nested binding loops give, in order, what each address could bind, and fail only if that is nothing |
| Targets.BindTarget | server/tunnel.go:321-332 | the inner loop over the addresses of one target, with the fallback to a random port |
| Callback.DetectionGrows | cmd/cli/tunnel_client.go:400-406 | a detected request stays detected when more bytes follow |
| Callback.TheseAreNot | cmd/cli/tunnel_client.go:400-406 | requests without code, without state, with another method or with an unfinished header are not taken for callbacks |
| Callback.GrantedIsCallback | cmd/cli/tunnel_client.go:400-406 | a granted redirect is taken for a callback |
| Callback.BufferBounds | cmd/cli/tunnel_client.go:234-243 | the buffer is an initial part of the delivered bytes and holds at least their first 8192 |
| Callback.SplittingIrrelevant | cmd/cli/tunnel_client.go:223-247 | all cuts of a request into frames that a pipe can send give the same answer if and only if the shortest and the longest part that a cut can leave in the buffer do |
| Callback.EveryCutIsRight | cmd/cli/tunnel_client.go:223-247 | every such cut gives the answer of the whole request if and only if the first 8192 bytes give it |
| Callback.CutsDisagree | cmd/cli/tunnel_client.go:234-243 | a concrete request and two such cuts of it, of which only one is detected |
| Callback.MissedByEveryCut | cmd/cli/tunnel_client.go:234-243 | no cut of a request is detected if and only if its first 8191 + 32768 bytes are not |
| Callback.LongHeadersAreMissed | cmd/cli/tunnel_client.go:234-247 | callback requests with a header longer than any buffer are detected by no cut |
| Callback.Detect | cmd/cli/tunnel_client.go:234-247 | after any series of frames the flag equals the predicate on the buffer |
| LineEndings.PassesAreScan | server/helpers.go:8-21 | the chained replacements equal one left-to-right scan |
| LineEndings.ConvertLEExactly | server/helpers.go:8-21 | lf and crlf, in any capitalisation, give every line that end; any other name changes nothing |
| LineEndings.LinesAreKept | server/helpers.go:8-21 | whatever the ends were, the lines of the result are the lines of the text |
| LineEndings.ConvertNormalises | server/helpers.go:8-21 | LF output has no CR, CRLF output only whole pairs and at most twice the length; LF conversion changes exactly the texts with a CR |
| LineEndings.ConvertAbsorbs | server/helpers.go:8-21 | both modes are idempotent and each absorbs the other applied first |
| TrustedKeys.ReadTrusted | util/keys.go:117-147 | the map is the valid keys of the file filed under their hashes |
| TrustedKeys.ParseLine | util/keys.go:119-141 | a line yields a key if and only if it is, trimmed, 64 hex digits |
| TrustedKeys.DecodeHex | util/keys.go:128-133 | decodes exactly the even-length hex strings |
| TrustedKeys.FiledExactly | util/keys.go:139-146 | each entry is filed under its own hash and the hashes are those of the valid keys |
| TrustedKeys.OnlyTheSetMatters | util/keys.go:142-145 | without hash collisions, order and duplicates do not change the map |
| TrustedKeys.EndingsDoNotMatter | util/keys.go:118-119 | LF, CR and CRLF files hold exactly the keys of their lines, with or without a last line ending |
| TrustedKeys.NoiseDoesNotMatter | util/keys.go:120-137 | lines without a key can stand anywhere without effect |
| TrustedKeys.OnlyNoiseIsIgnored | util/keys.go:120-137 | a line can be put anywhere into a file without changing its keys if and only if it is blank, a comment, or not 64 hex digits |
| TrustedKeys.KeysReadBack | util/keys.go:117-147 | a file that lists keys, in either case and with any line ending, holds exactly these keys in order |
| TrustedKeys.DigitExactly | util/keys.go:128-133 | the hex digits are the sixteen in either case, with their places as values |
| TrustedKeys.PaddingDoesNotMatter | util/keys.go:119-119 | ASCII white space around a line does not matter |
| TrustedKeys.UnicodeIndent | util/keys.go:119-119 | of the characters with two or three bytes, a line may be indented with exactly the Unicode spaces |
| KeyGrip.SexpInjective | util/keys.go:181-192 | different lists of parts have different encodings |
| KeyGrip.PartsReadBack | util/keys.go:181-192 | an independent reader gets back exactly the parts, name before value, from every encoding |
| KeyGrip.Compute | util/keys.go:181-192 | the loop hashes the encoding of all parts |
| KeyGrip.BignumToBytes | util/keys.go:158-173 | the buffer loops right-align the number, or keep its leading bytes if it does not fit |
| KeyGrip.ValueKeptExactly | util/keys.go:164-172 | the numeric value is kept if and only if the bytes fit or the number is zero |

## Left out

- Real sockets, net/rpc, gob, JSON text, the clipboard and browser libraries: sockets are byte scripts with failures, dialling, binding and launching are outcomes chosen by the environment, JSON is any invertible encoding.
- The mathematics of HMAC, SHA-256, SHA-1 and Ed25519: functions known by output length and by verification of what was signed.
- URL and IP address text: URLs are records, loopback hosts a small type; `ParseOpenURI` and the blocked schemes are not part of this model.
- Liveness of blocked TCP writes, and goroutine scheduling fairness: runs are finite sequences of steps in any order.
- `Open`, `closeSession` and `attach` from the lookup on are one step each in `Lifecycle.dfy`, `closeSession` and the client's `closeAll` also in `Protocol.dfy`; their finer interleavings are not modelled.
- The server's `closed` channel and log counters (`bytesIn`, `bytesOut` beyond zero or not), byte summaries and close reasons: bookkeeping without effect on the rest.
- Key generation and key files, permission checks, the detached OAuth worker process, command-line flags, the tray application, the GUI: plumbing or one-branch facts.
- Transport.Half.ReadFrame: shows the loops run without interference; the steps that it and the other loops take are steps of `Protocol.dfy`, which has the interleavings.
- TunnelTheorems.ChannelsAreWires: assumes that the encoded dial addresses of the accepted connections fit a frame (16 MiB less 37 bytes), as `WriteFrame` does not check it.
- TunnelTheorems.IdsDistinct: beyond 2^32 connections in one session ids repeat; the transition system stops accepting there.

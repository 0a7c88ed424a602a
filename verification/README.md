# A verified model of ioproxy

ioproxy receives data on one IO and forwards it to others. Every IO is managed by a `Handler`, an
`Engine` holds the handlers and connects them, and a command line says which IOs and which
connections there are. This project models that logic in Dafny and proves what it does over all
networks, all argument lists, all parameter sets and all runs.

Qt is modelled by its small contract: a connection inside one thread is a nested call, made in
connection order with duplicates kept; `m_io->disconnect(this)` removes every connection from the IO
to its handler; `QMultiMap::values` gives the newest value first; a single-shot timer is an event
waiting to happen.

| file | what it holds |
|---|---|
| `Routing.dfy` | one emission of `newData` as a walk over the connection graph: when it returns, which calls it makes, in which order, how often |
| `HandlerState.dfy` | a handler as a value: state, notifications, ledgers, connections |
| `EngineState.dfy` | the engine as a value, the events that change it, and the theorems about runs of events |
| `Delivery.dfy` | one delivery step by step, as a small machine: what holds at each moment, and when it ends |
| `Proxy.dfy` | the classes `Handler` and `Engine`, proved against the three files above |
| `CmdLine.dfy`, `CmdLineGroups.dfy` | the cursor loop of the command line parser, the recursive parser it refines, interleavings, the canonical command line |
| `Parameters.dfy`, `Factories.dfy`, `Udp.dfy` | the parameter multimap, checked lookup, the UDP pairing loop, from arguments to UDP targets |
| `TcpClient.dfy`, `TcpServer.dfy` | the reconnecting client and the server, each together with its handler, over all runs |
| `ByteGenerator.dfy` | the rate arithmetic and the timer chains |
| `Application.dfy` | from the arguments to a started engine |
| `Deployment.dfy` | what an argument list decides: whether the start ends, its UDP sockets, where its packets go |

Code that works step by step is a class or a loop here too, and is proved against a function on
values; the theorems are about those functions. An `Engine` object carries the list of events that
happened to it, and `Valid` says that it is in the state that list leads to, so that every theorem
about runs holds of every engine object.

What the proofs bring out about the code:

- A delivery ends exactly if no chain of started, relaying echo handlers from the source comes back
  to itself (`Routing.TerminatesExactly`). Nothing in `addConnection` prevents such a chain: an echo
  can be connected to itself (`EngineState.EchoLoopNeverReturns`).
- A handler that was stopped once never relays again, because only its constructor connects `newData`
  and `stop` disconnects everything (`EngineState.RelayUntilFirstStop`).
- `UdpSocketIOFactory::create` runs on for ever if neither `remote_address` nor `remote_port` is given
  (`Udp.CommandLineEndsExactly`), and with it the start of the application
  (`Deployment.SocketAloneStartsExactly`). The repository's README.md shows such a command as its example for a
  plain receiver, and its example with two addresses and one port is rejected.
- After an error the TCP client reconnects but its handler stays failed and accepts no write
  (`TcpClient.FailedWritesNothing`). Exactly if a reconnect is pending at a stop, a socket can be
  opened after it (`TcpClient.NoSocketAfterStopExactly`).
- A generator stopped and started again within one tick emits at twice the rate
  (`ByteGenerator.RestartDoublesTheRate`); it keeps its rate exactly if all chains of timers but one
  have ended while it was stopped (`ByteGenerator.RateKeptExactly`).

Where the repository's README.md and its code disagree (parameter names `max_clients` and
`broadcast_clients`, the default of `reconnect`), the model follows the code.

## Model

| member | source | states |
|---|---|---|
| Routing.TerminatesExactly | src/ioproxy/Handler.cpp:80-115 | for any multigraph of connections the nested delivery returns if and only if no chain of Started, still relaying echo handlers reachable from the source meets a handler twice, and then within as many nested emissions as there are handlers |
| Routing.CallsAreThePathsInOrder | src/ioproxy/Engine.cpp:116 | the i-th writeData call of an emission is made on the end of the i-th connection path; the paths are all there are, each once, parallel connections apart, in lexicographic order of the connections taken, so the calls are the pre-order depth-first walk in registration order |
| Routing.CallsCountPaths | src/echo-plugin/EchoIO.cpp:22-25 | a handler's writeData is called exactly as often as there are connection paths to it whose inner handlers forward |
| Routing.WalkDepth | src/ioproxy/Handler.cpp:111-115 | the calls made do not depend on the bound used to define them |
| EngineState.LedgersCountPaths | src/ioproxy/Handler.cpp:80-88 | after an emission each Started handler has written packet length times its path count more and read that much more if it relays an echo; a handler that is not Started is unchanged; the source has read the packet once more |
| Delivery.DebtWhileOnStack | src/ioproxy/Handler.cpp:80-115 | on every run of the delivery machine from a source without EchoIO whose relays cannot come back, at each moment (entry and return of each writeData and onNewData, return of the IO, each booking) a relaying echo handler has read exactly the packet length more than it wrote if its own delivery is under way, and as much as it wrote otherwise |
| Delivery.NextConsistent | src/ioproxy/Handler.cpp:80-115 | every single step of the machine keeps the balance of the deliveries under way and the shape of their stack |
| Delivery.TraceUnique | src/ioproxy/Handler.cpp:80-115 | from one moment there is only one run to the end, so a recorded run is fixed by where it starts |
| Delivery.EndsExactly | src/ioproxy/Handler.cpp:80-115 | the machine comes to an end from what a handler's IO emits if and only if no chain of relays from there meets a handler twice |
| Delivery.CompleteRun | src/ioproxy/Handler.cpp:80-115 | any run of the machine that ends enters writeData exactly as the depth-first walk says and leaves the handlers as the emission does |
| EngineState.SummaryOfEmission | src/ioproxy/Engine.cpp:120-129 | one emission adds to the summary the packet length for the source's read, for every call that meets a Started handler and for every packet an echo gave back |
| EngineState.RunSound | src/ioproxy/Engine.cpp:93-149 | at every state of every run each handler has one set of control connections exactly while the engine is started, has written the total of what it handed to its IO, and, if it relays an echo, has read as much as it wrote; connections lead to handlers that exist |
| EngineState.StepSound | src/ioproxy/Engine.cpp:93-149 | every single event keeps these invariants |
| EngineState.RelayUntilFirstStop | src/ioproxy/Handler.cpp:8-13 | in every run a handler relays its IO's data if and only if the engine was not stopped since it was added |
| EngineState.StoppedReadsFrozen | src/ioproxy/Handler.cpp:71-78 | what a once stopped handler has read stays the same in every continuation, restarts included |
| EngineState.HandlersFollowCalls | src/ioproxy/Engine.cpp:93-149 | in every run of the engine a handler's state, message, notifications and wiring are what its own starts, stops and signals make of a new handler: the start of a running engine, a later start or stop, a signal of its own IO and nothing else |
| EngineState.EngineSaysLast | src/ioproxy/Handler.cpp:90-109 | so in every run each handler has the state and message of the last signal its IO had delivered |
| EngineState.ReadsOfRun | src/ioproxy/Handler.cpp:111-115 | in every run a handler has read exactly what its IO gave to an intact relay: its own emissions and, for an echo, the packet once for each call that reached it while Started |
| EngineState.SummaryOfRun | src/ioproxy/Engine.cpp:120-129 | over every run both sums start at 0 and grow with the emissions of relaying handlers alone, by the counted bytes |
| EngineState.EchoLoopNeverReturns | src/ioproxy/Engine.cpp:93-140 | for any two names that differ, the run that adds an echo and a source, connects the source to the echo and the echo to itself and starts is accepted throughout, and then what the source emits returns at no depth of nesting |
| EngineState.SinkOrder | src/ioproxy/Engine.cpp:116 | in every run a handler's IO is handed all copies of an earlier emission before any copy of a later one, and each emission contributes as many copies as it makes calls to that handler |
| HandlerState.RunNotifiesExactlyChanges | src/ioproxy/Handler.cpp:30-109 | over any run of starts, stops and signals, each signal delivered once for every set of control connections there is, stateChanged and errorMessageChanged are emitted once for each pair of different neighbouring values |
| HandlerState.RepeatedStartsChangeNothing | src/ioproxy/Handler.cpp:63-109 | over any such run a handler has the state, message and notification counts that it has if every signal is delivered once where there is a connection, so repeated starts change nothing |
| HandlerState.UnconnectedRaise | src/ioproxy/Handler.cpp:71-78 | without control connections no signal of the IO changes a handler's state, message or notifications |
| HandlerState.DuplicatesAreOne | src/ioproxy/Handler.cpp:90-109 | k deliveries of one signal leave what one delivery leaves |
| HandlerState.RunSaysLast | src/ioproxy/Handler.cpp:63-109 | over any run of starts, stops and signals the handler is Started without a message exactly if the last signal delivered was started, otherwise Failed with that signal's message, and Stopped if there was none; a stop changes neither state nor message |
| HandlerState.RunKeepsLedgers | src/ioproxy/Handler.cpp:63-78 | starts, stops and signals leave both ledgers and the connections to other handlers, and the relay goes with the first stop |
| Proxy.Handler.constructor | src/ioproxy/Handler.cpp:8-13 | a new handler is Stopped, with empty ledgers, relaying, unconnected |
| Proxy.Handler.RaiseSignal | src/ioproxy/Handler.cpp:65-67 | a control signal of the IO is delivered once for each connection made by start; with any, the handler has the state and message of that signal, with none it is unchanged |
| Proxy.Handler.Start | src/ioproxy/Handler.cpp:63-69 | adds one set of control connections and then delivers what the IO emits while starting, so that the last of these signals decides state and message |
| Proxy.Handler.WriteData | src/ioproxy/Handler.cpp:80-88 | goes through exactly the moments of the machine from its entry with the handlers as they are to its return with the handlers as it leaves them; the calls are those of the walk, in order, and every ledger is as those calls say |
| Proxy.Handler.IoWriteData | src/echo-plugin/EchoIO.cpp:22-25 | an echo IO whose relay is intact emits the packet before it returns, and any other IO emits nothing: the moments are those of the machine up to the return of the IO, before the booking |
| Proxy.Handler.OnNewData | src/ioproxy/Handler.cpp:111-115 | books the read before the nested calls and then makes those of the walk over its connections, through exactly the moments of the machine from its entry to its return |
| Proxy.Handler.EmitNewData | src/ioproxy/Engine.cpp:116 | calls writeData of every connected handler in connection order, through exactly the moments of the machine from the booking to the return |
| Proxy.Handler.HandOver | src/ioproxy/Handler.cpp:85-87 | on a Started handler, hands the packet to the IO and then books it: the ledgers are those of one more call in front of the nested ones |
| Proxy.Handler.ConnectTo | src/ioproxy/Engine.cpp:116 | appends one connection, duplicates kept |
| Proxy.Engine.AddIO | src/ioproxy/Engine.cpp:93-102 | appends a handler, started exactly if the engine is |
| Proxy.Engine.AddConnection | src/ioproxy/Engine.cpp:104-118 | connects the first handlers matching the two names, or reports the first unknown name, source first, and changes nothing |
| Proxy.Engine.GetIOHandler | src/ioproxy/Engine.cpp:151-161 | the first handler whose name matches under case folding, none if there is none |
| Proxy.Engine.StatisticSummary | src/ioproxy/Engine.cpp:120-129 | the sums of the two ledgers over all handlers |
| Proxy.Engine.Start | src/ioproxy/Engine.cpp:131-140 | starts every handler unless already started |
| Proxy.Engine.Stop | src/ioproxy/Engine.cpp:142-149 | stops every handler, started or not |
| Proxy.Engine.IoSignal | src/ioproxy/Handler.cpp:90-109 | a later control signal reaches its handler once for each control connection, leaving its state and message if there is any, and no other handler |
| Proxy.Engine.IoNewData | src/ioproxy/Handler.cpp:111-115 | if no relay chain has a cycle, an emission returns, makes the calls of the depth-first walk, and leaves the engine in the state of the delivery; for an intact relay it goes through the complete run of the machine from the handlers as they were to the handlers as they are, at every moment of which every relaying echo handler owes exactly the packet if its delivery is under way, and nothing otherwise |
| CmdLine.CmdLineConfig.Next | src/ioproxy-cli/src/CmdLineConfig.cpp:93-102 | takes one argument off the rest, or fails with an empty value and a cursor that stays |
| CmdLine.CmdLineConfig.FromArguments | src/ioproxy-cli/src/CmdLineConfig.cpp:10-81 | the cursor loop refines the recursive parser for every argument list and every earlier state of the object: IO list, connections, cursor and error, including what is kept after an error |
| CmdLineGroups.PrintParses | src/ioproxy-cli/src/CmdLineConfig.cpp:27-80 | for every accepted argument list, the canonical command line of the result is parsed to the same IOs, multimaps and connections, whatever types, ids and values look like |
| CmdLineGroups.ParseIsClean | src/ioproxy-cli/src/CmdLineConfig.cpp:47-77 | everything the parser produces has sorted multimaps, keys without an equals sign and trimmed names without a comma |
| CmdLineGroups.ParsingCommutesWithInterleaving | src/ioproxy-cli/src/CmdLineConfig.cpp:10-81 | for a program name followed by any interleaving of IO groups with well-formed connections, the IO list is that of the groups alone and the connection list that of the connections alone, in order |
| CmdLineGroups.AcceptedIsRecognised | src/ioproxy-cli/src/CmdLineConfig.cpp:27-80 | parsing any accepted argument list, stray arguments included, is applying the options recognised in it, in order |
| CmdLineGroups.ArgumentListIsRecognised | src/ioproxy-cli/src/CmdLineConfig.cpp:27-80 | in a program name followed by options, exactly these options are recognised |
| CmdLineGroups.ParsedIos | src/ioproxy-cli/src/CmdLineConfig.cpp:31-62 | every accepted argument list gives one IO for each -io, the n-th with its type, with the last -name or -id up to the next -io as its name, or none, and with the -p options up to there as its multimap |
| CmdLineGroups.ParsedConnections | src/ioproxy-cli/src/CmdLineConfig.cpp:63-77 | every accepted argument list gives the connections its -connect options stand for, in order |
| CmdLineGroups.StrayIsSkipped | src/ioproxy-cli/src/CmdLineConfig.cpp:27-46 | an argument in the place of a flag that is none, or an option of an IO before the first -io, is skipped alone |
| CmdLineGroups.FlagAtEnd | src/ioproxy-cli/src/CmdLineConfig.cpp:31-68 | a flag at the end without argument is skipped, but -connect is an error, which drops the IO being read and keeps what was complete |
| CmdLineGroups.BadConnection | src/ioproxy-cli/src/CmdLineConfig.cpp:70-75 | a -connect that is no connection ends the parsing with an error at that argument |
| CmdLineGroups.EntryExactly | src/ioproxy-cli/src/CmdLineConfig.cpp:53-61 | a key alone stands for the text true, otherwise the value is what follows the first equals sign |
| CmdLineGroups.ConnectionExactly | src/ioproxy-cli/src/CmdLineConfig.cpp:70-76 | a -connect argument is accepted if and only if it is two names without commas, with commas between them and perhaps around them, and stands for the two, trimmed |
| CmdLineGroups.TrimmedExactly | src/ioproxy-cli/src/CmdLineConfig.cpp:76 | trimming takes the spaces at both ends away and nothing else |
| CmdLineGroups.GroupInList | src/ioproxy-cli/src/CmdLineConfig.cpp:31-62 | in a composed list the group of an IO is the -io with the options written after it, wherever it stands |
| CmdLineGroups.ConnectionRoundTrip | src/ioproxy-cli/src/CmdLineConfig.cpp:70-76 | a connection written with a blank for an empty name is read back |
| CmdLineGroups.EntryRoundTrip | src/ioproxy-cli/src/CmdLineConfig.cpp:53-61 | a key and a value joined by an equals sign are read back, whatever the value contains |
| Parameters.InsertIsNewest | src/ioproxy-cli/src/CmdLineConfig.cpp:53-61 | an insertion puts its value in front of the older ones of its key and touches no other key |
| Parameters.ValuesNewestFirst | src/ioproxy/io/IOFactoryBase.cpp:33-38 | the values of a key come in reverse order of insertion |
| Factories.BuiltInIOFactory.AddParaDef | src/ioproxy/io/IOFactoryBase.cpp:3-7 | appends the definition and keeps the table of the definitions registered last |
| Factories.BuiltInIOFactory.CheckRequiredParameters | src/ioproxy/io/IOFactoryBase.cpp:9-20 | succeeds exactly if every required key is there, and otherwise names the first that is missing |
| Factories.LookupSucceedsExactly | src/ioproxy/io/IOFactoryBase.cpp:22-39 | the comparison made in unsigned arithmetic agrees with the mathematical one: the value at the index, or the missing index, and for absent keys the default, or the missing key, whatever the index |
| Factories.CheckedNeverThrows | src/ioproxy/io/IOFactoryBase.cpp:3-39 | after a successful check the lookup at index 0 of any registered key succeeds with the newest value or the default of the definition registered last |
| Udp.PairingExactly | src/ioproxy/io/UdpSocketIO.cpp:299-315 | for every multimap and every number of iterations, where the pairing loop is and with which pairs: it ends with m pairs if m > 0 and n = 0 or n >= m, with an error otherwise if n > 0, and never if m = n = 0 |
| Udp.EndsExactly | src/ioproxy/io/UdpSocketIO.cpp:301-315 | the loop ends if and only if an address or a port was given |
| Udp.UdpSocketIOFactory.constructor | src/ioproxy/io/UdpSocketIO.cpp:224-282 | registers the seven definitions, the multi parameters with the default inherited from bind_port |
| Udp.UdpSocketIOFactory.ValueIsThere | src/ioproxy/io/UdpSocketIO.cpp:296-297 | every lookup `create` makes for a single parameter finds its definition and a value |
| Udp.UdpSocketIOFactory.RemoteAddresses | src/ioproxy/io/UdpSocketIO.cpp:299-315 | wherever the loop ends: success with every address paired with the port of its position, or the position of the first address without a port |
| Udp.UdpSocketIOFactory.Create | src/ioproxy/io/UdpSocketIO.cpp:289-321 | no lookup throws, the options are the newest values or the defaults, and creation fails exactly if an address has no port |
| Udp.AgreesWithLegacyExactly | legacy/Factory.cpp:81-92 | where the current loop accepts, it returns the legacy loop's targets exactly if every port used fits 16 bits or is a multiple of 65536 |
| Udp.LegacyRemoteAddresses | legacy/Factory.cpp:81-92 | the bounded loop returns one target for each address, with port 0 where ports run out |
| Udp.UdpSocketIO.WriteData | src/ioproxy/io/UdpSocketIO.cpp:137-167 | nothing unless bound; if the first target is multicast one datagram to its address at the bind port, otherwise one to each target in order; every result is added to the statistic, negative ones too |
| Udp.SumIsAdditive | src/ioproxy/io/UdpSocketIO.cpp:164 | the statistic adds up whatever the writes return |
| Udp.ArgumentsToTargets | src/ioproxy-cli/src/CmdLineConfig.cpp:53-61 | from any accepted argument list to the targets of any of its IOs: as many ports as addresses give exactly the i-th address text with the i-th port text as a number modulo 65536, in reverse order |
| Udp.TargetsFromTexts | src/ioproxy/io/UdpSocketIO.cpp:299-315 | for any accepted argument list and any number of ports: the last address comes first, each with the port that stands as far from the end, or with port 0 if none was given |
| Udp.OptionsFromTexts | src/ioproxy/io/UdpSocketIO.cpp:296-321 | bind address, bind port, echo, multicast ttl and loopback of any IO of any accepted list are read from the last text given for their key, or have their defaults |
| Udp.SendsTo | src/ioproxy/io/UdpSocketIO.cpp:144-176 | a multicast socket of an argument list sends each packet once, to its last remote_address at its bind_port, any other to all its targets |
| Udp.LegacyFromTexts | legacy/Factory.cpp:81-92 | the legacy target of an address has the port of the same position, or 0 if that does not fit 16 bits or is missing |
| Udp.LastAddressDecidesMulticast | src/ioproxy/io/UdpSocketIO.cpp:169-172 | for any IO of any accepted argument list whose parameters are accepted, multicast mode is chosen if and only if its last remote_address on the command line is multicast |
| Udp.CommandLineEndsExactly | src/ioproxy/io/UdpSocketIO.cpp:299-315 | for any IO of any accepted argument list, the factory's loop ends if and only if one of its -p options gives remote_address or remote_port |
| TcpClient.TcpSocketIO.Start | src/ioproxy/io/TcpSocketIO.cpp:21-25 | afterwards there is one socket, a new one, which alone is connected to the IO, and every earlier one is destroyed; started is emitted |
| TcpClient.TcpSocketIO.Stop | src/ioproxy/io/TcpSocketIO.cpp:27-35 | afterwards there is no socket and no connection, and as many sockets are destroyed as were ever made |
| TcpClient.TcpSocketIO.ConnectToRemote | src/ioproxy/io/TcpSocketIO.cpp:65-74 | whatever was there before, exactly the new socket is live and connected and all earlier ones are destroyed |
| TcpClient.TcpSocketIO.WriteData | src/ioproxy/io/TcpSocketIO.cpp:37-63 | a connected socket is handed exactly the packet, otherwise nothing is; the statistic grows by the packet if the write took all of it and else not at all; an error is raised exactly for a short write on a connected socket |
| TcpClient.TcpSocketIO.OnSocketReadyRead | src/ioproxy/io/TcpSocketIO.cpp:101-109 | books every chunk and emits it as data, in order |
| TcpClient.ReconnectAccounting | src/ioproxy/io/TcpSocketIO.cpp:27-115 | in every run at most one socket is live, exactly the live one is connected to the IO, starts plus timer firings sockets were created and all but the live one destroyed, and the timers pending are the errors not retried yet |
| TcpClient.StoppedMeansNoSocket | src/ioproxy/io/TcpSocketIO.cpp:27-35 | after a stop with no timer pending there is no socket and none is made until the next start |
| TcpClient.NoSocketAfterStopExactly | src/ioproxy/io/TcpSocketIO.cpp:27-115 | for every run: no continuation without a start has a socket after a stop, if and only if no reconnect is pending at the stop |
| TcpClient.PendingReconnectMeansFailed | src/ioproxy/io/TcpSocketIO.cpp:89-99 | in every run with at most one start a pending reconnect means that the handler is Failed |
| TcpClient.PendingMeansFailedExactly | src/ioproxy/io/TcpSocketIO.cpp:89-115 | for every run: at every moment a pending reconnect means that the handler is Failed, if and only if no start happens while a reconnect is pending |
| TcpClient.StartedExactly | src/ioproxy/Handler.cpp:90-109 | in every run the handler is Started if and only if there was a start and no error was delivered since the last one |
| TcpClient.ClientSaysLast | src/ioproxy/Handler.cpp:90-109 | in every run state and message are those of the last signal delivered, an error text kept word for word |
| TcpClient.FailedWritesNothing | src/ioproxy/Handler.cpp:80-88 | once the handler is Failed, and until a start, it books no write and no byte is handed to a socket, however many reconnects succeed |
| TcpClient.LedgersOfAClient | src/ioproxy/Handler.cpp:80-115 | reads are relayed in any state until the first stop; bytes written by the socket are at most those handed to it, and those at most what the handler booked |
| TcpClient.LedgersExactly | src/ioproxy/io/TcpSocketIO.cpp:37-63 | in every run the bytes handed to sockets and the bytes booked are the sums over the writes that met a Started handler and a connected socket, the latter over those taken whole; the handler booked every write that met it Started; reads are summed, for the handler until the first stop |
| TcpServer.TcpServerIO.OnServerNewConnection | src/ioproxy/io/TcpServerIO.cpp:78-105 | a pending connection ends up in the list or is reported, never both, and it is reported exactly if the list is full; no socket is ever listed twice |
| TcpServer.TcpServerIO.Broadcast | src/ioproxy/io/TcpServerIO.cpp:113-121 | writes to every socket but the sender, in list order, going on after errors |
| TcpServer.TcpServerIO.WriteData | src/ioproxy/io/TcpServerIO.cpp:50-56 | writes to every socket in list order, going on after errors |
| TcpServer.TcpServerIO.OnSocketReadyRead | src/ioproxy/io/TcpServerIO.cpp:107-125 | books what was read and, if broadcasting, first writes it to every other socket |
| TcpServer.TcpServerIO.OnSocketDisconnected | src/ioproxy/io/TcpServerIO.cpp:136-141 | the list loses exactly one entry of the socket, is without it afterwards, and keeps the order of the others |
| TcpServer.WithoutIs | src/ioproxy/io/TcpServerIO.cpp:136-141 | removing a socket from a list without duplicates removes exactly it |
| TcpServer.ServerLedgerBound | src/ioproxy/io/TcpServerIO.cpp:38-141 | at every state of every run, accept and socket errors and stops included, no socket is listed twice, there are at most max(0, maxConnections), and the bytes written are at most maxConnections times the handler's plus, when broadcasting, maxConnections - 1 times the bytes read and once more those read from sockets no longer listed |
| TcpServer.ReadsUntilFirstStop | src/ioproxy/Handler.cpp:71-115 | in every run the handler relays if and only if it was never stopped, and until then it has read exactly what the sockets delivered |
| TcpServer.BookedExactly | src/ioproxy/io/TcpServerIO.cpp:50-71 | writing to the listed sockets books the packet once for each socket that takes all of it |
| TcpServer.WritesInOrder | src/ioproxy/io/TcpServerIO.cpp:50-71 | writing to a list is writing to its parts one after another, bytes and errors alike |
| TcpServer.WriteToOne | src/ioproxy/io/TcpServerIO.cpp:58-71 | one socket books the packet if it takes all of it, and otherwise its own error is raised and nothing booked |
| TcpServer.OthersAreTheRest | src/ioproxy/io/TcpServerIO.cpp:113-121 | a broadcast goes to the list without the sender, in order |
| TcpServer.LedgersExactly | src/ioproxy/io/TcpServerIO.cpp:50-125 | in every run the bytes booked, read and relayed and the packets accepted are exactly the sums over its writes and reads |
| TcpServer.ServerSaysLast | src/ioproxy/Handler.cpp:90-109 | in every run state and message are those of the last signal delivered: the outcome of the last start, or the last error since |
| TcpServer.StartedExactly | src/ioproxy/io/TcpServerIO.cpp:23-36 | the server's handler is Started if and only if its last start listened and no error was delivered since |
| ByteGenerator.TenTicksReachTheRate | src/ioproxy/io/ByteGenerator/ByteGeneratorIO.cpp:13-14 | rounding up twice is rounding up once; ten ticks emit at least the rate and less than ten packets more, with the least packet count that does |
| ByteGenerator.ByteGeneratorIO.constructor | src/ioproxy/io/ByteGenerator/ByteGeneratorIO.cpp:6-15 | ten ticks of the packets per tick it chooses reach the rate and exceed it by less than ten packets |
| ByteGenerator.ByteGeneratorIO.Next | src/ioproxy/io/ByteGenerator/ByteGeneratorIO.cpp:32-45 | while running emits the packets of one tick and schedules the next, otherwise does nothing |
| ByteGenerator.TimerChains | src/ioproxy/io/ByteGenerator/ByteGeneratorIO.cpp:17-45 | in every run the pending timers are the starts minus the firings seen while stopped, and the packets are k times the starts plus the firings seen while running |
| ByteGenerator.StoppedDrains | src/ioproxy/io/ByteGenerator/ByteGeneratorIO.cpp:24-36 | after a stop without a later start nothing is emitted and each firing removes a pending timer |
| ByteGenerator.TenTicksOfEachChain | src/ioproxy/io/ByteGenerator/ByteGeneratorIO.cpp:40-44 | ten ticks of each of c timer chains emit at least c times the rate and less than c times the rate plus ten packets |
| ByteGenerator.OneChainExactly | src/ioproxy/io/ByteGenerator/ByteGeneratorIO.cpp:40-44 | with c > 0 timer chains the rate is kept, reached and exceeded by less than ten packets, if and only if c = 1 or the rate is 0 |
| ByteGenerator.RateKeptExactly | src/ioproxy/io/ByteGenerator/ByteGeneratorIO.cpp:17-45 | for every run that ends running, the next ten ticks of its chains keep the rate if and only if the starts are one more than the firings seen while stopped, or the rate is 0 |
| ByteGenerator.RestartDoublesTheRate | src/ioproxy/io/ByteGenerator/ByteGeneratorIO.cpp:17-45 | start, stop, start within one tick is a run at which the rate is not kept but at least doubled |
| Application.ConsoleApplication.Start | src/ioproxy-cli/src/IOProxyConsoleApplication.cpp:40-159 | where every create it gets to returns, it succeeds exactly if the arguments parse, every IO can be made and every connection name is known, and then the engine has the IOs, the connections and one start, in that order; after an error it was not started, and the error is that of the parser, of the first IO that cannot be made, or the first unknown name of a connection |
| Application.BootedNetwork | src/ioproxy-cli/src/IOProxyConsoleApplication.cpp:112-153 | the started engine has one relaying handler for each -io, in order, with one set of control connections, and each handler's targets are those of the -connect options that name it, in their order |
| Deployment.UdpCreationIsTheLoop | src/ioproxy/io/UdpSocketIO.cpp:299-315 | the three outcomes of udpsocket's create are those of its loop: it returns an IO, an error or not at all exactly if the loop ends with all pairs, ends with a missing port or never ends |
| Deployment.CreateUdp | src/ioproxy/io/UdpSocketIO.cpp:289-321 | the factory as it runs has that outcome wherever it returns |
| Deployment.UdpIoExactly | src/ioproxy/io/UdpSocketIO.cpp:289-321 | the n-th IO of an argument list, if it is a udpsocket, can be made if and only if its -p options give an address and no port or as many ports as addresses, and its create returns if and only if they give an address or a port |
| Deployment.StartReturnsExactly | src/ioproxy-cli/src/IOProxyConsoleApplication.cpp:112-136 | when the other factories return, the start of any argument list comes to an end if and only if every udpsocket it gets to was given a remote_address or a remote_port |
| Deployment.SocketAloneStartsExactly | src/ioproxy/io/UdpSocketIO.cpp:299-315 | for a program name and one udpsocket with any -p options, the start comes to an end if and only if one of them gives remote_address or remote_port, so not for the plain receiver the documentation shows |
| Deployment.UdpHandler | src/ioproxy-cli/src/IOProxyConsoleApplication.cpp:112-153 | in the started engine the handler of a udpsocket is the one its argument list describes: started by the IO made with its options, whose targets are the intended pairs in reverse order, and connected as the -connect options say |
| Deployment.DescribedEndsExactly | src/ioproxy/Handler.cpp:80-115 | a delivery in the network of a command line ends if and only if its -connect options lead along no chain of echo IOs from the source that meets one of them twice |
| Deployment.FirstPacket | src/ioproxy-cli/src/IOProxyConsoleApplication.cpp:138-153 | right after the start this is so for the engine itself, and the first packet is handed to a Started handler once for each path of connections to it on which all inner handlers have echo IOs, and to no other |

## Left out

- Udp.UdpSocketIOFactory.RemoteAddresses: requires that an address or a port is given, which is exactly the condition under which the loop ends (`Udp.EndsExactly`); the endless case is stated on iterations.
- Udp.UdpSocketIOFactory.Create: the same condition, for the same reason.
- Application.ConsoleApplication.Start: requires that every `create` it gets to returns, which is exactly the condition under which it returns itself; for udpsocket the condition is read off the arguments (`Deployment.StartReturnsExactly`).
- Deployment.CreateUdp: requires the condition under which the loop ends, like the factory it calls.
- Proxy.Engine.IoNewData: requires that no relay chain from the source has a cycle, which is exactly the condition under which the nested calls return (`Routing.TerminatesExactly`).
- Real sockets, serial ports, files, DNS, multicast joins and interface lookup: results of writes and reads are parameters, socket events are environment steps.
- Handler states are fixed during one routed delivery: an IO that fails inside the `writeData` of a delivery is modelled for the TCP client and server alone, not inside the network.
- newData emitted by an IO inside its own `start` (the byte generator) is not interleaved with `Engine::start`; it is an event of its own.
- `TcpServerIO::start` beyond its two outcomes, and of `TcpServerIO::stop` everything but its net effect, an empty list: aborting a socket inside the loop over the list may re-enter the IO.
- Address parsing, number parsing and case folding are parameters; strings are sequences of characters, and keys are ordered by character, not by UTF-16 unit.
- How message texts are put together (they are parameters); logging; timestamps; the order in which errorMessageChanged and stateChanged follow each other within one slot.
- 64-bit counter overflow and floating-point rounding: ledgers are integers and the two ceilings are over rationals; a packet size of 0 is outside the generator model.
- Containers are assumed to hold at most 2^31 - 1 entries, as their int size demands.
- `registerIOFactory`, plugin loading, signal handlers, ConsoleStatusPrinter, HumanReadableFormatter: single branches or foreign code with only easy claims.
- WebSocketIO and WebSocketServerIO repeat the structure of the TCP client and server with less of it filled in.
- The rest of `legacy/` is not built or duplicates the core.

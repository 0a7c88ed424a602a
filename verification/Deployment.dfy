/**
  What an argument list alone decides about the application it starts: whether the start comes to an
  end, which UDP sockets it makes, and where the packets of its IOs go.
*/
module Deployment {
  import opened Application
  import opened CmdLine
  import opened CmdLineGroups
  import opened EngineState
  import opened Parameters
  import opened Routing
  import opened Sequences
  import opened Udp
  import opened Wrappers
  import BuiltIn = Factories
  import HandlerState

  // ---------------------------------------------------------------------------------------------
  // UDP sockets
  // ---------------------------------------------------------------------------------------------

  const UDP := "udpsocket"

  /** The signals that a socket made with given options emits while it starts, and the text for a
      position without a port. */
  datatype Outside<!A> = Outside(
    conv: Conversions<A>, script: Options<A> -> seq<HandlerState.Control>, message: nat -> string)

  /** What `UdpSocketIOFactory::create` comes to. */
  function UdpCreation<A>(x: Outside<A>, params: Params): Creation
  {
    if Addresses(params) == 0 && Ports(params) == 0 then Endless
    else if EveryAddressHasPort(params) then Made(x.script(OptionsFor(x.conv, params)))
    else Refused(x.message(Ports(params)))
  }

  /** It is what the pairing loop does: a socket if the loop ends with all pairs, an error if it ends
      with an address without port, and no return if it never ends. */
  lemma {:induction false} UdpCreationIsTheLoop<A>(x: Outside<A>, params: Params)
    requires |params| <= BuiltIn.INT_MAX
    ensures UdpCreation(x, params).Endless? <==> forall k: nat :: Iterate(x.conv, params, k).Running?
    ensures UdpCreation(x, params).Made? <==> exists k: nat :: Iterate(x.conv, params, k).Paired?
    ensures UdpCreation(x, params).Refused? <==> exists k: nat :: Iterate(x.conv, params, k).MissingPort?
  {
    EndsExactly(x.conv, params);
    forall k: nat
      ensures Iterate(x.conv, params, k).Paired? ==> UdpCreation(x, params).Made?
      ensures Iterate(x.conv, params, k).MissingPort? ==> UdpCreation(x, params).Refused?
    {
      PairingExactly(x.conv, params, k);
    }
    if !UdpCreation(x, params).Endless? {
      PairingExactly(x.conv, params, Limit(params) + 1);
    }
  }

  /** The factory as it runs, where it returns. */
  method CreateUdp<A>(factory: UdpSocketIOFactory<A>, x: Outside<A>, params: Params) returns (c: Creation)
    requires factory.Valid() && factory.conv == x.conv && |params| <= BuiltIn.INT_MAX
    requires !UdpCreation(x, params).Endless?
    ensures c == UdpCreation(x, params)
  {
    var r := factory.Create(params);
    match r
    case Success(options) => return Made(x.script(options));
    case Failure(position) => return Refused(x.message(position));
  }

  ghost predicate UdpRegistered<A(!new)>(x: Outside<A>, factories: Application.Factories)
  {
    && UDP in factories && !factories[UDP].echo
    && forall params :: |params| <= BuiltIn.INT_MAX ==> factories[UDP].create(params) == UdpCreation(x, params)
  }

  ghost predicate OthersReturn(factories: Application.Factories)
  {
    forall kind, params :: kind in factories && kind != UDP ==> !factories[kind].create(params).Endless?
  }

  /** Enough ports for the addresses, or none at all. */
  predicate PairsUp(es: seq<Entry>)
  {
    var m, n := |Given(es, REMOTE_ADDRESS.key)|, |Given(es, REMOTE_PORT.key)|;
    m > 0 && (n == 0 || n >= m)
  }

  predicate Readable(args: seq<string>)
  {
    args != [] && Parse(args, NOTHING).error == None && |args| <= BuiltIn.INT_MAX
  }

  /** What becomes of the n-th IO of an argument list, if it is a UDP socket. */
  lemma {:induction false} UdpIoExactly<A(!new)>(
    x: Outside<A>, factories: Application.Factories, args: seq<string>, n: nat)
    requires Readable(args) && n < IosIn(args) && UdpRegistered(x, factories)
    ensures |Parse(args, NOTHING).state.ios| == IosIn(args)
    ensures var io, es := Parse(args, NOTHING).state.ios[n], OptionsOf(args, n);
            io.kind == UDP ==>
              && (Creatable(io, factories) <==> PairsUp(es))
              && (CreateReturns(io, factories) <==> NamesRemote(es))
              && factories[UDP].create(io.parameters) == UdpCreation(x, io.parameters)
  {
    var es := OptionsOf(args, n);
    ParsedParameters(args, n);
    EntriesFit(args, false, n);
    RemoteIsThere(es);
    ParametersNewestFirst(es);
    ReversedAt(Given(es, REMOTE_ADDRESS.key));
    ReversedAt(Given(es, REMOTE_PORT.key));
  }

  /** When the other factories return, the start of any argument list comes to an end if and only if
      every UDP socket it gets to was given a remote_address or a remote_port. */
  lemma {:induction false} StartReturnsExactly<A(!new)>(
    x: Outside<A>, factories: Application.Factories, args: seq<string>)
    requires Readable(args) && UdpRegistered(x, factories) && OthersReturn(factories)
    ensures |Parse(args, NOTHING).state.ios| == IosIn(args)
    ensures var ios := Parse(args, NOTHING).state.ios;
            StartReturns(ios, factories) <==>
              forall n :: 0 <= n < |ios| && ios[n].kind == UDP && AllCreatable(ios[..n], factories) ==>
                NamesRemote(OptionsOf(args, n))
  {
    ParsedIos(args);
    var ios := Parse(args, NOTHING).state.ios;
    forall n | 0 <= n < |ios|
      ensures CreateReturns(ios[n], factories) <==> (ios[n].kind == UDP ==> NamesRemote(OptionsOf(args, n)))
    {
      UdpIoExactly(x, factories, args, n);
    }
  }

  /** Such a factory can be registered next to any others. */
  lemma UdpCanBeRegistered<A(!new)>(x: Outside<A>, others: Application.Factories)
    ensures UdpRegistered(x, others[UDP := Factory(false, params => UdpCreation(x, params))])
  {
  }

  function ParameterItems(raws: seq<string>): (r: seq<Item>)
    ensures |r| == |raws| && forall i :: 0 <= i < |r| ==> r[i] == ParameterItem(raws[i])
  {
    seq(|raws|, i requires 0 <= i < |raws| => ParameterItem(raws[i]))
  }

  /** One udpsocket with some parameters. */
  function SocketAlone(prog: string, raws: seq<string>): seq<string>
  {
    ArgumentList(prog, [IoItem(UDP)] + ParameterItems(raws))
  }

  lemma {:induction false} ParameterEntries(raws: seq<string>)
    ensures Grouped(ParameterItems(raws), true)
    ensures |Entries(ParameterItems(raws))| == |raws|
    ensures forall i :: 0 <= i < |raws| ==> Entries(ParameterItems(raws))[i] == EntryOf(raws[i])
    decreases |raws|
  {
    if raws != [] {
      ParameterEntries(raws[1..]);
      assert ParameterItems(raws)[1..] == ParameterItems(raws[1..]);
      assert forall i :: 0 < i < |raws| ==> raws[i] == raws[1..][i - 1];
    }
  }

  lemma {:induction false} SocketAloneIs(prog: string, raws: seq<string>)
    requires IsProgramName(prog)
    ensures Parse(SocketAlone(prog, raws), NOTHING).error == None
    ensures Recognised(SocketAlone(prog, raws), false) == [IoItem(UDP)] + ParameterItems(raws)
    ensures IosIn(SocketAlone(prog, raws)) == 1
    ensures GroupAt(Recognised(SocketAlone(prog, raws), false), 0) == [IoItem(UDP)] + ParameterItems(raws)
  {
    var options := ParameterItems(raws);
    var items := [IoItem(UDP)] + options;
    assert items[1..] == options;
    ParameterEntries(raws);
    ParseArgumentList(prog, items);
    ArgumentListIsRecognised(prog, items);
    GroupInList([], UDP, options, []);
    assert [] + ([IoItem(UDP)] + (options + [])) == items;
    NoMoreIos(options);
  }

  lemma {:induction false} NoMoreIos(options: seq<Item>)
    requires forall i :: 0 <= i < |options| ==> !options[i].IoItem?
    ensures IoCount(options) == 0
    decreases |options|
  {
    if options != [] { NoMoreIos(options[1..]); }
  }

  lemma {:induction false} SocketAloneOptions(prog: string, raws: seq<string>)
    requires IsProgramName(prog)
    ensures IosIn(SocketAlone(prog, raws)) == 1
    ensures NamesRemote(OptionsOf(SocketAlone(prog, raws), 0)) <==>
            exists i :: 0 <= i < |raws| && EntryOf(raws[i]).key in {"remote_address", "remote_port"}
  {
    SocketAloneIs(prog, raws);
    ParameterEntries(raws);
    var options := ParameterItems(raws);
    assert ([IoItem(UDP)] + options)[1..] == options;
    assert OptionsOf(SocketAlone(prog, raws), 0) == Entries(options);
  }

  lemma {:induction false} OneSocket<A(!new)>(x: Outside<A>, factories: Application.Factories, args: seq<string>)
    requires Readable(args) && UdpRegistered(x, factories) && IosIn(args) == 1
    requires GroupAt(Recognised(args, false), 0)[0] == IoItem(UDP)
    ensures StartReturns(Parse(args, NOTHING).state.ios, factories) <==> NamesRemote(OptionsOf(args, 0))
  {
    UdpIoExactly(x, factories, args, 0);
    ParsedIos(args);
    var ios := Parse(args, NOTHING).state.ios;
    assert ios[..0] == [] && ios[0].kind == UDP;
  }

  /** The start of one udpsocket with any -p options comes to an end if and only if one of them gives a
      remote address or port. */
  lemma {:induction false} SocketAloneStartsExactly<A(!new)>(
    x: Outside<A>, factories: Application.Factories, prog: string, raws: seq<string>)
    requires UdpRegistered(x, factories) && IsProgramName(prog) && |SocketAlone(prog, raws)| <= BuiltIn.INT_MAX
    ensures Readable(SocketAlone(prog, raws))
    ensures StartReturns(Parse(SocketAlone(prog, raws), NOTHING).state.ios, factories) <==>
            exists i :: 0 <= i < |raws| && EntryOf(raws[i]).key in {"remote_address", "remote_port"}
  {
    SocketAloneIs(prog, raws);
    SocketAloneOptions(prog, raws);
    OneSocket(x, factories, SocketAlone(prog, raws));
  }

  /** A started UDP socket of an argument list: its handler is started by the IO made with the options
      the list gives it, and connected as the list says.  With as many ports as addresses the IO's
      targets are the intended pairs, in reverse order. */
  lemma {:induction false} UdpHandler<A(!new)>(
    fold: string -> string, x: Outside<A>, factories: Application.Factories, args: seq<string>, n: nat)
    requires Readable(args) && n < IosIn(args) && UdpRegistered(x, factories)
    requires Acceptable(fold, Parse(args, NOTHING).state, factories)
    ensures |Parse(args, NOTHING).state.ios| == IosIn(args)
         == |Booted(fold, Parse(args, NOTHING).state, factories).hs|
    ensures var config := Parse(args, NOTHING).state;
            var io, h := config.ios[n], Booted(fold, config, factories).hs[n];
            io.kind == UDP ==>
              && PairsUp(OptionsOf(args, n)) && EveryAddressHasPort(io.parameters)
              && h == HandlerState.Start(
                        HandlerState.Created(io.id, false).(
                          outs := TargetsOf(fold, Handlers(config.ios, factories), config.connections, n)),
                        x.script(OptionsFor(x.conv, io.parameters)))
              && var addresses := Given(OptionsOf(args, n), REMOTE_ADDRESS.key);
                 var ports := Given(OptionsOf(args, n), REMOTE_PORT.key);
                 |addresses| == |ports| ==>
                   OptionsFor(x.conv, io.parameters).remoteAddresses == Reversed(PairUp(x.conv, addresses, ports))
  {
    var config, es := Parse(args, NOTHING).state, OptionsOf(args, n);
    UdpIoExactly(x, factories, args, n);
    if |Given(es, REMOTE_ADDRESS.key)| == |Given(es, REMOTE_PORT.key)| > 0 {
      ArgumentsToTargets(x.conv, args, n);
    }
    BootedHandler(fold, config, factories, n);
  }

  // ---------------------------------------------------------------------------------------------
  // Where packets go
  // ---------------------------------------------------------------------------------------------

  /** One of the connections leads from handler `u` to handler `v`. */
  predicate Leads(fold: string -> string, hs: seq<HandlerState.View>, cs: seq<(string, string)>, u: nat, v: nat)
  {
    exists k :: 0 <= k < |cs| && Find(fold, hs, cs[k].0) == Some(u) && Find(fold, hs, cs[k].1) == Some(v)
  }

  lemma {:induction false} TargetsAreLed(
    fold: string -> string, hs: seq<HandlerState.View>, cs: seq<(string, string)>, u: nat, v: nat)
    requires Resolvable(fold, hs, cs)
    ensures v in TargetsOf(fold, hs, cs, u) <==> Leads(fold, hs, cs, u, v)
    decreases |cs|
  {
    if cs != [] {
      var before := cs[..|cs| - 1];
      TargetsAreLed(fold, hs, before, u, v);
      assert forall k :: 0 <= k < |before| ==> before[k] == cs[k];
    }
  }

  /** A chain of echo IOs that the -connect options lead along, from handler `i` on. */
  ghost predicate EchoChain(
    fold: string -> string, config: Parsed, factories: Application.Factories, i: nat, c: seq<nat>)
  {
    var hs := Handlers(config.ios, factories);
    forall k :: 0 <= k < |c| ==>
      && c[k] < |config.ios| && IsEcho(config.ios[c[k]], factories)
      && Leads(fold, hs, config.connections, if k == 0 then i else c[k - 1], c[k])
  }

  /** No such chain meets an IO twice. */
  ghost predicate NoEchoCycle(fold: string -> string, config: Parsed, factories: Application.Factories, i: nat)
  {
    forall c: seq<nat> :: EchoChain(fold, config, factories, i, c) ==> Distinct(c)
  }

  /** The network is the one the options describe: exactly the echo IOs forward, and the targets are
      those of the connections. */
  ghost predicate Describes(fold: string -> string, config: Parsed, factories: Application.Factories, net: Network)
  {
    && |net| == |config.ios|
    && (forall v: nat :: Forwards(net, v) <==> v < |config.ios| && IsEcho(config.ios[v], factories))
    && (forall u: nat, v: nat :: u < |net| ==>
         (v in net[u].outs <==> Leads(fold, Handlers(config.ios, factories), config.connections, u, v)))
  }

  lemma {:induction false} BootedIsDescribed(fold: string -> string, config: Parsed, factories: Application.Factories)
    requires Acceptable(fold, config, factories)
    ensures Describes(fold, config, factories, Topology(Booted(fold, config, factories).hs))
  {
    var net := Topology(Booted(fold, config, factories).hs);
    BootedNetwork(fold, config, factories);
    forall v: nat
      ensures Forwards(net, v) <==> v < |config.ios| && IsEcho(config.ios[v], factories)
    {
      if v < |config.ios| && IsEcho(config.ios[v], factories) { EchoesForward(fold, config, factories, v); }
    }
    forall u: nat, v: nat | u < |net|
      ensures v in net[u].outs <==> Leads(fold, Handlers(config.ios, factories), config.connections, u, v)
    {
      TargetsAreLed(fold, Handlers(config.ios, factories), config.connections, u, v);
    }
  }

  /** An EchoIO emits started while it starts. */
  lemma {:induction false} EchoesForward(
    fold: string -> string, config: Parsed, factories: Application.Factories, v: nat)
    requires Acceptable(fold, config, factories)
    requires v < |config.ios| && IsEcho(config.ios[v], factories)
    ensures Forwards(Topology(Booted(fold, config, factories).hs), v)
  {
    BootedHandler(fold, config, factories, v);
    StartedByIo(HandlerState.Created(config.ios[v].id, true).status);
  }

  lemma StartedByIo(s: HandlerState.Status)
    ensures HandlerState.Raise(s, [HandlerState.IoStarted], 1).state == HandlerState.Started
  {
    assert HandlerState.ReceiveTimes(s, HandlerState.IoStarted, 1) == HandlerState.Receive(
      HandlerState.ReceiveTimes(s, HandlerState.IoStarted, 0), HandlerState.IoStarted);
  }

  lemma {:induction false} ChainsOfOptions(
    fold: string -> string, config: Parsed, factories: Application.Factories, net: Network, i: nat, c: seq<nat>)
    requires Describes(fold, config, factories, net) && i < |net|
    ensures Chain(net, net[i].outs, c) <==> EchoChain(fold, config, factories, i, c)
  {
    if Chain(net, net[i].outs, c) {
      forall k | 0 <= k < |c|
        ensures c[k] < |config.ios| && IsEcho(config.ios[c[k]], factories)
        ensures Leads(fold, Handlers(config.ios, factories), config.connections, if k == 0 then i else c[k - 1], c[k])
      {
        var u := if k == 0 then i else c[k - 1];
        assert Forwards(net, c[k]) && u < |net| && c[k] in net[u].outs;
      }
    }
    if EchoChain(fold, config, factories, i, c) {
      forall k | 0 <= k < |c|
        ensures Forwards(net, c[k])
      {
        assert IsEcho(config.ios[c[k]], factories);
      }
      forall k | 0 <= k < |c|
        ensures k == 0 ==> c[k] in net[i].outs
        ensures k > 0 ==> c[k] in net[c[k - 1]].outs
      {
        assert Leads(fold, Handlers(config.ios, factories), config.connections, if k == 0 then i else c[k - 1], c[k]);
      }
      assert c != [] ==> c[0] in net[i].outs;
    }
  }

  /** In a described network a delivery from IO `i` ends if and only if the -connect options lead along
      no chain of echo IOs from it that meets one of them twice. */
  lemma {:induction false} DescribedEndsExactly(
    fold: string -> string, config: Parsed, factories: Application.Factories, net: Network, i: nat)
    requires Describes(fold, config, factories, net) && i < |net|
    ensures NoCycleFrom(net, net[i].outs) <==> NoEchoCycle(fold, config, factories, i)
    ensures (exists depth: nat :: Returns(net, depth, net[i].outs)) <==> NoEchoCycle(fold, config, factories, i)
  {
    forall c: seq<nat>
      ensures Chain(net, net[i].outs, c) <==> EchoChain(fold, config, factories, i, c)
    {
      ChainsOfOptions(fold, config, factories, net, i, c);
    }
    TerminatesExactly(net, net[i].outs);
  }

  /** Right after the start, what IO `i` emits is delivered in finitely many calls exactly if the options
      have no such chain from it, and then its first packet is handed to handler `v` once for each path
      of connections from `i` to `v` on which every handler before `v` has an echo IO. */
  lemma {:induction false} FirstPacket(
    fold: string -> string, config: Parsed, factories: Application.Factories, i: nat, p: HandlerState.Packet, v: nat)
    returns (paths: set<seq<nat>>)
    requires Acceptable(fold, config, factories) && i < |config.ios| && v < |config.ios|
    requires !IsEcho(config.ios[i], factories)
    ensures var sys := Booted(fold, config, factories);
            var net := Topology(sys.hs);
            && Describes(fold, config, factories, net)
            && (forall u :: 0 <= u < |net| ==>
                 net[u].outs == TargetsOf(fold, Handlers(config.ios, factories), config.connections, u))
            && (Possible(sys, NewData(i, p)) <==> NoEchoCycle(fold, config, factories, i))
            && (Possible(sys, NewData(i, p)) ==>
                 && (forall q :: q in paths <==> IsPath(net, net[i].outs, q) && End(net, net[i].outs, q) == v)
                 && Step(fold, sys, NewData(i, p)).hs[v].sent ==
                    if sys.hs[v].status.state == HandlerState.Started then Copies(p, |paths|) else [])
  {
    var sys := Booted(fold, config, factories);
    var net := Topology(sys.hs);
    paths := {};
    BootedNetwork(fold, config, factories);
    BootedIsDescribed(fold, config, factories);
    DescribedEndsExactly(fold, config, factories, net, i);
    if Possible(sys, NewData(i, p)) {
      paths := LedgersCountPaths(sys.hs, i, p, v);
    }
  }
}

/**
  The UDP factory: how it pairs remote addresses with remote ports, when that comes to an end, and
  which targets the IO then writes to.
*/
module Udp {
  import opened CmdLine
  import opened CmdLineGroups
  import opened Factories
  import opened Parameters
  import opened Wrappers

  const USHORT_RANGE := 0x1_0000

  /** The conversions of Qt that are not modelled: address parsing, number parsing (0 if it fails or
      does not fit), truth of a string, decimal form, and whether an address is multicast. */
  datatype Conversions<!A> = Conversions(
    host: string -> A, number: string -> nat, truth: string -> bool, decimal: nat -> string, isMulticast: A -> bool)
  {
    function ToText(v: Variant): string
    {
      match v
      case Null => ""
      case Text(s) => s
      case Number(n) => decimal(n)
      case Truth(b) => if b then "true" else "false"
    }

    function ToUInt(v: Variant): nat
    {
      match v
      case Null => 0
      case Text(s) => number(s)
      case Number(n) => n
      case Truth(b) => if b then 1 else 0
    }

    function ToBool(v: Variant): bool
    {
      match v
      case Null => false
      case Text(s) => truth(s)
      case Number(n) => n != 0
      case Truth(b) => b
    }
  }

  datatype Target<A> = Target(address: A, port: nat)

  datatype Options<A> = Options(
    bindAddress: A, bindPort: nat, remoteAddresses: seq<Target<A>>,
    echo: bool, multicastTTL: nat, multicastLoopback: bool)

  /** The definitions; one variable is filled again and again, so that the two multi parameters
      inherit the default of bind_port. */
  const BIND_ADDRESS := ParaDef("bind_address", false, false, Text("0.0.0.0"))
  const BIND_PORT := ParaDef("bind_port", false, false, Number(0))
  const REMOTE_ADDRESS := ParaDef("remote_address", false, true, Number(0))
  const REMOTE_PORT := ParaDef("remote_port", false, true, Number(0))
  const ECHO := ParaDef("echo", false, false, Truth(false))
  const MULTICAST_TTL := ParaDef("multicast_ttl", false, false, Number(0))
  const MULTICAST_LOOPBACK := ParaDef("multicast_loopback", false, false, Truth(false))

  /** How many addresses and how many ports were given. */
  function Addresses(params: Params): nat
  {
    |Values(params, REMOTE_ADDRESS.key)|
  }

  function Ports(params: Params): nat
  {
    |Values(params, REMOTE_PORT.key)|
  }

  // ---------------------------------------------------------------------------------------------
  // One iteration of the pairing loop
  // ---------------------------------------------------------------------------------------------

  datatype Pairing<A> =
    | Running(index: nat, targets: seq<Target<A>>)
    | Paired(targets: seq<Target<A>>)
    | MissingPort(index: nat)

  function MakeTarget<A>(conv: Conversions<A>, address: Variant, port: Variant): Target<A>
  {
    Target(conv.host(conv.ToText(address)), conv.ToUInt(port) % USHORT_RANGE)
  }

  function Iteration<A>(conv: Conversions<A>, params: Params, st: Pairing<A>): Pairing<A>
    requires |params| <= INT_MAX
  {
    if !st.Running? then st
    else
      match GetParaValue(params, REMOTE_ADDRESS, ToUInt32(st.index))
      case Failure(_) => Paired(st.targets)
      case Success(address) =>
        match GetParaValue(params, REMOTE_PORT, ToUInt32(st.index))
        case Failure(_) => MissingPort(st.index)
        case Success(port) => Running(st.index + 1, st.targets + [MakeTarget(conv, address, port)])
  }

  function Iterate<A>(conv: Conversions<A>, params: Params, k: nat): Pairing<A>
    requires |params| <= INT_MAX
  {
    if k == 0 then Running(0, []) else Iteration(conv, params, Iterate(conv, params, k - 1))
  }

  /** The value at a position, or the default where a key has no values at all. */
  function At(values: seq<Variant>, i: nat, default: Variant): Variant
    requires values != [] ==> i < |values|
  {
    if values == [] then default else values[i]
  }

  /** The first `k` targets: the values of both keys, newest first, paired by position. */
  function Targets<A>(conv: Conversions<A>, params: Params, k: nat): (r: seq<Target<A>>)
    requires Addresses(params) == 0 || k <= Addresses(params)
    requires Ports(params) == 0 || k <= Ports(params)
  {
    seq(k, i requires 0 <= i < k =>
      MakeTarget(conv, At(Values(params, REMOTE_ADDRESS.key), i, REMOTE_ADDRESS.defaultValue),
                       At(Values(params, REMOTE_PORT.key), i, REMOTE_PORT.defaultValue)))
  }

  /** The number of pairs after which the loop ends, if at least one of the two keys is there. */
  function Limit(params: Params): nat
    requires Addresses(params) > 0 || Ports(params) > 0
  {
    if EveryAddressHasPort(params) then Addresses(params) else Ports(params)
  }

  /** Every address finds its port. */
  predicate EveryAddressHasPort(params: Params)
  {
    Addresses(params) > 0 && (Ports(params) == 0 || Ports(params) >= Addresses(params))
  }

  /** What a lookup in the loop gives: a value for every position below the number of values, the
      default for any position if there are none. */
  lemma {:induction false} LookupAt(params: Params, def: ParaDef, k: nat)
    requires |params| <= INT_MAX && !def.required
    requires Values(params, def.key) == [] || k <= |Values(params, def.key)|
    ensures GetParaValue(params, def, ToUInt32(k)).Success? <==>
            Values(params, def.key) == [] || k < |Values(params, def.key)|
    ensures GetParaValue(params, def, ToUInt32(k)).Success? ==>
              GetParaValue(params, def, ToUInt32(k)).value == At(Values(params, def.key), k, def.defaultValue)
  {
    ValuesFit(params, def.key);
    LookupSucceedsExactly(params, def, ToUInt32(k));
  }

  /** One iteration, for any values given: with both keys absent it always goes on. */
  lemma {:induction false} IterationIs<A>(conv: Conversions<A>, params: Params, k: nat)
    requires |params| <= INT_MAX
    requires Addresses(params) == 0 || k <= Addresses(params)
    requires Ports(params) == 0 || k <= Ports(params)
    ensures var m, n := Addresses(params), Ports(params);
            var next := Iteration(conv, params, Running(k, Targets(conv, params, k)));
            if m > 0 && k == m then next == Paired(Targets(conv, params, m))
            else if n > 0 && k == n then next == MissingPort(n)
            else next == Running(k + 1, Targets(conv, params, k + 1))
  {
    LookupAt(params, REMOTE_ADDRESS, k);
    LookupAt(params, REMOTE_PORT, k);
    if (Addresses(params) == 0 || k < Addresses(params)) && (Ports(params) == 0 || k < Ports(params)) {
      TargetsNext(conv, params, k);
    }
  }

  lemma TargetsNext<A>(conv: Conversions<A>, params: Params, k: nat)
    requires Addresses(params) == 0 || k < Addresses(params)
    requires Ports(params) == 0 || k < Ports(params)
    ensures Targets(conv, params, k + 1) == Targets(conv, params, k) +
              [MakeTarget(conv, At(Values(params, REMOTE_ADDRESS.key), k, REMOTE_ADDRESS.defaultValue),
                                At(Values(params, REMOTE_PORT.key), k, REMOTE_PORT.defaultValue))]
  {
  }

  /** The loop, characterised for every parameter multimap and every number of iterations: with m
      addresses and n ports it ends with m pairs if m > 0 and n = 0 or n >= m, ends with an error
      after n pairs if n > 0 otherwise, and never ends if both are 0. */
  lemma {:induction false} PairingExactly<A>(conv: Conversions<A>, params: Params, k: nat)
    requires |params| <= INT_MAX
    ensures var m, n := Addresses(params), Ports(params);
            if m == 0 && n == 0 then
              Iterate(conv, params, k) == Running(k, Targets(conv, params, k))
            else if k <= Limit(params) then
              Iterate(conv, params, k) == Running(k, Targets(conv, params, k))
            else if EveryAddressHasPort(params) then
              Iterate(conv, params, k) == Paired(Targets(conv, params, m))
            else
              Iterate(conv, params, k) == MissingPort(n)
    decreases k
  {
    if k > 0 {
      PairingExactly(conv, params, k - 1);
      if (Addresses(params) == 0 && Ports(params) == 0) || k - 1 <= Limit(params) {
        IterationIs(conv, params, k - 1);
      }
    } else {
      assert Targets(conv, params, 0) == [];
    }
  }

  /** The loop ends if and only if at least one of the two keys was given. */
  lemma {:induction false} EndsExactly<A>(conv: Conversions<A>, params: Params)
    requires |params| <= INT_MAX
    ensures (exists k: nat :: !Iterate(conv, params, k).Running?) <==> Addresses(params) > 0 || Ports(params) > 0
  {
    if Addresses(params) > 0 || Ports(params) > 0 {
      PairingExactly(conv, params, Limit(params) + 1);
    } else {
      forall k: nat
        ensures Iterate(conv, params, k).Running?
      {
        PairingExactly(conv, params, k);
      }
    }
  }

  /** The options read from parameters in which every address has its port. */
  function OptionsFor<A>(conv: Conversions<A>, params: Params): Options<A>
    requires EveryAddressHasPort(params)
  {
    Options(
      conv.host(conv.ToText(At(Values(params, "bind_address"), 0, Text("0.0.0.0")))),
      conv.ToUInt(At(Values(params, "bind_port"), 0, Number(0))) % USHORT_RANGE,
      Targets(conv, params, Addresses(params)),
      conv.ToBool(At(Values(params, "echo"), 0, Truth(false))),
      conv.ToUInt(At(Values(params, "multicast_ttl"), 0, Number(0))) % USHORT_RANGE,
      conv.ToBool(At(Values(params, "multicast_loopback"), 0, Truth(false))))
  }

  // ---------------------------------------------------------------------------------------------
  // The factory as it runs, and the loop it replaced
  // ---------------------------------------------------------------------------------------------

  class UdpSocketIOFactory<A> {
    const conv: Conversions<A>
    const base: BuiltInIOFactory

    ghost predicate Valid()
      reads base
    {
      && base.Valid()
      && base.paraDefs ==
         [BIND_ADDRESS, BIND_PORT, REMOTE_ADDRESS, REMOTE_PORT, ECHO, MULTICAST_TTL, MULTICAST_LOOPBACK]
    }

    constructor (conv: Conversions<A>)
      ensures Valid() && fresh(base) && this.conv == conv
    {
      this.conv := conv;
      base := new BuiltInIOFactory();
      new;
      base.AddParaDef(BIND_ADDRESS);
      base.AddParaDef(BIND_PORT);
      base.AddParaDef(REMOTE_ADDRESS);
      base.AddParaDef(REMOTE_PORT);
      base.AddParaDef(ECHO);
      base.AddParaDef(MULTICAST_TTL);
      base.AddParaDef(MULTICAST_LOOPBACK);
    }

    /** `getParaValue(params, m_paraDefsByKey[key]).value()`: the definition is registered, and the
        value is there. */
    lemma {:induction false} ValueIsThere(params: Params, def: ParaDef)
      requires Valid() && |params| <= INT_MAX && def in base.paraDefs
      ensures def.key in base.paraDefsByKey
      ensures GetParaValue(params, base.paraDefsByKey[def.key], 0)
           == Success(At(Values(params, def.key), 0, def.defaultValue))
    {
      Registered(base.paraDefs, def);
      CheckedNeverThrows(base.paraDefs, params, def.key);
    }

    /** The loop over the remote hosts.  Its precondition is the exact condition under which it ends. */
    method RemoteAddresses(params: Params) returns (r: Result<seq<Target<A>>, nat>)
      requires Valid() && |params| <= INT_MAX
      requires Addresses(params) > 0 || Ports(params) > 0
      ensures r == if EveryAddressHasPort(params) then Success(Targets(conv, params, Addresses(params)))
                   else Failure(Ports(params))
    {
      Registered(base.paraDefs, REMOTE_ADDRESS);
      Registered(base.paraDefs, REMOTE_PORT);
      var index := 0;
      var targets: seq<Target<A>> := [];
      while true
        invariant 0 <= index <= Limit(params)
        invariant targets == Targets(conv, params, index)
        decreases Limit(params) - index
      {
        IterationIs(conv, params, index);
        var address := GetParaValue(params, base.paraDefsByKey[REMOTE_ADDRESS.key], ToUInt32(index));
        if address.Failure? {
          return Success(targets);
        }
        var port := GetParaValue(params, base.paraDefsByKey[REMOTE_PORT.key], ToUInt32(index));
        if port.Failure? {
          return Failure(index);
        }
        targets := targets + [MakeTarget(conv, address.value, port.value)];
        index := index + 1;
      }
    }

    /** Fails with the position of the first address that has no port. */
    method Create(params: Params) returns (r: Result<Options<A>, nat>)
      requires Valid() && |params| <= INT_MAX
      requires Addresses(params) > 0 || Ports(params) > 0
      ensures r.Success? <==> EveryAddressHasPort(params)
      ensures r.Failure? ==> r.error == Ports(params)
      ensures r.Success? ==>
                && r.value == OptionsFor(conv, params)
                && r.value.remoteAddresses == Targets(conv, params, Addresses(params))
                && r.value.bindAddress == conv.host(conv.ToText(At(Values(params, "bind_address"), 0, Text("0.0.0.0"))))
                && r.value.bindPort == conv.ToUInt(At(Values(params, "bind_port"), 0, Number(0))) % USHORT_RANGE
                && r.value.echo == conv.ToBool(At(Values(params, "echo"), 0, Truth(false)))
                && r.value.multicastTTL == conv.ToUInt(At(Values(params, "multicast_ttl"), 0, Number(0))) % USHORT_RANGE
                && r.value.multicastLoopback == conv.ToBool(At(Values(params, "multicast_loopback"), 0, Truth(false)))
    {
      var check := base.CheckRequiredParameters(params);
      if check.Failure? {
        // None of the definitions is a required one.
        assert false;
      }
      ValueIsThere(params, BIND_ADDRESS);
      ValueIsThere(params, BIND_PORT);
      ValueIsThere(params, ECHO);
      ValueIsThere(params, MULTICAST_TTL);
      ValueIsThere(params, MULTICAST_LOOPBACK);
      var bindAddress := GetParaValue(params, base.paraDefsByKey["bind_address"], 0).value;
      var bindPort := GetParaValue(params, base.paraDefsByKey["bind_port"], 0).value;
      var remote := RemoteAddresses(params);
      if remote.Failure? {
        return Failure(remote.error);
      }
      var echo := GetParaValue(params, base.paraDefsByKey["echo"], 0).value;
      var ttl := GetParaValue(params, base.paraDefsByKey["multicast_ttl"], 0).value;
      var loopback := GetParaValue(params, base.paraDefsByKey["multicast_loopback"], 0).value;
      return Success(Options(
        conv.host(conv.ToText(bindAddress)), conv.ToUInt(bindPort) % USHORT_RANGE, remote.value,
        conv.ToBool(echo), conv.ToUInt(ttl) % USHORT_RANGE, conv.ToBool(loopback)));
    }
  }

  lemma {:induction false} Registered(defs: seq<ParaDef>, def: ParaDef)
    requires defs == [BIND_ADDRESS, BIND_PORT, REMOTE_ADDRESS, REMOTE_PORT, ECHO, MULTICAST_TTL, MULTICAST_LOOPBACK]
    requires def in defs
    ensures def.key in Table(defs) && Table(defs)[def.key] == def
    ensures forall params :: Complete(defs, params)
  {
    var i :| 0 <= i < |defs| && defs[i] == def;
    TableLast(defs, i);
  }

  /** toUShort of a number that was parsed as an unsigned int: out of range gives 0. */
  function ToUShort(n: nat): nat
  {
    if n < USHORT_RANGE then n else 0
  }

  /** The port the legacy loop gives to position `i`. */
  function LegacyPort<A>(conv: Conversions<A>, ports: seq<Variant>, i: nat): nat
  {
    if i < |ports| then ToUShort(conv.ToUInt(ports[i])) else 0
  }

  /** What the legacy loop returns. */
  function LegacyTargets<A>(conv: Conversions<A>, params: Params): seq<Target<A>>
  {
    var addresses, ports := Values(params, REMOTE_ADDRESS.key), Values(params, REMOTE_PORT.key);
    seq(|addresses|, i requires 0 <= i < |addresses| =>
      Target(conv.host(conv.ToText(addresses[i])), LegacyPort(conv, ports, i)))
  }

  /** Its targets down to the texts: a port that does not fit 16 bits, or is not there, is 0. */
  lemma {:induction false} LegacyFromTexts<A>(conv: Conversions<A>, params: Params, i: nat)
    requires i < |Values(params, "remote_address")| && Values(params, "remote_address")[i].Text?
    requires i < |Values(params, "remote_port")| ==> Values(params, "remote_port")[i].Text?
    ensures |LegacyTargets(conv, params)| == |Values(params, "remote_address")|
    ensures var address, ports := Values(params, "remote_address")[i].text, Values(params, "remote_port");
            var port := if i < |ports| then conv.number(ports[i].text) else 0;
            LegacyTargets(conv, params)[i] == Target(conv.host(address), if port < 0x1_0000 then port else 0)
  {
    var addresses, ports := Values(params, REMOTE_ADDRESS.key), Values(params, REMOTE_PORT.key);
    var t := LegacyTargets(conv, params)[i];
    assert t == Target(conv.host(conv.ToText(addresses[i])), LegacyPort(conv, ports, i));
    assert conv.ToText(addresses[i]) == addresses[i].text;
    if i < |ports| {
      assert conv.ToUInt(ports[i]) == conv.number(ports[i].text);
    }
  }

  /** The legacy factory's loop over the same two lists. */
  method LegacyRemoteAddresses<A>(conv: Conversions<A>, params: Params) returns (targets: seq<Target<A>>)
    ensures targets == LegacyTargets(conv, params)
  {
    var addresses, ports := Values(params, REMOTE_ADDRESS.key), Values(params, REMOTE_PORT.key);
    targets := [];
    for i := 0 to |addresses|
      invariant targets == LegacyTargets(conv, params)[..i]
    {
      var port := 0;
      if |ports| > 0 && i < |ports| {
        port := ToUShort(conv.ToUInt(ports[i]));
      }
      targets := targets + [Target(conv.host(conv.ToText(addresses[i])), port)];
    }
  }

  /** Where the current loop returns targets, they are those of the legacy loop exactly if every port
      used either fits 16 bits or is a multiple of 65536 (one loop truncates, the other gives 0). */
  lemma {:induction false} AgreesWithLegacyExactly<A>(conv: Conversions<A>, params: Params)
    requires |params| <= INT_MAX && EveryAddressHasPort(params)
    ensures Targets(conv, params, Addresses(params)) == LegacyTargets(conv, params) <==>
            forall i :: 0 <= i < Addresses(params) && i < Ports(params) ==>
              var n := conv.ToUInt(Values(params, REMOTE_PORT.key)[i]);
              n < USHORT_RANGE || n % USHORT_RANGE == 0
  {
    var m, ports := Addresses(params), Values(params, REMOTE_PORT.key);
    var now, legacy := Targets(conv, params, m), LegacyTargets(conv, params);
    forall i | 0 <= i < m
      ensures now[i] == legacy[i] <==>
              (i < |ports| ==> var n := conv.ToUInt(ports[i]); n < USHORT_RANGE || n % USHORT_RANGE == 0)
    {
    }
    if forall i :: 0 <= i < m && i < |ports| ==>
         var n := conv.ToUInt(ports[i]); n < USHORT_RANGE || n % USHORT_RANGE == 0
    {
      assert now == legacy;
    }
  }

  // ---------------------------------------------------------------------------------------------
  // Where a packet is written to
  // ---------------------------------------------------------------------------------------------

  predicate IsMulticastConfig<A>(conv: Conversions<A>, targets: seq<Target<A>>)
  {
    |targets| > 0 && conv.isMulticast(targets[0].address)
  }

  /** In multicast mode only the first address is used, with the port the socket is bound to. */
  function Destinations<A>(conv: Conversions<A>, o: Options<A>): seq<Target<A>>
  {
    if IsMulticastConfig(conv, o.remoteAddresses) then [Target(o.remoteAddresses[0].address, o.bindPort)]
    else o.remoteAddresses
  }

  function Sum(s: seq<int>): int
    decreases |s|
  {
    if s == [] then 0 else Sum(s[..|s| - 1]) + s[|s| - 1]
  }

  /** It adds up whatever it is given, a negative number too. */
  lemma {:induction false} SumIsAdditive(a: seq<int>, b: seq<int>)
    ensures Sum(a + b) == Sum(a) + Sum(b)
    ensures forall x :: Sum([x]) == x
    decreases |b|
  {
    forall x: int
      ensures Sum([x]) == x
    {
      assert [x][..0] == [];
    }
    if b == [] {
      assert a + b == a;
    } else {
      SumIsAdditive(a, b[..|b| - 1]);
      assert (a + b)[..|a + b| - 1] == a + b[..|b| - 1];
    }
  }

  class UdpSocketIO<A> {
    const conv: Conversions<A>
    const options: Options<A>
    var bytesWritten: int

    constructor (conv: Conversions<A>, options: Options<A>)
      ensures this.conv == conv && this.options == options && bytesWritten == 0
    {
      this.conv, this.options, bytesWritten := conv, options, 0;
    }

    /** `results` are what the socket's writeDatagram calls return; a negative result is added to the
        statistic like any other. */
    method WriteData(bound: bool, results: seq<int>) returns (sent: seq<Target<A>>)
      requires |results| == |Destinations(conv, options)|
      modifies this
      ensures !bound ==> sent == []
      ensures bound ==> sent == Destinations(conv, options)
      ensures bound && options.remoteAddresses != [] && conv.isMulticast(options.remoteAddresses[0].address) ==>
                sent == [Target(options.remoteAddresses[0].address, options.bindPort)]
      ensures bound && (options.remoteAddresses == [] || !conv.isMulticast(options.remoteAddresses[0].address)) ==>
                sent == options.remoteAddresses
      ensures bytesWritten == old(bytesWritten) + if bound then Sum(results) else 0
    {
      sent := [];
      if !bound {
        return;
      }
      if IsMulticastConfig(conv, options.remoteAddresses) {
        sent := [Target(options.remoteAddresses[0].address, options.bindPort)];
        bytesWritten := bytesWritten + results[0];
        assert results[..0] == [];
      } else {
        for i := 0 to |options.remoteAddresses|
          invariant sent == options.remoteAddresses[..i]
          invariant bytesWritten == old(bytesWritten) + Sum(results[..i])
        {
          sent := sent + [options.remoteAddresses[i]];
          bytesWritten := bytesWritten + results[i];
          assert results[..i + 1][..i] == results[..i];
        }
        assert results[..|options.remoteAddresses|] == results;
      }
    }
  }

  // ---------------------------------------------------------------------------------------------
  // From the command line to the targets
  // ---------------------------------------------------------------------------------------------

  /** How many IOs an argument list describes. */
  function IosIn(args: seq<string>): nat
  {
    IoCount(Recognised(args, false))
  }

  /** The parameters given with -p for the n-th IO, in the order of the command line. */
  function OptionsOf(args: seq<string>, n: nat): seq<Entry>
    requires n < IosIn(args)
  {
    Entries(GroupAt(Recognised(args, false), n))
  }

  /** The parameters of the n-th IO of any accepted argument list. */
  lemma {:induction false} ParsedParameters(args: seq<string>, n: nat)
    requires Parse(args, NOTHING).error == None && n < IosIn(args)
    ensures |Parse(args, NOTHING).state.ios| == IosIn(args)
    ensures Parse(args, NOTHING).state.ios[n].parameters == InsertAll([], OptionsOf(args, n))
  {
    ParsedIos(args);
  }

  /** What -p options give is text. */
  lemma {:induction false} EntriesAreTexts(items: seq<Item>)
    ensures forall i :: 0 <= i < |Entries(items)| ==> Entries(items)[i].value.Text?
    decreases |items|
  {
    if items != [] { EntriesAreTexts(items[1..]); }
  }

  lemma {:induction false} GivenAreTexts(es: seq<Entry>, key: string)
    requires forall i :: 0 <= i < |es| ==> es[i].value.Text?
    ensures forall i :: 0 <= i < |Given(es, key)| ==> Given(es, key)[i].Text?
    decreases |es|
  {
    if es != [] { GivenAreTexts(es[1..], key); }
  }

  /** The texts given for `key`, in order. */
  ghost function TextsOf(args: seq<string>, n: nat, key: string): (r: seq<string>)
    requires n < IosIn(args)
    ensures |r| == |Given(OptionsOf(args, n), key)|
    ensures forall i :: 0 <= i < |r| ==> Given(OptionsOf(args, n), key)[i] == Text(r[i])
  {
    EntriesAreTexts(GroupAt(Recognised(args, false), n));
    var given := Given(OptionsOf(args, n), key);
    GivenAreTexts(OptionsOf(args, n), key);
    seq(|given|, i requires 0 <= i < |given| => given[i].text)
  }

  lemma {:induction false} ReversedAt<T>(s: seq<T>)
    ensures |Reversed(s)| == |s| && forall i :: 0 <= i < |s| ==> Reversed(s)[i] == s[|s| - 1 - i]
    decreases |s|
  {
    if s != [] { ReversedAt(s[..|s| - 1]); }
  }

  /** The pairs as they are meant: i-th address with i-th port. */
  function PairUp<A>(conv: Conversions<A>, addresses: seq<Variant>, ports: seq<Variant>): seq<Target<A>>
    requires |addresses| == |ports|
  {
    seq(|addresses|, i requires 0 <= i < |addresses| => MakeTarget(conv, addresses[i], ports[i]))
  }

  /** From any accepted argument list to the targets of any of its IOs: as many ports as addresses give
      exactly the intended pairs, in reverse order. */
  lemma {:induction false} ArgumentsToTargets<A>(conv: Conversions<A>, args: seq<string>, n: nat)
    requires Parse(args, NOTHING).error == None && n < IosIn(args)
    requires |Given(OptionsOf(args, n), REMOTE_ADDRESS.key)| == |Given(OptionsOf(args, n), REMOTE_PORT.key)| > 0
    ensures |Parse(args, NOTHING).state.ios| == IosIn(args)
    ensures var params := Parse(args, NOTHING).state.ios[n].parameters;
            var addresses := Given(OptionsOf(args, n), REMOTE_ADDRESS.key);
            var ports := Given(OptionsOf(args, n), REMOTE_PORT.key);
            && EveryAddressHasPort(params) && Addresses(params) == |addresses|
            && Targets(conv, params, Addresses(params)) == Reversed(PairUp(conv, addresses, ports))
            && forall i :: 0 <= i < |addresses| ==>
                 && addresses[i].Text? && ports[i].Text?
                 && Targets(conv, params, Addresses(params))[|addresses| - 1 - i]
                      == Target(conv.host(addresses[i].text), conv.number(ports[i].text) % 0x1_0000)
  {
    var es := OptionsOf(args, n);
    ParsedParameters(args, n);
    ParametersNewestFirst(es);
    TargetsReversed(conv, InsertAll([], es), Given(es, REMOTE_ADDRESS.key), Given(es, REMOTE_PORT.key));
    var addresses, ports := TextsOf(args, n, REMOTE_ADDRESS.key), TextsOf(args, n, REMOTE_PORT.key);
    NewestTexts(args, n, REMOTE_ADDRESS.key);
    NewestTexts(args, n, REMOTE_PORT.key);
    forall i | 0 <= i < |addresses|
      ensures Targets(conv, InsertAll([], es), |addresses|)[|addresses| - 1 - i]
           == Target(conv.host(addresses[i]), conv.number(ports[i]) % 0x1_0000)
    {
      TextTarget(conv, InsertAll([], es), addresses, ports, |addresses| - 1 - i);
    }
  }

  lemma {:induction false} TargetsReversed<A>(
    conv: Conversions<A>, params: Params, addresses: seq<Variant>, ports: seq<Variant>)
    requires Values(params, REMOTE_ADDRESS.key) == Reversed(addresses)
    requires Values(params, REMOTE_PORT.key) == Reversed(ports)
    requires |addresses| == |ports| > 0
    ensures EveryAddressHasPort(params)
    ensures Targets(conv, params, Addresses(params)) == Reversed(PairUp(conv, addresses, ports))
  {
    ReversedAt(addresses);
    ReversedAt(ports);
    ReversedAt(PairUp(conv, addresses, ports));
  }

  lemma {:induction false} ParametersNewestFirst(es: seq<Entry>)
    ensures Values(InsertAll([], es), REMOTE_ADDRESS.key) == Reversed(Given(es, REMOTE_ADDRESS.key))
    ensures Values(InsertAll([], es), REMOTE_PORT.key) == Reversed(Given(es, REMOTE_PORT.key))
  {
    ValuesNewestFirst([], es, REMOTE_ADDRESS.key);
    ValuesNewestFirst([], es, REMOTE_PORT.key);
  }

  /** For any IO of any accepted argument list whose parameters the factory accepts, multicast mode is
      chosen if and only if its last remote_address on the command line is a multicast address. */
  lemma {:induction false} LastAddressDecidesMulticast<A>(conv: Conversions<A>, args: seq<string>, n: nat)
    requires Parse(args, NOTHING).error == None && n < IosIn(args)
    requires EveryAddressHasPort(InsertAll([], OptionsOf(args, n)))
    ensures |Parse(args, NOTHING).state.ios| == IosIn(args)
    ensures var params := Parse(args, NOTHING).state.ios[n].parameters;
            var addresses := Given(OptionsOf(args, n), REMOTE_ADDRESS.key);
            && EveryAddressHasPort(params) && |addresses| > 0
            && (IsMulticastConfig(conv, Targets(conv, params, Addresses(params))) <==>
                conv.isMulticast(conv.host(conv.ToText(addresses[|addresses| - 1]))))
  {
    var addresses := Given(OptionsOf(args, n), REMOTE_ADDRESS.key);
    ParsedParameters(args, n);
    ParametersNewestFirst(OptionsOf(args, n));
    ReversedAt(addresses);
  }

  /** The targets of any IO of any accepted argument list down to the texts given: the last address comes
      first, each with the port that stands as far from the end, taken modulo 65536, or with port 0 if no
      port was given. */
  lemma {:induction false} TargetsFromTexts<A>(conv: Conversions<A>, args: seq<string>, n: nat)
    requires Parse(args, NOTHING).error == None && n < IosIn(args)
    ensures |Parse(args, NOTHING).state.ios| == IosIn(args)
    ensures var params := Parse(args, NOTHING).state.ios[n].parameters;
            var addresses, ports := TextsOf(args, n, "remote_address"), TextsOf(args, n, "remote_port");
            && Addresses(params) == |addresses| && Ports(params) == |ports|
            && (EveryAddressHasPort(params) ==>
                 var targets := Targets(conv, params, Addresses(params));
                 && |targets| == |addresses|
                 && forall j :: 0 <= j < |targets| ==>
                      targets[j] == Target(conv.host(addresses[|addresses| - 1 - j]),
                                           if ports == [] then 0 else conv.number(ports[|ports| - 1 - j]) % 0x1_0000))
  {
    ParsedParameters(args, n);
    NewestTexts(args, n, REMOTE_ADDRESS.key);
    NewestTexts(args, n, REMOTE_PORT.key);
    var params := InsertAll([], OptionsOf(args, n));
    var addresses, ports := TextsOf(args, n, "remote_address"), TextsOf(args, n, "remote_port");
    if EveryAddressHasPort(params) {
      forall j | 0 <= j < |addresses|
        ensures Targets(conv, params, Addresses(params))[j]
             == Target(conv.host(addresses[|addresses| - 1 - j]),
                       if ports == [] then 0 else conv.number(ports[|ports| - 1 - j]) % 0x1_0000)
      {
        TextTarget(conv, params, addresses, ports, j);
      }
    }
  }

  /** `values` are `texts`, the last one first. */
  ghost predicate Newest(values: seq<Variant>, texts: seq<string>)
  {
    |values| == |texts| && forall j :: 0 <= j < |values| ==> values[j] == Text(texts[|texts| - 1 - j])
  }

  lemma TextTarget<A>(
    conv: Conversions<A>, params: Params, addresses: seq<string>, ports: seq<string>, j: nat)
    requires Newest(Values(params, "remote_address"), addresses) && Newest(Values(params, "remote_port"), ports)
    requires EveryAddressHasPort(params) && j < |addresses|
    ensures Targets(conv, params, Addresses(params))[j]
         == Target(conv.host(addresses[|addresses| - 1 - j]),
                   if ports == [] then 0 else conv.number(ports[|ports| - 1 - j]) % 0x1_0000)
  {
  }

  /** The values of a key are the texts given for it, the last one first. */
  lemma {:induction false} NewestTexts(args: seq<string>, n: nat, key: string)
    requires n < IosIn(args)
    ensures Newest(Values(InsertAll([], OptionsOf(args, n)), key), TextsOf(args, n, key))
  {
    var given := Given(OptionsOf(args, n), key);
    ValuesNewestFirst([], OptionsOf(args, n), key);
    ReversedAt(given);
    assert Reversed(given) + [] == Reversed(given);
  }

  /** The last text given for `key`. */
  ghost function LastText(args: seq<string>, n: nat, key: string): Option<string>
    requires n < IosIn(args)
  {
    var texts := TextsOf(args, n, key);
    if texts == [] then None else Some(texts[|texts| - 1])
  }

  lemma {:induction false} NewestIsLast(args: seq<string>, n: nat, key: string, default: Variant)
    requires n < IosIn(args)
    ensures At(Values(InsertAll([], OptionsOf(args, n)), key), 0, default)
         == match LastText(args, n, key) case None => default case Some(text) => Text(text)
  {
    NewestTexts(args, n, key);
  }

  /** The single options of any IO of any accepted argument list: each is read from the last text given for
      its key, or has its default. */
  lemma {:induction false} OptionsFromTexts<A>(conv: Conversions<A>, args: seq<string>, n: nat)
    requires Parse(args, NOTHING).error == None && n < IosIn(args)
    requires EveryAddressHasPort(InsertAll([], OptionsOf(args, n)))
    ensures |Parse(args, NOTHING).state.ios| == IosIn(args)
    ensures Parse(args, NOTHING).state.ios[n].parameters == InsertAll([], OptionsOf(args, n))
    ensures var o := OptionsFor(conv, InsertAll([], OptionsOf(args, n)));
            && o.bindAddress
                 == conv.host(match LastText(args, n, "bind_address") case None => "0.0.0.0" case Some(t) => t)
            && o.bindPort
                 == (match LastText(args, n, "bind_port") case None => 0 case Some(t) => conv.number(t) % 0x1_0000)
            && o.echo
                 == (match LastText(args, n, "echo") case None => false case Some(t) => conv.truth(t))
            && o.multicastTTL
                 == (match LastText(args, n, "multicast_ttl") case None => 0 case Some(t) => conv.number(t) % 0x1_0000)
            && o.multicastLoopback
                 == (match LastText(args, n, "multicast_loopback") case None => false case Some(t) => conv.truth(t))
  {
    ParsedParameters(args, n);
    NewestIsLast(args, n, "bind_address", Text("0.0.0.0"));
    NewestIsLast(args, n, "bind_port", Number(0));
    NewestIsLast(args, n, "echo", Truth(false));
    NewestIsLast(args, n, "multicast_ttl", Number(0));
    NewestIsLast(args, n, "multicast_loopback", Truth(false));
  }

  /** Where any such socket sends each packet: once, to its last remote_address at its bind_port, if that
      is a multicast address; otherwise to every target. */
  lemma {:induction false} SendsTo<A>(conv: Conversions<A>, args: seq<string>, n: nat)
    requires Parse(args, NOTHING).error == None && n < IosIn(args)
    requires EveryAddressHasPort(InsertAll([], OptionsOf(args, n)))
    ensures var o := OptionsFor(conv, InsertAll([], OptionsOf(args, n)));
            var addresses := TextsOf(args, n, "remote_address");
            && addresses != []
            && var last, port := conv.host(addresses[|addresses| - 1]), LastText(args, n, "bind_port");
               var bound := match port case None => 0 case Some(t) => conv.number(t) % 0x1_0000;
               Destinations(conv, o) == if conv.isMulticast(last) then [Target(last, bound)] else o.remoteAddresses
  {
    OptionsFromTexts(conv, args, n);
    TargetsFromTexts(conv, args, n);
  }

  /** One of the two keys of a remote host is among the options. */
  predicate NamesRemote(es: seq<Entry>)
  {
    exists i :: 0 <= i < |es| && es[i].key in {"remote_address", "remote_port"}
  }

  lemma {:induction false} RemoteIsThere(es: seq<Entry>)
    ensures Addresses(InsertAll([], es)) > 0 || Ports(InsertAll([], es)) > 0 <==> NamesRemote(es)
  {
    ParametersNewestFirst(es);
    ReversedAt(Given(es, REMOTE_ADDRESS.key));
    ReversedAt(Given(es, REMOTE_PORT.key));
    GivenEither(es);
  }

  /** For any IO of any accepted argument list the pairing loop ends if and only if a remote_address or a
      remote_port was given; a plain receiver, with only bind_address and bind_port, makes it run on. */
  lemma {:induction false} CommandLineEndsExactly<A>(conv: Conversions<A>, args: seq<string>, n: nat)
    requires Parse(args, NOTHING).error == None && n < IosIn(args) && |args| <= INT_MAX
    ensures |Parse(args, NOTHING).state.ios| == IosIn(args)
    ensures var params := Parse(args, NOTHING).state.ios[n].parameters;
            && |params| <= INT_MAX
            && ((exists k: nat :: !Iterate(conv, params, k).Running?) <==> NamesRemote(OptionsOf(args, n)))
  {
    ParsedParameters(args, n);
    EntriesFit(args, false, n);
    RemoteIsThere(OptionsOf(args, n));
    EndsExactly(conv, InsertAll([], OptionsOf(args, n)));
  }

  lemma {:induction false} GivenEither(es: seq<Entry>)
    ensures |Given(es, REMOTE_ADDRESS.key)| > 0 || |Given(es, REMOTE_PORT.key)| > 0 <==> NamesRemote(es)
  {
    GivenExactly(es, REMOTE_ADDRESS.key);
    GivenExactly(es, REMOTE_PORT.key);
  }

  lemma {:induction false} GivenExactly(es: seq<Entry>, key: string)
    ensures |Given(es, key)| > 0 <==> exists i :: 0 <= i < |es| && es[i].key == key
    decreases |es|
  {
    if es != [] {
      GivenExactly(es[1..], key);
      assert es == [es[0]] + es[1..];
    }
  }
}

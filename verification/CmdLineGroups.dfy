/**
  Command lines as groups of options: what the parser makes of any interleaving of IO groups and
  connections, and the canonical command line of a configuration.
*/
module CmdLineGroups {
  import opened CmdLine
  import opened Parameters
  import opened Wrappers

  // ---------------------------------------------------------------------------------------------
  // Interleavings
  // ---------------------------------------------------------------------------------------------

  /** An option with its argument.  `id` names the IO with -id instead of -name. */
  datatype Item =
    | IoItem(kind: string)
    | NameItem(id: bool, name: string)
    | ParameterItem(raw: string)
    | ConnectItem(raw: string)

  function Tokens(item: Item): (r: seq<string>)
  {
    match item
    case IoItem(kind) => ["-io", kind]
    case NameItem(id, name) => [if id then "-id" else "-name", name]
    case ParameterItem(raw) => ["-p", raw]
    case ConnectItem(raw) => ["-connect", raw]
  }

  function Flatten(items: seq<Item>): seq<string>
    decreases |items|
  {
    if items == [] then [] else Tokens(items[0]) + Flatten(items[1..])
  }

  /** Options of an IO come after the -io they belong to (`open` says that there was one), and every
      connection is well-formed. */
  predicate Grouped(items: seq<Item>, open: bool)
    decreases |items|
  {
    items == [] ||
    match items[0]
    case IoItem(_) => Grouped(items[1..], true)
    case ConnectItem(raw) => ConnectionOf(raw).Some? && Grouped(items[1..], open)
    case _ => open && Grouped(items[1..], open)
  }

  /** The items of the IO groups alone, and those of the connections alone. */
  function Groups(items: seq<Item>): seq<Item>
    decreases |items|
  {
    if items == [] then []
    else if items[0].ConnectItem? then Groups(items[1..]) else [items[0]] + Groups(items[1..])
  }

  function Pairs(items: seq<Item>): seq<Item>
    decreases |items|
  {
    if items == [] then []
    else if items[0].ConnectItem? then [items[0]] + Pairs(items[1..]) else Pairs(items[1..])
  }

  /** The connections that well-formed connection items stand for, in order. */
  function Connections(items: seq<Item>): seq<(string, string)>
    requires Grouped(items, true)
    decreases |items|
  {
    if items == [] then []
    else if items[0].ConnectItem? then [ConnectionOf(items[0].raw).value] + Connections(items[1..])
    else Connections(items[1..])
  }

  function Apply(st: Parsed, item: Item): Parsed
    requires Grouped([item], st.current.Some?)
  {
    match item
    case IoItem(kind) => OpenIo(st, kind)
    case NameItem(_, name) => SetId(st, name)
    case ParameterItem(raw) => AddParameter(st, raw)
    case ConnectItem(raw) => st.(connections := st.connections + [ConnectionOf(raw).value])
  }

  function ApplyAll(st: Parsed, items: seq<Item>): Parsed
    requires Grouped(items, st.current.Some?)
    decreases |items|
  {
    if items == [] then st
    else ApplyAll(Apply(st, items[0]), items[1..])
  }

  lemma ParseItem(item: Item, toks: seq<string>, st: Parsed)
    requires Grouped([item], st.current.Some?)
    requires |toks| >= 2 && toks[0] == Tokens(item)[0] && toks[1] == Tokens(item)[1]
    ensures Parse(toks, st) == Parse(toks[2..], Apply(st, item))
  {
  }

  /** The parser takes the items one by one, whatever their arguments look like. */
  lemma {:induction false} ParseItems(items: seq<Item>, tail: seq<string>, st: Parsed)
    requires Grouped(items, st.current.Some?)
    ensures Parse(Flatten(items) + tail, st) == Parse(tail, ApplyAll(st, items))
    decreases |items|
  {
    if items == [] {
      assert Flatten(items) + tail == tail;
    } else {
      FirstItem(items, tail);
      ParseItem(items[0], Flatten(items) + tail, st);
      ParseItems(items[1..], tail, Apply(st, items[0]));
    }
  }

  lemma {:induction false} FirstItem(items: seq<Item>, tail: seq<string>)
    requires items != []
    ensures var toks := Flatten(items) + tail;
            && |toks| >= 2 && toks[0] == Tokens(items[0])[0] && toks[1] == Tokens(items[0])[1]
            && toks[2..] == Flatten(items[1..]) + tail
  {
    assert Flatten(items) + tail == Tokens(items[0]) + (Flatten(items[1..]) + tail);
  }

  /** Connections leave the IOs alone and the IO options leave the connections alone. */
  lemma {:induction false} ApplySplits(items: seq<Item>, st: Parsed, cs: seq<(string, string)>)
    requires Grouped(items, st.current.Some?)
    ensures Grouped(items, true) && Grouped(Groups(items), st.current.Some?)
    ensures ApplyAll(st, items)
         == ApplyAll(st.(connections := cs), Groups(items)).(connections := st.connections + Connections(items))
    ensures ApplyAll(st.(connections := cs), Groups(items)).connections == cs
    decreases |items|
  {
    if items != [] {
      var st' := Apply(st, items[0]);
      ApplySplits(items[1..], st', cs);
      if items[0].ConnectItem? {
        assert st.connections + Connections(items) == st'.connections + Connections(items[1..]);
      } else {
        var groups := Groups(items);
        assert groups[0] == items[0] && groups[1..] == Groups(items[1..]);
        assert Apply(st.(connections := cs), items[0]) == st'.(connections := cs);
      }
    }
  }

  lemma {:induction false} PairsSplit(items: seq<Item>, st: Parsed)
    requires Grouped(items, true)
    ensures Grouped(Pairs(items), false) && Grouped(Pairs(items), true)
    ensures Connections(Pairs(items)) == Connections(items) && Groups(Pairs(items)) == []
    decreases |items|
  {
    if items != [] {
      PairsSplit(items[1..], st);
      if items[0].ConnectItem? { assert Pairs(items)[1..] == Pairs(items[1..]); }
    }
  }

  /** The program name, which is the first of all arguments: any text that is not itself a flag the
      parser acts on before the first -io. */
  predicate IsProgramName(prog: string)
  {
    prog != "-io" && prog != "-connect"
  }

  /** A whole argument list. */
  function ArgumentList(prog: string, items: seq<Item>): seq<string>
  {
    [prog] + Flatten(items)
  }

  /** Parsing commutes with interleaving: the IO list is that of the groups alone, the connection list
      that of the pairs alone, each pair giving its connection in order. */
  lemma {:induction false} ParsingCommutesWithInterleaving(prog: string, items: seq<Item>)
    requires IsProgramName(prog) && Grouped(items, false)
    ensures Grouped(items, true)
    ensures var both := Parse(ArgumentList(prog, items), NOTHING);
            var groups := Parse(ArgumentList(prog, Groups(items)), NOTHING);
            var pairs := Parse(ArgumentList(prog, Pairs(items)), NOTHING);
            && both.error == groups.error == pairs.error == None
            && both.state == Parsed(groups.state.ios, pairs.state.connections, None)
            && groups.state.connections == [] && pairs.state.ios == []
            && pairs.state.connections == Connections(items)
  {
    ParseArgumentList(prog, items);
    ApplySplits(items, NOTHING, []);
    ParseArgumentList(prog, Groups(items));
    PairsSplit(items, NOTHING);
    ParseArgumentList(prog, Pairs(items));
    ApplySplits(Pairs(items), NOTHING, []);
  }

  lemma {:induction false} ParseArgumentList(prog: string, items: seq<Item>)
    requires IsProgramName(prog) && Grouped(items, false)
    ensures Parse(ArgumentList(prog, items), NOTHING) == Outcome(Flush(ApplyAll(NOTHING, items)), [], None)
  {
    assert ArgumentList(prog, items)[1..] == Flatten(items);
    ParseAlone(items);
  }

  lemma {:induction false} ParseAlone(items: seq<Item>)
    requires Grouped(items, false)
    ensures Parse(Flatten(items), NOTHING) == Outcome(Flush(ApplyAll(NOTHING, items)), [], None)
  {
    ParseItems(items, [], NOTHING);
    assert Flatten(items) + [] == Flatten(items);
  }

  // ---------------------------------------------------------------------------------------------
  // The options of each IO, for every argument list
  // ---------------------------------------------------------------------------------------------

  /** The items the parser acts on in any list of arguments; `open` says whether an IO is being read.
      Everything else is skipped, like a flag at the end that lacks its argument. */
  function Recognised(toks: seq<string>, open: bool): seq<Item>
    decreases |toks|
  {
    if |toks| < 2 then []
    else
      var val, arg, more := toks[0], toks[1], toks[2..];
      if val == "-io" then [IoItem(arg)] + Recognised(more, true)
      else if (val == "-name" || val == "-id") && open then [NameItem(val == "-id", arg)] + Recognised(more, open)
      else if val == "-p" && open then [ParameterItem(arg)] + Recognised(more, open)
      else if val == "-connect" then [ConnectItem(arg)] + Recognised(more, open)
      else Recognised(toks[1..], open)
  }

  /** What was accepted is the effect of the recognised items, one after another. */
  lemma {:induction false} AcceptedIsRecognised(toks: seq<string>, st: Parsed)
    requires Parse(toks, st).error == None
    ensures Grouped(Recognised(toks, st.current.Some?), st.current.Some?)
    ensures Parse(toks, st).state == Flush(ApplyAll(st, Recognised(toks, st.current.Some?)))
    decreases |toks|
  {
    if toks != [] {
      var val, more := toks[0], toks[1..];
      if more == [] {
        assert Parse([], st).state == Flush(st);
      } else {
        assert more[0] == toks[1] && more[1..] == toks[2..];
        if val == "-io" {
          AcceptedIsRecognised(toks[2..], OpenIo(st, toks[1]));
        } else if (val == "-name" || val == "-id") && st.current.Some? {
          AcceptedIsRecognised(toks[2..], SetId(st, toks[1]));
        } else if val == "-p" && st.current.Some? {
          AcceptedIsRecognised(toks[2..], AddParameter(st, toks[1]));
        } else if val == "-connect" {
          AcceptedIsRecognised(toks[2..], st.(connections := st.connections + [ConnectionOf(toks[1]).value]));
        } else {
          AcceptedIsRecognised(more, st);
        }
      }
    }
  }

  /** In a list that was composed of items, these are recognised, whatever their arguments look like. */
  lemma {:induction false} ComposedIsRecognised(items: seq<Item>, open: bool)
    requires Grouped(items, open)
    ensures Recognised(Flatten(items), open) == items
    decreases |items|
  {
    if items != [] {
      ItemIsRecognised(items[0], Flatten(items), open);
      assert Flatten(items)[2..] == Flatten(items[1..]);
      ComposedIsRecognised(items[1..], open || items[0].IoItem?);
      assert items == [items[0]] + items[1..];
    }
  }

  lemma ItemIsRecognised(item: Item, toks: seq<string>, open: bool)
    requires Grouped([item], open)
    requires |toks| >= 2 && toks[0] == Tokens(item)[0] && toks[1] == Tokens(item)[1]
    ensures Recognised(toks, open) == [item] + Recognised(toks[2..], open || item.IoItem?)
  {
  }

  lemma {:induction false} ArgumentListIsRecognised(prog: string, items: seq<Item>)
    requires IsProgramName(prog) && Grouped(items, false)
    ensures Recognised(ArgumentList(prog, items), false) == items
  {
    var toks := ArgumentList(prog, items);
    assert toks[1..] == Flatten(items);
    ComposedIsRecognised(items, false);
  }

  function IoCount(items: seq<Item>): nat
    decreases |items|
  {
    if items == [] then 0 else IoCount(items[1..]) + if items[0].IoItem? then 1 else 0
  }

  /** The items before the next -io. */
  function UpToIo(items: seq<Item>): seq<Item>
    decreases |items|
  {
    if items == [] || items[0].IoItem? then [] else [items[0]] + UpToIo(items[1..])
  }

  /** The n-th IO with all that comes before the next one. */
  function GroupAt(items: seq<Item>, n: nat): (group: seq<Item>)
    requires n < IoCount(items)
    ensures group != [] && group[0].IoItem?
    decreases |items|
  {
    if !items[0].IoItem? then GroupAt(items[1..], n)
    else if n == 0 then [items[0]] + UpToIo(items[1..])
    else GroupAt(items[1..], n - 1)
  }

  /** Where the n-th group stands in a composed list. */
  lemma {:induction false} GroupInList(before: seq<Item>, kind: string, options: seq<Item>, after: seq<Item>)
    requires forall i :: 0 <= i < |options| ==> !options[i].IoItem?
    requires after == [] || after[0].IoItem?
    ensures var items := before + ([IoItem(kind)] + (options + after));
            && IoCount(before) < IoCount(items)
            && GroupAt(items, IoCount(before)) == [IoItem(kind)] + options
    decreases |before|
  {
    var rest := [IoItem(kind)] + (options + after);
    if before == [] {
      assert before + rest == rest && rest[1..] == options + after;
      UpToIoEnds(options, after);
    } else {
      assert (before + rest)[1..] == before[1..] + rest;
      GroupInList(before[1..], kind, options, after);
    }
  }

  lemma {:induction false} UpToIoEnds(options: seq<Item>, after: seq<Item>)
    requires forall i :: 0 <= i < |options| ==> !options[i].IoItem?
    requires after == [] || after[0].IoItem?
    ensures UpToIo(options + after) == options
    decreases |options|
  {
    if options == [] {
      assert options + after == after;
    } else {
      assert (options + after)[1..] == options[1..] + after;
      UpToIoEnds(options[1..], after);
    }
  }

  /** The entries that the -p options among `items` stand for, in order. */
  function Entries(items: seq<Item>): seq<Entry>
    decreases |items|
  {
    if items == [] then []
    else (if items[0].ParameterItem? then [EntryOf(items[0].raw)] else []) + Entries(items[1..])
  }

  /** An IO cannot have more parameters than there are arguments. */
  lemma {:induction false} EntriesFit(toks: seq<string>, open: bool, n: nat)
    requires n < IoCount(Recognised(toks, open))
    ensures |InsertAll([], Entries(GroupAt(Recognised(toks, open), n)))| <= |toks|
  {
    var items := Recognised(toks, open);
    RecognisedFits(toks, open);
    GroupFits(items, n);
    EntriesFewer(GroupAt(items, n));
  }

  lemma {:induction false} RecognisedFits(toks: seq<string>, open: bool)
    ensures |Recognised(toks, open)| <= |toks|
    decreases |toks|
  {
    if |toks| >= 2 {
      RecognisedFits(toks[2..], true);
      RecognisedFits(toks[2..], open);
      RecognisedFits(toks[1..], open);
    }
  }

  lemma {:induction false} GroupFits(items: seq<Item>, n: nat)
    requires n < IoCount(items)
    ensures |GroupAt(items, n)| <= |items|
    decreases |items|
  {
    if !items[0].IoItem? {
      GroupFits(items[1..], n);
    } else if n == 0 {
      UpToIoFewer(items[1..]);
    } else {
      GroupFits(items[1..], n - 1);
    }
  }

  lemma {:induction false} UpToIoFewer(items: seq<Item>)
    ensures |UpToIo(items)| <= |items|
    decreases |items|
  {
    if items != [] { UpToIoFewer(items[1..]); }
  }

  lemma {:induction false} EntriesFewer(items: seq<Item>)
    ensures |Entries(items)| <= |items|
    decreases |items|
  {
    if items != [] { EntriesFewer(items[1..]); }
  }

  /** The name that the last name option among `items` gives, or `id` if there is none. */
  function LastName(id: string, items: seq<Item>): string
    decreases |items|
  {
    if items == [] then id
    else
      var last := items[|items| - 1];
      if last.NameItem? then last.name else LastName(id, items[..|items| - 1])
  }

  lemma {:induction false} NameFirst(id: string, item: Item, items: seq<Item>)
    ensures LastName(id, [item] + items) == LastName(if item.NameItem? then item.name else id, items)
    decreases |items|
  {
    var all := [item] + items;
    if items == [] {
      assert all[..0] == [] && all[|all| - 1] == item;
    } else {
      NameFirst(id, item, items[..|items| - 1]);
      assert all[..|all| - 1] == [item] + items[..|items| - 1];
    }
  }

  /** `io` is what was being read, `was`, after the further options `items`. */
  ghost predicate ReadFrom(io: IoConfig, was: IoConfig, items: seq<Item>)
  {
    && io.kind == was.kind
    && io.parameters == InsertAll(was.parameters, Entries(items))
    && io.id == LastName(was.id, items)
  }

  lemma {:induction false} ReadOn(io: IoConfig, st: Parsed, item: Item, items: seq<Item>)
    requires !item.IoItem? && Grouped([item], true) && st.current.Some?
    requires ReadFrom(io, Apply(st, item).current.value, items)
    ensures ReadFrom(io, st.current.value, [item] + items)
  {
    assert ([item] + items)[1..] == items;
    NameFirst(st.current.value.id, item, items);
    if item.ParameterItem? {
      var es := Entries([item] + items);
      assert es[0] == EntryOf(item.raw) && es[1..] == Entries(items);
    } else {
      assert Entries([item] + items) == Entries(items);
    }
  }

  /** What an -io option starts to read. */
  function Unread(kind: string): IoConfig
  {
    IoConfig("", kind, [])
  }

  /** `ios` are the IOs of `st`, the one being read with its further options `items`, and one for each
      group of `items`. */
  ghost predicate AppliedTo(st: Parsed, items: seq<Item>, ios: seq<IoConfig>)
  {
    && |ios| == |Flush(st).ios| + IoCount(items)
    && (forall j :: 0 <= j < |st.ios| ==> ios[j] == st.ios[j])
    && (st.current.Some? ==>
          ReadFrom(ios[|st.ios|], st.current.value, UpToIo(items)))
    && (forall j :: |Flush(st).ios| <= j < |ios| ==> ReadAt(ios[j], items, j - |Flush(st).ios|))
  }

  /** `io` was read from the n-th group of `items`. */
  ghost predicate ReadAt(io: IoConfig, items: seq<Item>, n: nat)
    requires n < IoCount(items)
  {
    ReadFrom(io, Unread(GroupAt(items, n)[0].kind), GroupAt(items, n))
  }

  lemma ReadNothing(io: IoConfig)
    ensures ReadFrom(io, io, [])
  {
  }

  lemma {:induction false} ReadGroup(io: IoConfig, kind: string, items: seq<Item>)
    requires ReadFrom(io, Unread(kind), UpToIo(items))
    ensures IoCount([IoItem(kind)] + items) > 0
    ensures ReadAt(io, [IoItem(kind)] + items, 0)
  {
    FirstGroup(kind, items);
  }

  lemma {:induction false} AppliedIo(st: Parsed, kind: string, items: seq<Item>, ios: seq<IoConfig>)
    requires AppliedTo(OpenIo(st, kind), items, ios)
    ensures AppliedTo(st, [IoItem(kind)] + items, ios)
  {
    var st', all, had := OpenIo(st, kind), [IoItem(kind)] + items, |Flush(st).ios|;
    FirstGroup(kind, items);
    assert had == |st'.ios| && had + 1 == |Flush(st').ios|;
    ReadGroup(ios[had], kind, items);
    if st.current.Some? {
      assert ios[|st.ios|] == st'.ios[|st.ios|] == st.current.value;
      ReadNothing(st.current.value);
    }
    forall j | had < j < |ios|
      ensures ReadAt(ios[j], all, j - had)
    {
      assert ReadAt(ios[j], items, j - (had + 1));
    }
  }

  lemma {:induction false} FirstGroup(kind: string, items: seq<Item>)
    ensures var all := [IoItem(kind)] + items;
            && UpToIo(all) == [] && IoCount(all) == IoCount(items) + 1
            && GroupAt(all, 0)[0] == IoItem(kind)
            && Entries(GroupAt(all, 0)) == Entries(UpToIo(items))
            && LastName("", GroupAt(all, 0)) == LastName("", UpToIo(items))
            && forall n :: 0 < n < IoCount(all) ==> GroupAt(all, n) == GroupAt(items, n - 1)
  {
    var all := [IoItem(kind)] + items;
    assert all[1..] == items;
    assert GroupAt(all, 0) == [IoItem(kind)] + UpToIo(items) && GroupAt(all, 0)[1..] == UpToIo(items);
    NameFirst("", IoItem(kind), UpToIo(items));
  }

  lemma {:induction false} AppliedOption(st: Parsed, item: Item, items: seq<Item>, ios: seq<IoConfig>)
    requires Grouped([item], st.current.Some?) && !item.IoItem?
    requires AppliedTo(Apply(st, item), items, ios)
    ensures AppliedTo(st, [item] + items, ios)
  {
    var all := [item] + items;
    assert all[1..] == items && UpToIo(all) == [item] + UpToIo(items);
    if st.current.Some? {
      ReadOn(ios[|st.ios|], st, item, UpToIo(items));
    }
    forall j | |Flush(st).ios| <= j < |ios|
      ensures ReadAt(ios[j], all, j - |Flush(st).ios|)
    {
      assert ReadAt(ios[j], items, j - |Flush(st).ios|);
      assert GroupAt(all, j - |Flush(st).ios|) == GroupAt(items, j - |Flush(st).ios|);
    }
  }

  lemma {:induction false} AppliedIos(items: seq<Item>, st: Parsed)
    requires Grouped(items, st.current.Some?)
    ensures AppliedTo(st, items, Flush(ApplyAll(st, items)).ios)
    decreases |items|
  {
    if items != [] {
      var item, rest := items[0], items[1..];
      var ios := Flush(ApplyAll(st, items)).ios;
      AppliedIos(rest, Apply(st, item));
      assert items == [item] + rest;
      if item.IoItem? {
        AppliedIo(st, item.kind, rest, ios);
      } else {
        AppliedOption(st, item, rest, ios);
      }
    }
  }

  /** One IO for each group of `items`, with its type, its last name and the parameters of its options. */
  ghost predicate AllRead(ios: seq<IoConfig>, items: seq<Item>)
  {
    && |ios| == IoCount(items)
    && forall n :: 0 <= n < |ios| ==>
         var group := GroupAt(items, n);
         && ios[n].kind == group[0].kind
         && ios[n].parameters == InsertAll([], Entries(group))
         && ios[n].id == LastName("", group)
  }

  lemma {:induction false} AppliedToNothing(items: seq<Item>, ios: seq<IoConfig>)
    requires AppliedTo(NOTHING, items, ios)
    ensures AllRead(ios, items)
  {
    forall n | 0 <= n < |ios|
      ensures ReadAt(ios[n], items, n)
    {
    }
  }

  /** For every accepted argument list, whatever it contains: there is one IO for each -io that is
      recognised, with its type, the last name given to it, or none, and the parameters of its own
      options, in order. */
  lemma {:induction false} ParsedIos(args: seq<string>)
    requires Parse(args, NOTHING).error == None
    ensures AllRead(Parse(args, NOTHING).state.ios, Recognised(args, false))
  {
    var items := Recognised(args, false);
    AcceptedIsRecognised(args, NOTHING);
    AppliedIos(items, NOTHING);
    AppliedToNothing(items, Flush(ApplyAll(NOTHING, items)).ios);
  }

  /** And its connections are those that its -connect options stand for, in order. */
  lemma {:induction false} ParsedConnections(args: seq<string>)
    requires Parse(args, NOTHING).error == None
    ensures Grouped(Recognised(args, false), true)
    ensures Parse(args, NOTHING).state.connections == Connections(Recognised(args, false))
  {
    var items := Recognised(args, false);
    AcceptedIsRecognised(args, NOTHING);
    ApplySplits(items, NOTHING, []);
    assert [] + Connections(items) == Connections(items);
  }

  // ---------------------------------------------------------------------------------------------
  // What the parser skips and what it rejects
  // ---------------------------------------------------------------------------------------------

  lemma {:induction false} OpenAfter(items: seq<Item>, st: Parsed)
    requires Grouped(items, st.current.Some?)
    ensures ApplyAll(st, items).current.Some? <==> st.current.Some? || IoCount(items) > 0
    decreases |items|
  {
    if items != [] { OpenAfter(items[1..], Apply(st, items[0])); }
  }

  /** A flag the parser acts on after the items `before`. */
  predicate IsFlag(val: string, before: seq<Item>)
  {
    val in {"-io", "-connect"} || (val in {"-name", "-id", "-p"} && IoCount(before) > 0)
  }

  /** Any other argument in the place of a flag is skipped, alone. */
  lemma {:induction false} StrayIsSkipped(before: seq<Item>, stray: string, rest: seq<string>)
    requires Grouped(before, false) && !IsFlag(stray, before)
    ensures Parse(Flatten(before) + ([stray] + rest), NOTHING) == Parse(Flatten(before) + rest, NOTHING)
  {
    ParseItems(before, [stray] + rest, NOTHING);
    ParseItems(before, rest, NOTHING);
    OpenAfter(before, NOTHING);
    assert ([stray] + rest)[1..] == rest;
  }

  /** A flag at the end that lacks its argument is skipped too, but for -connect, which is an error.  On an
      error the IO being read is dropped, and what was complete before stays. */
  lemma {:induction false} FlagAtEnd(before: seq<Item>, flag: string)
    requires Grouped(before, false) && IsFlag(flag, before)
    ensures var o, done := Parse(Flatten(before) + [flag], NOTHING), ApplyAll(NOTHING, before);
            if flag == "-connect" then o == Outcome(done.(current := None), [], Some(MISSING_CONNECT))
            else o == Parse(Flatten(before), NOTHING)
  {
    ParseItems(before, [flag], NOTHING);
    ParseAlone(before);
    OpenAfter(before, NOTHING);
    assert [flag][1..] == [];
  }

  /** So is a -connect whose argument is not a connection. */
  lemma {:induction false} BadConnection(before: seq<Item>, raw: string, rest: seq<string>)
    requires Grouped(before, false) && ConnectionOf(raw) == None
    ensures Parse(Flatten(before) + (["-connect", raw] + rest), NOTHING)
         == Outcome(ApplyAll(NOTHING, before).(current := None), rest, Some(INVALID_CONNECT))
  {
    var tail := ["-connect", raw] + rest;
    ParseItems(before, tail, NOTHING);
    assert tail[0] == "-connect" && tail[1..][0] == raw && tail[1..][1..] == rest;
  }

  // ---------------------------------------------------------------------------------------------
  // What the arguments of -p and -connect stand for
  // ---------------------------------------------------------------------------------------------

  /** A key alone stands for the text "true"; after the first equals sign comes the value. */
  lemma {:induction false} EntryExactly(key: string, value: string)
    requires '=' !in key
    ensures EntryOf(key) == Entry(key, Text("true"))
    ensures EntryOf(key + "=" + value) == Entry(key, Text(value))
  {
    IndexOfFirst(key, '=', value);
    var raw := key + "=" + value;
    assert raw[..|key|] == key && raw[|key| + 1..] == value;
  }

  ghost predicate Spaces(s: string)
  {
    forall i :: 0 <= i < |s| ==> IsSpace(s[i])
  }

  /** Trimming takes away the spaces at both ends and nothing else. */
  lemma {:induction false} TrimmedExactly(s: string) returns (a: string, b: string)
    ensures s == a + Trimmed(s) + b && Spaces(a) && Spaces(b)
    ensures Trimmed(s) != [] ==> !IsSpace(Trimmed(s)[0]) && !IsSpace(Trimmed(s)[|Trimmed(s)| - 1])
  {
    a := TrimLeftExactly(s);
    b := TrimRightExactly(TrimLeft(s));
    TrimRightIs(TrimLeft(s));
    assert a + (Trimmed(s) + b) == a + Trimmed(s) + b;
  }

  lemma {:induction false} TrimLeftExactly(s: string) returns (a: string)
    ensures s == a + TrimLeft(s) && Spaces(a)
    ensures TrimLeft(s) != [] ==> !IsSpace(TrimLeft(s)[0])
    decreases |s|
  {
    if s != [] && IsSpace(s[0]) {
      var rest := TrimLeftExactly(s[1..]);
      a := [s[0]] + rest;
      assert s == [s[0]] + s[1..] == [s[0]] + (rest + TrimLeft(s)) == a + TrimLeft(s);
    } else {
      a := [];
    }
  }

  lemma {:induction false} TrimRightExactly(s: string) returns (b: string)
    ensures s == TrimRight(s) + b && Spaces(b)
    decreases |s|
  {
    if s != [] && IsSpace(s[|s| - 1]) {
      var rest := TrimRightExactly(s[..|s| - 1]);
      var last := [s[|s| - 1]];
      b := rest + last;
      assert s == s[..|s| - 1] + last == (TrimRight(s) + rest) + last == TrimRight(s) + b;
    } else {
      b := [];
    }
  }

  ghost predicate Commas(s: string)
  {
    forall i :: 0 <= i < |s| ==> s[i] == ','
  }

  /** Two names with commas between them, and perhaps around them. */
  ghost predicate TwoNames(raw: string, a: string, b: string)
  {
    && a != [] && b != [] && ',' !in a && ',' !in b
    && exists x, y, z :: Commas(x) && Commas(y) && Commas(z) && y != [] && raw == x + (a + (y + (b + z)))
  }

  function Names(raw: string): seq<string>
  {
    NonEmpty(Parts(raw, ','))
  }

  lemma {:induction false} CommasSkipped(x: string, s: string)
    requires Commas(x)
    ensures Names(x + s) == Names(s)
    decreases |x|
  {
    if x == [] {
      assert x + s == s;
    } else {
      CommasSkipped(x[1..], s);
      var raw := x + s;
      assert raw[0] == ',' && raw[1..] == x[1..] + s;
      assert Parts(raw, ',') == [raw[..0]] + Parts(raw[1..], ',');
      assert Parts(raw, ',')[1..] == Parts(raw[1..], ',');
    }
  }

  lemma {:induction false} NameTaken(a: string, s: string)
    requires a != [] && ',' !in a && (s == [] || s[0] == ',')
    ensures Names(a + s) == [a] + Names(s)
  {
    if s == [] {
      assert a + s == a && Parts(a, ',') == [a] && Parts(s, ',') == [[]];
      assert [a][1..] == [] && [s][1..] == [];
    } else {
      var raw, rest := a + s, s[1..];
      IndexOfFirst(a, ',', rest);
      assert raw == a + [','] + rest;
      assert raw[..|a|] == a && raw[|a| + 1..] == rest;
      assert Parts(raw, ',') == [a] + Parts(rest, ',') && Parts(raw, ',')[1..] == Parts(rest, ',');
      CommasSkipped([','], rest);
      assert [','] + rest == s;
    }
  }

  /** `s` begins with the commas `x` and the name `a`, and goes on with `t`. */
  ghost predicate BeginsWith(s: string, x: string, a: string, t: string)
  {
    && s == x + (a + t) && Commas(x) && a != [] && ',' !in a && (t == [] || t[0] == ',')
    && Names(s) == [a] + Names(t)
  }

  lemma {:induction false} CommaBefore(s: string, x: string, a: string, t: string)
    requires BeginsWith(s, x, a, t)
    ensures BeginsWith([','] + s, [','] + x, a, t)
  {
    CommasSkipped([','], s);
    assert [','] + (x + (a + t)) == ([','] + x) + (a + t);
  }

  lemma {:induction false} NameAtStart(s: string) returns (a: string, t: string)
    requires s != [] && s[0] != ','
    ensures BeginsWith(s, [], a, t)
  {
    var pos := IndexOf(s, ',');
    a, t := if pos == -1 then s else s[..pos], if pos == -1 then [] else s[pos..];
    assert s == a + t == [] + (a + t);
    NameTaken(a, t);
  }

  /** The commas in front, the first name, and what follows it. */
  lemma {:induction false} FirstName(s: string) returns (x: string, a: string, t: string)
    ensures Names(s) == [] ==> Commas(s)
    ensures Names(s) != [] ==> BeginsWith(s, x, a, t)
    decreases |s|
  {
    x, a, t := [], [], [];
    if s != [] && s[0] == ',' {
      assert s == [','] + s[1..];
      CommasSkipped([','], s[1..]);
      var rest;
      rest, a, t := FirstName(s[1..]);
      x := [','] + rest;
      if Names(s) != [] { CommaBefore(s[1..], rest, a, t); }
    } else if s != [] {
      a, t := NameAtStart(s);
    }
  }

  /** A -connect argument is accepted if and only if it is two names with commas between them, and stands
      for the two, trimmed. */
  lemma {:induction false} ConnectionExactly(raw: string)
    ensures forall a, b :: TwoNames(raw, a, b) ==> ConnectionOf(raw) == Some((Trimmed(a), Trimmed(b)))
    ensures ConnectionOf(raw).Some? <==> exists a, b :: TwoNames(raw, a, b)
  {
    forall a, b | TwoNames(raw, a, b)
      ensures ConnectionOf(raw) == Some((Trimmed(a), Trimmed(b)))
    {
      TwoNamesTaken(raw, a, b);
    }
    if ConnectionOf(raw).Some? {
      var x, a, t := FirstName(raw);
      var y, b, z := FirstName(t);
      var _, _, _ := FirstName(z);
      assert Names(raw) == [a] + ([b] + Names(z));
      assert t == y + (b + z);
      FirstOf(y, b, z);
      assert b[0] in b;
      assert raw == x + (a + (y + (b + z)));
      assert TwoNames(raw, a, b);
    }
  }

  lemma FirstOf(y: string, b: string, z: string)
    requires b != []
    ensures (y + (b + z))[0] == if y == [] then b[0] else y[0]
  {
  }

  lemma {:induction false} TwoNamesTaken(raw: string, a: string, b: string)
    requires TwoNames(raw, a, b)
    ensures ConnectionOf(raw) == Some((Trimmed(a), Trimmed(b)))
  {
    var x, y, z :| Commas(x) && Commas(y) && Commas(z) && y != [] && raw == x + (a + (y + (b + z)));
    CommasSkipped(x, a + (y + (b + z)));
    NameTaken(a, y + (b + z));
    CommasSkipped(y, b + z);
    NameTaken(b, z);
    CommasSkipped(z, []);
    assert z + [] == z && Parts([], ',') == [[]] && Names([]) == [];
    assert Names(raw) == [a] + ([b] + []) == [a, b];
  }

  // ---------------------------------------------------------------------------------------------
  // What the parser can produce
  // ---------------------------------------------------------------------------------------------

  /** A connection name: no separator in it and no blanks around it. */
  ghost predicate CleanName(s: string)
  {
    ',' !in s && Trimmed(s) == s
  }

  ghost predicate CleanEntry(e: Entry)
  {
    '=' !in e.key && e.value.Text?
  }

  ghost predicate CleanIo(io: IoConfig)
  {
    Sorted(io.parameters) && forall i :: 0 <= i < |io.parameters| ==> CleanEntry(io.parameters[i])
  }

  ghost predicate Clean(st: Parsed)
  {
    && (forall i :: 0 <= i < |st.ios| ==> CleanIo(st.ios[i]))
    && (st.current.Some? ==> CleanIo(st.current.value))
    && (forall i :: 0 <= i < |st.connections| ==> CleanName(st.connections[i].0) && CleanName(st.connections[i].1))
  }

  lemma {:induction false} TrimLeftIs(s: string)
    ensures var r := TrimLeft(s);
            && |r| <= |s| && r == s[|s| - |r|..]
            && (r == [] || !IsSpace(r[0]))
    decreases |s|
  {
    if s != [] && IsSpace(s[0]) { TrimLeftIs(s[1..]); }
  }

  lemma {:induction false} TrimRightIs(s: string)
    ensures var r := TrimRight(s);
            && |r| <= |s| && r == s[..|r|]
            && (r == [] || !IsSpace(r[|r| - 1]))
    decreases |s|
  {
    if s != [] && IsSpace(s[|s| - 1]) { TrimRightIs(s[..|s| - 1]); }
  }

  lemma {:induction false} TrimmedIsClean(s: string)
    requires ',' !in s
    ensures CleanName(Trimmed(s))
  {
    var l := TrimLeft(s);
    var t := TrimRight(l);
    TrimLeftIs(s);
    TrimRightIs(l);
    assert t != [] ==> t[0] == l[0];
    assert TrimLeft(t) == t && TrimRight(t) == t;
  }

  lemma {:induction false} PartsHaveNoSeparator(s: string, c: char)
    ensures forall i :: 0 <= i < |Parts(s, c)| ==> c !in Parts(s, c)[i]
    decreases |s|
  {
    if IndexOf(s, c) != -1 { PartsHaveNoSeparator(s[IndexOf(s, c) + 1..], c); }
  }

  lemma {:induction false} NonEmptyAreParts(ss: seq<string>)
    ensures forall i :: 0 <= i < |NonEmpty(ss)| ==> NonEmpty(ss)[i] in ss
    decreases |ss|
  {
    if ss != [] {
      NonEmptyAreParts(ss[1..]);
      forall i | 0 <= i < |NonEmpty(ss)|
        ensures NonEmpty(ss)[i] in ss
      {
        var first := if ss[0] != [] then 1 else 0;
        if i >= first { assert NonEmpty(ss)[i] == NonEmpty(ss[1..])[i - first]; }
      }
    }
  }

  lemma {:induction false} ConnectionIsClean(raw: string)
    requires ConnectionOf(raw).Some?
    ensures CleanName(ConnectionOf(raw).value.0) && CleanName(ConnectionOf(raw).value.1)
  {
    var kv := NonEmpty(Parts(raw, ','));
    PartsHaveNoSeparator(raw, ',');
    NonEmptyAreParts(Parts(raw, ','));
    assert kv[0] in Parts(raw, ',') && kv[1] in Parts(raw, ',');
    TrimmedIsClean(kv[0]);
    TrimmedIsClean(kv[1]);
  }

  lemma {:induction false} InsertIsClean(io: IoConfig, e: Entry)
    requires CleanIo(io) && CleanEntry(e)
    ensures CleanIo(io.(parameters := Insert(io.parameters, e.key, e.value)))
    decreases |io.parameters|
  {
    var m := io.parameters;
    InsertKeepsSorted(m, e.key, e.value);
    if m != [] && Less(m[0].key, e.key) {
      InsertIsClean(io.(parameters := m[1..]), e);
      var r, rest := Insert(m, e.key, e.value), Insert(m[1..], e.key, e.value);
      assert forall i :: 0 < i < |r| ==> r[i] == rest[i - 1];
    }
  }

  lemma {:induction false} ParseIsClean(toks: seq<string>, st: Parsed)
    requires Clean(st)
    ensures Clean(Parse(toks, st).state)
    decreases |toks|
  {
    if toks != [] {
      var val, more := toks[0], toks[1..];
      if val == "-io" {
        if more != [] { ParseIsClean(more[1..], OpenIo(st, more[0])); }
      } else if (val == "-name" || val == "-id") && st.current.Some? {
        if more != [] { ParseIsClean(more[1..], SetId(st, more[0])); }
      } else if val == "-p" && st.current.Some? {
        if more != [] {
          InsertIsClean(st.current.value, EntryOf(more[0]));
          ParseIsClean(more[1..], AddParameter(st, more[0]));
        }
      } else if val == "-connect" {
        if more != [] && ConnectionOf(more[0]).Some? {
          ConnectionIsClean(more[0]);
          ParseIsClean(more[1..], st.(connections := st.connections + [ConnectionOf(more[0]).value]));
        }
      } else {
        ParseIsClean(more, st);
      }
    }
  }

  // ---------------------------------------------------------------------------------------------
  // The canonical command line
  // ---------------------------------------------------------------------------------------------

  function TextOf(v: Variant): string
  {
    if v.Text? then v.text else ""
  }

  /** The parameters of a key come oldest first. */
  function ParameterItems(m: Params): seq<Item>
    decreases |m|
  {
    if m == [] then [] else ParameterItems(m[1..]) + [ParameterItem(m[0].key + "=" + TextOf(m[0].value))]
  }

  function IoItems(ios: seq<IoConfig>): seq<Item>
    decreases |ios|
  {
    if ios == [] then []
    else [IoItem(ios[0].kind), NameItem(false, ios[0].id)] + ParameterItems(ios[0].parameters) + IoItems(ios[1..])
  }

  /** An empty name is written as a blank, since an empty part would be skipped. */
  function NameText(name: string): string
  {
    if name == "" then " " else name
  }

  function ConnectText(c: (string, string)): string
  {
    NameText(c.0) + "," + NameText(c.1)
  }

  function ConnectItems(cs: seq<(string, string)>): seq<Item>
    decreases |cs|
  {
    if cs == [] then [] else [ConnectItem(ConnectText(cs[0]))] + ConnectItems(cs[1..])
  }

  /** The program name, the IOs, the connections. */
  function Print(st: Parsed): seq<string>
  {
    ArgumentList("ioproxy-cli", IoItems(st.ios) + ConnectItems(st.connections))
  }

  lemma {:induction false} IndexOfFirst(a: string, c: char, b: string)
    requires c !in a
    ensures IndexOf(a + [c] + b, c) == |a|
  {
    var s := a + [c] + b;
    assert s[|a|] == c && s[..|a|] == a;
  }

  lemma {:induction false} EntryRoundTrip(e: Entry)
    requires CleanEntry(e)
    ensures EntryOf(e.key + "=" + TextOf(e.value)) == e
  {
    var raw := e.key + "=" + TextOf(e.value);
    IndexOfFirst(e.key, '=', TextOf(e.value));
    assert raw[..|e.key|] == e.key && raw[|e.key| + 1..] == TextOf(e.value);
  }

  lemma {:induction false} ConnectionRoundTrip(c: (string, string))
    requires CleanName(c.0) && CleanName(c.1)
    ensures ConnectionOf(ConnectText(c)) == Some(c)
  {
    var a, b := NameText(c.0), NameText(c.1);
    var raw := a + "," + b;
    IndexOfFirst(a, ',', b);
    assert raw[..|a|] == a && raw[|a| + 1..] == b;
    assert Parts(b, ',') == [b] && Parts(raw, ',') == [a, b];
    assert NonEmpty([b]) == [b] && NonEmpty([a, b]) == [a, b] by {
      assert [a, b][1..] == [b] && [b][1..] == [];
    }
    assert Trimmed(" ") == "" by { assert TrimLeft(" ") == TrimLeft(" "[1..]) == ""; }
  }

  lemma {:induction false} ApplyAppend(a: seq<Item>, b: seq<Item>, st: Parsed)
    requires Grouped(a, st.current.Some?) && Grouped(b, ApplyAll(st, a).current.Some?)
    ensures Grouped(a + b, st.current.Some?) && ApplyAll(st, a + b) == ApplyAll(ApplyAll(st, a), b)
    decreases |a|
  {
    if a == [] {
      assert a + b == b;
    } else {
      var ab := a + b;
      assert ab[0] == a[0] && ab[1..] == a[1..] + b;
      ApplyAppend(a[1..], b, Apply(st, a[0]));
    }
  }

  lemma {:induction false} ApplyParameters(m: Params, st: Parsed)
    requires st.current.Some? && st.current.value.parameters == [] && CleanIo(st.current.value.(parameters := m))
    ensures Grouped(ParameterItems(m), true)
    ensures ApplyAll(st, ParameterItems(m)) == st.(current := Some(st.current.value.(parameters := m)))
    decreases |m|
  {
    if m != [] {
      var item := ParameterItem(m[0].key + "=" + TextOf(m[0].value));
      ApplyParameters(m[1..], st);
      ApplyAppend(ParameterItems(m[1..]), [item], st);
      EntryRoundTrip(m[0]);
      assert Insert(m[1..], m[0].key, m[0].value) == m by {
        assert m == [m[0]] + m[1..];
        assert m[1..] != [] ==> !Less(m[1].key, m[0].key);
      }
    }
  }

  lemma {:induction false} ApplyIo(io: IoConfig, st: Parsed)
    requires CleanIo(io)
    ensures var items := [IoItem(io.kind), NameItem(false, io.id)] + ParameterItems(io.parameters);
            && Grouped(items, st.current.Some?)
            && ApplyAll(st, items) == Flush(st).(current := Some(io))
  {
    var first := [IoItem(io.kind), NameItem(false, io.id)];
    var named := OpenIo(st, io.kind).(current := Some(IoConfig(io.id, io.kind, [])));
    assert first[1..] == [NameItem(false, io.id)] && first[1..][1..] == [];
    assert Grouped(first[1..][1..], true) && Grouped(first[1..], true);
    assert ApplyAll(st, first) == ApplyAll(OpenIo(st, io.kind), first[1..]) == ApplyAll(named, []);
    ApplyParameters(io.parameters, named);
    ApplyAppend(first, ParameterItems(io.parameters), st);
  }

  lemma {:induction false} ApplyIos(ios: seq<IoConfig>, st: Parsed)
    requires forall i :: 0 <= i < |ios| ==> CleanIo(ios[i])
    ensures Grouped(IoItems(ios), st.current.Some?)
    ensures Flush(ApplyAll(st, IoItems(ios))) == Flush(st).(ios := Flush(st).ios + ios)
    decreases |ios|
  {
    if ios == [] {
      assert Flush(st).ios + ios == Flush(st).ios;
    } else {
      var io := ios[0];
      var items := [IoItem(io.kind), NameItem(false, io.id)] + ParameterItems(io.parameters);
      ApplyIo(io, st);
      ApplyIos(ios[1..], ApplyAll(st, items));
      ApplyAppend(items, IoItems(ios[1..]), st);
      AppendFirst(Flush(st).ios, ios);
    }
  }

  lemma ApplyConnect(raw: string, c: (string, string), more: seq<Item>, st: Parsed)
    requires ConnectionOf(raw) == Some(c) && Grouped(more, st.current.Some?)
    ensures Grouped([ConnectItem(raw)] + more, st.current.Some?)
    ensures ApplyAll(st, [ConnectItem(raw)] + more) == ApplyAll(st.(connections := st.connections + [c]), more)
  {
  }

  lemma AppendFirst<T>(s: seq<T>, t: seq<T>)
    requires t != []
    ensures s + [t[0]] + t[1..] == s + t
  {
  }

  lemma {:induction false} ApplyConnections(cs: seq<(string, string)>, st: Parsed)
    requires forall i :: 0 <= i < |cs| ==> ConnectionOf(ConnectText(cs[i])) == Some(cs[i])
    ensures Grouped(ConnectItems(cs), st.current.Some?)
    ensures ApplyAll(st, ConnectItems(cs)) == st.(connections := st.connections + cs)
    decreases |cs|
  {
    if cs == [] {
      assert st.connections + cs == st.connections;
    } else {
      var st' := st.(connections := st.connections + [cs[0]]);
      AppendFirst(st.connections, cs);
      ApplyConnections(cs[1..], st');
      ApplyConnect(ConnectText(cs[0]), cs[0], ConnectItems(cs[1..]), st);
    }
  }

  lemma {:induction false} CleanConnectionsParse(cs: seq<(string, string)>)
    requires forall i :: 0 <= i < |cs| ==> CleanName(cs[i].0) && CleanName(cs[i].1)
    ensures forall i :: 0 <= i < |cs| ==> ConnectionOf(ConnectText(cs[i])) == Some(cs[i])
  {
    forall i | 0 <= i < |cs|
      ensures ConnectionOf(ConnectText(cs[i])) == Some(cs[i])
    {
      ConnectionRoundTrip(cs[i]);
    }
  }

  /** The canonical command line of a clean configuration is parsed to that configuration. */
  lemma {:induction false} CleanPrintParses(st: Parsed)
    requires Clean(st) && st.current == None
    ensures Parse(Print(st), NOTHING) == Outcome(st, [], None)
  {
    var a, b := IoItems(st.ios), ConnectItems(st.connections);
    CleanConnectionsParse(st.connections);
    ApplyIos(st.ios, NOTHING);
    ApplyConnections(st.connections, ApplyAll(NOTHING, a));
    ApplyAppend(a, b, NOTHING);
    ParseArgumentList("ioproxy-cli", a + b);
  }

  /** Whatever a list of arguments was parsed to, the canonical command line of the result is parsed
      to the same IOs, parameters and connections. */
  lemma {:induction false} PrintParses(args: seq<string>)
    requires Parse(args, NOTHING).error == None
    ensures var st := Parse(args, NOTHING).state;
            Parse(Print(st), NOTHING) == Outcome(st, [], None)
  {
    var st := Parse(args, NOTHING).state;
    ParseIsClean(args, NOTHING);
    FinishedParse(args, NOTHING);
    CleanPrintParses(st);
  }

  lemma {:induction false} FinishedParse(toks: seq<string>, st: Parsed)
    ensures Parse(toks, st).state.current == None
    ensures Parse(toks, st).error == None ==> Parse(toks, st).rest == []
    decreases |toks|
  {
    if toks != [] {
      var val, more := toks[0], toks[1..];
      if val == "-io" {
        if more != [] { FinishedParse(more[1..], OpenIo(st, more[0])); }
      } else if (val == "-name" || val == "-id") && st.current.Some? {
        if more != [] { FinishedParse(more[1..], SetId(st, more[0])); }
      } else if val == "-p" && st.current.Some? {
        if more != [] { FinishedParse(more[1..], AddParameter(st, more[0])); }
      } else if val == "-connect" {
        if more != [] && ConnectionOf(more[0]).Some? {
          FinishedParse(more[1..], st.(connections := st.connections + [ConnectionOf(more[0]).value]));
        }
      } else {
        FinishedParse(more, st);
      }
    }
  }
}

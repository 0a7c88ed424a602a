/**
  The command line parser: `CmdLineConfig::fromArguments` as a loop over a cursor, the recursive
  parser it refines, and the canonical command line of a configuration.
*/
module CmdLine {
  import opened Parameters
  import opened Wrappers

  /** `Config::IO`. */
  datatype IoConfig = IoConfig(id: string, kind: string, parameters: Params)

  // ---------------------------------------------------------------------------------------------
  // Strings
  // ---------------------------------------------------------------------------------------------

  /** QChar::isSpace. */
  predicate IsSpace(c: char)
  {
    || c == ' ' || '\t' <= c <= '\r'
    || c in {'\U{85}', '\U{A0}', '\U{1680}', '\U{2028}', '\U{2029}', '\U{202F}', '\U{205F}', '\U{3000}'}
    || '\U{2000}' <= c <= '\U{200A}'
  }

  function TrimLeft(s: string): string
    decreases |s|
  {
    if s != [] && IsSpace(s[0]) then TrimLeft(s[1..]) else s
  }

  function TrimRight(s: string): string
    decreases |s|
  {
    if s != [] && IsSpace(s[|s| - 1]) then TrimRight(s[..|s| - 1]) else s
  }

  function Trimmed(s: string): string
  {
    TrimRight(TrimLeft(s))
  }

  /** The position of the first `c` in `s`, or -1. */
  function IndexOf(s: string, c: char): (r: int)
    ensures r == -1 ==> c !in s
    ensures r != -1 ==> 0 <= r < |s| && s[r] == c && c !in s[..r]
    decreases |s|
  {
    if s == [] then -1
    else if s[0] == c then 0
    else
      var r := IndexOf(s[1..], c);
      assert s == [s[0]] + s[1..];
      if r == -1 then -1
      else
        assert s[..r + 1] == [s[0]] + s[1..][..r];
        r + 1
  }

  /** The parts of `s` between separators, empty ones included. */
  function Parts(s: string, c: char): seq<string>
    decreases |s|
  {
    var pos := IndexOf(s, c);
    if pos == -1 then [s] else [s[..pos]] + Parts(s[pos + 1..], c)
  }

  function NonEmpty(ss: seq<string>): seq<string>
    decreases |ss|
  {
    if ss == [] then []
    else (if ss[0] != [] then [ss[0]] else []) + NonEmpty(ss[1..])
  }

  // ---------------------------------------------------------------------------------------------
  // The parser on values
  // ---------------------------------------------------------------------------------------------

  const MISSING_CONNECT := "Missing value for -connect <source>,<destination>"
  const INVALID_CONNECT := "Invalid syntax for -connection argument"
  const EMPTY_ARGUMENTS := "Empty argument list."

  /** What has been parsed; `current` is the IO whose options are being read. */
  datatype Parsed = Parsed(ios: seq<IoConfig>, connections: seq<(string, string)>, current: Option<IoConfig>)

  /** `rest` are the arguments after the cursor. */
  datatype Outcome = Outcome(state: Parsed, rest: seq<string>, error: Option<string>)

  const NOTHING := Parsed([], [], None)

  function Flush(st: Parsed): Parsed
  {
    match st.current
    case None => st
    case Some(io) => st.(ios := st.ios + [io], current := None)
  }

  function OpenIo(st: Parsed, kind: string): Parsed
  {
    Flush(st).(current := Some(IoConfig("", kind, [])))
  }

  function SetId(st: Parsed, id: string): Parsed
    requires st.current.Some?
  {
    st.(current := Some(st.current.value.(id := id)))
  }

  /** The key and value that a `-p` argument stands for. */
  function EntryOf(raw: string): Entry
  {
    var pos := IndexOf(raw, '=');
    if pos == -1 then Entry(raw, Text("true")) else Entry(raw[..pos], Text(raw[pos + 1..]))
  }

  function AddParameter(st: Parsed, raw: string): Parsed
    requires st.current.Some?
  {
    var e := EntryOf(raw);
    st.(current := Some(st.current.value.(parameters := Insert(st.current.value.parameters, e.key, e.value))))
  }

  /** The connection that a `-connect` argument stands for, if it is well-formed. */
  function ConnectionOf(raw: string): Option<(string, string)>
  {
    var kv := NonEmpty(Parts(raw, ','));
    if |kv| == 2 then Some((Trimmed(kv[0]), Trimmed(kv[1]))) else None
  }

  function Parse(toks: seq<string>, st: Parsed): Outcome
    decreases |toks|
  {
    if toks == [] then Outcome(Flush(st), [], None)
    else
      var val, more := toks[0], toks[1..];
      if val == "-io" then
        if more == [] then Outcome(Flush(st), [], None) else Parse(more[1..], OpenIo(st, more[0]))
      else if (val == "-name" || val == "-id") && st.current.Some? then
        if more == [] then Outcome(Flush(st), [], None) else Parse(more[1..], SetId(st, more[0]))
      else if val == "-p" && st.current.Some? then
        if more == [] then Outcome(Flush(st), [], None) else Parse(more[1..], AddParameter(st, more[0]))
      else if val == "-connect" then
        if more == [] then Outcome(st.(current := None), [], Some(MISSING_CONNECT))
        else
          match ConnectionOf(more[0])
          case None => Outcome(st.(current := None), more[1..], Some(INVALID_CONNECT))
          case Some(c) => Parse(more[1..], st.(connections := st.connections + [c]))
      else Parse(more, st)
  }

  // ---------------------------------------------------------------------------------------------
  // The parser as it runs
  // ---------------------------------------------------------------------------------------------

  /** The arguments after the cursor `index`. */
  function Remaining(arguments: seq<string>, index: int): seq<string>
    requires index >= -1
  {
    if index + 1 <= |arguments| then arguments[index + 1..] else []
  }

  class CmdLineConfig {
    var arguments: seq<string>
    var index: int
    var ios: seq<IoConfig>
    var connections: seq<(string, string)>

    constructor ()
      ensures index == -1 && ios == [] && connections == []
    {
      arguments, index, ios, connections := [], -1, [], [];
    }

    predicate HasNext()
      reads this
    {
      |arguments| > index + 1
    }

    method Next() returns (ok: bool, value: string)
      requires index >= -1
      modifies this`index
      ensures ok <==> Remaining(arguments, old(index)) != []
      ensures index >= -1
      ensures ok ==>
                && index == old(index) + 1
                && value == Remaining(arguments, old(index))[0]
                && Remaining(arguments, index) == Remaining(arguments, old(index))[1..]
      ensures !ok ==> value == "" && index == old(index)
    {
      if !HasNext() {
        return false, "";
      }
      index := index + 1;
      return true, arguments[index];
    }

    /** The cursor is not reset: a second call goes on where the first one stopped, with the new
        arguments, and appends to what was parsed before. */
    method FromArguments(args: seq<string>) returns (r: Result<(), string>)
      requires index >= -1
      modifies this
      ensures arguments == args && index >= -1
      ensures args == [] ==>
                && r == Failure(EMPTY_ARGUMENTS)
                && index == old(index) && ios == old(ios) && connections == old(connections)
      ensures args != [] ==>
                var o := Parse(Remaining(args, old(index)), Parsed(old(ios), old(connections), None));
                && ios == o.state.ios && connections == o.state.connections
                && Remaining(args, index) == o.rest
                && r == match o.error case None => Success(()) case Some(e) => Failure(e)
    {
      arguments := args;
      if arguments == [] {
        return Failure(EMPTY_ARGUMENTS);
      }
      ghost var goal := Parse(Remaining(args, index), Parsed(ios, connections, None));
      var current: Option<IoConfig> := None;
      while true
        invariant arguments == args && index >= -1
        invariant Parse(Remaining(args, index), Parsed(ios, connections, current)) == goal
        decreases |Remaining(args, index)|
      {
        var ok, val := Next();
        if !ok {
          break;
        }
        if val == "-io" {
          AddToConfig(current);
          current := None;
          ok, val := Next();
          if !ok {
            continue;
          }
          current := Some(IoConfig("", val, []));
        } else if (val == "-name" || val == "-id") && current.Some? {
          ok, val := Next();
          if !ok {
            continue;
          }
          current := Some(current.value.(id := val));
        } else if val == "-p" && current.Some? {
          ok, val := Next();
          if !ok {
            continue;
          }
          var e := EntryOf(val);
          current := Some(current.value.(parameters := Insert(current.value.parameters, e.key, e.value)));
        } else if val == "-connect" {
          ok, val := Next();
          if !ok {
            return Failure(MISSING_CONNECT);
          }
          var c := ConnectionOf(val);
          if c == None {
            return Failure(INVALID_CONNECT);
          }
          connections := connections + [c.value];
        }
      }
      AddToConfig(current);
      return Success(());
    }

    method AddToConfig(current: Option<IoConfig>)
      modifies this`ios
      ensures Parsed(ios, connections, None) == Flush(Parsed(old(ios), connections, current))
    {
      if current.Some? {
        ios := ios + [current.value];
      }
    }
  }
}

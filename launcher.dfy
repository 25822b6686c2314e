/**
 * The deterministic part of the browser launcher: the debugging port, the
 * spawn argument vector, the child's stdio table and the connection
 * descriptor handed to the protocol client.
 */
module Launcher {
  import opened Wrappers
  import Decimal

  /**
   * The transport string the caller passes, compared with `===`: the two
   * known names, or `Other` for any other string (see `TransportOf`).
   */
  datatype Transport = Websocket | Stdio | Other(name: string)

  /** A transport as the caller's string gives it: `Other` never holds a known name. */
  predicate Named(t: Transport) {
    t.Other? ==> t.name != "websocket" && t.name != "stdio"
  }

  /** The string a transport stands for. */
  function NameOf(t: Transport): string {
    match t
    case Websocket => "websocket"
    case Stdio => "stdio"
    case Other(name) => name
  }

  /** The transport the caller's string selects. */
  function TransportOf(s: string): (t: Transport)
    ensures t == Websocket <==> s == "websocket"
    ensures t == Stdio <==> s == "stdio"
    ensures Named(t)
  {
    if s == "websocket" then Websocket else if s == "stdio" then Stdio else Other(s)
  }

  /** Strings and named transports correspond one to one. */
  lemma TransportOfNameOf(t: Transport, s: string)
    ensures Named(t) ==> TransportOf(NameOf(t)) == t
    ensures NameOf(TransportOf(s)) == s
  {
  }

  /** `portRange`: the inclusive bounds of the debugging port. */
  const PortLow: nat := 10000
  const PortHigh: nat := 60000

  /** The largest value of the integer draw that replaces `Math.random()`. */
  const DrawMax: nat := PortHigh - PortLow

  /** `generatePort`: the port for an integer draw in [0, DrawMax]. */
  function GeneratePort(draw: int): (port: nat)
    requires 0 <= draw <= DrawMax
    ensures PortLow <= port <= PortHigh
  {
    draw + PortLow
  }

  /** Every port of the range, both ends included, comes from exactly one draw. */
  lemma GeneratePortOnto(port: int)
    requires PortLow <= port <= PortHigh
    ensures exists draw :: 0 <= draw <= DrawMax && GeneratePort(draw) == port
    ensures forall draw :: 0 <= draw <= DrawMax && GeneratePort(draw) == port ==> draw == port - PortLow
  {
    assert GeneratePort(port - PortLow) == port;
  }

  /** The port chosen at launch: drawn for a websocket, `null` otherwise. */
  function SelectPort(t: Transport, draw: int): (port: Option<nat>)
    requires 0 <= draw <= DrawMax
    ensures port.Some? <==> t == Websocket
    ensures port.Some? ==> PortLow <= port.value <= PortHigh
  {
    if t == Websocket then Some(GeneratePort(draw)) else None
  }

  const PipeFlag: string := "--remote-debugging-pipe"
  const PortFlagPrefix: string := "--remote-debugging-port="

  /** `${port}` in a template literal. */
  function PortText(port: Option<nat>): string {
    match port
    case Some(p) => Decimal.NatToString(p)
    case None => "null"
  }

  /** The one debugging flag: the pipe flag for stdio, the port flag for anything else. */
  function DebugFlag(t: Transport, port: Option<nat>): (flag: string)
    ensures flag == PipeFlag <==> t == Stdio
    ensures t != Stdio ==> flag == PortFlagPrefix + PortText(port)
    ensures flag != ""
  {
    if t == Stdio then PipeFlag else PortFlagPrefix + PortText(port)
  }

  /** The port a `--remote-debugging-port=<digits>` flag names, if it is one. */
  function ParsePortFlag(flag: string): Option<nat> {
    var n := |PortFlagPrefix|;
    if |flag| > n && flag[..n] == PortFlagPrefix && Decimal.AllDigits(flag[n..])
    then Some(Decimal.ValueOf(flag[n..]))
    else None
  }

  /** `.filter(x => x)` on strings: only the empty string is falsy; order is kept. */
  function Truthy(args: seq<string>): (r: seq<string>)
    ensures "" !in r
    decreases |args|
  {
    if |args| == 0 then []
    else if args[|args| - 1] == "" then Truthy(args[..|args| - 1])
    else Truthy(args[..|args| - 1]) + [args[|args| - 1]]
  }

  /** Filtering drops every empty entry and keeps every other entry as often as it occurs. */
  lemma {:induction false} TruthyCounts(args: seq<string>)
    ensures multiset(Truthy(args)) == multiset(args)["" := 0]
    decreases |args|
  {
    if |args| > 0 {
      assert args == args[..|args| - 1] + [args[|args| - 1]];
      TruthyCounts(args[..|args| - 1]);
    }
  }

  /** Filtering distributes over concatenation, so surviving entries keep their order. */
  lemma {:induction false} TruthyAppend(a: seq<string>, b: seq<string>)
    ensures Truthy(a + b) == Truthy(a) + Truthy(b)
    decreases |b|
  {
    if |b| == 0 {
      assert a + b == a;
    } else {
      var init := b[..|b| - 1];
      assert (a + b)[..|a + b| - 1] == a + init;
      assert (a + b)[|a + b| - 1] == b[|b| - 1];
      TruthyAppend(a, init);
    }
  }

  /** Filtering leaves an argument vector without empty entries as it is. */
  lemma {:induction false} TruthyKeepsNonEmpty(args: seq<string>)
    requires "" !in args
    ensures Truthy(args) == args
    decreases |args|
  {
    if |args| > 0 {
      assert "" !in args[..|args| - 1];
      TruthyKeepsNonEmpty(args[..|args| - 1]);
    }
  }

  /** The vector given to `spawn`: the caller's arguments, the debugging flag, and no empty entry. */
  function SpawnArgs(args: seq<string>, t: Transport, port: Option<nat>): seq<string> {
    Truthy(args + [DebugFlag(t, port)])
  }

  /** One entry of the child's stdio table. */
  datatype StdioSlot = Ignore | Pipe

  /** `stdio: ['ignore', 'pipe', 'pipe', 'pipe', 'pipe']`, the same for every transport. */
  const StdioTable: seq<StdioSlot> := [Ignore, Pipe, Pipe, Pipe, Pipe]

  /** The slots of `proc.stdio` the stdio transport uses: the parent writes 3 and reads 4. */
  const PipeWriteSlot: nat := 3
  const PipeReadSlot: nat := 4

  /** What is passed to the protocol client: `{ port }` or `{ pipe: { pipeWrite, pipeRead } }`. */
  datatype Descriptor =
    | PortDescriptor(port: Option<nat>)
    | PipeDescriptor(pipeWrite: nat, pipeRead: nat)

  /** The `switch`: no case matches another transport, and the protocol client is then not called. */
  function ConnectDescriptor(t: Transport, port: Option<nat>): Option<Descriptor> {
    match t
    case Websocket => Some(PortDescriptor(port))
    case Stdio => Some(PipeDescriptor(PipeWriteSlot, PipeReadSlot))
    case Other(_) => None
  }

  /** The `spawn` call: command, arguments, `detached` and the stdio table. */
  datatype Spawn = Spawn(command: string, args: seq<string>, detached: bool, stdio: seq<StdioSlot>)

  /**
   * Everything the launcher decides: the process it spawns, the descriptor
   * it connects with (None: the connection stays `undefined`), and the role
   * and extra value it hands the injector together with the connection.
   */
  datatype Launch<X> = Launch(spawn: Spawn, connect: Option<Descriptor>, role: string, extra: X)

  /** The default export of the launcher, for a given port draw. */
  function StartBrowser<X>(browserPath: string, args: seq<string>, t: Transport, draw: int, extra: X): Launch<X>
    requires 0 <= draw <= DrawMax
  {
    var port := SelectPort(t, draw);
    Launch(Spawn(browserPath, SpawnArgs(args, t, port), false, StdioTable),
           ConnectDescriptor(t, port), "browser", extra)
  }

  /**
   * The spawned vector is the caller's non-empty arguments, in their order,
   * followed by the debugging flag, which is last.
   */
  lemma FlagIsLast<X>(browserPath: string, args: seq<string>, t: Transport, draw: int, extra: X)
    requires 0 <= draw <= DrawMax
    ensures StartBrowser(browserPath, args, t, draw, extra).spawn.args ==
      Truthy(args) + [DebugFlag(t, SelectPort(t, draw))]
  {
    var flag := DebugFlag(t, SelectPort(t, draw));
    TruthyAppend(args, [flag]);
    assert Truthy([flag]) == [flag] by {
      assert [flag][..0] == [];
    }
  }

  /**
   * Exactly one entry is added to the caller's arguments: the flag. Only
   * empty entries are dropped, and every other entry is kept as often as it occurs.
   */
  lemma FlagAddedOnce<X>(browserPath: string, args: seq<string>, t: Transport, draw: int, extra: X)
    requires 0 <= draw <= DrawMax
    ensures multiset(StartBrowser(browserPath, args, t, draw, extra).spawn.args) ==
      multiset(args)["" := 0] + multiset{DebugFlag(t, SelectPort(t, draw))}
  {
    FlagIsLast(browserPath, args, t, draw, extra);
    TruthyCounts(args);
  }

  /** The flag is the pipe flag exactly for stdio; a websocket gets its drawn port in the flag. */
  lemma FlagMatchesTransport<X>(browserPath: string, args: seq<string>, t: Transport, draw: int, extra: X)
    requires 0 <= draw <= DrawMax
    ensures var v := StartBrowser(browserPath, args, t, draw, extra).spawn.args;
      |v| > 0 &&
      (v[|v| - 1] == PipeFlag <==> t == Stdio) &&
      (t == Websocket ==> v[|v| - 1] == PortFlagPrefix + Decimal.NatToString(GeneratePort(draw))) &&
      (t.Other? ==> v[|v| - 1] == PortFlagPrefix + "null")
  {
    FlagIsLast(browserPath, args, t, draw, extra);
  }

  /**
   * For a websocket, the port in the descriptor is the one in the range and
   * the one that reading the last argument back recovers.
   */
  lemma WebsocketPortAgrees<X>(browserPath: string, args: seq<string>, draw: int, extra: X)
    requires 0 <= draw <= DrawMax
    ensures var l := StartBrowser(browserPath, args, Websocket, draw, extra);
      var v := l.spawn.args;
      exists p :: PortLow <= p <= PortHigh &&
        l.connect == Some(PortDescriptor(Some(p))) &&
        |v| > 0 && ParsePortFlag(v[|v| - 1]) == Some(p)
  {
    var p := GeneratePort(draw);
    var v := StartBrowser(browserPath, args, Websocket, draw, extra).spawn.args;
    FlagIsLast(browserPath, args, Websocket, draw, extra);
    var flag := PortFlagPrefix + Decimal.NatToString(p);
    assert v[|v| - 1] == flag;
    var n := |PortFlagPrefix|;
    assert flag[..n] == PortFlagPrefix && flag[n..] == Decimal.NatToString(p);
    Decimal.ValueOfNatToString(p);
  }

  /**
   * For stdio, no port is drawn, the flag is the pipe flag, and the
   * descriptor names slots 3 and 4, which the stdio table makes pipes.
   */
  lemma StdioPipesMatch<X>(browserPath: string, args: seq<string>, draw: int, extra: X)
    requires 0 <= draw <= DrawMax
    ensures var l := StartBrowser(browserPath, args, Stdio, draw, extra);
      var v := l.spawn.args;
      SelectPort(Stdio, draw) == None &&
      |v| > 0 && v[|v| - 1] == PipeFlag &&
      l.connect == Some(PipeDescriptor(3, 4)) &&
      l.spawn.stdio[l.connect.value.pipeWrite] == Pipe &&
      l.spawn.stdio[l.connect.value.pipeRead] == Pipe
  {
    FlagIsLast(browserPath, args, Stdio, draw, extra);
  }

  /**
   * For the caller's string: the pipe flag exactly for "stdio", a port exactly
   * for "websocket", and a descriptor exactly for one of the two.
   */
  lemma LaunchByName<X>(browserPath: string, args: seq<string>, s: string, draw: int, extra: X)
    requires 0 <= draw <= DrawMax
    ensures var t := TransportOf(s);
      var l := StartBrowser(browserPath, args, t, draw, extra);
      var v := l.spawn.args;
      |v| > 0 &&
      (v[|v| - 1] == PipeFlag <==> s == "stdio") &&
      (SelectPort(t, draw).Some? <==> s == "websocket") &&
      (l.connect.Some? <==> s == "websocket" || s == "stdio")
  {
    FlagIsLast(browserPath, args, TransportOf(s), draw, extra);
  }

  /**
   * Whatever the transport: the command is the given browser, the child is
   * not detached, its stdio table has five slots, the first ignored and the
   * other four pipes, and the injector gets role "browser" and the caller's
   * extra value; no descriptor is produced for an unknown transport.
   */
  lemma LaunchShape<X>(browserPath: string, args: seq<string>, t: Transport, draw: int, extra: X)
    requires 0 <= draw <= DrawMax
    ensures var l := StartBrowser(browserPath, args, t, draw, extra);
      l.spawn.command == browserPath && !l.spawn.detached &&
      |l.spawn.stdio| == 5 && l.spawn.stdio[0] == Ignore &&
      (forall i :: 1 <= i < 5 ==> l.spawn.stdio[i] == Pipe) &&
      l.role == "browser" && l.extra == extra &&
      (l.connect.None? <==> t.Other?)
  {
  }
}


/**
 * Command-line processing: every argument is tested against every flag marker by
 * substring containment, and each marker found overwrites one setting. One argument can
 * therefore set several settings, and later arguments overwrite earlier ones.
 */
module CommandLine {
  import opened Wrappers
  import opened Strings

  type UInt16 = x: int | 0 <= x < 0x1_0000

  datatype NetworkType = Client | Host | DedicatedServer

  datatype NetworkSettings = NetworkSettings(networkType: NetworkType, serverAddress: string, ckey: string, serverPort: UInt16)

  datatype ApplicationSettings = ApplicationSettings(skipIntro: bool, enableDiscord: bool, forceLauncher: bool)

  /** The marker strings of the eight flags; none is empty. */
  datatype Markers = Markers(host: string, ip: string, ckey: string, port: string, skipIntro: string,
                             enableDiscordIntegration: string, serverOnly: string, forceLauncher: string)
  {
    predicate Valid() {
      && |host| > 0 && |ip| > 0 && |ckey| > 0 && |port| > 0 && |skipIntro| > 0
      && |enableDiscordIntegration| > 0 && |serverOnly| > 0 && |forceLauncher| > 0
    }
  }

  // ---------------------------------------------------------------------------
  // Numbers
  // ---------------------------------------------------------------------------

  /** Why `Convert.ToUInt16` rejects a string. */
  datatype ParseError = FormatError | OverflowError

  predicate IsDigit(c: char) {
    '0' <= c <= '9'
  }

  predicate AllDigits(s: string) {
    forall i :: 0 <= i < |s| ==> IsDigit(s[i])
  }

  /** The value of a string of decimal digits. */
  function DigitsValue(s: string): nat
    requires AllDigits(s)
    decreases |s|
  {
    if s == [] then 0 else DigitsValue(s[..|s| - 1]) * 10 + (s[|s| - 1] - '0') as int
  }

  /** `Convert.ToUInt16` on a string of digits: empty or non-digit text, or a value over 65535, is refused. */
  function ToUInt16(s: string): (r: Result<UInt16, ParseError>)
    ensures r.Ok? <==> s != [] && AllDigits(s) && DigitsValue(s) < 0x1_0000
    ensures r.Ok? ==> r.value == DigitsValue(s)
  {
    if s == [] || !AllDigits(s) then Err(FormatError)
    else if DigitsValue(s) > 65535 then Err(OverflowError)
    else Ok(DigitsValue(s))
  }

  /** The shortest decimal spelling of `n`. */
  function Decimal(n: nat): (s: string)
    ensures s != [] && AllDigits(s)
    decreases n
  {
    if n < 10 then [('0' as int + n) as char]
    else Decimal(n / 10) + [('0' as int + n % 10) as char]
  }

  lemma {:induction false} DecimalValue(n: nat)
    ensures DigitsValue(Decimal(n)) == n
    decreases n
  {
    if n >= 10 {
      var s := Decimal(n);
      assert s[..|s| - 1] == Decimal(n / 10);
      DecimalValue(n / 10);
    }
  }

  /** Every port number written in decimal parses back to itself. */
  lemma ToUInt16OfDecimal(n: UInt16)
    ensures ToUInt16(Decimal(n)) == Ok(n)
  {
    DecimalValue(n);
  }

  // ---------------------------------------------------------------------------
  // One argument
  // ---------------------------------------------------------------------------

  /** The settings after an argument (or several), and the parse error that stopped them, if any. */
  datatype Processed = Processed(network: NetworkSettings, application: ApplicationSettings, error: Option<ParseError>)

  /**
   * One argument, flag by flag in the engine's order: host, ip, ckey, port, skip-intro,
   * discord, server-only, force-launcher. A port that does not parse throws, keeping what
   * the earlier flags set and skipping the later ones.
   */
  function ProcessArg(m: Markers, network: NetworkSettings, application: ApplicationSettings, arg: string): Processed
    requires m.Valid()
  {
    var afterHost := if Contains(arg, m.host) then network.(networkType := Host) else network;
    var afterIp := if Contains(arg, m.ip) then afterHost.(networkType := Client, serverAddress := RemoveAll(arg, m.ip)) else afterHost;
    var afterCkey := if Contains(arg, m.ckey) then afterIp.(ckey := RemoveAll(arg, m.ckey)) else afterIp;
    var port := ToUInt16(RemoveAll(arg, m.port));
    if Contains(arg, m.port) && port.Err? then
      Processed(afterCkey, application, Some(port.error))
    else
      var afterPort := if Contains(arg, m.port) then afterCkey.(serverPort := port.value) else afterCkey;
      var skip := if Contains(arg, m.skipIntro) then application.(skipIntro := true) else application;
      var discord := if Contains(arg, m.enableDiscordIntegration) then skip.(enableDiscord := true) else skip;
      var serverOnly := if Contains(arg, m.serverOnly) then afterPort.(networkType := DedicatedServer) else afterPort;
      var launcher := if Contains(arg, m.forceLauncher) then discord.(forceLauncher := true) else discord;
      Processed(serverOnly, launcher, None)
  }

  /** The network type an argument asks for, if any: server-only beats ip, ip beats host. */
  function NetworkFlag(m: Markers, arg: string): Option<NetworkType> {
    if Contains(arg, m.serverOnly) then Some(DedicatedServer)
    else if Contains(arg, m.ip) then Some(Client)
    else if Contains(arg, m.host) then Some(Host)
    else None
  }

  /** The port text of an argument parses. */
  predicate PortParses(m: Markers, arg: string)
    requires m.Valid()
  {
    Contains(arg, m.port) ==> ToUInt16(RemoveAll(arg, m.port)).Ok?
  }

  /**
   * What one argument does, setting by setting: it fails exactly when it carries a port
   * that does not parse; otherwise each setting whose marker it contains takes the value
   * of that flag, the network type the one of its strongest network flag, and every other
   * setting keeps its value.
   */
  lemma ProcessArgEffects(m: Markers, network: NetworkSettings, application: ApplicationSettings, arg: string)
    requires m.Valid()
    ensures var p := ProcessArg(m, network, application, arg);
      && (p.error.None? <==> PortParses(m, arg))
      && (p.error.None? ==>
            && p.network.networkType == (if NetworkFlag(m, arg).Some? then NetworkFlag(m, arg).value else network.networkType)
            && p.network.serverAddress == (if Contains(arg, m.ip) then RemoveAll(arg, m.ip) else network.serverAddress)
            && p.network.ckey == (if Contains(arg, m.ckey) then RemoveAll(arg, m.ckey) else network.ckey)
            && p.network.serverPort == (if Contains(arg, m.port) then DigitsValue(RemoveAll(arg, m.port)) else network.serverPort)
            && p.application.skipIntro == (application.skipIntro || Contains(arg, m.skipIntro))
            && p.application.enableDiscord == (application.enableDiscord || Contains(arg, m.enableDiscordIntegration))
            && p.application.forceLauncher == (application.forceLauncher || Contains(arg, m.forceLauncher)))
      && (p.error.Some? ==>
            && p.application == application
            && p.network.serverPort == network.serverPort
            && p.network.serverAddress == (if Contains(arg, m.ip) then RemoveAll(arg, m.ip) else network.serverAddress)
            && p.network.ckey == (if Contains(arg, m.ckey) then RemoveAll(arg, m.ckey) else network.ckey)
            && p.network.networkType == (if Contains(arg, m.ip) then Client else if Contains(arg, m.host) then Host else network.networkType))
  {
  }

  /** "ip marker + address" makes this machine a client of that address. */
  lemma IpArgumentSetsClient(m: Markers, network: NetworkSettings, application: ApplicationSettings, address: string)
    requires m.Valid() && !Contains(address, m.ip) && !Contains(m.ip + address, m.serverOnly)
    ensures ProcessArg(m, network, application, m.ip + address).network.networkType == Client
    ensures ProcessArg(m, network, application, m.ip + address).network.serverAddress == address
  {
    ContainsInfix([], m.ip, address);
    assert [] + m.ip + address == m.ip + address;
    RemoveAllAfterMarker(m.ip, address);
  }

  /** "port marker + n in decimal" sets the server port to n. */
  lemma PortArgumentSetsPort(m: Markers, network: NetworkSettings, application: ApplicationSettings, n: UInt16)
    requires m.Valid() && !Contains(Decimal(n), m.port)
    ensures ProcessArg(m, network, application, m.port + Decimal(n)).error.None?
    ensures ProcessArg(m, network, application, m.port + Decimal(n)).network.serverPort == n
  {
    ContainsInfix([], m.port, Decimal(n));
    assert [] + m.port + Decimal(n) == m.port + Decimal(n);
    RemoveAllAfterMarker(m.port, Decimal(n));
    ToUInt16OfDecimal(n);
  }

  /** A port marker followed by text that is not a number stops processing with an error. */
  lemma BadPortFails(m: Markers, network: NetworkSettings, application: ApplicationSettings, text: string)
    requires m.Valid() && !Contains(text, m.port) && (text == [] || !AllDigits(text))
    ensures ProcessArg(m, network, application, m.port + text).error == Some(FormatError)
  {
    var arg := m.port + text;
    ContainsInfix([], m.port, text);
    assert [] + m.port + text == arg;
    RemoveAllAfterMarker(m.port, text);
    assert ToUInt16(RemoveAll(arg, m.port)) == Err(FormatError);
    UnparsablePortStops(m, network, application, arg);
  }

  /** A port that does not parse ends the argument with the parse error. */
  lemma UnparsablePortStops(m: Markers, network: NetworkSettings, application: ApplicationSettings, arg: string)
    requires m.Valid() && Contains(arg, m.port) && ToUInt16(RemoveAll(arg, m.port)).Err?
    ensures ProcessArg(m, network, application, arg).error == Some(ToUInt16(RemoveAll(arg, m.port)).error)
  {
  }

  // ---------------------------------------------------------------------------
  // The argument list
  // ---------------------------------------------------------------------------

  /** The arguments processed in order; the first that throws stops the rest. */
  function ProcessArgs(m: Markers, network: NetworkSettings, application: ApplicationSettings, args: seq<string>): Processed
    requires m.Valid()
    decreases |args|
  {
    if args == [] then Processed(network, application, None)
    else
      var before := ProcessArgs(m, network, application, args[..|args| - 1]);
      if before.error.Some? then before
      else ProcessArg(m, before.network, before.application, args[|args| - 1])
  }

  /** The network type asked for by the last argument that asks for one. */
  function LastNetworkType(m: Markers, initial: NetworkType, args: seq<string>): NetworkType
    decreases |args|
  {
    if args == [] then initial
    else match NetworkFlag(m, args[|args| - 1])
      case Some(t) => t
      case None => LastNetworkType(m, initial, args[..|args| - 1])
  }

  /** When no argument fails, the last argument carrying a network flag decides the network type. */
  lemma {:induction false} LastNetworkFlagWins(m: Markers, network: NetworkSettings, application: ApplicationSettings, args: seq<string>)
    requires m.Valid()
    requires ProcessArgs(m, network, application, args).error.None?
    ensures ProcessArgs(m, network, application, args).network.networkType == LastNetworkType(m, network.networkType, args)
    decreases |args|
  {
    if args != [] {
      var prefix := args[..|args| - 1];
      var before := ProcessArgs(m, network, application, prefix);
      LastNetworkFlagWins(m, network, application, prefix);
      ProcessArgEffects(m, before.network, before.application, args[|args| - 1]);
    }
  }

  /**
   * The three switches are only ever turned on: after the arguments, each is on exactly
   * when it was on before or some processed argument carries its marker.
   */
  lemma {:induction false} SwitchesOnlyTurnOn(m: Markers, network: NetworkSettings, application: ApplicationSettings, args: seq<string>)
    requires m.Valid()
    requires ProcessArgs(m, network, application, args).error.None?
    ensures var app := ProcessArgs(m, network, application, args).application;
      && (app.skipIntro <==> application.skipIntro || exists i :: 0 <= i < |args| && Contains(args[i], m.skipIntro))
      && (app.enableDiscord <==> application.enableDiscord || exists i :: 0 <= i < |args| && Contains(args[i], m.enableDiscordIntegration))
      && (app.forceLauncher <==> application.forceLauncher || exists i :: 0 <= i < |args| && Contains(args[i], m.forceLauncher))
    decreases |args|
  {
    if args != [] {
      var prefix := args[..|args| - 1];
      var last := args[|args| - 1];
      var before := ProcessArgs(m, network, application, prefix);
      SwitchesOnlyTurnOn(m, network, application, prefix);
      ProcessArgEffects(m, before.network, before.application, last);
      assert forall i :: 0 <= i < |prefix| ==> prefix[i] == args[i];
      assert forall mk :: (exists i :: 0 <= i < |args| && Contains(args[i], mk)) <==>
        (exists i :: 0 <= i < |prefix| && Contains(prefix[i], mk)) || Contains(last, mk);
    }
  }

  /** A failing argument stops the list: what follows it is never looked at. */
  lemma {:induction false} FailureStopsProcessing(m: Markers, network: NetworkSettings, application: ApplicationSettings,
                                                   args: seq<string>, rest: seq<string>)
    requires m.Valid()
    requires ProcessArgs(m, network, application, args).error.Some?
    ensures ProcessArgs(m, network, application, args + rest) == ProcessArgs(m, network, application, args)
    decreases |rest|
  {
    if rest != [] {
      var all := args + rest;
      assert all[..|all| - 1] == args + rest[..|rest| - 1];
      FailureStopsProcessing(m, network, application, args, rest[..|rest| - 1]);
    } else {
      assert args + rest == args;
    }
  }

  class CommandLineArgsSubSystem {
    const markers: Markers
    var commandLineArgs: seq<string>
    var networkSettings: NetworkSettings
    var applicationSettings: ApplicationSettings

    constructor (markers: Markers, networkSettings: NetworkSettings, applicationSettings: ApplicationSettings)
      requires markers.Valid()
      ensures this.markers == markers && commandLineArgs == []
      ensures this.networkSettings == networkSettings && this.applicationSettings == applicationSettings
    {
      this.markers := markers;
      commandLineArgs := [];
      this.networkSettings := networkSettings;
      this.applicationSettings := applicationSettings;
    }

    /**
     * Loads the arguments from the environment and tells whether there are any beyond a
     * single one (the executable's own name).
     */
    method HasCommandLineArgs(environmentArgs: seq<string>) returns (r: bool)
      modifies this`commandLineArgs
      ensures commandLineArgs == environmentArgs
      ensures r <==> |environmentArgs| != 1
    {
      commandLineArgs := environmentArgs;
      r := !(|commandLineArgs| == 1);
    }

    /** Applies one argument to the settings, flag by flag. */
    method ProcessCommandArg(arg: string) returns (error: Option<ParseError>)
      requires markers.Valid()
      modifies this`networkSettings, this`applicationSettings
      ensures Processed(networkSettings, applicationSettings, error)
              == ProcessArg(markers, old(networkSettings), old(applicationSettings), arg)
    {
      if Contains(arg, markers.host) {
        networkSettings := networkSettings.(networkType := Host);
      }
      if Contains(arg, markers.ip) {
        networkSettings := networkSettings.(networkType := Client, serverAddress := RemoveAll(arg, markers.ip));
      }
      if Contains(arg, markers.ckey) {
        var ckey := RemoveAll(arg, markers.ckey);
        networkSettings := networkSettings.(ckey := ckey);
      }
      if Contains(arg, markers.port) {
        var port := RemoveAll(arg, markers.port);
        var parsed := ToUInt16(port);
        if parsed.Err? {
          return Some(parsed.error);
        }
        networkSettings := networkSettings.(serverPort := parsed.value);
      }
      if Contains(arg, markers.skipIntro) {
        applicationSettings := applicationSettings.(skipIntro := true);
      }
      if Contains(arg, markers.enableDiscordIntegration) {
        applicationSettings := applicationSettings.(enableDiscord := true);
      }
      if Contains(arg, markers.serverOnly) {
        networkSettings := networkSettings.(networkType := DedicatedServer);
      }
      if Contains(arg, markers.forceLauncher) {
        applicationSettings := applicationSettings.(forceLauncher := true);
      }
      error := None;
    }

    /** Loads the arguments from the environment and applies them in order, stopping at the first that throws. */
    method ProcessCommandLineArgs(environmentArgs: seq<string>) returns (error: Option<ParseError>)
      requires markers.Valid()
      modifies this`commandLineArgs, this`networkSettings, this`applicationSettings
      ensures commandLineArgs == environmentArgs
      ensures Processed(networkSettings, applicationSettings, error)
              == ProcessArgs(markers, old(networkSettings), old(applicationSettings), environmentArgs)
    {
      commandLineArgs := environmentArgs;
      ghost var network0, application0 := networkSettings, applicationSettings;
      error := None;
      var i := 0;
      while i < |commandLineArgs|
        invariant 0 <= i <= |commandLineArgs| && commandLineArgs == environmentArgs && error.None?
        invariant Processed(networkSettings, applicationSettings, None)
                  == ProcessArgs(markers, network0, application0, commandLineArgs[..i])
      {
        assert commandLineArgs[..i + 1][..i] == commandLineArgs[..i];
        error := ProcessCommandArg(commandLineArgs[i]);
        if error.Some? {
          FailureStopsProcessing(markers, network0, application0, commandLineArgs[..i + 1], commandLineArgs[i + 1..]);
          assert commandLineArgs[..i + 1] + commandLineArgs[i + 1..] == environmentArgs;
          return;
        }
        i := i + 1;
      }
      assert commandLineArgs[..i] == environmentArgs;
    }
  }
}

/**
 * The executor: session resolution from flags and the configuration, the
 * checks of the command-line action, and the Executor object that caches
 * one remote-console client and runs batches and the interactive loop.
 */
module Executor {
  import opened Wrappers
  import opened Errors
  import opened Config
  import opened Console
  import GoText

  /** The command-line flag values the action reads. */
  datatype Flags = Flags(address: string, password: string, protocol: string, log: string,
                         config: string, env: string, skip: bool)

  /** The session built from the flags alone. */
  function FromFlags(f: Flags): Session
  {
    Session(f.address, f.password, f.log, f.protocol, f.skip)
  }

  /** The environment to read: the flag, or "default" when it is empty. */
  function EnvName(f: Flags): (name: string)
    ensures f.env != "" ==> name == f.env
    ensures f.env == "" ==> name == DefaultConfigEnv
  {
    if f.env == "" then DefaultConfigEnv else f.env
  }

  /** A Go map lookup: a missing key gives the zero Session. */
  function Lookup(envs: Environments, name: string): (s: Session)
    ensures name in envs ==> s == envs[name]
    ensures name !in envs ==> s == ZeroSession
  {
    if name in envs then envs[name] else ZeroSession
  }

  /**
   * The field-by-field merge of NewSession: a non-empty flag wins, an empty
   * one takes the selected environment's value (empty when that
   * environment is missing); skip-errors always comes from the flag.
   */
  function Resolve(f: Flags, envs: Environments): (ses: Session)
    ensures ses.skipErrors == f.skip
    ensures f.address != "" ==> ses.address == f.address
    ensures f.address == "" ==> ses.address == Lookup(envs, EnvName(f)).address
    ensures f.password != "" ==> ses.password == f.password
    ensures f.password == "" ==> ses.password == Lookup(envs, EnvName(f)).password
    ensures f.log != "" ==> ses.log == f.log
    ensures f.log == "" ==> ses.log == Lookup(envs, EnvName(f)).log
    ensures f.protocol != "" ==> ses.protocol == f.protocol
    ensures f.protocol == "" ==> ses.protocol == Lookup(envs, EnvName(f)).protocol
  {
    var env := Lookup(envs, EnvName(f));
    Session(
      if f.address != "" then f.address else env.address,
      if f.password != "" then f.password else env.password,
      if f.log != "" then f.log else env.log,
      if f.protocol != "" then f.protocol else env.protocol,
      f.skip)
  }

  /**
   * The session NewSession settles on, or None when loading the
   * configuration fails.  With both address and password given the
   * configuration is not consulted.
   */
  function SessionFor(files: Loader, f: Flags): Option<Session>
  {
    if f.address != "" && f.password != "" then Some(FromFlags(f))
    else
      var p := ParseFromFileOutcome(files, f.config, map[]);
      if p.err.Some? || !AllSupported(p.envs) then None
      else Some(Resolve(f, p.envs))
  }

  /** The errors NewSession can return: NewConfig's, behind "config: ". */
  ghost predicate ConfigFailure(files: Loader, f: Flags, e: Err)
  {
    var p := ParseFromFileOutcome(files, f.config, map[]);
    if p.err.Some? then e == Wrap("config", Wrap("parse file", p.err.value))
    else exists key | key in p.envs :: !SupportedType(p.envs[key].protocol) && e == Wrap("config", UnsupportedTypeError(key))
  }

  class Executor {
    /** Dialling, the remote console and the log sink. */
    const net: Network
    /** Where the configuration comes from. */
    const files: Loader
    /** The input stream, one entry per line. */
    const input: seq<string>

    /** The cached remote-console client. */
    var client: Option<Handle>
    /** Everything written to the output stream. */
    var output: seq<Line>
    /** Every call made to a collaborator, in order. */
    var trace: seq<Event>

    function Snapshot(): State
      reads this
    {
      State(client, output, trace)
    }

    /** NewExecutor: no client yet, nothing written. */
    constructor (net: Network, files: Loader, input: seq<string>)
      ensures this.net == net && this.files == files && this.input == input
      ensures Snapshot() == State(None, [], [])
    {
      this.net, this.files, this.input := net, files, input;
      client, output, trace := None, [], [];
    }

    /**
     * NewSession.  Address and password both given: the flags as they are.
     * Otherwise the configuration is loaded and each empty flag is filled
     * from the selected environment; a loading error is returned behind
     * "config: " along with the flag values.
     */
    method NewSession(f: Flags) returns (ses: Session, err: Option<Err>)
      ensures f.address != "" && f.password != "" ==> ses == FromFlags(f) && err.None?
      ensures err.None? <==> SessionFor(files, f).Some?
      ensures err.None? ==> ses == SessionFor(files, f).value
      ensures err.Some? ==> ses == FromFlags(f) && ConfigFailure(files, f, err.value)
    {
      ses := FromFlags(f);
      if ses.address != "" && ses.password != "" {
        return ses, None;
      }
      var cfg, cerr := NewConfig(files, f.config);
      if cerr.Some? {
        return ses, Some(Wrap("config", cerr.value));
      }
      var e := f.env;
      if e == "" {
        e := DefaultConfigEnv;
      }
      var env := Lookup(cfg.envs, e);
      if ses.address == "" {
        ses := ses.(address := env.address);
      }
      if ses.password == "" {
        ses := ses.(password := env.password);
      }
      if ses.log == "" {
        ses := ses.(log := env.log);
      }
      if ses.protocol == "" {
        ses := ses.(protocol := env.protocol);
      }
      err := None;
    }

    /**
     * The command-line action.  A session error is returned first; with no
     * commands the interactive loop runs; otherwise an empty address, then
     * an empty password, is refused before anything is executed.
     */
    method Action(f: Flags, commands: seq<string>) returns (err: Option<Err>)
      modifies this
      ensures SessionFor(files, f).None? ==>
        err.Some? && ConfigFailure(files, f, err.value) && Snapshot() == old(Snapshot())
      ensures SessionFor(files, f).Some? && commands == [] ==>
        (Snapshot(), err) == InteractiveRun(net, SessionFor(files, f).value, input, old(Snapshot()))
      ensures SessionFor(files, f).Some? && commands != [] && SessionFor(files, f).value.address == "" ==>
        err == Some(Sentinel(EmptyAddress)) && Snapshot() == old(Snapshot())
      ensures SessionFor(files, f).Some? && commands != [] && SessionFor(files, f).value.address != ""
              && SessionFor(files, f).value.password == "" ==>
        err == Some(Sentinel(EmptyPassword)) && Snapshot() == old(Snapshot())
      ensures SessionFor(files, f).Some? && commands != [] && SessionFor(files, f).value.address != ""
              && SessionFor(files, f).value.password != "" ==>
        (Snapshot(), err) == ExecuteBatch(net, SessionFor(files, f).value, commands, old(Snapshot()))
    {
      var ses, serr := NewSession(f);
      if serr.Some? {
        return serr;
      }
      if |commands| == 0 {
        err := Interactive(ses, input);
        return;
      }
      if ses.address == "" {
        return Some(Sentinel(EmptyAddress));
      }
      if ses.password == "" {
        return Some(Sentinel(EmptyPassword));
      }
      err := Execute(ses, commands);
    }

    /**
     * Dial: only when no client is cached, with the adapter the session's
     * type selects; a failure is returned behind "auth: ".
     */
    method Dial(ses: Session) returns (err: Option<Err>)
      modifies this
      ensures (Snapshot(), err) == DialStep(net, ses, old(Snapshot()))
    {
      if client.None? {
        var adapter;
        if ses.protocol == ProtocolTelnet {
          adapter := TelnetAdapter;
        } else if ses.protocol == ProtocolWeb {
          adapter := WebSocketAdapter;
        } else {
          adapter := RconAdapter;
        }
        var dialled := net.dial(adapter, ses.address, ses.password, |trace|);
        trace := trace + [Dialed(adapter, ses.address)];
        if dialled.Failure? {
          client := None;
          return Some(Wrap("auth", dialled.error));
        }
        client := Some(dialled.value);
      }
      return None;
    }

    /** Close: closes the cached client, if any, and returns what closing it gave. */
    method Close() returns (err: Option<Err>)
      modifies this
      ensures client == old(client) && output == old(output)
      ensures old(client).None? ==> err.None? && trace == old(trace)
      ensures old(client).Some? ==>
        trace == old(trace) + [Closed(old(client).value)] && err == net.close(old(client).value, |old(trace)|)
    {
      if client.Some? {
        err := net.close(client.value, |trace|);
        trace := trace + [Closed(client.value)];
      } else {
        err := None;
      }
    }

    /** The deferred part of Execute for web: close the client and forget it. */
    method ReleaseWebClient(ses: Session)
      modifies this
      ensures Snapshot() == DropWebClient(ses, old(Snapshot()))
    {
      if ses.protocol == ProtocolWeb {
        if client.Some? {
          var _ := net.close(client.value, |trace|);
          trace := trace + [Closed(client.value)];
        }
        client := None;
      }
    }

    /**
     * Execute: refuse an empty batch, dial, then run the commands in order,
     * writing each response, the error of a skipped failure, a warning for a
     * failed log write and a separator between commands; stop at an empty
     * command or, unless errors are skipped, at the first remote failure.
     */
    method Execute(ses: Session, commands: seq<string>) returns (err: Option<Err>)
      modifies this
      ensures (Snapshot(), err) == ExecuteBatch(net, ses, commands, old(Snapshot()))
    {
      if |commands| == 0 {
        return Some(Sentinel(CommandEmpty));
      }
      err := Dial(ses);
      if err.Some? {
        ReleaseWebClient(ses);
        return Some(Wrap("execute", err.value));
      }
      ghost var dialled := Snapshot();
      var h := client.value;
      var i := 0;
      while i < |commands|
        invariant 0 <= i <= |commands|
        invariant client == dialled.client == Some(h)
        invariant RunCommands(net, ses, h, commands, dialled) == RunCommands(net, ses, h, commands[i..], Snapshot())
      {
        assert commands[i..][0] == commands[i] && commands[i..][1..] == commands[i + 1..];
        err := ExecuteOne(ses, h, commands[i], i + 1 == |commands|);
        if err.Some? {
          ReleaseWebClient(ses);
          return;
        }
        i := i + 1;
      }
      ReleaseWebClient(ses);
      return None;
    }

    /**
     * One pass of Execute's loop: refuse an empty command, send it, write
     * the trimmed response, report or return a remote failure, log the
     * exchange and write the separator unless this is the last command.
     */
    method ExecuteOne(ses: Session, h: Handle, command: string, isLast: bool) returns (err: Option<Err>)
      modifies this
      ensures (Snapshot(), err) == RunCommand(net, ses, h, command, isLast, old(Snapshot()))
    {
      if command == "" {
        return Some(Sentinel(CommandEmpty));
      }
      var reply := net.execute(h, command, |trace|);
      trace := trace + [Sent(h, command, reply)];
      var result := reply.response;
      if result != "" {
        result := GoText.TrimSpace(result);
        output := output + [Response(result)];
      }
      assert Snapshot() == SendStep(h, command, reply, old(Snapshot()));
      if reply.err.Some? && !ses.skipErrors {
        return Some(Wrap("execute", reply.err.value));
      }
      Finish(ses, command, result, reply, isLast);
      return None;
    }

    /**
     * The tail of ExecuteOne when it does not abort: a skipped failure is
     * written, the exchange is logged, a failed log write is only reported,
     * and a separator follows unless this is the last command.
     */
    method Finish(ses: Session, command: string, result: string, reply: Reply, isLast: bool)
      requires result == LoggedResponse(reply.response)
      modifies this
      ensures Snapshot() == FinishStep(net, ses, command, reply, isLast, old(Snapshot()))
    {
      if reply.err.Some? {
        output := output + [RemoteError(Wrap("execute", reply.err.value))];
      }
      ghost var reported := Snapshot();
      assert reported == ReportStep(reply, old(Snapshot()));
      var logErr := LogWrite(net, ses.log, ses.address, command, result, |trace|);
      trace := trace + [Event.Logged(ses.log, ses.address, command, result)];
      if logErr.Some? {
        output := output + [LogError(Wrap("log", logErr.value))];
      }
      assert Snapshot() == LogStep(net, ses, command, reply, reported);
      if !isLast {
        output := output + [Separator];
      }
    }

    /**
     * The prompts of Interactive: each of address, password and type that
     * is empty is asked for and read from the next input line.
     */
    method AskMissing(ses: Session, lines: seq<string>) returns (s: Session, rest: seq<string>)
      modifies this
      ensures var c := Collect(ses, lines);
        s == c.ses && rest == c.rest && Snapshot() == old(Snapshot()).(output := old(output) + c.prompts)
    {
      var address, password, protocol;
      address, rest := AskField(ses.address, AddressPrompt, lines);
      password, rest := AskField(ses.password, PasswordPrompt, rest);
      protocol, rest := AskField(ses.protocol, TypePrompt, rest);
      s := ses.(address := address, password := password, protocol := protocol);
    }

    /** Prompts for a field and reads it from the next line, unless it is already set. */
    method AskField(value: string, prompt: string, lines: seq<string>) returns (v: string, rest: seq<string>)
      modifies this
      ensures var a := Ask(value, prompt, lines);
        v == a.value && rest == a.rest && Snapshot() == old(Snapshot()).(output := old(output) + a.prompts)
    {
      v, rest := value, lines;
      if value == "" {
        output := output + [Prompt(prompt)];
        if lines != [] {
          v, rest := lines[0], lines[1..];
        }
      }
    }

    /**
     * The scanner loop of Interactive: skip empty lines, stop at ":q",
     * execute anything else and stop at its error; "> " after each line.
     */
    method ReadCommands(ses: Session, lines: seq<string>) returns (err: Option<Err>)
      modifies this
      ensures (Snapshot(), err) == ReadLoop(net, ses, lines, old(Snapshot()))
    {
      var i := 0;
      while i < |lines|
        invariant 0 <= i <= |lines|
        invariant ReadLoop(net, ses, lines, old(Snapshot())) == ReadLoop(net, ses, lines[i..], Snapshot())
      {
        assert lines[i..][0] == lines[i] && lines[i..][1..] == lines[i + 1..];
        var command := lines[i];
        if command != "" {
          if command == CommandQuit {
            break;
          }
          err := Execute(ses, [command]);
          if err.Some? {
            return;
          }
        }
        output := output + [Prompt(InputPrompt)];
        i := i + 1;
      }
      return None;
    }

    /**
     * Interactive: ask for the missing address, password and type; hand a
     * telnet session over, refuse an unknown type with a message, and for
     * the others dial once and run each input line until ":q" or the end.
     */
    method Interactive(ses: Session, lines: seq<string>) returns (err: Option<Err>)
      modifies this
      ensures (Snapshot(), err) == InteractiveRun(net, ses, lines, old(Snapshot()))
    {
      var s, rest := AskMissing(ses, lines);
      if s.protocol == ProtocolTelnet {
        err := net.telnetInteractive(s.address, s.password, rest, |trace|);
        trace := trace + [HandedOff(s.address)];
      } else if s.protocol == "" || s.protocol == ProtocolRcon || s.protocol == ProtocolWeb {
        err := Dial(s);
        if err.Some? {
          return;
        }
        output := output + [Banner(s.address)];
        err := ReadCommands(s, rest);
      } else {
        output := output + [Unsupported(s.protocol)];
        err := None;
      }
    }
  }
}

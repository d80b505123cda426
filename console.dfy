/**
 * The remote-console side of the executor, as values: the external
 * collaborators (dialling, the remote Execute/Close, logger.Write, the telnet
 * interactive hand-off), what the executor writes, what it calls, and the
 * functions that say what Dial, Execute and Interactive do to that state.
 * The Executor class proves its methods equal to these functions.
 */
module Console {
  import opened Wrappers
  import opened Errors
  import opened Config
  import GoText

  /** The line that ends interactive mode. */
  const CommandQuit := ":q"

  /** Written between the responses of several commands. */
  const CommandsResponseSeparator := "--------"

  const AddressPrompt := "Enter remote host and port [ip:port]: "
  const PasswordPrompt := "Enter password: "
  const TypePrompt := "Enter protocol type (empty for rcon): "
  const InputPrompt := "> "

  /** The protocol libraries a connection can be dialled with. */
  datatype Adapter = RconAdapter | TelnetAdapter | WebSocketAdapter

  /** An open remote console; `id` tells apart connections of one adapter. */
  datatype Handle = Handle(adapter: Adapter, id: nat)

  /** What the remote Execute gives back: a response and possibly an error. */
  datatype Reply = Reply(response: string, err: Option<Err>)

  /**
   * The collaborators outside the core.  Each is a total function of its
   * arguments and of a tick, the number of calls made so far, so that the
   * same command may be answered differently at different times.
   */
  datatype Network = Network(
    dial: (Adapter, string, string, nat) -> Result<Handle, Err>,
    execute: (Handle, string, nat) -> Reply,
    close: (Handle, nat) -> Option<Err>,
    logWrite: (string, string, string, string, nat) -> Option<Err>,
    telnetInteractive: (string, string, seq<string>, nat) -> Option<Err>)

  /** One call into a collaborator, as the executor made it. */
  datatype Event =
    | Dialed(adapter: Adapter, address: string)
    | Sent(handle: Handle, command: string, reply: Reply)
    | Logged(name: string, address: string, request: string, response: string)
    | Closed(handle: Handle)
    | HandedOff(address: string)

  /** One write to the output stream. */
  datatype Line =
    | Prompt(text: string)
    | Banner(address: string)
    | Response(text: string)
    | RemoteError(err: Err)
    | LogError(err: Err)
    | Separator
    | Unsupported(protocol: string)

  /** %q of a string without characters that need escaping. */
  function Quote(s: string): string
  {
    "\"" + s + "\""
  }

  /** The exact text a write puts on the stream. */
  function Render(l: Line): string
  {
    match l
    case Prompt(text) => text
    case Banner(address) => "Waiting commands for " + address + " (or type " + CommandQuit + " to exit)\n" + InputPrompt
    case Response(text) => text + "\n"
    case RemoteError(e) => Message(e) + "\n"
    case LogError(e) => Message(e) + "\n"
    case Separator => CommandsResponseSeparator + "\n"
    case Unsupported(p) =>
      "Unsupported protocol type (" + Quote(p) + "). Allowed " + Quote(ProtocolRcon) + ", "
      + Quote(ProtocolWeb) + " and " + Quote(ProtocolTelnet) + " protocols\n"
  }

  /** The prompts of interactive mode, spelled out. */
  lemma RenderedPrompts()
    ensures Render(Prompt(AddressPrompt)) == "Enter remote host and port [ip:port]: "
    ensures Render(Prompt(PasswordPrompt)) == "Enter password: "
    ensures Render(Prompt(TypePrompt)) == "Enter protocol type (empty for rcon): "
    ensures Render(Prompt(InputPrompt)) == "> "
  {
  }

  /** The banner names the address and the quit command, and ends with the input prompt. */
  lemma RenderedBanner(address: string)
    ensures Render(Banner(address)) == "Waiting commands for " + address + " (or type :q to exit)\n> "
  {
  }

  /**
   * A response, a skipped failure behind "execute: ", a failed log write
   * behind "log: " and the separator each take one line.
   */
  lemma RenderedLines(text: string, e: Err)
    ensures Render(Response(text)) == text + "\n"
    ensures Render(RemoteError(Wrap("execute", e))) == "execute: " + Message(e) + "\n"
    ensures Render(LogError(Wrap("log", e))) == "log: " + Message(e) + "\n"
    ensures Render(Separator) == "--------\n"
  {
  }

  /** The refusal of an unknown type quotes it and names, quoted, the three protocols allowed. */
  lemma RenderedUnsupported(protocol: string)
    ensures Render(Unsupported(protocol)) ==
      "Unsupported protocol type (" + Quote(protocol) + "). Allowed "
      + Quote("rcon") + ", " + Quote("web") + " and " + Quote("telnet") + " protocols\n"
    ensures Quote(protocol) == "\"" + protocol + "\""
  {
  }

  /** The executor's mutable part: the cached client, what was written, what was called. */
  datatype State = State(client: Option<Handle>, output: seq<Line>, trace: seq<Event>)

  /** The adapter Dial picks: telnet and web by name, rcon for anything else. */
  function AdapterFor(protocol: string): (a: Adapter)
    ensures a == TelnetAdapter <==> protocol == ProtocolTelnet
    ensures a == WebSocketAdapter <==> protocol == ProtocolWeb
    ensures a == RconAdapter <==> protocol != ProtocolTelnet && protocol != ProtocolWeb
  {
    if protocol == ProtocolTelnet then TelnetAdapter
    else if protocol == ProtocolWeb then WebSocketAdapter
    else RconAdapter
  }

  /**
   * Executor.Dial: a cached client is kept and nothing is called; otherwise
   * one dial is made, and its failure is returned behind "auth: " with no
   * client left cached.
   */
  function DialStep(net: Network, ses: Session, st: State): (r: (State, Option<Err>))
    ensures r.0.output == st.output
    ensures st.client.Some? ==> r == (st, None)
    ensures st.client.None? ==> r.0.trace == st.trace + [Dialed(AdapterFor(ses.protocol), ses.address)]
    ensures r.1.None? <==> r.0.client.Some?
    ensures r.1.Some? ==>
      var d := net.dial(AdapterFor(ses.protocol), ses.address, ses.password, |st.trace|);
      st.client.None? && d.Failure? && r.1.value == Wrap("auth", d.error)
    ensures st.client.None? ==>
      var d := net.dial(AdapterFor(ses.protocol), ses.address, ses.password, |st.trace|);
      d.Success? ==> r.0.client == Some(d.value) && r.1.None?
  {
    if st.client.Some? then (st, None)
    else
      var adapter := AdapterFor(ses.protocol);
      var trace := st.trace + [Dialed(adapter, ses.address)];
      match net.dial(adapter, ses.address, ses.password, |st.trace|)
      case Success(h) => (State(Some(h), st.output, trace), None)
      case Failure(e) => (State(None, st.output, trace), Some(Wrap("auth", e)))
  }

  /** logger.Write: an empty file name disables logging and never fails. */
  function LogWrite(net: Network, name: string, address: string, request: string, response: string, tick: nat): (r: Option<Err>)
    ensures name == "" ==> r.None?
  {
    if name == "" then None else net.logWrite(name, address, request, response, tick)
  }

  /** What is written for a remote response: nothing for "", else the trimmed text. */
  function Echo(response: string): seq<Line>
  {
    if response != "" then [Response(GoText.TrimSpace(response))] else []
  }

  /** The response as it is logged: trimmed when non-empty. */
  function LoggedResponse(response: string): string
  {
    if response != "" then GoText.TrimSpace(response) else response
  }

  /** Sending one command: the call is recorded and its response echoed. */
  function SendStep(h: Handle, command: string, reply: Reply, st: State): State
  {
    State(st.client, st.output + Echo(reply.response), st.trace + [Sent(h, command, reply)])
  }

  /** A failure that is skipped is written, behind "execute: ". */
  function ReportStep(reply: Reply, st: State): State
  {
    if reply.err.Some? then st.(output := st.output + [RemoteError(Wrap("execute", reply.err.value))]) else st
  }

  /** The exchange is logged; a failed log write is only reported. */
  function LogStep(net: Network, ses: Session, command: string, reply: Reply, st: State): State
  {
    var result := LoggedResponse(reply.response);
    var logErr := LogWrite(net, ses.log, ses.address, command, result, |st.trace|);
    State(st.client,
          st.output + (if logErr.Some? then [LogError(Wrap("log", logErr.value))] else []),
          st.trace + [Event.Logged(ses.log, ses.address, command, result)])
  }

  /** Every command but the last is followed by a separator. */
  function SeparateStep(isLast: bool, st: State): State
  {
    if isLast then st else st.(output := st.output + [Separator])
  }

  /**
   * The rest of a pass that did not abort: report a skipped failure, log the
   * exchange, warn about a failed log write, and separate from the next command.
   */
  function FinishStep(net: Network, ses: Session, command: string, reply: Reply, isLast: bool, st: State): State
  {
    SeparateStep(isLast, LogStep(net, ses, command, reply, ReportStep(reply, st)))
  }

  /** One pass of Execute's loop body for `command` on client `h`. */
  function RunCommand(net: Network, ses: Session, h: Handle, command: string, isLast: bool, st: State): (State, Option<Err>)
  {
    if command == "" then (st, Some(Sentinel(CommandEmpty)))
    else
      var reply := net.execute(h, command, |st.trace|);
      var sent := SendStep(h, command, reply, st);
      if reply.err.Some? && !ses.skipErrors then (sent, Some(Wrap("execute", reply.err.value)))
      else (FinishStep(net, ses, command, reply, isLast, sent), None)
  }

  /** Execute's loop over the commands after the dial, stopping at the first error. */
  function RunCommands(net: Network, ses: Session, h: Handle, commands: seq<string>, st: State): (State, Option<Err>)
    decreases |commands|
  {
    if commands == [] then (st, None)
    else
      var (next, err) := RunCommand(net, ses, h, commands[0], |commands| == 1, st);
      if err.Some? then (next, err) else RunCommands(net, ses, h, commands[1..], next)
  }

  /** The deferred clean-up of Execute: for web the client is closed and forgotten. */
  function DropWebClient(ses: Session, st: State): (r: State)
  {
    if ses.protocol == ProtocolWeb then
      match st.client
      case Some(h) => State(None, st.output, st.trace + [Closed(h)])
      case None => st
    else st
  }

  /** Executor.Execute on a batch of commands. */
  function ExecuteBatch(net: Network, ses: Session, commands: seq<string>, st: State): (State, Option<Err>)
  {
    if commands == [] then (st, Some(Sentinel(CommandEmpty)))
    else
      var (dialled, derr) := DialStep(net, ses, st);
      if derr.Some? then (DropWebClient(ses, dialled), Some(Wrap("execute", derr.value)))
      else
        var (done, err) := RunCommands(net, ses, dialled.client.value, commands, dialled);
        (DropWebClient(ses, done), err)
  }

  /** The line at position i, or "" once the input is exhausted. */
  function LineAt(lines: seq<string>, i: nat): string
  {
    if i < |lines| then lines[i] else ""
  }

  /** How many of address, password and type are empty and so are asked for. */
  function Missing(ses: Session): nat
  {
    (if ses.address == "" then 1 else 0) + (if ses.password == "" then 1 else 0) + (if ses.protocol == "" then 1 else 0)
  }

  /** The session after the prompts, the unread input, and the prompts written. */
  datatype Collected = Collected(ses: Session, rest: seq<string>, prompts: seq<Line>)

  /** A field after it was perhaps asked for, the unread input, and the prompt written. */
  datatype Answer = Answer(value: string, rest: seq<string>, prompts: seq<Line>)

  /** Asks for one field if it is empty, reading the next line (or nothing at the end of input). */
  function Ask(value: string, prompt: string, lines: seq<string>): Answer
  {
    if value != "" then Answer(value, lines, [])
    else if lines == [] then Answer("", [], [Prompt(prompt)])
    else Answer(lines[0], lines[1..], [Prompt(prompt)])
  }

  /** The prompting part of Interactive: address, password and type, in that order. */
  function Collect(ses: Session, lines: seq<string>): Collected
  {
    var a := Ask(ses.address, AddressPrompt, lines);
    var p := Ask(ses.password, PasswordPrompt, a.rest);
    var t := Ask(ses.protocol, TypePrompt, p.rest);
    Collected(ses.(address := a.value, password := p.value, protocol := t.value), t.rest, a.prompts + p.prompts + t.prompts)
  }

  /**
   * Each of address, password and type that is empty is asked for, in
   * that order, and takes the next input line ("" once the input is
   * exhausted); a field that is set is kept and consumes nothing; log and
   * skip-errors are untouched.
   */
  lemma CollectSpec(ses: Session, lines: seq<string>)
    ensures var c := Collect(ses, lines);
      && c.ses.log == ses.log && c.ses.skipErrors == ses.skipErrors
      && |c.prompts| == Missing(ses)
      && c.rest == lines[if Missing(ses) <= |lines| then Missing(ses) else |lines|..]
      && (ses.address != "" ==> c.ses.address == ses.address)
      && (ses.address == "" ==> c.ses.address == LineAt(lines, 0) && c.prompts[0] == Prompt(AddressPrompt))
      && (ses.password != "" ==> c.ses.password == ses.password)
      && (ses.password == "" ==>
            var k := if ses.address == "" then 1 else 0;
            c.ses.password == LineAt(lines, k) && c.prompts[k] == Prompt(PasswordPrompt))
      && (ses.protocol != "" ==> c.ses.protocol == ses.protocol)
      && (ses.protocol == "" ==>
            var k := (if ses.address == "" then 1 else 0) + (if ses.password == "" then 1 else 0);
            c.ses.protocol == LineAt(lines, k) && c.prompts[k] == Prompt(TypePrompt))
  {
  }

  /**
   * The reading loop of Interactive: empty lines are skipped, ":q" ends it
   * without error, any other line is executed as a batch of one, and the
   * first error ends it with that error.
   */
  function ReadLoop(net: Network, ses: Session, lines: seq<string>, st: State): (State, Option<Err>)
    decreases |lines|
  {
    if lines == [] then (st, None)
    else if lines[0] == "" then ReadLoop(net, ses, lines[1..], st.(output := st.output + [Prompt(InputPrompt)]))
    else if lines[0] == CommandQuit then (st, None)
    else
      var (next, err) := ExecuteBatch(net, ses, [lines[0]], st);
      if err.Some? then (next, err)
      else ReadLoop(net, ses, lines[1..], next.(output := next.output + [Prompt(InputPrompt)]))
  }

  /** The types Interactive dials itself: empty, rcon and web. */
  predicate Dialable(protocol: string)
  {
    protocol == "" || protocol == ProtocolRcon || protocol == ProtocolWeb
  }

  /** Executor.Interactive on the input `lines`. */
  function InteractiveRun(net: Network, ses: Session, lines: seq<string>, st: State): (State, Option<Err>)
  {
    Dispatch(net, Collect(ses, lines), st)
  }

  /** What Interactive does once the missing fields were asked for, by protocol type. */
  function Dispatch(net: Network, c: Collected, st: State): (State, Option<Err>)
  {
    var asked := st.(output := st.output + c.prompts);
    var s := c.ses;
    if s.protocol == ProtocolTelnet then
      (asked.(trace := asked.trace + [HandedOff(s.address)]),
       net.telnetInteractive(s.address, s.password, c.rest, |asked.trace|))
    else if Dialable(s.protocol) then
      var (dialled, derr) := DialStep(net, s, asked);
      if derr.Some? then (dialled, derr)
      else ReadLoop(net, s, c.rest, dialled.(output := dialled.output + [Banner(s.address)]))
    else
      (asked.(output := asked.output + [Unsupported(s.protocol)]), None)
  }
}

/**
 * What the executor promises, proved about the functions that specify
 * Dial, Execute and Interactive: commands reach the remote console in
 * order, responses are echoed trimmed, separators sit between completed
 * commands, the abort policy for empty commands and remote failures, the
 * connection cache and its release for web, and the interactive loop.
 */
module ConsoleProps {
  import opened Wrappers
  import opened Errors
  import opened Config
  import opened Console
  import GoText

  /** The commands sent, in order. */
  function Commands(events: seq<Event>): seq<string>
  {
    if events == [] then []
    else (if events[0].Sent? then [events[0].command] else []) + Commands(events[1..])
  }

  /** The requests logged, in order. */
  function Requests(events: seq<Event>): seq<string>
  {
    if events == [] then []
    else (if events[0].Logged? then [events[0].request] else []) + Requests(events[1..])
  }

  /** The adapters dialled, in order. */
  function Dials(events: seq<Event>): seq<Adapter>
  {
    if events == [] then []
    else (if events[0].Dialed? then [events[0].adapter] else []) + Dials(events[1..])
  }

  /** What the replies to the sent commands should put on the output: each non-empty response, trimmed. */
  function Echoes(events: seq<Event>): seq<string>
  {
    if events == [] then []
    else
      (if events[0].Sent? && events[0].reply.response != "" then [GoText.TrimSpace(events[0].reply.response)] else [])
      + Echoes(events[1..])
  }

  /** The responses written, in order. */
  function Responses(lines: seq<Line>): seq<string>
  {
    if lines == [] then []
    else (if lines[0].Response? then [lines[0].text] else []) + Responses(lines[1..])
  }

  /** How many separators were written. */
  function Separators(lines: seq<Line>): nat
  {
    if lines == [] then 0
    else (if lines[0].Separator? then 1 else 0) + Separators(lines[1..])
  }

  lemma {:induction false} CommandsAppend(a: seq<Event>, b: seq<Event>)
    ensures Commands(a + b) == Commands(a) + Commands(b)
  {
    if a == [] {
      assert a + b == b;
    } else {
      assert (a + b)[0] == a[0] && (a + b)[1..] == a[1..] + b;
      CommandsAppend(a[1..], b);
    }
  }

  lemma {:induction false} RequestsAppend(a: seq<Event>, b: seq<Event>)
    ensures Requests(a + b) == Requests(a) + Requests(b)
  {
    if a == [] {
      assert a + b == b;
    } else {
      assert (a + b)[0] == a[0] && (a + b)[1..] == a[1..] + b;
      RequestsAppend(a[1..], b);
    }
  }

  lemma {:induction false} DialsAppend(a: seq<Event>, b: seq<Event>)
    ensures Dials(a + b) == Dials(a) + Dials(b)
  {
    if a == [] {
      assert a + b == b;
    } else {
      assert (a + b)[0] == a[0] && (a + b)[1..] == a[1..] + b;
      DialsAppend(a[1..], b);
    }
  }

  lemma {:induction false} EchoesAppend(a: seq<Event>, b: seq<Event>)
    ensures Echoes(a + b) == Echoes(a) + Echoes(b)
  {
    if a == [] {
      assert a + b == b;
    } else {
      assert (a + b)[0] == a[0] && (a + b)[1..] == a[1..] + b;
      EchoesAppend(a[1..], b);
    }
  }

  lemma EventsAppend(a: seq<Event>, b: seq<Event>)
    ensures Commands(a + b) == Commands(a) + Commands(b)
    ensures Requests(a + b) == Requests(a) + Requests(b)
    ensures Dials(a + b) == Dials(a) + Dials(b)
    ensures Echoes(a + b) == Echoes(a) + Echoes(b)
  {
    CommandsAppend(a, b);
    RequestsAppend(a, b);
    DialsAppend(a, b);
    EchoesAppend(a, b);
  }

  lemma {:induction false} LinesAppend(a: seq<Line>, b: seq<Line>)
    ensures Responses(a + b) == Responses(a) + Responses(b)
    ensures Separators(a + b) == Separators(a) + Separators(b)
  {
    if a == [] {
      assert a + b == b;
    } else {
      assert (a + b)[0] == a[0] && (a + b)[1..] == a[1..] + b;
      LinesAppend(a[1..], b);
    }
  }

  /** The calls made between two states of which the first is earlier. */
  function NewEvents(before: State, after: State): seq<Event>
    requires before.trace <= after.trace
  {
    after.trace[|before.trace|..]
  }

  /** The writes made between two states of which the first is earlier. */
  function NewLines(before: State, after: State): seq<Line>
    requires before.output <= after.output
  {
    after.output[|before.output|..]
  }

  /** `after` extends `before`: same client, trace and output only grown. */
  predicate Extends(before: State, after: State)
  {
    before.trace <= after.trace && before.output <= after.output
  }

  lemma NewSplits(a: State, b: State, c: State)
    requires Extends(a, b) && Extends(b, c)
    ensures Extends(a, c)
    ensures NewEvents(a, c) == NewEvents(a, b) + NewEvents(b, c)
    ensures NewLines(a, c) == NewLines(a, b) + NewLines(b, c)
  {
  }

  /**
   * What a pass that does not abort writes after the echo of its response:
   * a skipped remote failure behind "execute: ", a failed log write behind
   * "log: ", and the separator unless it is the last command.
   */
  function PassTail(reply: Reply, logErr: Option<Err>, isLast: bool): seq<Line>
  {
    (if reply.err.Some? then [RemoteError(Wrap("execute", reply.err.value))] else [])
    + (if logErr.Some? then [LogError(Wrap("log", logErr.value))] else [])
    + (if isLast then [] else [Separator])
  }

  /**
   * The lines a batch writes on client `h` when its first remote call is
   * made at tick `tick`, pass by pass: the echo of each response, then,
   * unless that pass aborts, its tail.  Nothing is written for an empty
   * command, and nothing after an aborting pass.  A pass that completes
   * makes two calls (the send and the log write).
   */
  function BatchLines(net: Network, ses: Session, h: Handle, commands: seq<string>, tick: nat): seq<Line>
    decreases |commands|
  {
    if commands == [] || commands[0] == "" then []
    else
      var reply := net.execute(h, commands[0], tick);
      var logErr := LogWrite(net, ses.log, ses.address, commands[0], LoggedResponse(reply.response), tick + 1);
      if reply.err.Some? && !ses.skipErrors then Echo(reply.response)
      else Echo(reply.response) + PassTail(reply, logErr, |commands| == 1) + BatchLines(net, ses, h, commands[1..], tick + 2)
  }

  /** Sending a command records just that call and writes just its echo. */
  lemma SendStepEffect(h: Handle, command: string, reply: Reply, st: State)
    ensures var next := SendStep(h, command, reply, st);
      && next.client == st.client && Extends(st, next)
      && NewEvents(st, next) == [Sent(h, command, reply)]
      && NewLines(st, next) == Echo(reply.response)
      && Commands(NewEvents(st, next)) == [command]
      && Requests(NewEvents(st, next)) == [] && Dials(NewEvents(st, next)) == []
      && Echoes(NewEvents(st, next)) == Responses(NewLines(st, next))
      && Separators(NewLines(st, next)) == 0
  {
    var next := SendStep(h, command, reply, st);
    assert NewLines(st, next) == Echo(reply.response);
    assert NewEvents(st, next) == [Sent(h, command, reply)];
  }

  /**
   * The rest of a pass makes one call: it logs the command with the
   * session's log name and address and the trimmed response; it sends nothing.
   */
  lemma FinishStepEvents(net: Network, ses: Session, command: string, reply: Reply, isLast: bool, st: State)
    ensures var next := FinishStep(net, ses, command, reply, isLast, st);
      && next.client == st.client && Extends(st, next)
      && NewEvents(st, next) == [Event.Logged(ses.log, ses.address, command, LoggedResponse(reply.response))]
      && Commands(NewEvents(st, next)) == [] && Dials(NewEvents(st, next)) == []
      && Echoes(NewEvents(st, next)) == []
      && Requests(NewEvents(st, next)) == [command]
  {
    var next := FinishStep(net, ses, command, reply, isLast, st);
    assert NewEvents(st, next) == [Event.Logged(ses.log, ses.address, command, LoggedResponse(reply.response))];
  }

  /** At most one line, which is neither a response nor a separator. */
  predicate ReportLines(s: seq<Line>)
  {
    |s| <= 1 && (s != [] ==> s[0].RemoteError? || s[0].LogError?)
  }

  lemma ReportLinesProjectAway(s: seq<Line>)
    requires ReportLines(s)
    ensures Responses(s) == [] && Separators(s) == 0
  {
    if s != [] {
      assert s[1..] == [];
    }
  }

  /** ReportLines followed by at most a separator hold no response and count that separator. */
  lemma ReportLinesThenSeparator(rep: seq<Line>, warn: seq<Line>, sep: seq<Line>)
    requires ReportLines(rep) && ReportLines(warn) && (sep == [] || sep == [Separator])
    ensures Responses(rep + warn + sep) == [] && Separators(rep + warn + sep) == |sep|
  {
    ReportLinesProjectAway(rep);
    ReportLinesProjectAway(warn);
    LinesAppend(rep, warn);
    LinesAppend(rep + warn, sep);
    assert sep != [] ==> sep[1..] == [];
  }

  /**
   * The rest of a pass writes its tail: the skipped failure, the log
   * warning and the separator, so no response and one separator unless it
   * is the last.
   */
  lemma FinishStepLines(net: Network, ses: Session, command: string, reply: Reply, isLast: bool, st: State)
    ensures var next := FinishStep(net, ses, command, reply, isLast, st);
      && Extends(st, next)
      && NewLines(st, next) == PassTail(reply, LogWrite(net, ses.log, ses.address, command, LoggedResponse(reply.response), |st.trace|), isLast)
      && Responses(NewLines(st, next)) == []
      && Separators(NewLines(st, next)) == (if isLast then 0 else 1)
  {
    var next := FinishStep(net, ses, command, reply, isLast, st);
    var result := LoggedResponse(reply.response);
    var logErr := LogWrite(net, ses.log, ses.address, command, result, |st.trace|);
    var rep := if reply.err.Some? then [RemoteError(Wrap("execute", reply.err.value))] else [];
    var warn := if logErr.Some? then [LogError(Wrap("log", logErr.value))] else [];
    var sep: seq<Line> := if isLast then [] else [Separator];
    assert NewLines(st, next) == rep + warn + sep;
    ReportLinesThenSeparator(rep, warn, sep);
  }

  /**
   * One pass of the loop: an empty command changes nothing; otherwise
   * exactly this command is sent, and the pass aborts right after sending
   * only on a remote failure without skip-errors.
   */
  lemma RunCommandSends(net: Network, ses: Session, h: Handle, command: string, isLast: bool, st: State)
    ensures var r := RunCommand(net, ses, h, command, isLast, st);
      && r.0.client == st.client && Extends(st, r.0) && Dials(NewEvents(st, r.0)) == []
      && (command == "" ==> r.0 == st && r.1 == Some(Sentinel(CommandEmpty)))
      && Commands(NewEvents(st, r.0)) == (if command == "" then [] else [command])
      && (command != "" ==>
            var reply := net.execute(h, command, |st.trace|);
            && (r.1.Some? ==>
                  && !ses.skipErrors && reply.err.Some? && r.1 == Some(Wrap("execute", reply.err.value))
                  && NewEvents(st, r.0) == [Sent(h, command, reply)]))
  {
    if command == "" {
      assert NewEvents(st, st) == [];
    } else {
      var next := RunCommand(net, ses, h, command, isLast, st).0;
      var reply := net.execute(h, command, |st.trace|);
      var sent := SendStep(h, command, reply, st);
      SendStepEffect(h, command, reply, st);
      if !(reply.err.Some? && !ses.skipErrors) {
        FinishStepEvents(net, ses, command, reply, isLast, sent);
        NewSplits(st, sent, next);
        EventsAppend(NewEvents(st, sent), NewEvents(sent, next));
      }
    }
  }

  /** A pass logs its command exactly when it completes. */
  lemma RunCommandLogs(net: Network, ses: Session, h: Handle, command: string, isLast: bool, st: State)
    ensures var r := RunCommand(net, ses, h, command, isLast, st);
      && Extends(st, r.0)
      && Commands(NewEvents(st, r.0)) == (if command == "" then [] else [command])
      && Requests(NewEvents(st, r.0)) == (if r.1.None? then [command] else [])
  {
    if command != "" {
      var next := RunCommand(net, ses, h, command, isLast, st).0;
      var reply := net.execute(h, command, |st.trace|);
      var sent := SendStep(h, command, reply, st);
      SendStepEffect(h, command, reply, st);
      if !(reply.err.Some? && !ses.skipErrors) {
        FinishStepEvents(net, ses, command, reply, isLast, sent);
        NewSplits(st, sent, next);
        EventsAppend(NewEvents(st, sent), NewEvents(sent, next));
      }
    } else {
      assert NewEvents(st, st) == [];
    }
  }

  /**
   * What a pass writes: nothing for an empty command; otherwise the echo
   * of the response, followed, when the pass does not abort, by the
   * skipped failure, the log warning and the separator unless it is the
   * last.  A pass that completes makes exactly two calls.
   */
  lemma RunCommandWrites(net: Network, ses: Session, h: Handle, command: string, isLast: bool, st: State)
    ensures var r := RunCommand(net, ses, h, command, isLast, st);
      && Extends(st, r.0)
      && (command == "" ==> NewLines(st, r.0) == [])
      && (command != "" ==>
            var reply := net.execute(h, command, |st.trace|);
            var logErr := LogWrite(net, ses.log, ses.address, command, LoggedResponse(reply.response), |st.trace| + 1);
            && NewLines(st, r.0) == Echo(reply.response) + (if r.1.Some? then [] else PassTail(reply, logErr, isLast))
            && (r.1.None? ==> |r.0.trace| == |st.trace| + 2))
      && Echoes(NewEvents(st, r.0)) == Responses(NewLines(st, r.0))
      && Separators(NewLines(st, r.0)) == (if r.1.None? && !isLast then 1 else 0)
  {
    if command != "" {
      var next := RunCommand(net, ses, h, command, isLast, st).0;
      var reply := net.execute(h, command, |st.trace|);
      var sent := SendStep(h, command, reply, st);
      SendStepEffect(h, command, reply, st);
      if !(reply.err.Some? && !ses.skipErrors) {
        FinishStepEvents(net, ses, command, reply, isLast, sent);
        FinishStepLines(net, ses, command, reply, isLast, sent);
        NewSplits(st, sent, next);
        EventsAppend(NewEvents(st, sent), NewEvents(sent, next));
        LinesAppend(NewLines(st, sent), NewLines(sent, next));
      }
    } else {
      assert NewEvents(st, st) == [] && NewLines(st, st) == [];
    }
  }

  /** The loop keeps the client and only adds calls and writes. */
  lemma {:induction false} RunCommandsExtends(net: Network, ses: Session, h: Handle, commands: seq<string>, st: State)
    ensures var done := RunCommands(net, ses, h, commands, st).0;
      done.client == st.client && Extends(st, done)
    decreases |commands|
  {
    if commands != [] {
      var r := RunCommand(net, ses, h, commands[0], |commands| == 1, st);
      RunCommandSends(net, ses, h, commands[0], |commands| == 1, st);
      if r.1.None? {
        RunCommandsExtends(net, ses, h, commands[1..], r.0);
      }
    }
  }

  /** The loop never dials: the client it was given serves every command. */
  lemma {:induction false} RunCommandsNoDial(net: Network, ses: Session, h: Handle, commands: seq<string>, st: State)
    ensures var done := RunCommands(net, ses, h, commands, st).0;
      Extends(st, done) && Dials(NewEvents(st, done)) == []
    decreases |commands|
  {
    RunCommandsExtends(net, ses, h, commands, st);
    if commands != [] {
      var r := RunCommand(net, ses, h, commands[0], |commands| == 1, st);
      RunCommandSends(net, ses, h, commands[0], |commands| == 1, st);
      if r.1.None? {
        var done := RunCommands(net, ses, h, commands[1..], r.0).0;
        RunCommandsNoDial(net, ses, h, commands[1..], r.0);
        NewSplits(st, r.0, done);
        EventsAppend(NewEvents(st, r.0), NewEvents(r.0, done));
      }
    }
  }

  lemma FirstOrNone(commands: seq<string>, sent: seq<string>)
    requires commands != [] && (sent == [] || sent == [commands[0]])
    ensures sent <= commands
  {
    assert [commands[0]] == commands[..1];
  }

  /** Sending `c` and then a prefix of `cmds` sends a prefix of `[c] + cmds`. */
  lemma SentCons(st: State, next: State, done: State, c: string, cmds: seq<string>)
    requires Extends(st, next) && Extends(next, done)
    requires Commands(NewEvents(st, next)) == [c]
    requires Commands(NewEvents(next, done)) <= cmds
    ensures Extends(st, done)
    ensures Commands(NewEvents(st, done)) == [c] + Commands(NewEvents(next, done))
    ensures Commands(NewEvents(st, done)) <= [c] + cmds
  {
    NewSplits(st, next, done);
    EventsAppend(NewEvents(st, next), NewEvents(next, done));
  }

  /**
   * Commands reach the remote console strictly in order: those sent are a
   * prefix of the batch, and a batch that succeeds sent every command.
   */
  lemma {:induction false} RunCommandsInOrder(net: Network, ses: Session, h: Handle, commands: seq<string>, st: State)
    ensures var r := RunCommands(net, ses, h, commands, st);
      && Extends(st, r.0)
      && Commands(NewEvents(st, r.0)) <= commands
      && (r.1.None? ==> Commands(NewEvents(st, r.0)) == commands)
    decreases |commands|
  {
    if commands == [] {
      assert NewEvents(st, st) == [];
    } else {
      var r := RunCommand(net, ses, h, commands[0], |commands| == 1, st);
      RunCommandLogs(net, ses, h, commands[0], |commands| == 1, st);
      if r.1.None? {
        var tail := RunCommands(net, ses, h, commands[1..], r.0);
        assert RunCommands(net, ses, h, commands, st) == tail;
        RunCommandsInOrder(net, ses, h, commands[1..], r.0);
        assert commands[0] != "";
        SentCons(st, r.0, tail.0, commands[0], commands[1..]);
        assert commands == [commands[0]] + commands[1..];
      } else {
        assert RunCommands(net, ses, h, commands, st) == r;
        FirstOrNone(commands, Commands(NewEvents(st, r.0)));
      }
    }
  }

  /** An empty command is never sent: it stops the batch instead. */
  lemma {:induction false} RunCommandsNeverEmpty(net: Network, ses: Session, h: Handle, commands: seq<string>, st: State)
    ensures var r := RunCommands(net, ses, h, commands, st);
      Extends(st, r.0) && "" !in Commands(NewEvents(st, r.0))
    decreases |commands|
  {
    if commands == [] {
      assert NewEvents(st, st) == [];
    } else {
      var r := RunCommand(net, ses, h, commands[0], |commands| == 1, st);
      RunCommandLogs(net, ses, h, commands[0], |commands| == 1, st);
      if r.1.None? {
        var tail := RunCommands(net, ses, h, commands[1..], r.0);
        assert RunCommands(net, ses, h, commands, st) == tail;
        RunCommandsNeverEmpty(net, ses, h, commands[1..], r.0);
        assert commands[0] != "";
        SentCons(st, r.0, tail.0, commands[0], Commands(NewEvents(r.0, tail.0)));
      } else {
        assert RunCommands(net, ses, h, commands, st) == r;
      }
    }
  }

  /** Sending and logging `c`, then sending and logging as a later pass did, keeps the log a prefix of the sent. */
  lemma LoggedCons(st: State, next: State, done: State, c: string)
    requires Extends(st, next) && Extends(next, done)
    requires Commands(NewEvents(st, next)) == [c] && Requests(NewEvents(st, next)) == [c]
    requires var sent := Commands(NewEvents(next, done));
      var logged := Requests(NewEvents(next, done));
      logged <= sent && |sent| <= |logged| + 1
    ensures Extends(st, done)
    ensures Commands(NewEvents(st, done)) == [c] + Commands(NewEvents(next, done))
    ensures Requests(NewEvents(st, done)) == [c] + Requests(NewEvents(next, done))
    ensures var sent := Commands(NewEvents(st, done));
      var logged := Requests(NewEvents(st, done));
      logged <= sent && |sent| <= |logged| + 1
  {
    NewSplits(st, next, done);
    EventsAppend(NewEvents(st, next), NewEvents(next, done));
  }

  /**
   * Every sent command is logged, in the same order, except possibly the
   * last one; a batch that succeeds logged every command.
   */
  lemma {:induction false} RunCommandsLogged(net: Network, ses: Session, h: Handle, commands: seq<string>, st: State)
    ensures var r := RunCommands(net, ses, h, commands, st);
      && Extends(st, r.0)
      && var sent := Commands(NewEvents(st, r.0));
      && var logged := Requests(NewEvents(st, r.0));
      && logged <= sent && |sent| <= |logged| + 1
      && (r.1.None? ==> logged == commands)
    decreases |commands|
  {
    if commands == [] {
      assert NewEvents(st, st) == [];
    } else {
      var r := RunCommand(net, ses, h, commands[0], |commands| == 1, st);
      RunCommandLogs(net, ses, h, commands[0], |commands| == 1, st);
      if r.1.None? {
        var tail := RunCommands(net, ses, h, commands[1..], r.0);
        assert RunCommands(net, ses, h, commands, st) == tail;
        RunCommandsLogged(net, ses, h, commands[1..], r.0);
        LoggedCons(st, r.0, tail.0, commands[0]);
        assert commands == [commands[0]] + commands[1..];
      } else {
        assert RunCommands(net, ses, h, commands, st) == r;
      }
    }
  }

  /**
   * Each response is written trimmed, in the order the commands were sent,
   * and an empty response writes nothing; this holds even when the batch
   * stops early.
   */
  lemma {:induction false} RunCommandsEcho(net: Network, ses: Session, h: Handle, commands: seq<string>, st: State)
    ensures var r := RunCommands(net, ses, h, commands, st);
      && Extends(st, r.0)
      && Echoes(NewEvents(st, r.0)) == Responses(NewLines(st, r.0))
    decreases |commands|
  {
    RunCommandsExtends(net, ses, h, commands, st);
    if commands != [] {
      var r := RunCommand(net, ses, h, commands[0], |commands| == 1, st);
      var next := r.0;
      RunCommandSends(net, ses, h, commands[0], |commands| == 1, st);
      RunCommandWrites(net, ses, h, commands[0], |commands| == 1, st);
      if r.1.None? {
        var done := RunCommands(net, ses, h, commands[1..], next).0;
        RunCommandsEcho(net, ses, h, commands[1..], next);
        NewSplits(st, next, done);
        EventsAppend(NewEvents(st, next), NewEvents(next, done));
        LinesAppend(NewLines(st, next), NewLines(next, done));
      } else if commands[0] == "" {
        assert NewEvents(st, next) == [] && NewLines(st, next) == [];
      }
    }
  }

  /**
   * Everything the loop writes, in order: its passes' lines joined in send
   * order, so each skipped failure, log warning and separator sits right
   * after the echo of the command it belongs to.
   */
  lemma {:induction false} RunCommandsLines(net: Network, ses: Session, h: Handle, commands: seq<string>, st: State)
    ensures var r := RunCommands(net, ses, h, commands, st);
      Extends(st, r.0) && NewLines(st, r.0) == BatchLines(net, ses, h, commands, |st.trace|)
    decreases |commands|
  {
    var r := RunCommands(net, ses, h, commands, st);
    RunCommandsExtends(net, ses, h, commands, st);
    if commands == [] {
      assert NewLines(st, st) == [];
    } else {
      var isLast := |commands| == 1;
      var step := RunCommand(net, ses, h, commands[0], isLast, st);
      RunCommandWrites(net, ses, h, commands[0], isLast, st);
      RunCommandSends(net, ses, h, commands[0], isLast, st);
      if step.1.None? {
        RunCommandsLines(net, ses, h, commands[1..], step.0);
        RunCommandsExtends(net, ses, h, commands[1..], step.0);
        NewSplits(st, step.0, r.0);
      }
    }
  }

  /** A completed pass followed by more passes: separators and log entries add up. */
  lemma SeparatorsCons(st: State, next: State, done: State, c: string, isLast: bool)
    requires Extends(st, next) && Extends(next, done)
    requires Requests(NewEvents(st, next)) == [c]
    requires Separators(NewLines(st, next)) == (if isLast then 0 else 1)
    ensures Extends(st, done)
    ensures Requests(NewEvents(st, done)) == [c] + Requests(NewEvents(next, done))
    ensures Separators(NewLines(st, done)) == Separators(NewLines(st, next)) + Separators(NewLines(next, done))
  {
    NewSplits(st, next, done);
    EventsAppend(NewEvents(st, next), NewEvents(next, done));
    LinesAppend(NewLines(st, next), NewLines(next, done));
  }

  /**
   * A separator follows every command that completed, except the last of
   * a batch that succeeds: N clean commands give N - 1 separators, and a
   * batch that stops writes none for the step that stopped it.
   */
  lemma {:induction false} RunCommandsSeparators(net: Network, ses: Session, h: Handle, commands: seq<string>, st: State)
    ensures var r := RunCommands(net, ses, h, commands, st);
      && Extends(st, r.0)
      && var separators := Separators(NewLines(st, r.0));
      && var logged := Requests(NewEvents(st, r.0));
      && (r.1.None? && commands != [] ==> separators == |commands| - 1)
      && (r.1.Some? ==> separators == |logged|)
    decreases |commands|
  {
    if commands == [] {
      assert NewEvents(st, st) == [] && NewLines(st, st) == [];
    } else {
      var r := RunCommand(net, ses, h, commands[0], |commands| == 1, st);
      RunCommandLogs(net, ses, h, commands[0], |commands| == 1, st);
      RunCommandWrites(net, ses, h, commands[0], |commands| == 1, st);
      if r.1.None? {
        var tail := RunCommands(net, ses, h, commands[1..], r.0);
        assert RunCommands(net, ses, h, commands, st) == tail;
        RunCommandsSeparators(net, ses, h, commands[1..], r.0);
        RunCommandsLogged(net, ses, h, commands[1..], r.0);
        SeparatorsCons(st, r.0, tail.0, commands[0], |commands| == 1);
      } else {
        assert RunCommands(net, ses, h, commands, st) == r;
      }
    }
  }

  /**
   * A batch that stops at an empty command refuses it unwrapped, whatever
   * skip-errors says, after sending and logging every command before it.
   */
  lemma {:induction false} RunCommandsEmptyStop(net: Network, ses: Session, h: Handle, commands: seq<string>, st: State)
    ensures var r := RunCommands(net, ses, h, commands, st);
      && Extends(st, r.0)
      && var sent := Commands(NewEvents(st, r.0));
      && (r.1 == Some(Sentinel(CommandEmpty)) ==>
            |sent| < |commands| && commands[|sent|] == "" && Requests(NewEvents(st, r.0)) == sent)
    decreases |commands|
  {
    RunCommandsExtends(net, ses, h, commands, st);
    if commands != [] {
      var r := RunCommand(net, ses, h, commands[0], |commands| == 1, st);
      var next := r.0;
      RunCommandSends(net, ses, h, commands[0], |commands| == 1, st);
      RunCommandLogs(net, ses, h, commands[0], |commands| == 1, st);
      if r.1.None? {
        var done := RunCommands(net, ses, h, commands[1..], next).0;
        RunCommandsEmptyStop(net, ses, h, commands[1..], next);
        NewSplits(st, next, done);
        EventsAppend(NewEvents(st, next), NewEvents(next, done));
      } else if commands[0] == "" {
        assert NewEvents(st, next) == [];
      }
    }
  }

  /** What a batch that stopped at a remote failure looks like, from the events it caused. */
  predicate RemoteStopped(events: seq<Event>, err: Err)
  {
    && events != [] && events[|events| - 1].Sent?
    && events[|events| - 1].reply.err.Some?
    && err == Wrap("execute", events[|events| - 1].reply.err.value)
    && |Requests(events)| + 1 == |Commands(events)|
  }

  /** The one call of a pass that aborted on a remote failure. */
  lemma RemoteStopOne(e: Event, err: Err)
    requires e.Sent? && e.reply.err.Some? && err == Wrap("execute", e.reply.err.value)
    ensures RemoteStopped([e], err)
  {
    assert [e][1..] == [];
  }

  /** A completed pass before a remote stop keeps the stop last and sent one ahead of logged. */
  lemma RemoteStopCons(st: State, next: State, done: State, c: string, err: Err)
    requires Extends(st, next) && Extends(next, done)
    requires Commands(NewEvents(st, next)) == [c] && Requests(NewEvents(st, next)) == [c]
    requires RemoteStopped(NewEvents(next, done), err)
    ensures Extends(st, done) && RemoteStopped(NewEvents(st, done), err)
  {
    NewSplits(st, next, done);
    EventsAppend(NewEvents(st, next), NewEvents(next, done));
    var events := NewEvents(st, done);
    var tail := NewEvents(next, done);
    assert events[|events| - 1] == tail[|tail| - 1];
  }

  /**
   * Any other stop is a remote failure, possible only without skip-errors:
   * the failing command is the last call made, it is not logged, and its
   * error is returned behind "execute: ".
   */
  lemma {:induction false} RunCommandsRemoteStop(net: Network, ses: Session, h: Handle, commands: seq<string>, st: State)
    ensures var r := RunCommands(net, ses, h, commands, st);
      && Extends(st, r.0)
      && (r.1.Some? && r.1 != Some(Sentinel(CommandEmpty)) ==>
            !ses.skipErrors && RemoteStopped(NewEvents(st, r.0), r.1.value))
    decreases |commands|
  {
    if commands == [] {
      assert NewEvents(st, st) == [];
    } else {
      var r := RunCommand(net, ses, h, commands[0], |commands| == 1, st);
      RunCommandSends(net, ses, h, commands[0], |commands| == 1, st);
      RunCommandLogs(net, ses, h, commands[0], |commands| == 1, st);
      if r.1.None? {
        var tail := RunCommands(net, ses, h, commands[1..], r.0);
        assert RunCommands(net, ses, h, commands, st) == tail;
        RunCommandsRemoteStop(net, ses, h, commands[1..], r.0);
        NewSplits(st, r.0, tail.0);
        if tail.1.Some? && tail.1 != Some(Sentinel(CommandEmpty)) {
          RemoteStopCons(st, r.0, tail.0, commands[0], tail.1.value);
        }
      } else {
        assert RunCommands(net, ses, h, commands, st) == r;
        if commands[0] != "" {
          RemoteStopOne(Sent(h, commands[0], net.execute(h, commands[0], |st.trace|)), r.1.value);
        }
      }
    }
  }

  /** Dialling writes nothing and makes at most the one dial call. */
  lemma DialStepEffect(net: Network, ses: Session, st: State)
    ensures var r := DialStep(net, ses, st);
      && Extends(st, r.0) && NewLines(st, r.0) == []
      && Commands(NewEvents(st, r.0)) == [] && Requests(NewEvents(st, r.0)) == []
      && Echoes(NewEvents(st, r.0)) == []
      && Dials(NewEvents(st, r.0)) == (if st.client.None? then [AdapterFor(ses.protocol)] else [])
  {
    var r := DialStep(net, ses, st);
    if st.client.None? {
      assert NewEvents(st, r.0) == [Dialed(AdapterFor(ses.protocol), ses.address)];
    } else {
      assert NewEvents(st, r.0) == [];
    }
  }

  /** The web clean-up writes nothing and makes at most the one close call. */
  lemma DropWebClientEffect(ses: Session, st: State)
    ensures var done := DropWebClient(ses, st);
      && Extends(st, done) && NewLines(st, done) == []
      && Commands(NewEvents(st, done)) == [] && Requests(NewEvents(st, done)) == []
      && Echoes(NewEvents(st, done)) == [] && Dials(NewEvents(st, done)) == []
      && (ses.protocol == ProtocolWeb ==> done.client.None?)
      && (ses.protocol == ProtocolWeb && st.client.Some? ==> NewEvents(st, done) == [Closed(st.client.value)])
      && (ses.protocol != ProtocolWeb ==> done == st)
  {
    var done := DropWebClient(ses, st);
    if ses.protocol == ProtocolWeb && st.client.Some? {
      assert NewEvents(st, done) == [Closed(st.client.value)];
    } else {
      assert NewEvents(st, done) == [];
    }
  }

  /** A batch whose dial fails sends, logs and writes nothing and caches no client. */
  lemma BatchDialFailed(net: Network, ses: Session, commands: seq<string>, st: State)
    requires commands != [] && DialStep(net, ses, st).1.Some?
    ensures var r := ExecuteBatch(net, ses, commands, st);
      && Extends(st, r.0) && r.0.client.None? && NewLines(st, r.0) == []
      && r.1 == Some(Wrap("execute", DialStep(net, ses, st).1.value))
      && var events := NewEvents(st, r.0);
      && Commands(events) == [] && Requests(events) == [] && Echoes(events) == []
      && Dials(events) == [AdapterFor(ses.protocol)]
  {
    var dialled := DialStep(net, ses, st).0;
    DialStepEffect(net, ses, st);
    DropWebClientEffect(ses, dialled);
    NewSplits(st, dialled, DropWebClient(ses, dialled));
    EventsAppend(NewEvents(st, dialled), NewEvents(dialled, DropWebClient(ses, dialled)));
  }

  /**
   * Calls and writes that send, log, echo and write nothing, before and
   * after a stretch that dials nothing: the whole sends, logs, echoes and
   * writes what that stretch does, and dials what the first part does.
   */
  lemma Sandwich(a: State, b: State, c: State, d: State)
    requires Extends(a, b) && Extends(b, c) && Extends(c, d)
    requires NewLines(a, b) == [] && NewLines(c, d) == []
    requires Commands(NewEvents(a, b)) == [] && Requests(NewEvents(a, b)) == [] && Echoes(NewEvents(a, b)) == []
    requires Commands(NewEvents(c, d)) == [] && Requests(NewEvents(c, d)) == [] && Echoes(NewEvents(c, d)) == []
    requires Dials(NewEvents(b, c)) == [] && Dials(NewEvents(c, d)) == []
    ensures Extends(a, d)
    ensures Commands(NewEvents(a, d)) == Commands(NewEvents(b, c))
    ensures Requests(NewEvents(a, d)) == Requests(NewEvents(b, c))
    ensures Echoes(NewEvents(a, d)) == Echoes(NewEvents(b, c))
    ensures Dials(NewEvents(a, d)) == Dials(NewEvents(a, b))
    ensures NewLines(a, d) == NewLines(b, c)
  {
    NewSplits(a, b, c);
    NewSplits(a, c, d);
    EventsAppend(NewEvents(a, b), NewEvents(b, c));
    EventsAppend(NewEvents(a, c), NewEvents(c, d));
  }

  /**
   * Around the loop a batch only dials and cleans up: what it sends, logs
   * and writes is what RunCommands sends, logs and writes.
   */
  lemma BatchAroundLoop(net: Network, ses: Session, commands: seq<string>, st: State)
    requires commands != [] && DialStep(net, ses, st).1.None?
    ensures var dialled := DialStep(net, ses, st).0;
      var loop := RunCommands(net, ses, dialled.client.value, commands, dialled);
      var r := ExecuteBatch(net, ses, commands, st);
      && Extends(st, dialled) && Extends(dialled, loop.0) && Extends(st, r.0)
      && r.1 == loop.1
      && r.0 == DropWebClient(ses, loop.0)
      && loop.0.client == dialled.client
      && Commands(NewEvents(st, r.0)) == Commands(NewEvents(dialled, loop.0))
      && Requests(NewEvents(st, r.0)) == Requests(NewEvents(dialled, loop.0))
      && Echoes(NewEvents(st, r.0)) == Echoes(NewEvents(dialled, loop.0))
      && Dials(NewEvents(st, r.0)) == Dials(NewEvents(st, dialled))
      && NewLines(st, r.0) == NewLines(dialled, loop.0)
  {
    var dialled := DialStep(net, ses, st).0;
    var loop := RunCommands(net, ses, dialled.client.value, commands, dialled);
    assert ExecuteBatch(net, ses, commands, st) == (DropWebClient(ses, loop.0), loop.1);
    DialStepEffect(net, ses, st);
    RunCommandsExtends(net, ses, dialled.client.value, commands, dialled);
    RunCommandsNoDial(net, ses, dialled.client.value, commands, dialled);
    DropWebClientEffect(ses, loop.0);
    Sandwich(st, dialled, loop.0, DropWebClient(ses, loop.0));
  }

  /** A batch only adds calls and writes. */
  lemma BatchExtends(net: Network, ses: Session, commands: seq<string>, st: State)
    ensures Extends(st, ExecuteBatch(net, ses, commands, st).0)
  {
    if commands != [] {
      if DialStep(net, ses, st).1.None? {
        BatchAroundLoop(net, ses, commands, st);
      } else {
        BatchDialFailed(net, ses, commands, st);
      }
    }
  }

  /**
   * A batch sends its commands in order and logs each one it completes:
   * the commands sent are a prefix of the batch, none is empty, and a
   * batch that succeeds sent and logged all of them.  An empty batch
   * changes nothing.
   */
  lemma BatchSendsInOrder(net: Network, ses: Session, commands: seq<string>, st: State)
    ensures var r := ExecuteBatch(net, ses, commands, st);
      && Extends(st, r.0)
      && var sent := Commands(NewEvents(st, r.0));
      && var logged := Requests(NewEvents(st, r.0));
      && sent <= commands && "" !in sent
      && logged <= sent && |sent| <= |logged| + 1
      && (r.1.None? ==> sent == commands && logged == commands)
      && (commands == [] ==> r == (st, Some(Sentinel(CommandEmpty))))
  {
    if commands != [] {
      var (dialled, derr) := DialStep(net, ses, st);
      if derr.None? {
        BatchAroundLoop(net, ses, commands, st);
        RunCommandsInOrder(net, ses, dialled.client.value, commands, dialled);
        RunCommandsNeverEmpty(net, ses, dialled.client.value, commands, dialled);
        RunCommandsLogged(net, ses, dialled.client.value, commands, dialled);
      } else {
        BatchDialFailed(net, ses, commands, st);
      }
    }
  }

  /**
   * What a batch writes: each non-empty response, trimmed, in the order
   * the commands were sent, and a separator between completed commands.
   */
  lemma BatchWritesResponses(net: Network, ses: Session, commands: seq<string>, st: State)
    ensures var r := ExecuteBatch(net, ses, commands, st);
      && Extends(st, r.0)
      && Echoes(NewEvents(st, r.0)) == Responses(NewLines(st, r.0))
      && (r.1.None? && commands != [] ==> Separators(NewLines(st, r.0)) == |commands| - 1)
      && (r.1.Some? ==> Separators(NewLines(st, r.0)) == |Requests(NewEvents(st, r.0))|)
  {
    if commands != [] {
      var (dialled, derr) := DialStep(net, ses, st);
      if derr.None? {
        BatchAroundLoop(net, ses, commands, st);
        RunCommandsEcho(net, ses, dialled.client.value, commands, dialled);
        RunCommandsSeparators(net, ses, dialled.client.value, commands, dialled);
      } else {
        BatchDialFailed(net, ses, commands, st);
      }
    }
  }

  /**
   * Everything a batch writes: nothing when it is empty or its dial fails;
   * otherwise its passes' lines, with the first remote call made right
   * after the dial.
   */
  lemma BatchWritesLines(net: Network, ses: Session, commands: seq<string>, st: State)
    ensures var r := ExecuteBatch(net, ses, commands, st);
      var d := DialStep(net, ses, st);
      && Extends(st, r.0)
      && (commands == [] || d.1.Some? ==> NewLines(st, r.0) == [])
      && (commands != [] && d.1.None? ==>
            NewLines(st, r.0) == BatchLines(net, ses, d.0.client.value, commands, |d.0.trace|))
  {
    if commands == [] {
      assert NewLines(st, st) == [] && NewEvents(st, st) == [];
    } else {
      var (dialled, derr) := DialStep(net, ses, st);
      if derr.None? {
        BatchAroundLoop(net, ses, commands, st);
        RunCommandsLines(net, ses, dialled.client.value, commands, dialled);
      } else {
        BatchDialFailed(net, ses, commands, st);
      }
    }
  }

  /**
   * Why a batch fails: "command is not set", bare, only for an empty
   * batch or an empty command in it; a dial failure behind "execute: ";
   * otherwise a remote failure behind "execute: ", which skip-errors rules
   * out.  So with skip-errors and no empty command, a batch fails exactly
   * when its dial fails.
   */
  lemma BatchErrors(net: Network, ses: Session, commands: seq<string>, st: State)
    ensures var r := ExecuteBatch(net, ses, commands, st);
      && (r.1 == Some(Sentinel(CommandEmpty)) ==> commands == [] || "" in commands)
      && (commands != [] && DialStep(net, ses, st).1.Some? ==>
            r.1 == Some(Wrap("execute", DialStep(net, ses, st).1.value)))
      && (ses.skipErrors && "" !in commands && commands != [] ==>
            (r.1.Some? <==> DialStep(net, ses, st).1.Some?))
  {
    if commands != [] {
      var (dialled, derr) := DialStep(net, ses, st);
      if derr.None? {
        var h := dialled.client.value;
        BatchAroundLoop(net, ses, commands, st);
        RunCommandsEmptyStop(net, ses, h, commands, dialled);
        RunCommandsRemoteStop(net, ses, h, commands, dialled);
        RunCommandsInOrder(net, ses, h, commands, dialled);
      }
    }
  }

  /**
   * The connection cache: a non-empty batch dials exactly when no client
   * is cached; for rcon and telnet a cached client stays cached, and one
   * that was dialled stays cached for the next batch.
   */
  lemma BatchClient(net: Network, ses: Session, commands: seq<string>, st: State)
    ensures var r := ExecuteBatch(net, ses, commands, st);
      && Extends(st, r.0)
      && Dials(NewEvents(st, r.0)) == (if commands != [] && st.client.None? then [AdapterFor(ses.protocol)] else [])
      && (ses.protocol != ProtocolWeb && st.client.Some? ==> r.0.client == st.client)
      && (ses.protocol != ProtocolWeb && commands != [] ==>
            (r.0.client.Some? <==> DialStep(net, ses, st).1.None?))
  {
    if commands != [] {
      DialStepEffect(net, ses, st);
      if DialStep(net, ses, st).1.Some? {
        BatchDialFailed(net, ses, commands, st);
      } else {
        BatchAroundLoop(net, ses, commands, st);
        var dialled := DialStep(net, ses, st).0;
        DropWebClientEffect(ses, RunCommands(net, ses, dialled.client.value, commands, dialled).0);
      }
    }
  }

  /**
   * For web a non-empty batch never leaves a client cached, and when its
   * dial succeeded the last call it makes is closing that client.
   */
  lemma BatchWebClient(net: Network, ses: Session, commands: seq<string>, st: State)
    requires ses.protocol == ProtocolWeb && commands != []
    ensures var r := ExecuteBatch(net, ses, commands, st);
      && Extends(st, r.0)
      && r.0.client.None?
      && (DialStep(net, ses, st).1.None? ==>
            var events := NewEvents(st, r.0);
            events != [] && events[|events| - 1] == Closed(DialStep(net, ses, st).0.client.value))
  {
    if DialStep(net, ses, st).1.Some? {
      BatchDialFailed(net, ses, commands, st);
    } else {
      BatchAroundLoop(net, ses, commands, st);
      var dialled := DialStep(net, ses, st).0;
      var loop := RunCommands(net, ses, dialled.client.value, commands, dialled);
      var done := DropWebClient(ses, loop.0);
      DropWebClientEffect(ses, loop.0);
      NewSplits(st, loop.0, done);
      assert NewEvents(st, done) == NewEvents(st, loop.0) + [Closed(dialled.client.value)];
    }
  }

  /**
   * Two batches in a row: for rcon and telnet a first batch whose dial
   * succeeded leaves the client cached, so the second dials nothing; for
   * web every batch dials afresh.
   */
  lemma ConsecutiveBatches(net: Network, ses: Session, first: seq<string>, second: seq<string>, st: State)
    requires first != [] && second != []
    ensures var r1 := ExecuteBatch(net, ses, first, st);
      var r2 := ExecuteBatch(net, ses, second, r1.0);
      && Extends(r1.0, r2.0)
      && (ses.protocol != ProtocolWeb && DialStep(net, ses, st).1.None? ==> Dials(NewEvents(r1.0, r2.0)) == [])
      && (ses.protocol == ProtocolWeb ==> Dials(NewEvents(r1.0, r2.0)) == [WebSocketAdapter])
  {
    var r1 := ExecuteBatch(net, ses, first, st);
    BatchClient(net, ses, first, st);
    BatchClient(net, ses, second, r1.0);
    if ses.protocol == ProtocolWeb {
      BatchWebClient(net, ses, first, st);
    }
  }
}

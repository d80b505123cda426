/**
 * What Interactive promises, proved about its specifying functions: the
 * reading loop executes exactly the non-empty lines before ":q", one
 * batch each, and the protocol type picks between the telnet hand-off,
 * the dialled loop and the "unsupported" message.
 */
module InteractiveProps {
  import opened Wrappers
  import opened Errors
  import opened Config
  import opened Console
  import opened ConsoleProps

  /** The lines the reading loop executes: the non-empty ones before the first ":q". */
  function Issued(lines: seq<string>): (cmds: seq<string>)
    ensures |cmds| <= |lines| && "" !in cmds && CommandQuit !in cmds
  {
    if lines == [] || lines[0] == CommandQuit then []
    else if lines[0] == "" then Issued(lines[1..])
    else [lines[0]] + Issued(lines[1..])
  }

  /**
   * The reading loop sends the issued lines in order, each as a batch of
   * one: all of them when it ends without error, a prefix of them when a
   * batch fails.  It only adds calls and writes.
   */
  lemma {:induction false} ReadLoopSends(net: Network, ses: Session, lines: seq<string>, st: State)
    ensures var r := ReadLoop(net, ses, lines, st);
      && Extends(st, r.0)
      && Commands(NewEvents(st, r.0)) <= Issued(lines)
      && (r.1.None? ==> Commands(NewEvents(st, r.0)) == Issued(lines))
    decreases |lines|
  {
    if lines == [] || lines[0] == CommandQuit {
    } else if lines[0] == "" {
      var next := st.(output := st.output + [Prompt(InputPrompt)]);
      ReadLoopSends(net, ses, lines[1..], next);
      var done := ReadLoop(net, ses, lines[1..], next).0;
      NewSplits(st, next, done);
      assert NewEvents(st, next) == [];
      EventsAppend(NewEvents(st, next), NewEvents(next, done));
    } else {
      var b := ExecuteBatch(net, ses, [lines[0]], st);
      BatchSendsInOrder(net, ses, [lines[0]], st);
      if b.1.None? {
        var next := b.0.(output := b.0.output + [Prompt(InputPrompt)]);
        ReadLoopSends(net, ses, lines[1..], next);
        var done := ReadLoop(net, ses, lines[1..], next).0;
        NewSplits(st, next, done);
        assert NewEvents(st, next) == NewEvents(st, b.0);
        EventsAppend(NewEvents(st, next), NewEvents(next, done));
      } else {
        var sent := Commands(NewEvents(st, b.0));
        assert sent == [] || sent == [lines[0]];
      }
    }
  }

  /** ":q" ends the reading loop at once, with no error and nothing written or called. */
  lemma ReadLoopQuit(net: Network, ses: Session, rest: seq<string>, st: State)
    ensures ReadLoop(net, ses, [CommandQuit] + rest, st) == (st, None)
  {
  }

  /** Nothing after the first ":q" is read: the loop runs as if the input ended there. */
  lemma {:induction false} ReadLoopStopsAtQuit(net: Network, ses: Session, lines: seq<string>, i: nat, st: State)
    requires i < |lines| && lines[i] == CommandQuit && CommandQuit !in lines[..i]
    ensures ReadLoop(net, ses, lines, st) == ReadLoop(net, ses, lines[..i], st)
    decreases i
  {
    if i > 0 {
      assert lines[0] == lines[..i][0];
      assert lines[..i][1..] == lines[1..][..i - 1];
      assert CommandQuit !in lines[1..][..i - 1];
      var next := st.(output := st.output + [Prompt(InputPrompt)]);
      if lines[0] == "" {
        ReadLoopStopsAtQuit(net, ses, lines[1..], i - 1, next);
      } else {
        var b := ExecuteBatch(net, ses, [lines[0]], st);
        ReadLoopStopsAtQuit(net, ses, lines[1..], i - 1, b.0.(output := b.0.output + [Prompt(InputPrompt)]));
      }
    }
  }

  /**
   * The loop runs in two parts at any line before the first ":q": the
   * lines before it, then, unless those failed, the rest from the state
   * they left.
   */
  lemma {:induction false} ReadLoopSplit(net: Network, ses: Session, lines: seq<string>, i: nat, st: State)
    requires i <= |lines| && CommandQuit !in lines[..i]
    ensures ReadLoop(net, ses, lines, st) ==
      var pre := ReadLoop(net, ses, lines[..i], st);
      if pre.1.Some? then pre else ReadLoop(net, ses, lines[i..], pre.0)
    decreases i
  {
    if i == 0 {
      assert lines[..0] == [] && lines[0..] == lines;
    } else {
      assert lines[0] == lines[..i][0] && lines[..i][1..] == lines[1..][..i - 1];
      assert lines[1..][i - 1..] == lines[i..];
      assert CommandQuit !in lines[1..][..i - 1];
      if lines[0] == "" {
        ReadLoopSplit(net, ses, lines[1..], i - 1, st.(output := st.output + [Prompt(InputPrompt)]));
      } else {
        var b := ExecuteBatch(net, ses, [lines[0]], st);
        if b.1.None? {
          ReadLoopSplit(net, ses, lines[1..], i - 1, b.0.(output := b.0.output + [Prompt(InputPrompt)]));
        }
      }
    }
  }

  /**
   * The reading loop failed on line i: a non-empty line other than ":q",
   * with no ":q" before it, read once the lines before it ran without
   * error, whose batch of one returned an error along with the final state.
   */
  ghost predicate FailsOn(net: Network, ses: Session, lines: seq<string>, st: State, r: (State, Option<Err>), i: int)
  {
    0 <= i < |lines| && lines[i] != "" && lines[i] != CommandQuit && CommandQuit !in lines[..i]
    && var pre := ReadLoop(net, ses, lines[..i], st);
    pre.1.None? && ExecuteBatch(net, ses, [lines[i]], pre.0) == r && r.1.Some?
  }

  /** The reading loop failed on some line. */
  ghost predicate FailedAt(net: Network, ses: Session, lines: seq<string>, st: State, r: (State, Option<Err>))
  {
    exists i :: FailsOn(net, ses, lines, st, r, i)
  }

  /** A failure on the rest of the input, after a first line that ran without error, is a failure on the whole input. */
  lemma FailedCons(net: Network, ses: Session, lines: seq<string>, st: State, next: State, r: (State, Option<Err>))
    requires lines != [] && lines[0] != CommandQuit
    requires lines[0] == "" ==> next == st.(output := st.output + [Prompt(InputPrompt)])
    requires lines[0] != "" ==>
      var b := ExecuteBatch(net, ses, [lines[0]], st);
      b.1.None? && next == b.0.(output := b.0.output + [Prompt(InputPrompt)])
    requires FailedAt(net, ses, lines[1..], next, r)
    ensures FailedAt(net, ses, lines, st, r)
  {
    var i :| FailsOn(net, ses, lines[1..], next, r, i);
    ShiftQuitFree(lines, i);
    assert lines[..i + 1][0] == lines[0] && lines[..i + 1][1..] == lines[1..][..i];
    assert ReadLoop(net, ses, lines[..i + 1], st) == ReadLoop(net, ses, lines[1..][..i], next);
    assert FailsOn(net, ses, lines, st, r, i + 1);
  }

  /** Line i of the rest is line i + 1 of the input, and no ":q" precedes it there either. */
  lemma ShiftQuitFree(lines: seq<string>, i: nat)
    requires lines != [] && lines[0] != CommandQuit && i < |lines| - 1 && CommandQuit !in lines[1..][..i]
    ensures lines[i + 1] == lines[1..][i] && CommandQuit !in lines[..i + 1]
  {
    assert lines[..i + 1] == [lines[0]] + lines[1..][..i];
  }

  /**
   * The reading loop returns an error only as the error of the first
   * failing batch, and stops right there: at ":q" or at the end of the
   * input it returns nil.
   */
  lemma {:induction false} ReadLoopFails(net: Network, ses: Session, lines: seq<string>, st: State)
    ensures var r := ReadLoop(net, ses, lines, st);
      r.1.Some? ==> FailedAt(net, ses, lines, st, r)
    decreases |lines|
  {
    var r := ReadLoop(net, ses, lines, st);
    if lines != [] && lines[0] != CommandQuit && r.1.Some? {
      var b := ExecuteBatch(net, ses, [lines[0]], st);
      if lines[0] != "" && b.1.Some? {
        assert lines[..0] == [];
        assert FailsOn(net, ses, lines, st, r, 0);
      } else {
        var next := if lines[0] == "" then st.(output := st.output + [Prompt(InputPrompt)])
                    else b.0.(output := b.0.output + [Prompt(InputPrompt)]);
        assert r == ReadLoop(net, ses, lines[1..], next);
        ReadLoopFails(net, ses, lines[1..], next);
        FailedCons(net, ses, lines, st, next, r);
      }
    }
  }

  /**
   * Conversely, a batch that fails on a line the loop reaches ends the
   * loop: its state and error are the loop's.
   */
  lemma FailureEndsLoop(net: Network, ses: Session, lines: seq<string>, st: State, r: (State, Option<Err>), i: int)
    requires FailsOn(net, ses, lines, st, r, i)
    ensures ReadLoop(net, ses, lines, st) == r
  {
    ReadLoopSplit(net, ses, lines, i, st);
    assert lines[i..][0] == lines[i];
  }

  /**
   * What the reading loop writes: for each line before the first ":q",
   * the lines of its batch of one (none for an empty line), then the "> "
   * prompt, except after a batch that fails, which ends it.
   */
  function LoopLines(net: Network, ses: Session, lines: seq<string>, st: State): seq<Line>
    decreases |lines|
  {
    if lines == [] || lines[0] == CommandQuit then []
    else if lines[0] == "" then
      [Prompt(InputPrompt)] + LoopLines(net, ses, lines[1..], st.(output := st.output + [Prompt(InputPrompt)]))
    else
      var d := DialStep(net, ses, st);
      var written := if d.1.Some? then [] else BatchLines(net, ses, d.0.client.value, [lines[0]], |d.0.trace|);
      var (next, err) := ExecuteBatch(net, ses, [lines[0]], st);
      if err.Some? then written
      else written + [Prompt(InputPrompt)] + LoopLines(net, ses, lines[1..], next.(output := next.output + [Prompt(InputPrompt)]))
  }

  /** The reading loop writes exactly LoopLines: each line's batch output, each followed by "> ". */
  lemma {:induction false} ReadLoopLines(net: Network, ses: Session, lines: seq<string>, st: State)
    ensures var r := ReadLoop(net, ses, lines, st);
      Extends(st, r.0) && NewLines(st, r.0) == LoopLines(net, ses, lines, st)
    decreases |lines|
  {
    var r := ReadLoop(net, ses, lines, st);
    if lines == [] || lines[0] == CommandQuit {
      assert NewLines(st, st) == [];
    } else if lines[0] == "" {
      var next := st.(output := st.output + [Prompt(InputPrompt)]);
      ReadLoopLines(net, ses, lines[1..], next);
      NewSplits(st, next, r.0);
      assert NewLines(st, next) == [Prompt(InputPrompt)];
    } else {
      var b := ExecuteBatch(net, ses, [lines[0]], st);
      BatchWritesLines(net, ses, [lines[0]], st);
      if b.1.None? {
        var next := b.0.(output := b.0.output + [Prompt(InputPrompt)]);
        ReadLoopLines(net, ses, lines[1..], next);
        NewSplits(st, b.0, next);
        NewSplits(st, next, r.0);
        assert NewLines(b.0, next) == [Prompt(InputPrompt)];
      }
    }
  }

  /** Every non-empty line before ":q" is executed when the loop ends without error. */
  lemma {:induction false} IssuedAll(lines: seq<string>, i: nat)
    requires i < |lines| && lines[i] != "" && CommandQuit !in lines[..i + 1]
    ensures lines[i] in Issued(lines)
    decreases i
  {
    assert lines[0] == lines[..i + 1][0];
    if i > 0 {
      assert lines[1..][..i] == lines[..i + 1][1..];
      IssuedAll(lines[1..], i - 1);
    }
  }

  /**
   * Interactive with the telnet type: after the prompts for the missing
   * fields, the session and the unread input are handed to the telnet
   * client, whose result is returned; nothing is dialled or sent here.
   */
  lemma DispatchTelnet(net: Network, c: Collected, st: State)
    requires c.ses.protocol == ProtocolTelnet
    ensures var r := Dispatch(net, c, st);
      && Extends(st, r.0) && r.0.client == st.client
      && NewLines(st, r.0) == c.prompts
      && NewEvents(st, r.0) == [HandedOff(c.ses.address)]
      && r.1 == net.telnetInteractive(c.ses.address, c.ses.password, c.rest, |st.trace|)
  {
    var r := Dispatch(net, c, st);
    assert r.0.output == st.output + c.prompts;
  }

  /**
   * Interactive with a type that is neither telnet, rcon, web nor empty:
   * the prompts, then the "unsupported" message, no call at all, and no
   * error.
   */
  lemma DispatchUnsupported(net: Network, c: Collected, st: State)
    requires c.ses.protocol != ProtocolTelnet && !Dialable(c.ses.protocol)
    ensures var r := Dispatch(net, c, st);
      && Extends(st, r.0) && r.0.client == st.client
      && NewLines(st, r.0) == c.prompts + [Unsupported(c.ses.protocol)]
      && NewEvents(st, r.0) == []
      && r.1.None?
  {
    var r := Dispatch(net, c, st);
    assert r.0.output == st.output + c.prompts + [Unsupported(c.ses.protocol)];
  }

  /** The state the reading loop of Interactive starts from, once the prompts are written and the dial succeeded. */
  function LoopStart(net: Network, s: Session, prompts: seq<Line>, st: State): State
  {
    var dialled := DialStep(net, s, st.(output := st.output + prompts)).0;
    dialled.(output := dialled.output + [Banner(s.address)])
  }

  /** Up to the reading loop, Interactive writes the prompts and the banner and sends nothing. */
  lemma LoopStartEffect(net: Network, s: Session, prompts: seq<Line>, st: State)
    ensures var start := LoopStart(net, s, prompts, st);
      && Extends(st, start)
      && NewLines(st, start) == prompts + [Banner(s.address)]
      && Commands(NewEvents(st, start)) == []
  {
    var asked := st.(output := st.output + prompts);
    var dialled := DialStep(net, s, asked).0;
    DialStepEffect(net, s, asked);
    assert NewEvents(st, LoopStart(net, s, prompts, st)) == NewEvents(asked, dialled);
  }

  /**
   * Interactive with an empty, rcon or web type: after the prompts it
   * dials; a dial failure is returned with nothing sent; otherwise the
   * banner is written and the reading loop runs on the unread input from
   * there, so the issued lines are sent in order, all of them unless a
   * batch fails.
   */
  lemma DispatchLoop(net: Network, c: Collected, st: State)
    requires c.ses.protocol != ProtocolTelnet && Dialable(c.ses.protocol)
    ensures var r := Dispatch(net, c, st);
      && Extends(st, r.0)
      && c.prompts <= NewLines(st, r.0)
      && Commands(NewEvents(st, r.0)) <= Issued(c.rest)
      && (r.1.None? ==> Commands(NewEvents(st, r.0)) == Issued(c.rest))
      && (st.client.None? ==>
            var d := net.dial(AdapterFor(c.ses.protocol), c.ses.address, c.ses.password, |st.trace|);
            d.Failure? ==> r.1 == Some(Wrap("auth", d.error)) && Commands(NewEvents(st, r.0)) == [])
      && (DialStep(net, c.ses, st.(output := st.output + c.prompts)).1.None? ==>
            r == ReadLoop(net, c.ses, c.rest, LoopStart(net, c.ses, c.prompts, st)))
  {
    var asked := st.(output := st.output + c.prompts);
    var (dialled, derr) := DialStep(net, c.ses, asked);
    if derr.None? {
      var start := LoopStart(net, c.ses, c.prompts, st);
      assert Dispatch(net, c, st) == ReadLoop(net, c.ses, c.rest, start);
      LoopStartEffect(net, c.ses, c.prompts, st);
      ReadLoopSends(net, c.ses, c.rest, start);
      var done := ReadLoop(net, c.ses, c.rest, start).0;
      NewSplits(st, start, done);
      EventsAppend(NewEvents(st, start), NewEvents(start, done));
    } else {
      DialStepEffect(net, c.ses, asked);
      assert NewEvents(st, dialled) == NewEvents(asked, dialled);
    }
  }

  /**
   * Interactive with an empty, rcon or web type, once its dial succeeded,
   * writes the prompts, the banner and then exactly what the reading loop
   * writes, and returns an error only as the error of the first batch
   * that fails on a non-empty line before ":q", ending right there;
   * otherwise it returns nil at ":q" or at the end of the input.
   */
  lemma DispatchLoopFails(net: Network, c: Collected, st: State)
    requires c.ses.protocol != ProtocolTelnet && Dialable(c.ses.protocol)
    requires DialStep(net, c.ses, st.(output := st.output + c.prompts)).1.None?
    ensures var r := Dispatch(net, c, st);
      var start := LoopStart(net, c.ses, c.prompts, st);
      && Extends(st, r.0)
      && NewLines(st, r.0) == c.prompts + [Banner(c.ses.address)] + LoopLines(net, c.ses, c.rest, start)
      && (r.1.Some? ==> FailedAt(net, c.ses, c.rest, start, r))
  {
    var start := LoopStart(net, c.ses, c.prompts, st);
    assert Dispatch(net, c, st) == ReadLoop(net, c.ses, c.rest, start);
    LoopStartEffect(net, c.ses, c.prompts, st);
    ReadLoopLines(net, c.ses, c.rest, start);
    NewSplits(st, start, Dispatch(net, c, st).0);
    ReadLoopFails(net, c.ses, c.rest, start);
  }
}

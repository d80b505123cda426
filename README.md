# rcon-cli executor and configuration, modelled in Dafny

This project models the core of `rcon-cli`, a command-line client for the
remote consoles of game servers (RCON, telnet and web RCON). Two parts are
modelled.

- **Configuration.** A YAML or JSON file maps environment names to
  sessions (`Config`). A named file is decoded by file extension and
  validated against the allowed protocol tags. `NewConfig` chains these
  steps: it wraps a parse failure with "parse file: " and returns a
  validation failure unwrapped.
  - When no file is named, the default file next to the executable is read
    and decoded. Only a failure other than "does not exist" is kept from
    it. The configuration is then replaced by `{"default": zero session}`
    whatever the file held.
  - So none of the default file's environments reaches the session, and
    none of its types is validated (`SessionProps.DefaultFileIgnored`).
- **Executor.** It settles the session from flags and the configuration
  (`NewSession`) and checks the command-line action. It dials and caches one
  client per executor. It runs a batch of commands (`Execute`): responses are
  trimmed and echoed. Every command that completes is logged and followed
  by a separator unless it is the last. A remote failure without
  skip-errors returns before the log write.
  It runs the interactive loop (`Interactive`): the missing fields are
  prompted for, then telnet is handed off, an rcon or web loop runs up to
  `:q`, and any other type is refused.

How the model is built:

- Everything outside the core is a **parameter**. This covers reading files,
  the executable's directory, YAML/JSON decoding, dialling, the remote
  `Execute`/`Close`, `logger.Write` and the telnet interactive client.
  - Each is a total function in a `Loader` (`config.dfy`) or a `Network`
    (`console.dfy`) value.
  - Network functions also receive a tick (the number of calls made so far),
    so the same command may be answered differently at different times.
- The executor's mutable part is a **class** with three fields: the cached
  client, the lines written to the output stream, and a trace of every call
  into a collaborator. `Executor.Executor` holds it.
- Each method is proved equal to a specification function on a `State`
  value (`DialStep`, `ExecuteBatch`, `InteractiveRun` and their parts in
  `console.dfy`). The promised properties are then proved about those
  functions in `console_props.dfy`, `interactive_props.dfy` and
  `session_props.dfy`.
  - `InteractiveRun` is `Dispatch` applied to `Collect`: the prompts first,
    then the choice by protocol type.
- Go errors are values (`errors.dfy`): sentinels, `%w` wrapping and
  annotation. `Message` gives `err.Error()` and `Is` gives `errors.Is`
  against a sentinel.
- Output writes are structured `Line`s; `Render` gives their exact text.

## Model

| member | source | states |
|---|---|---|
| GoText.TrimSpaceSpec | internal/executor/executor.go:235-236 | a trimmed response is the slice left after removing white space at both ends, and it neither starts nor ends with white space |
| GoText.Ext | internal/config/config.go:103 | the extension is a suffix of the name that starts with '.' and holds no other '.' or '/'; it is empty only when every '.' is followed by a '/' |
| Config.UnsupportedTypeError | internal/config/config.go:90 | the error matches ErrConfigValidation, not os.ErrNotExist, and reads "config validation error: unsupported type in KEY environment" |
| Config.NotSetError | internal/config/config.go:82-83 | the nil-configuration error matches ErrConfigValidation and reads "config validation error: config is not set" |
| Config.FormatOf | internal/config/config.go:103-110 | ".yml" and ".yaml" pick YAML, ".json" picks JSON, and each only for those extensions |
| Config.ParseReadFailure | internal/config/config.go:98-101 | a read failure leaves the map alone and is returned as "read file: ..."; it still matches os.ErrNotExist exactly when the cause does |
| Config.ParseUnsupportedExtension | internal/config/config.go:108-109 | a readable file with another extension leaves the map alone; the error matches ErrUnsupportedFileExt, not os.ErrNotExist, and names the extension |
| Config.ParseDecodes | internal/config/config.go:103-107 | a readable file is decoded into the map by the decoder its extension selects, and the result is the decoder's |
| Config.ParseFromFileOutcome | internal/config/config.go:60-78 | a named file is parsed as is; otherwise a failure to locate the executable is wrapped with "get abs path"; a default file that is missing or parses gives exactly {"default": zero session}; any other failure is returned unchanged |
| Config.Config.constructor | internal/config/config.go:46 | a new configuration is empty |
| Config.Config.Parse | internal/config/config.go:97-113 | the map and the error after parsing in place are those of ParseOutcome on the old map |
| Config.Config.ParseFromFile | internal/config/config.go:60-78 | the map and the error after the call are those of ParseFromFileOutcome on the old map |
| Config.Validate | internal/config/config.go:81-95 | nil gives the not-set error; otherwise it succeeds exactly when every environment's type is allowed, and a failure names one offending environment |
| Config.NewConfig | internal/config/config.go:45-56 | a parse failure gives no configuration and "parse file: ..."; otherwise the parsed configuration, with no error exactly when every type is allowed, else a validation error naming a bad environment |
| Console.AdapterFor | internal/executor/executor.go:325-332 | telnet and web are dialled by name; every other type, the empty one included, is dialled as rcon |
| Console.DialStep | internal/executor/executor.go:321-340 | a cached client is kept and nothing is called; otherwise one dial is made with the session's address and password; the handle it returns is cached exactly when it succeeds, and a failure is returned as "auth: ..." with no client cached |
| Console.LogWrite | internal/logger/logger.go:56-60 | an empty log name disables logging and never fails |
| Console.RenderedPrompts | internal/executor/executor.go:264-274 | the three prompts of interactive mode and the input prompt read exactly as the source writes them |
| Console.RenderedBanner | internal/executor/executor.go:286 | the banner names the address and ":q", then writes the input prompt |
| Console.RenderedLines | internal/executor/executor.go:237-253 | a response, a skipped failure "execute: ...", a log warning "log: ..." and the separator "--------" each take one line |
| Console.RenderedUnsupported | internal/executor/executor.go:304-305 | the refusal quotes the unknown type and names, quoted, rcon, web and telnet |
| Console.CollectSpec | internal/executor/executor.go:263-276 | address, password and type are prompted for in that order, only when empty, and each takes the next input line; log and skip-errors are untouched, and exactly the answered lines are consumed |
| ConsoleProps.SendStepEffect | internal/executor/executor.go:234-238 | sending records exactly that call, and its only write is the trimmed echo of a non-empty response |
| ConsoleProps.FinishStepEvents | internal/executor/executor.go:248-250 | the rest of a pass makes one call: the log write of the command with the session's log name and address and the trimmed response; it sends and dials nothing |
| ConsoleProps.FinishStepLines | internal/executor/executor.go:240-254 | the rest of a pass writes, in order, a skipped failure as "execute: ...", a failed log write as "log: ...", and a separator unless it is the last command |
| ConsoleProps.RunCommandSends | internal/executor/executor.go:226-246 | an empty command changes nothing and gives ErrCommandEmpty; otherwise exactly that command is sent; a pass aborts only on a remote failure without skip-errors, as "execute: ..." right after the send |
| ConsoleProps.RunCommandLogs | internal/executor/executor.go:240-250 | a pass logs its command exactly when it does not abort |
| ConsoleProps.RunCommandWrites | internal/executor/executor.go:226-254 | an empty command writes nothing; otherwise the echo of the response, then, unless the pass aborts, the skipped failure, the log warning and the separator unless it is the last; a completed pass makes exactly two calls |
| ConsoleProps.RunCommandsExtends | internal/executor/executor.go:226-255 | the loop keeps the client, and calls and writes only grow |
| ConsoleProps.RunCommandsNoDial | internal/executor/executor.go:226-255 | the loop never dials |
| ConsoleProps.RunCommandsInOrder | internal/executor/executor.go:226-255 | the commands sent are a prefix of the batch, and all of it when the loop succeeds |
| ConsoleProps.RunCommandsNeverEmpty | internal/executor/executor.go:226-229 | an empty command is never sent |
| ConsoleProps.RunCommandsLogged | internal/executor/executor.go:240-250 | the logged commands are the sent ones, in order, except possibly the last one; on success every command is logged |
| ConsoleProps.RunCommandsEcho | internal/executor/executor.go:234-238 | the responses written are the trimmed non-empty replies, in send order, even when the loop stops early |
| ConsoleProps.RunCommandsLines | internal/executor/executor.go:226-255 | the loop writes its passes' lines in send order: each echo, then that pass's skipped failure, log warning and separator; nothing after an aborting pass |
| ConsoleProps.RunCommandsSeparators | internal/executor/executor.go:252-254 | N successful commands give N-1 separators; a stopped loop writes one per logged command |
| ConsoleProps.RunCommandsEmptyStop | internal/executor/executor.go:226-229 | a stop at ErrCommandEmpty, bare and whatever skip-errors says, comes right after sending and logging every command before the empty one |
| ConsoleProps.RunCommandsRemoteStop | internal/executor/executor.go:240-246 | any other stop happens only without skip-errors: the last call is the failing send, which is not logged, and its error is returned as "execute: ..." |
| ConsoleProps.DialStepEffect | internal/executor/executor.go:321-340 | dialling writes nothing, sends and logs nothing, and dials once exactly when no client is cached |
| ConsoleProps.DropWebClientEffect | internal/executor/executor.go:215-220 | for web the cached client is closed (the only call) and forgotten; other types are untouched |
| ConsoleProps.BatchDialFailed | internal/executor/executor.go:213-224 | a failed dial gives "execute: auth: ...", with nothing sent, logged or written and no client cached |
| ConsoleProps.BatchAroundLoop | internal/executor/executor.go:213-257 | around the loop a batch only dials and cleans up, so what it sends, logs and writes is what the loop does |
| ConsoleProps.BatchSendsInOrder | internal/executor/executor.go:208-257 | a batch sends a prefix of its commands, none empty, logs all sent but possibly the last, sends and logs all on success; an empty batch changes nothing and gives ErrCommandEmpty |
| ConsoleProps.BatchWritesResponses | internal/executor/executor.go:226-257 | a batch writes the trimmed replies in send order, with separators only between completed commands |
| ConsoleProps.BatchWritesLines | internal/executor/executor.go:208-257 | an empty batch or a failed dial writes nothing; otherwise the batch writes exactly its passes' lines, the first call right after the dial |
| ConsoleProps.BatchExtends | internal/executor/executor.go:208-257 | a batch only adds calls and writes |
| ConsoleProps.BatchErrors | internal/executor/executor.go:208-257 | ErrCommandEmpty only for an empty batch or one holding ""; a dial failure gives "execute: ..."; with skip-errors and no empty command, a batch fails exactly when its dial fails |
| ConsoleProps.BatchClient | internal/executor/executor.go:213-224 | a non-empty batch dials exactly when no client is cached; rcon and telnet keep a cached client, and have one afterwards exactly when the dial succeeded |
| ConsoleProps.BatchWebClient | internal/executor/executor.go:215-220 | for web no client stays cached, and after a successful dial the last call closes that client |
| ConsoleProps.ConsecutiveBatches | internal/executor/executor.go:213-220 | after an rcon or telnet batch whose dial succeeded the next batch dials nothing, while web dials again every batch |
| InteractiveProps.Issued | internal/executor/executor.go:288-299 | the lines the loop executes are no more than the input lines, none is empty and none is ":q" |
| InteractiveProps.ReadLoopSends | internal/executor/executor.go:288-302 | the loop sends the issued lines in order: all of them when it ends without error, a prefix when a command fails |
| InteractiveProps.IssuedAll | internal/executor/executor.go:289-299 | every non-empty line before the first ":q" is issued |
| InteractiveProps.ReadLoopQuit | internal/executor/executor.go:292-293 | ":q" ends the loop at once with no error, writing and calling nothing |
| InteractiveProps.ReadLoopStopsAtQuit | internal/executor/executor.go:289-302 | nothing after the first ":q" is read: the loop runs as if the input ended there |
| InteractiveProps.ReadLoopSplit | internal/executor/executor.go:288-302 | at any line before the first ":q" the loop is the lines before it, then, unless those failed, the rest from the state they left |
| InteractiveProps.ReadLoopFails | internal/executor/executor.go:296-297 | an error comes only from the batch of a non-empty line i before the first ":q", run from the state the loop reaches by running lines 0..i-1 without error, and the loop ends with exactly that batch's state and error; otherwise it returns nil |
| InteractiveProps.FailureEndsLoop | internal/executor/executor.go:296-297 | conversely, a batch that fails on a line the loop reaches without error ends the loop with that batch's state and error |
| InteractiveProps.ReadLoopLines | internal/executor/executor.go:288-302 | the loop writes, for each line before the first ":q", the lines of its batch (none for an empty line) and then "> ", except after a failing batch, where it stops |
| InteractiveProps.DispatchTelnet | internal/executor/executor.go:278-280 | telnet: after the prompts, the session and the unread input go to the telnet client, whose error is returned; the hand-off is the only call |
| InteractiveProps.DispatchUnsupported | internal/executor/executor.go:303-305 | any other type: the prompts and the "unsupported" message, no call and no error |
| InteractiveProps.LoopStartEffect | internal/executor/executor.go:282-286 | before the loop, after a successful dial, only the prompts and the banner are written, and nothing is sent |
| InteractiveProps.DispatchLoop | internal/executor/executor.go:281-302 | empty, rcon and web: the prompts come first; the issued lines are sent in order, all of them unless one fails; a failed first dial returns "auth: ..." with nothing sent; after a successful dial the result is the reading loop's, run from the state with the prompts, the client and the banner |
| InteractiveProps.DispatchLoopFails | internal/executor/executor.go:281-302 | after a successful dial, the writes are exactly the prompts, the banner and the loop's lines (each batch's output, then "> "); an error comes only from the first failing batch before ":q", and nothing runs after it |
| Executor.EnvName | internal/executor/executor.go:108-111 | the environment is the flag's, or "default" when it is empty |
| Executor.Lookup | internal/executor/executor.go:115 | a missing environment reads as the zero session |
| Executor.Resolve | internal/executor/executor.go:113-128 | every non-empty flag wins; an empty one takes the environment's value; skip-errors always comes from the flag |
| Executor.Executor.constructor | internal/executor/executor.go:65-73 | a new executor has no client, has written nothing and has called nothing |
| Executor.Executor.NewSession | internal/executor/executor.go:90-131 | address and password both given: the flags alone; otherwise the merged session, or the flags' session with NewConfig's error as "config: ..." |
| Executor.Executor.Action | internal/executor/executor.go:182-202 | a session error is returned with nothing done; no commands runs the interactive loop; an empty address and then an empty password are refused before anything runs; otherwise the batch runs |
| Executor.Executor.Dial | internal/executor/executor.go:321-340 | the new state and the error are DialStep's |
| Executor.Executor.Close | internal/executor/executor.go:311-317 | with a client, its Close is called once and its error returned; with none, nothing is called; the cached client is kept |
| Executor.Executor.ReleaseWebClient | internal/executor/executor.go:215-220 | the new state is DropWebClient's |
| Executor.Executor.Execute | internal/executor/executor.go:208-258 | the new state and the error are ExecuteBatch's |
| Executor.Executor.ExecuteOne | internal/executor/executor.go:226-254 | the new state and the error are those of one loop pass, RunCommand |
| Executor.Executor.Finish | internal/executor/executor.go:240-254 | the new state is FinishStep's |
| Executor.Executor.AskMissing | internal/executor/executor.go:263-276 | the session, the unread input and the prompts written are Collect's |
| Executor.Executor.AskField | internal/executor/executor.go:263-266 | one field is prompted for and read exactly as Ask says |
| Executor.Executor.ReadCommands | internal/executor/executor.go:288-302 | the new state and the error are ReadLoop's |
| Executor.Executor.Interactive | internal/executor/executor.go:262-309 | the new state and the error are InteractiveRun's |
| SessionProps.FlagsSuffice | internal/executor/executor.go:99-101 | with address and password given, the session is the flags' whatever the files hold |
| SessionProps.MissingEnvironment | internal/executor/executor.go:113-128 | an environment absent from the configuration fills in nothing |
| SessionProps.NoDefaultFile | internal/config/config.go:70-77 | with no file named and no default file, the session is exactly the flags' for any environment |
| SessionProps.DefaultFileIgnored | internal/config/config.go:70-77 | with no file named, a default file that parses is replaced by {"default": zero session}, so the session is exactly the flags' |
| SessionProps.ConfigOnly | internal/executor/executor.go:108-128 | with no flags set, every setting comes from the named environment and skip-errors stays off |
| SessionProps.FlagsWin | internal/executor/executor.go:99-128 | every non-empty flag reaches the session, and skip-errors is the flag's |

## Left out

- Outside the model, and only parameters of it:
  - the network protocols (RCON, telnet, web RCON);
  - the file system;
  - YAML/JSON decoding;
  - the telnet interactive client.
  Each is a total function. A decoder that fails partway may leave a partly filled map, and the model passes its result on unchanged.
- Go's typed nil is not modelled. After a failed dial the Go code stores a nil pointer in `executor.client`, and that interface value is not nil. The model leaves no client cached after a failed dial, and its deferred web clean-up then calls nothing.
- `logger.Write` internals are not modelled: the file opening, the timestamp and the line format. Only its result counts, and with an empty name it disables logging.
- Not modelled: `Executor.Run`, `init` (urfave/cli flag parsing and help text), the `flag.ErrHelp` filter and the "cli: " wrap. `Action` takes the parsed flag values and the arguments directly.
- `bufio.Scanner` limits a line to 64 KiB. A longer line ends `Scan`, and `Interactive` then returns nil. The model reads lines of any length.
- `fmt.Fscanln` is modelled as reading one whole input line per prompt. It is not split into words.
- `%q` quoting in the "unsupported protocol" message is plain double quotes. The model does not escape special characters.
- `Session.Timeout`, `DefaultTimeout`, `AttemptsLimit` and `ErrToManyFails` are declared but never read by the core.
- The output and input streams are fixed to the executor's own `w` and `r`. Every caller in the core passes exactly those.
- Not modelled: concurrency, `main.go`, `cmd/gorcon/main.go`, `internal/session`, `internal/proto` and the tests.
- Executor.Executor.ReleaseWebClient: the error of the deferred web `Close` is ignored, as in the source, so the model records the call and drops its result.

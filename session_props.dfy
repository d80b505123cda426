/**
 * What NewSession promises about where each setting comes from: flags
 * win over the configuration, a configuration is not needed when address
 * and password are both given, a missing default file leaves the flags as
 * they are, and a missing environment contributes nothing.
 */
module SessionProps {
  import opened Wrappers
  import opened Errors
  import opened Config
  import opened Executor

  /** With address and password given, the configuration is never consulted. */
  lemma FlagsSuffice(files1: Loader, files2: Loader, f: Flags)
    requires f.address != "" && f.password != ""
    ensures SessionFor(files1, f) == SessionFor(files2, f) == Some(FromFlags(f))
  {
  }

  /** An environment that is not in the configuration fills in nothing. */
  lemma MissingEnvironment(f: Flags, envs: Environments)
    requires EnvName(f) !in envs
    ensures Resolve(f, envs) == FromFlags(f)
  {
  }

  /**
   * Without a named file, when the default file next to the executable
   * does not exist, the session is exactly what the flags say, whatever
   * environment they name.
   */
  lemma NoDefaultFile(files: Loader, f: Flags)
    requires f.config == "" && files.executableDir.Success?
    requires var read := files.readFile(DefaultPath(files.executableDir.value));
      read.Failure? && Is(read.error, NotExist)
    ensures SessionFor(files, f) == Some(FromFlags(f))
  {
    var p := ParseFromFileOutcome(files, f.config, map[]);
    assert p.envs == map[DefaultConfigEnv := ZeroSession];
    assert AllSupported(p.envs);
    assert Lookup(p.envs, EnvName(f)) == ZeroSession;
  }

  /**
   * Without a named file, a default file that parses is read but its
   * contents are then replaced by {"default": zero session}: none of its
   * environments reaches the session, and none of its types is validated.
   * The session is exactly what the flags say.
   */
  lemma DefaultFileIgnored(files: Loader, f: Flags)
    requires f.config == "" && files.executableDir.Success?
    requires ParseOutcome(files, DefaultPath(files.executableDir.value), map[]).err.None?
    ensures ParseFromFileOutcome(files, f.config, map[]) == Decoded(map[DefaultConfigEnv := ZeroSession], None)
    ensures SessionFor(files, f) == Some(FromFlags(f))
  {
    var p := ParseFromFileOutcome(files, f.config, map[]);
    assert AllSupported(p.envs);
    assert Lookup(p.envs, EnvName(f)) == ZeroSession;
  }

  /**
   * A configuration that decodes to `envs`, all valid, with only the
   * environment named: every setting comes from that environment, and
   * skip-errors stays off.
   */
  lemma ConfigOnly(files: Loader, f: Flags, envs: Environments)
    requires f.address == "" && f.password == "" && f.log == "" && f.protocol == "" && !f.skip
    requires ParseFromFileOutcome(files, f.config, map[]) == Decoded(envs, None)
    requires AllSupported(envs) && EnvName(f) in envs
    ensures SessionFor(files, f) == Some(envs[EnvName(f)].(skipErrors := false))
  {
  }

  /**
   * A flag that is set always wins over the configuration, whether or not
   * a configuration is read: the session carries every non-empty flag.
   */
  lemma FlagsWin(files: Loader, f: Flags)
    requires SessionFor(files, f).Some?
    ensures var s := SessionFor(files, f).value;
      && s.skipErrors == f.skip
      && (f.address != "" ==> s.address == f.address)
      && (f.password != "" ==> s.password == f.password)
      && (f.log != "" ==> s.log == f.log)
      && (f.protocol != "" ==> s.protocol == f.protocol)
  {
  }
}

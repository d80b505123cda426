/**
 * The configuration layer: the Session record, the protocol tags, the
 * configuration map read from a YAML or JSON file, its validation, and the
 * error pipeline of NewConfig.  Reading files, locating the executable and
 * decoding YAML/JSON are external, given as a Loader of total functions.
 */
module Config {
  import opened Wrappers
  import opened Errors
  import GoText

  const ProtocolRcon := "rcon"
  const ProtocolTelnet := "telnet"
  const ProtocolWeb := "web"

  /** The protocol used when no type is given. */
  const DefaultProtocol := ProtocolRcon

  /** File name looked up next to the executable when no file is named. */
  const DefaultConfigName := "rcon.yaml"

  /** Environment taken when none is named. */
  const DefaultConfigEnv := "default"

  /** Connection details for one remote server (the timeout is never read, see README). */
  datatype Session = Session(address: string, password: string, log: string, protocol: string, skipErrors: bool)

  /** Go's zero Session{}. */
  const ZeroSession := Session("", "", "", "", false)

  /** The configuration: environment name to session. */
  type Environments = map<string, Session>

  type Bytes = seq<bv8>

  datatype Format = Yaml | Json

  /** What decoding into a map leaves behind: the map (possibly partly filled) and the decoder's error. */
  datatype Decoded = Decoded(envs: Environments, err: Option<Err>)

  /**
   * The external collaborators of the configuration layer: os.ReadFile, the
   * absolute directory of the running executable, and yaml/json.Unmarshal
   * into an existing map.
   */
  datatype Loader = Loader(
    readFile: string -> Result<Bytes, Err>,
    executableDir: Result<string, Err>,
    decode: (Format, Bytes, Environments) -> Decoded)

  /** The protocol tags Validate accepts: empty, rcon, telnet and web. */
  predicate SupportedType(t: string)
  {
    t == "" || t == ProtocolRcon || t == ProtocolTelnet || t == ProtocolWeb
  }

  /** Every environment names an allowed protocol tag. */
  predicate AllSupported(envs: Environments)
  {
    forall key | key in envs :: SupportedType(envs[key].protocol)
  }

  /** What Validate says about an environment with a bad type. */
  function UnsupportedTypeText(key: string): string
  {
    "unsupported type in " + key + " environment"
  }

  /** The error Validate gives for an environment with a bad type. */
  function UnsupportedTypeError(key: string): (e: Err)
    ensures Is(e, ConfigValidation) && !Is(e, NotExist)
    ensures Message(e) == KindText(ConfigValidation) + ": " + UnsupportedTypeText(key)
  {
    Annotate(Sentinel(ConfigValidation), ": ", UnsupportedTypeText(key))
  }

  /** The text Validate appends on a nil configuration. */
  const NotSetText := "config is not set"

  /** The error Validate gives on a nil configuration. */
  function NotSetError(): (e: Err)
    ensures Is(e, ConfigValidation)
    ensures Message(e) == KindText(ConfigValidation) + ": " + NotSetText
  {
    Annotate(Sentinel(ConfigValidation), ": ", NotSetText)
  }

  /** The decoder a file extension selects. */
  function FormatOf(ext: string): (f: Option<Format>)
    ensures f == Some(Yaml) <==> ext == ".yml" || ext == ".yaml"
    ensures f == Some(Json) <==> ext == ".json"
  {
    if ext == ".yml" || ext == ".yaml" then Some(Yaml)
    else if ext == ".json" then Some(Json)
    else None
  }

  /**
   * Config.parse: read the file, then pick the decoder by extension and
   * decode into `into`.  A read failure is reported before the extension
   * is looked at, keeps matching os.ErrNotExist, and leaves the map alone;
   * an unknown extension is named in the error.
   */
  function ParseOutcome(loader: Loader, name: string, into: Environments): Decoded
  {
    match loader.readFile(name)
    case Failure(e) => Decoded(into, Some(Wrap("read file", e)))
    case Success(file) =>
      var ext := GoText.Ext(name);
      match FormatOf(ext)
      case Some(f) => loader.decode(f, file, into)
      case None => Decoded(into, Some(Annotate(Sentinel(UnsupportedFileExt), " ", ext)))
  }

  /** A read failure comes first: the map is untouched and the cause still matches os.ErrNotExist. */
  lemma ParseReadFailure(loader: Loader, name: string, into: Environments)
    requires loader.readFile(name).Failure?
    ensures var d, cause := ParseOutcome(loader, name, into), loader.readFile(name).error;
      && d.envs == into && d.err.Some?
      && Message(d.err.value) == "read file: " + Message(cause)
      && (Is(d.err.value, NotExist) <==> Is(cause, NotExist))
  {
  }

  /** A readable file whose extension is neither YAML nor JSON is refused, naming the extension. */
  lemma ParseUnsupportedExtension(loader: Loader, name: string, into: Environments)
    requires loader.readFile(name).Success? && FormatOf(GoText.Ext(name)).None?
    ensures var d := ParseOutcome(loader, name, into);
      && d.envs == into && d.err.Some?
      && Message(d.err.value) == KindText(UnsupportedFileExt) + " " + GoText.Ext(name)
      && Is(d.err.value, UnsupportedFileExt) && !Is(d.err.value, NotExist)
  {
  }

  /** The extension alone picks the decoder: ".yml" and ".yaml" decode as YAML, ".json" as JSON. */
  lemma ParseDecodes(loader: Loader, name: string, into: Environments)
    requires loader.readFile(name).Success?
    ensures GoText.Ext(name) in {".yml", ".yaml"} ==>
      ParseOutcome(loader, name, into) == loader.decode(Yaml, loader.readFile(name).value, into)
    ensures GoText.Ext(name) == ".json" ==>
      ParseOutcome(loader, name, into) == loader.decode(Json, loader.readFile(name).value, into)
  {
  }

  /** The path of the default file next to the executable. */
  function DefaultPath(dir: string): string
  {
    dir + "/" + DefaultConfigName
  }

  /**
   * Config.ParseFromFile: a named file is parsed as it is.  Without a name
   * the default file is tried; any failure other than "does not exist" is
   * returned, and otherwise the map is replaced by {"default": zero
   * session}, whether or not the default file was found and decoded.
   */
  function ParseFromFileOutcome(loader: Loader, name: string, into: Environments): (d: Decoded)
    ensures name != "" ==> d == ParseOutcome(loader, name, into)
    ensures name == "" && loader.executableDir.Failure? ==>
      d == Decoded(into, Some(Wrap("get abs path", loader.executableDir.error)))
    ensures name == "" && loader.executableDir.Success? ==>
      var p := ParseOutcome(loader, DefaultPath(loader.executableDir.value), into);
      && (d.err.None? <==> (p.err.None? || Is(p.err.value, NotExist)))
      && (d.err.None? ==> d.envs == map[DefaultConfigEnv := ZeroSession])
      && (d.err.Some? ==> d == p)
  {
    if name != "" then ParseOutcome(loader, name, into)
    else match loader.executableDir
      case Failure(e) => Decoded(into, Some(Wrap("get abs path", e)))
      case Success(home) =>
        var p := ParseOutcome(loader, DefaultPath(home), into);
        if p.err.Some? && !Is(p.err.value, NotExist) then p
        else Decoded(map[DefaultConfigEnv := ZeroSession], None)
  }

  /** A pointer to a configuration map: the methods decode into it in place. */
  class Config {
    var envs: Environments

    /** new(Config): a nil map, which reads as empty. */
    constructor ()
      ensures envs == map[]
    {
      envs := map[];
    }

    method Parse(loader: Loader, name: string) returns (err: Option<Err>)
      modifies this
      ensures Decoded(envs, err) == ParseOutcome(loader, name, old(envs))
    {
      var file := loader.readFile(name);
      if file.Failure? {
        return Some(Wrap("read file", file.error));
      }
      var ext := GoText.Ext(name);
      if ext == ".yml" || ext == ".yaml" {
        var d := loader.decode(Yaml, file.value, envs);
        envs, err := d.envs, d.err;
      } else if ext == ".json" {
        var d := loader.decode(Json, file.value, envs);
        envs, err := d.envs, d.err;
      } else {
        err := Some(Annotate(Sentinel(UnsupportedFileExt), " ", ext));
      }
    }

    method ParseFromFile(loader: Loader, name: string) returns (err: Option<Err>)
      modifies this
      ensures Decoded(envs, err) == ParseFromFileOutcome(loader, name, old(envs))
    {
      if name != "" {
        err := Parse(loader, name);
        return;
      }
      if loader.executableDir.Failure? {
        return Some(Wrap("get abs path", loader.executableDir.error));
      }
      var path := DefaultPath(loader.executableDir.value);
      err := Parse(loader, path);
      if err.Some? && !Is(err.value, NotExist) {
        return;
      }
      envs := map[DefaultConfigEnv := ZeroSession];
      err := None;
    }
  }

  /**
   * Config.Validate.  A nil configuration is an error; otherwise it
   * succeeds exactly when every environment's type is allowed, and a
   * failure names one offending environment.  Which one, when several are
   * bad, is not fixed: Go visits a map in no set order.
   */
  method Validate(cfg: Config?) returns (err: Option<Err>)
    ensures cfg == null ==> err == Some(NotSetError())
    ensures cfg != null ==> (err.None? <==> AllSupported(cfg.envs))
    ensures cfg != null && err.Some? ==>
      exists key | key in cfg.envs :: !SupportedType(cfg.envs[key].protocol) && err == Some(UnsupportedTypeError(key))
  {
    if cfg == null {
      return Some(NotSetError());
    }
    var todo := cfg.envs.Keys;
    while todo != {}
      invariant todo <= cfg.envs.Keys
      invariant forall key | key in cfg.envs && key !in todo :: SupportedType(cfg.envs[key].protocol)
      decreases todo
    {
      var key :| key in todo;
      if !SupportedType(cfg.envs[key].protocol) {
        return Some(UnsupportedTypeError(key));
      }
      todo := todo - {key};
    }
    return None;
  }

  /**
   * NewConfig: a parse failure gives no configuration and the error
   * prefixed with "parse file" (validation is not run); a validation
   * failure gives the parsed configuration and the validation error;
   * otherwise the configuration and no error.
   */
  method NewConfig(loader: Loader, name: string) returns (cfg: Config?, err: Option<Err>)
    ensures var p := ParseFromFileOutcome(loader, name, map[]);
      && (p.err.Some? ==> cfg == null && err == Some(Wrap("parse file", p.err.value)))
      && (p.err.None? ==> cfg != null && cfg.envs == p.envs)
      && (p.err.None? && AllSupported(p.envs) ==> err.None?)
      && (p.err.None? && !AllSupported(p.envs) ==>
            exists key | key in p.envs :: !SupportedType(p.envs[key].protocol) && err == Some(UnsupportedTypeError(key)))
  {
    cfg := new Config();
    var perr := cfg.ParseFromFile(loader, name);
    if perr.Some? {
      return null, Some(Wrap("parse file", perr.value));
    }
    err := Validate(cfg);
  }
}

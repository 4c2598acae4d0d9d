/**
 * `process`: check the arguments, load the configuration, run the handler the
 * command names, and write the configuration back. Every exception ends the
 * run at the point it is raised and is only logged, so the write-back happens
 * exactly when nothing was raised.
 */
module Dispatcher {
  import opened Basics
  import opened Text
  import opened ConfigDict
  import opened ConfigCodec
  import opened ConfigLookup
  import opened PyValues
  import opened Handlers

  /** The parsed command line: which attributes are present, and their values. */
  datatype Args = Args(command: Option<string>, config: Option<string>, menuId: string, user: Option<string>)

  /**
   * What one run did: whether a handler was called, what it sent, printed and
   * logged, what was raised, and the path and text written back, if any.
   */
  datatype Run = Run(handlerRan: bool, trace: Trace, raised: Option<Error>, written: Option<(string, string)>)

  const NoCommandMessage := "No command is given. Use rhythm --help to see help."
  const NoConfigMessage := "Config not found."

  predicate KnownCommand(command: string) {
    command == "list" || command == "delete" || command == "new" || command == "info" || command == "link"
  }

  /** The lines of the file at `path`, or `None` when it does not exist. */
  function ConfigFile(w: World, path: string): Option<seq<string>> {
    if path in w.files then Some(ReadLines(w.files[path])) else None
  }

  /** `str(user)` as `format` writes it into the profile key. */
  function UserText(user: Option<string>): string {
    match user
    case None => "None"
    case Some(u) => u
  }

  /** The branch chain on the command name; `None` when no branch matches. */
  function Dispatch(command: string, args: Args, c: Dict, w: World): (r: Option<Outcome>)
    ensures r.Some? <==> KnownCommand(command)
    ensures command == "list" ==> r == Some(DoList(c, w))
    ensures command == "delete" ==> r == Some(DoDelete(args.menuId, c, w))
    ensures command == "new" ==> r == Some(DoNew(args.user, c, w))
    ensures command == "info" ==> r == Some(DoInfo(args.menuId, c, w))
    ensures command == "link" ==> r == Some(DoLink(UserText(args.user), args.menuId, c, w))
  {
    if command == "list" then Some(DoList(c, w))
    else if command == "delete" then Some(DoDelete(args.menuId, c, w))
    else if command == "new" then Some(DoNew(args.user, c, w))
    else if command == "info" then Some(DoInfo(args.menuId, c, w))
    else if command == "link" then Some(DoLink(UserText(args.user), args.menuId, c, w))
    else None
  }

  /** `process`; `normpath` stands for `os.path.normpath`. */
  function Process(args: Args, w: World, normpath: string -> string): (r: Run)
    ensures r.written.Some? <==> r.raised.None?
    ensures r.handlerRan <==>
      args.command.Some? && args.config.Some? && args.config.value in w.files && KnownCommand(args.command.value)
    ensures r.written.Some? ==>
      && args.command.Some? && args.config.Some? && args.config.value in w.files
      && var path := args.config.value;
         r.written.value == (Strip(path + "\n"), Serialize(LoadConfig(path, normpath(path), ConfigFile(w, path)).value))
  {
    if args.command.None? then Run(false, NoTrace, Some(Raised(NoCommandMessage)), None)
    else if args.config.None? then Run(false, NoTrace, Some(Raised(NoConfigMessage)), None)
    else
      var path := args.config.value;
      match LoadConfig(path, normpath(path), ConfigFile(w, path))
      case Err(message) => Run(false, Trace([], [Text(message)], []), Some(Raised("")), None)
      case Ok(c) =>
        var written := Some((Strip(path + "\n"), Serialize(c)));
        match Dispatch(args.command.value, args, c, w)
        case None => Run(false, NoTrace, None, written)
        case Some(o) => Run(true, o.trace, o.raised, if o.raised.None? then written else None)
  }

  /** The configuration a run with a readable config file works on. */
  function Loaded(args: Args, w: World, normpath: string -> string): Dict
    requires args.config.Some? && args.config.value in w.files
  {
    var path := args.config.value;
    LoadConfig(path, normpath(path), ConfigFile(w, path)).value
  }

  /** With a command that names a handler and a readable config file, the run is that handler's outcome. */
  lemma ProcessRunsHandler(args: Args, w: World, normpath: string -> string)
    requires args.command.Some? && KnownCommand(args.command.value)
    requires args.config.Some? && args.config.value in w.files
    ensures var c := Loaded(args, w, normpath);
      var o := Dispatch(args.command.value, args, c, w).value;
      Process(args, w, normpath)
        == Run(true, o.trace, o.raised, if o.raised.None? then Some((Strip(args.config.value + "\n"), Serialize(c))) else None)
  {
  }

  /** Without a command nothing is loaded, run or written. */
  lemma NoCommandNoWrite(args: Args, w: World, normpath: string -> string)
    requires args.command.None?
    ensures Process(args, w, normpath) == Run(false, NoTrace, Some(Raised(NoCommandMessage)), None)
  {
  }

  /** A missing config file prints the hint to use `--config`; no handler runs and nothing is written. */
  lemma MissingConfigFileNoWrite(args: Args, w: World, normpath: string -> string)
    requires args.command.Some? && args.config.Some? && args.config.value !in w.files
    ensures Process(args, w, normpath) == Run(false, Trace([], [Text(NotFoundMessage(args.config.value))], []), Some(Raised("")), None)
  {
  }

  /** A command that matches no branch runs no handler, sends nothing, and still writes the configuration back. */
  lemma UnknownCommandStillWrites(args: Args, w: World, normpath: string -> string)
    requires args.command.Some? && !KnownCommand(args.command.value)
    requires args.config.Some? && args.config.value in w.files
    ensures var r := Process(args, w, normpath);
      !r.handlerRan && r.trace == NoTrace && r.raised.None?
      && r.written == Some((Strip(args.config.value + "\n"), Serialize(Loaded(args, w, normpath))))
  {
  }

  /** Without a token every command fails before sending any request, and nothing is written. */
  lemma MissingTokenSendsNothing(args: Args, w: World, normpath: string -> string)
    requires args.command.Some? && KnownCommand(args.command.value)
    requires args.config.Some? && args.config.value in w.files
    requires TokenKey !in Keys(Loaded(args, w, normpath))
    ensures var r := Process(args, w, normpath);
      r.handlerRan && r.trace.requests == [] && r.raised.Some? && r.written.None?
  {
    var c := Loaded(args, w, normpath);
    assert ReadConfig(c).Err?;
    ProcessRunsHandler(args, w, normpath);
  }

  /**
   * `new`, `info` and `link` all go through `_read_config`, so with a token but
   * without `menu` they raise the menu message, send nothing and write nothing.
   */
  lemma ReadConfigCommandsNeedMenu(args: Args, w: World, normpath: string -> string)
    requires args.command == Some("new") || args.command == Some("info") || args.command == Some("link")
    requires args.config.Some? && args.config.value in w.files
    requires TokenKey in Keys(Loaded(args, w, normpath)) && MenuKey !in Keys(Loaded(args, w, normpath))
    ensures var r := Process(args, w, normpath);
      r.raised == Some(Raised(MenuMissingMessage)) && r.trace.requests == [] && r.written.None?
  {
    var path := args.config.value;
    var c := Loaded(args, w, normpath);
    LoadedConfigHasSeed(path, normpath(path), ConfigFile(w, path).value);
    assert Keys(c)[1] == ConfigDirKey;
    assert ReadConfig(c) == Err(Raised(MenuMissingMessage));
    ProcessRunsHandler(args, w, normpath);
  }

  /**
   * `link <profile> <menuId>` with a complete configuration sends exactly one
   * request, carrying the profile's user id and the menu id, and writes back.
   */
  lemma LinkSendsOneRequest(args: Args, w: World, normpath: string -> string)
    requires args.command == Some("link") && args.user.Some?
    requires args.config.Some? && args.config.value in w.files
    requires ReadConfig(Loaded(args, w, normpath)).Ok?
    requires ReadLineUserId(Loaded(args, w, normpath), args.user.value).Ok?
    ensures var r := Process(args, w, normpath);
      var c := Loaded(args, w, normpath);
      r.handlerRan && r.written.Some?
      && r.trace.requests == [LinkRequest(ReadConfig(c).value.token, ReadLineUserId(c, args.user.value).value, args.menuId)]
  {
  }

  /** `delete <menuId>` with a token sends exactly the one DELETE for that id, raises nothing and writes back. */
  lemma DeleteSendsOneRequest(args: Args, w: World, normpath: string -> string)
    requires args.command == Some("delete")
    requires args.config.Some? && args.config.value in w.files
    requires TokenKey in Keys(Loaded(args, w, normpath))
    ensures var r := Process(args, w, normpath);
      var c := Loaded(args, w, normpath);
      r.handlerRan && r.raised.None? && r.written.Some?
      && r.trace.requests == [DeleteRequest(Get(c, TokenKey).value, args.menuId)]
  {
  }

  /** A request that fails at the HTTP level is only logged: `list` still writes the configuration back. */
  lemma FailedListStillWrites(args: Args, w: World, normpath: string -> string)
    requires args.command == Some("list")
    requires args.config.Some? && args.config.value in w.files
    requires TokenKey in Keys(Loaded(args, w, normpath))
    requires w.server(ListRequest(Get(Loaded(args, w, normpath), TokenKey).value)).status != 200
    ensures var r := Process(args, w, normpath);
      r.handlerRan && r.raised.None? && r.written.Some? && r.trace.printed == []
  {
  }

  /** A failed list request in `info` is only logged: nothing is printed or raised, and the configuration is written back. */
  lemma FailedInfoStillWrites(args: Args, w: World, normpath: string -> string)
    requires args.command == Some("info")
    requires args.config.Some? && args.config.value in w.files
    requires ReadConfig(Loaded(args, w, normpath)).Ok?
    requires w.server(ListRequest(ReadConfig(Loaded(args, w, normpath)).value.token)).status != 200
    ensures var r := Process(args, w, normpath);
      r.handlerRan && r.raised.None? && r.written.Some? && r.trace.printed == []
      && r.trace.requests == [ListRequest(ReadConfig(Loaded(args, w, normpath)).value.token)]
  {
  }

  /**
   * When `new` cannot create the menu, `menu_id` stays unbound: the upload is
   * never sent, the run ends in `UnboundLocalError`, and the configuration is not
   * written back.
   */
  lemma FailedCreationNotWritten(args: Args, w: World, normpath: string -> string)
    requires args.command == Some("new")
    requires args.config.Some? && args.config.value in w.files
    requires ReadConfig(Loaded(args, w, normpath)).Ok?
    requires var s := ReadConfig(Loaded(args, w, normpath)).value;
      s.menu in w.files && s.image in w.files && w.server(CreateRequest(s.token, Translate(w.files[s.menu]))).status != 200
    ensures var r := Process(args, w, normpath);
      var s := ReadConfig(Loaded(args, w, normpath)).value;
      r.handlerRan && r.raised == Some(UnboundLocalError("menu_id")) && r.written.None?
      && r.trace.requests == [CreateRequest(s.token, Translate(w.files[s.menu]))]
  {
    var c := Loaded(args, w, normpath);
    var o := DoNew(args.user, c, w);
    assert o == NewFromSettings(args.user, ReadConfig(c).value, c, w);
    assert o.raised == Some(UnboundLocalError("menu_id"));
    ProcessRunsHandler(args, w, normpath);
  }

  /**
   * A config file already in the written form (storable entries with unique,
   * non-internal keys) is written back with exactly the same text whenever the
   * run writes at all.
   */
  lemma CanonicalFileWrittenBackUnchanged(args: Args, w: World, normpath: string -> string, d: Dict)
    requires args.config.Some? && args.config.value in w.files
    requires UniqueKeys(d) && forall i :: 0 <= i < |d| ==> !Internal(d[i].0) && Storable(d[i])
    requires w.files[args.config.value] == Serialize(d)
    ensures var r := Process(args, w, normpath);
      r.written.Some? ==> r.written.value.1 == w.files[args.config.value]
  {
    var path := args.config.value;
    SaveLoadSave(d, path, normpath(path));
  }
}

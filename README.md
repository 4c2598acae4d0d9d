# line-tools rich-menu CLI: a Dafny model

This project models the core of `rhythm`, a command-line tool that manages the
rich menus of a LINE chat bot. It covers:

- the configuration file codec (`get_config`, `write_config`): a `key = value`
  text file read line by line into an insertion-ordered dictionary seeded with
  two derived entries (`_configPath`, `_configDir`), and written back without
  the `_`-prefixed entries;
- the configuration checks and lookups (`_read_config`, `_read_line_user_id`,
  `_guess_media_type`);
- the response model of `line_richmenu` (`RichMenu`, `RichMenus`, iteration);
- the five command handlers (`do_list`, `do_delete`, `do_new`, `do_info`,
  `do_link`) over an abstract remote service;
- the dispatcher `process`, including when it writes the configuration back.

Modules, one file each: `Basics` (Option, Result), `Text` (Python's `isspace`,
`strip`, `index`, `lower`, `endswith`, `in`, `readlines` with universal
newlines), `Paths` (`posixpath.dirname`, `posixpath.join`), `PyValues`
(exceptions, decoded JSON, Python's `in` / `[]` / iteration / `str` on it),
`ConfigDict` (the dictionary as a sequence of entries with unique keys, where
assignment to an existing key replaces the value in place), `ConfigCodec`,
`ConfigLookup`, `LineRichMenu`, `Handlers`, `Dispatcher`.

`GetConfig` and `WriteConfig` are the loops of the tool, written as methods
and proved to compute the functions `LoadConfig` and `Serialize`; everything
that reasons about whole runs uses those functions.

Behaviours of the code a reader might not expect, which the model follows:

- A missing `token` raises `KeyError('token')`; the "Token not defined"
  checks compare a string with `None` and can never fire.
- `info` and `link` call `_read_config`, so they also fail when `menu` or
  `image` is missing, not only when `token` is.
- The configuration is written back only when nothing was raised; a handler
  that merely logs an HTTP failure still lets it be written, an exception
  anywhere prevents it.
- After a failed menu creation, `new` does not go on to upload: `menu_id` is
  unbound, so the upload line raises `UnboundLocalError`, a subclass of
  `NameError` (or `FileNotFoundError` if the image file is missing, since the
  image is opened first), and nothing is written back.
- A list element without `richMenuId` is kept as a record with no attributes;
  `list` and `info` then raise `AttributeError` when they read its id.
- The menu file is opened in text mode, so its line endings are translated
  (`\r\n` and `\r` become `\n`) before it is sent; the image is sent as read.
- With no menus, `list` prints the header and then a blank line.
- The media type is chosen from the name's ending alone: `xpng` gives
  `image/png`; no dot is required.

## Model

| member | source | states |
|---|---|---|
| Text.IndexOf | linetools/build_richmenu.py:24 | `line.index("=")` finds the first `=`: no `=` before it; `None` exactly when the line has none |
| Text.StripIsSlice | linetools/build_richmenu.py:25 | `strip` keeps a slice of its input with only white space around it and none at its edges |
| Text.StripPadded | linetools/build_richmenu.py:25 | stripping white-space padding from text that has no white space at its edges returns that text |
| Text.SplitLinesConcat | linetools/build_richmenu.py:22 | `readlines` on text made of newline-terminated lines returns exactly those lines |
| Text.TranslateNoReturn | linetools/build_richmenu.py:21-22 | universal-newline reading leaves text without carriage returns unchanged |
| Paths.DirName | linetools/build_richmenu.py:18 | the derived directory is a prefix of the normalised path, and empty when the path has no `/` |
| Paths.Join | linetools/build_richmenu.py:52 | a joined path ends with the configured name and, for a relative name, starts with the config directory |
| ConfigDict.Put | linetools/build_richmenu.py:26 | `config[key] = val` sets `key`, leaves every other key's value alone, keeps keys unique, keeps the key order when the key exists and appends it otherwise |
| ConfigDict.PutKeys | linetools/build_richmenu.py:26 | assignment keeps existing keys in their positions and adds at most the assigned key |
| ConfigCodec.GetConfig | linetools/build_richmenu.py:15-33 | the loop computes `LoadConfig`: an error exactly when the file is missing, otherwise a dict with unique keys starting with `_configPath`, `_configDir` |
| ConfigCodec.ParseLineAtFirstEquals | linetools/build_richmenu.py:24-25 | a line splits at its first `=` into the stripped key and the stripped value, which may contain `=` |
| ConfigCodec.ParseLinesSkipsLineWithoutEquals | linetools/build_richmenu.py:23-28 | a line with no `=` changes nothing and stops nothing: removing it gives the same mapping |
| ConfigCodec.ParseLinesKeys | linetools/build_richmenu.py:16-26 | parsing keeps keys unique, keeps the starting keys first and in order, and ends with exactly the seed keys plus the keys the lines assign |
| ConfigCodec.ParseLinesGet | linetools/build_richmenu.py:22-26 | each key's value is the one given by the last line assigning it, else the seed's |
| ConfigCodec.LoadedConfigHasSeed | linetools/build_richmenu.py:16-19 | a loaded configuration always begins with `_configPath` and `_configDir` and has unique keys |
| ConfigCodec.WriteConfig | linetools/build_richmenu.py:36-40 | the loop writes `Serialize(d)` to the stripped path |
| ConfigCodec.SerializeLinesArePersisted | linetools/build_richmenu.py:38-40 | exactly one `key = value` line per entry whose key does not start with `_`, in dict order |
| ConfigCodec.PersistedAppend | linetools/build_richmenu.py:38-39 | the skipped-key filter distributes over concatenation, so written entries keep the dict's order |
| ConfigCodec.NoInternalLineWritten | linetools/build_richmenu.py:39-40 | no written line starts with `_` |
| ConfigCodec.ParseEntryLine | linetools/build_richmenu.py:24-26 | a written line of a storable entry parses back to that entry |
| ConfigCodec.RoundTrip | linetools/build_richmenu.py:15-40 | reading back the written file gives the two derived entries followed by exactly the non-`_` entries, in order, when keys have no `=`, no line break, no edge white space and values no line break and no edge white space |
| ConfigCodec.SaveLoadSave | linetools/build_richmenu.py:15-40 | loading a written file and writing it again reproduces the same text |
| ConfigLookup.ReadConfig | linetools/build_richmenu.py:43-61 | checks the directory, then `token`, then `menu`, then `image`, each with its own error, and on success resolves menu and image against the config directory |
| ConfigLookup.ReadConfigOnLoaded | linetools/build_richmenu.py:43-44 | on a loaded configuration `_read_config` never fails for the directory |
| ConfigLookup.ReadLineUserId | linetools/build_richmenu.py:64-72 | returns the value of `profile.<name>` when present, else the error naming the profile |
| ConfigLookup.LowerEndsWith | linetools/build_richmenu.py:76-78 | lower-casing then testing the ending is the same as a case-insensitive ending test |
| ConfigLookup.GuessMediaType | linetools/build_richmenu.py:75-80 | `png` ending gives PNG; otherwise `jpg` or `jpeg` ending gives JPEG; otherwise none; case-insensitive, both directions |
| ConfigLookup.GuessMediaTypePngExamples | linetools/build_richmenu.py:75-77 | `icon.PNG` and `xpng` give PNG: the test ignores case and needs no dot |
| ConfigLookup.GuessMediaTypeJpegExamples | linetools/build_richmenu.py:75-79 | `photo.JPEG` and `photo.jpg` give JPEG |
| ConfigLookup.GuessMediaTypeOtherExample | linetools/build_richmenu.py:75-80 | `sound.wav` gives no media type |
| PyValues.Contains | linetools/line_richmenu.py:6 | `key in d` tests an object's keys, an array's items for the string and a string for the substring; it raises `TypeError` exactly on null, booleans and numbers |
| PyValues.Index | linetools/line_richmenu.py:7 | `d[key]` succeeds exactly on an object with that key; a missing key raises `KeyError`, any value other than an object `TypeError` |
| PyValues.Items | linetools/line_richmenu.py:14 | iterating an array visits its items and an object its keys; iterating null, a boolean or a number raises `TypeError` |
| LineRichMenu.NewRichMenu | linetools/line_richmenu.py:5-8 | an object with `richMenuId` gives a record with that id and the object as `raw`; one without gives a record with neither |
| LineRichMenu.NewRichMenuList | linetools/line_richmenu.py:14 | one record per element, in order; the first element that raises is the error |
| LineRichMenu.Iterate | linetools/line_richmenu.py:16-18 | iteration yields the stored records in order; with `menus` unset it raises `AttributeError` |
| LineRichMenu.MenusOfListResponse | linetools/line_richmenu.py:12-18 | a list response of objects yields exactly one record per element, in order, with the element's id and the element as raw |
| LineRichMenu.MenusOfWithoutKey | linetools/line_richmenu.py:12-17 | a response without `richmenus` makes iteration fail |
| Handlers.MenuIds | linetools/build_richmenu.py:98 | the ids of all records, in order, or `AttributeError` when a record has none |
| Handlers.ListTextConcat | linetools/build_richmenu.py:98 | for at least one record, every record having a string id, the printed text is the header followed by ` - <id>` lines joined by newlines |
| Handlers.ListTextLines | linetools/build_richmenu.py:98 | for at least one record, every record having a string id without a line break, the output splits into the header line and exactly one ` - <id>` line per record, in order |
| Handlers.ListTextEmpty | linetools/build_richmenu.py:98 | for no records, the text is the header alone, and the output is the header line followed by one blank line |
| Handlers.InfoScan | linetools/build_richmenu.py:157-159 | the loop fails exactly when a record has no id, with `AttributeError` |
| Handlers.InfoScanPrintsOnlyMatches | linetools/build_richmenu.py:157-159 | only raw objects of records whose id equals the requested id are printed |
| Handlers.InfoScanAppend | linetools/build_richmenu.py:157-159 | when the records of the first part all have an id, the selection distributes over concatenation, so matches are printed in list order |
| Handlers.InfoScanSingle | linetools/build_richmenu.py:158-159 | a single record that has an id is printed exactly when its id matches |
| Handlers.InfoScanEmpty | linetools/build_richmenu.py:157-159 | over records that all have an id, nothing is printed exactly when no record matches, and nothing is raised |
| Handlers.InfoScanStops | linetools/build_richmenu.py:157-158 | a record without an id stops the loop after the matches before it |
| Handlers.DoList | linetools/build_richmenu.py:83-98 | no token: `KeyError` and no request; else one GET of the list; an HTTP failure prints nothing and raises nothing; a 200 response whose records cannot be built raises that error, one with a record without an id raises `AttributeError`, both printing nothing; otherwise the list text is printed once |
| Handlers.DoDelete | linetools/build_richmenu.py:101-111 | no token: `KeyError` and no request; else exactly one DELETE, never raises, prints the confirmation exactly on status 200 |
| Handlers.DoLink | linetools/build_richmenu.py:162-171 | `_read_config` or profile failure: raised with no request; else exactly one POST with the user id and menu id |
| Handlers.DoInfo | linetools/build_richmenu.py:146-159 | `_read_config` failure: no request; else one GET; an HTTP failure prints and raises nothing; a 200 response whose records cannot be built raises that error and prints nothing; otherwise prints the selection and raises what the loop raised |
| Handlers.CreateMenu | linetools/build_richmenu.py:117-128 | one POST with the menu JSON; not created exactly when the status is not 200; on 200 created with the response's `richMenuId` and the creation printed, or, without that field, the indexing error raised |
| Handlers.DoNew | linetools/build_richmenu.py:114-115 | a `_read_config` failure is raised with nothing sent; otherwise the run is the steps below on the settings it returned |
| Handlers.NewFromSettings | linetools/build_richmenu.py:117-143 | a missing menu file sends nothing; the creation POST, carrying the menu file read with universal newlines, is sent first; a failed creation sends nothing else and raises `UnboundLocalError` (or the missing image file); a 200 without `richMenuId` raises the indexing error after that one request; a created menu with a missing image file raises `FileNotFoundError` after it; otherwise the upload under the new id with the guessed media type follows, and then nothing more without a user, or exactly `do_link`'s requests and result with one |
| Handlers.UploadAndLink | linetools/build_richmenu.py:130-143 | the first request is the image upload under the given id with the guessed media type; without a user it is the only one and nothing is raised; with a user the rest is exactly `do_link` for that user and id, and its result is the run's |
| Dispatcher.Dispatch | linetools/build_richmenu.py:184-195 | a handler is chosen exactly for `list`, `delete`, `new`, `info`, `link`, and each name runs its own `do_*` with the parsed arguments |
| Dispatcher.Process | linetools/build_richmenu.py:174-199 | written back exactly when nothing was raised, with the loaded configuration's text to the stripped path; a handler runs exactly when a known command and the config file are present |
| Dispatcher.ProcessRunsHandler | linetools/build_richmenu.py:178-197 | with a known command and a readable config file, the run is the handler's outcome, followed by the write-back exactly when the handler raised nothing |
| Dispatcher.NoCommandNoWrite | linetools/build_richmenu.py:176-177 | no command: error, nothing loaded, run or written |
| Dispatcher.MissingConfigFileNoWrite | linetools/build_richmenu.py:178-180 | a missing config file prints the `--config` hint, runs no handler and writes nothing |
| Dispatcher.UnknownCommandStillWrites | linetools/build_richmenu.py:184-197 | an unknown command runs no handler, sends nothing and still writes back |
| Dispatcher.MissingTokenSendsNothing | linetools/build_richmenu.py:174-199 | without a token every command fails before any request and nothing is written |
| Dispatcher.ReadConfigCommandsNeedMenu | linetools/build_richmenu.py:146-148 | `new`, `info`, `link` without `menu` raise the menu message with no request and no write |
| Dispatcher.LinkSendsOneRequest | linetools/build_richmenu.py:162-167 | `link` with a complete configuration sends exactly one POST to the profile's user and the menu id, and writes back |
| Dispatcher.DeleteSendsOneRequest | linetools/build_richmenu.py:188-189 | `delete` with a token sends exactly one DELETE for the given id, raises nothing and writes back |
| Dispatcher.FailedInfoStillWrites | linetools/build_richmenu.py:152-153 | an HTTP failure in `info` is only logged: one request, nothing printed or raised, the configuration still written |
| Dispatcher.FailedListStillWrites | linetools/build_richmenu.py:93-94 | an HTTP failure in `list` is only logged; the configuration is still written |
| Dispatcher.FailedCreationNotWritten | linetools/build_richmenu.py:124-133 | a failed creation in `new` sends only the creation request, ends in `UnboundLocalError` and writes nothing |
| Dispatcher.CanonicalFileWrittenBackUnchanged | linetools/build_richmenu.py:197 | a config file already in written form is written back with identical text |

## Left out

- HTTP transport (urllib3): the remote service is a pure function from request to response (status, reason, decoded body); transport exceptions, timeouts and a service whose answers change between identical requests are not modelled.
- `json.loads` and `json.dumps`: response bodies arrive already decoded, so a body that is not JSON is not modelled; JSON numbers are integers; `info` output is the JSON value itself (`JsonDump`), not its indented text.
- JSON objects are assumed to have unique keys: `Field` returns the first value of a key, where `json.loads` keeps the last.
- PyValues.Str: `str()` of a JSON array or object is a fixed stand-in, not Python's `repr` of the container.
- `os.path.normpath` is a parameter of `Process` and `LoadConfig`; `dirname` and `join` follow `posixpath`.
- File I/O: files are a map from path to text; character decoding, binary mode for the image, read errors other than a missing file and failures while writing the configuration are not modelled.
- Text.Lower: only ASCII letters are lowered; no other character lowers to a letter of `png`, `jpg` or `jpeg`, so the media-type result is the same as with Python's full `str.lower`.
- The `token is None` checks: values are strings, so these branches are dead and the model has none.
- The logging calls: log lines are recorded as strings; the exception `process` logs is the run's `raised` value.
- `main` and its argparse setup (it never calls `process`); `Args` gives the parsed attributes directly.
- Concurrent runs against the same config file: the tool has no locking and the model has one run.
- `setup.py`: packaging metadata with no logic.

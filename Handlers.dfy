/**
 * The five command handlers (`do_list`, `do_delete`, `do_new`, `do_info`,
 * `do_link`). The remote service is a function from request to response and
 * the files the handlers read are a map from path to contents; each handler
 * returns what it sent, printed and logged, and what it raised, if anything.
 */
module Handlers {
  import opened Basics
  import opened Text
  import opened ConfigDict
  import opened ConfigLookup
  import opened PyValues
  import opened LineRichMenu

  const ApiRoot := "https://api.line.me/v2/bot/"

  datatype Verb = GET | POST | DELETE

  datatype Request = Request(verb: Verb, url: string, headers: seq<(string, Option<string>)>, body: Option<string>)

  /** A response: the HTTP status, its reason phrase, and the body as `json.loads` decodes it. */
  datatype Response = Response(status: int, reason: string, data: Json)

  /** What the handlers depend on outside the process. */
  datatype World = World(server: Request -> Response, files: map<string, string>)

  /** A line printed to standard output: text, or a JSON value pretty-printed by `json.dumps`. */
  datatype Output = Text(text: string) | JsonDump(value: Json)

  datatype Trace = Trace(requests: seq<Request>, printed: seq<Output>, logged: seq<string>)

  datatype Outcome = Outcome(trace: Trace, raised: Option<Error>)

  const NoTrace := Trace([], [], [])

  function Append(a: Trace, b: Trace): Trace {
    Trace(a.requests + b.requests, a.printed + b.printed, a.logged + b.logged)
  }

  function Then(a: Trace, o: Outcome): Outcome {
    Outcome(Append(a, o.trace), o.raised)
  }

  function Bearer(token: string): (string, Option<string>) {
    ("Authorization", Some("Bearer " + token))
  }

  function ListRequest(token: string): Request {
    Request(GET, ApiRoot + "richmenu/list", [Bearer(token)], None)
  }

  function DeleteRequest(token: string, menuId: string): Request {
    Request(DELETE, ApiRoot + "richmenu/" + menuId, [Bearer(token)], None)
  }

  function CreateRequest(token: string, menuJson: string): Request {
    Request(POST, ApiRoot + "richmenu", [Bearer(token), ("Content-Type", Some("application/json"))], Some(menuJson))
  }

  function UploadRequest(token: string, menuId: string, mediaType: Option<string>, image: string): Request {
    Request(POST, ApiRoot + "richmenu/" + menuId + "/content", [Bearer(token), ("Content-Type", mediaType)], Some(image))
  }

  function LinkRequest(token: string, userId: string, menuId: string): Request {
    Request(POST, ApiRoot + "user/" + userId + "/richmenu/" + menuId, [Bearer(token)], None)
  }

  // ---------------------------------------------------------------------------
  // `do_list` output
  // ---------------------------------------------------------------------------

  predicate AllIdentified(ms: seq<RichMenu>) {
    forall i :: 0 <= i < |ms| ==> ms[i].Identified?
  }

  /** `[m.id for m in rm]`: reading `id` of a record without one raises. */
  function MenuIds(ms: seq<RichMenu>): (r: Result<seq<Json>, Error>)
    ensures r.Ok? <==> AllIdentified(ms)
    ensures r.Err? ==> r.error == AttributeError("id")
    ensures r.Ok? ==> |r.value| == |ms| && forall i :: 0 <= i < |ms| ==> r.value[i] == ms[i].id
  {
    if ms == [] then Ok([])
    else
      match ms[0]
      case Unidentified => Err(AttributeError("id"))
      case Identified(id, _) =>
        match MenuIds(ms[1..])
        case Err(e) => Err(e)
        case Ok(ids) => Ok([id] + ids)
  }

  const ListHeader := "Current rich menus: \n"

  function ListLine(id: Json): string {
    " - " + Str(id)
  }

  /** The text `do_list` prints for the records of a successful response. */
  function ListText(ms: seq<RichMenu>): (r: Result<string, Error>)
    ensures r.Ok? <==> AllIdentified(ms)
    ensures r.Err? ==> r.error == AttributeError("id")
  {
    match MenuIds(ms)
    case Err(e) => Err(e)
    case Ok(ids) => Ok(ListHeader + JoinWith("\n", seq(|ids|, i requires 0 <= i < |ids| => ListLine(ids[i]))))
  }

  lemma {:induction false} JoinWithTerminated(sep: string, items: seq<string>)
    requires items != []
    ensures JoinWith(sep, items) + sep == Concat(seq(|items|, i requires 0 <= i < |items| => items[i] + sep))
  {
    var ts := seq(|items|, i requires 0 <= i < |items| => items[i] + sep);
    if |items| == 1 {
      assert Concat(ts) == ts[0] + Concat([]);
    } else {
      JoinWithTerminated(sep, items[1..]);
      assert ts[1..] == seq(|items| - 1, i requires 0 <= i < |items| - 1 => items[1..][i] + sep);
      assert JoinWith(sep, items) + sep == items[0] + sep + (JoinWith(sep, items[1..]) + sep);
    }
  }

  /**
   * With at least one record, all identified by single-line strings, the
   * printed text (with the newline `print` adds) is the header line followed
   * by exactly one ` - <id>` line per record, in order.
   */
  lemma ListTextLines(ms: seq<RichMenu>)
    requires ms != [] && AllIdentified(ms)
    requires forall i :: 0 <= i < |ms| ==> ms[i].id.JString? && '\n' !in ms[i].id.s
    ensures ListText(ms).Ok?
    ensures SplitLines(ListText(ms).value + "\n") ==
      ["Current rich menus: \n"] + seq(|ms|, i requires 0 <= i < |ms| => " - " + ms[i].id.s + "\n")
  {
    var lines := seq(|ms|, i requires 0 <= i < |ms| => " - " + ms[i].id.s + "\n");
    var all := [ListHeader] + lines;
    ListTextConcat(ms);
    forall k | 0 <= k < |all| ensures IsTerminatedLine(all[k]) {
      if k > 0 {
        MenuLineTerminated(ms[k - 1].id.s);
      } else {
        assert ListHeader[..|ListHeader| - 1] == "Current rich menus: ";
      }
    }
    SplitLinesConcat(all);
  }

  /**
   * With no records the joined part is empty: the printed text (with the
   * newline `print` adds) is the header line followed by one blank line.
   */
  lemma ListTextEmpty()
    ensures ListText([]) == Ok(ListHeader)
    ensures SplitLines(ListText([]).value + "\n") == ["Current rich menus: \n", "\n"]
  {
    var ids: seq<Json> := [];
    assert MenuIds([]) == Ok(ids);
    assert seq(|ids|, i requires 0 <= i < |ids| => ListLine(ids[i])) == [];
    assert ListHeader + JoinWith("\n", []) == ListHeader;
    var all := [ListHeader, "\n"];
    assert ListHeader[..|ListHeader| - 1] == "Current rich menus: ";
    assert IsTerminatedLine(all[0]) && IsTerminatedLine(all[1]);
    assert Concat(all) == ListHeader + "\n" by {
      assert all[1..] == ["\n"] && all[1..][1..] == [];
      assert Concat(all[1..]) == "\n" + Concat([]);
    }
    SplitLinesConcat(all);
  }

  lemma MenuLineTerminated(id: string)
    requires '\n' !in id
    ensures IsTerminatedLine(" - " + id + "\n")
  {
    var l := " - " + id + "\n";
    assert l[..|l| - 1] == " - " + id;
  }

  lemma ListTextConcat(ms: seq<RichMenu>)
    requires ms != [] && AllIdentified(ms)
    requires forall i :: 0 <= i < |ms| ==> ms[i].id.JString?
    ensures ListText(ms).Ok?
    ensures ListText(ms).value + "\n" ==
      Concat([ListHeader] + seq(|ms|, i requires 0 <= i < |ms| => " - " + ms[i].id.s + "\n"))
  {
    var ids := MenuIds(ms).value;
    var items := seq(|ids|, i requires 0 <= i < |ids| => ListLine(ids[i]));
    var lines := seq(|ms|, i requires 0 <= i < |ms| => " - " + ms[i].id.s + "\n");
    JoinWithTerminated("\n", items);
    assert seq(|items|, i requires 0 <= i < |items| => items[i] + "\n") == lines;
    var all := [ListHeader] + lines;
    assert all[1..] == lines;
    assert Concat(all) == ListHeader + Concat(lines);
  }

  // ---------------------------------------------------------------------------
  // `do_info` selection
  // ---------------------------------------------------------------------------

  predicate Matches(m: RichMenu, menuId: string) {
    m.Identified? && m.id == JString(menuId)
  }

  /** What the loop of `do_info` printed, and what stopped it early, if anything. */
  datatype Scan = Scan(printed: seq<Json>, failed: Option<Error>)

  /**
   * The loop of `do_info`: the raw object of every record whose id equals the
   * requested id is printed, in order; a record without an id raises there.
   */
  function InfoScan(ms: seq<RichMenu>, menuId: string): (r: Scan)
    ensures r.failed.None? <==> AllIdentified(ms)
    ensures r.failed.Some? ==> r.failed.value == AttributeError("id")
  {
    if ms == [] then Scan([], None)
    else
      match ms[0]
      case Unidentified => Scan([], Some(AttributeError("id")))
      case Identified(id, raw) =>
        var rest := InfoScan(ms[1..], menuId);
        assert forall i :: 0 < i < |ms| ==> ms[i] == ms[1..][i - 1];
        Scan((if id == JString(menuId) then [raw] else []) + rest.printed, rest.failed)
  }

  /** Everything the loop prints is the raw object of a record with the requested id. */
  lemma {:induction false} InfoScanPrintsOnlyMatches(ms: seq<RichMenu>, menuId: string)
    ensures forall x :: x in InfoScan(ms, menuId).printed ==>
      exists i :: 0 <= i < |ms| && Matches(ms[i], menuId) && ms[i].raw == x
  {
    if ms != [] && ms[0].Identified? {
      InfoScanPrintsOnlyMatches(ms[1..], menuId);
      forall x | x in InfoScan(ms, menuId).printed
        ensures exists i :: 0 <= i < |ms| && Matches(ms[i], menuId) && ms[i].raw == x
      {
        if x in InfoScan(ms[1..], menuId).printed {
          var i :| 0 <= i < |ms[1..]| && Matches(ms[1..][i], menuId) && ms[1..][i].raw == x;
          assert ms[i + 1] == ms[1..][i];
        } else {
          assert Matches(ms[0], menuId) && ms[0].raw == x;
        }
      }
    }
  }

  /** The selection is a filter: over identified records it distributes over concatenation. */
  lemma {:induction false} InfoScanAppend(a: seq<RichMenu>, b: seq<RichMenu>, menuId: string)
    requires AllIdentified(a)
    ensures InfoScan(a + b, menuId) == Scan(InfoScan(a, menuId).printed + InfoScan(b, menuId).printed, InfoScan(b, menuId).failed)
  {
    if a == [] {
      assert a + b == b;
    } else {
      var ab := a + b;
      assert ab[0] == a[0] && ab[1..] == a[1..] + b;
      assert AllIdentified(a[1..]) by {
        assert forall i :: 0 <= i < |a| - 1 ==> a[1..][i] == a[i + 1];
      }
      InfoScanAppend(a[1..], b, menuId);
      var head := if a[0].id == JString(menuId) then [a[0].raw] else [];
      assert InfoScan(ab, menuId) == Scan(head + InfoScan(ab[1..], menuId).printed, InfoScan(ab[1..], menuId).failed);
      assert InfoScan(a, menuId).printed == head + InfoScan(a[1..], menuId).printed;
    }
  }

  /** One identified record is printed exactly when its id is the requested one. */
  lemma InfoScanSingle(m: RichMenu, menuId: string)
    requires m.Identified?
    ensures InfoScan([m], menuId) == Scan(if Matches(m, menuId) then [m.raw] else [], None)
  {
    assert [m][1..] == [];
  }

  /** Over identified records nothing is printed exactly when no record has the requested id, and nothing is raised. */
  lemma {:induction false} InfoScanEmpty(ms: seq<RichMenu>, menuId: string)
    requires AllIdentified(ms)
    ensures InfoScan(ms, menuId).failed.None?
    ensures InfoScan(ms, menuId).printed == [] <==> forall i :: 0 <= i < |ms| ==> !Matches(ms[i], menuId)
  {
    if ms != [] {
      InfoScanEmpty(ms[1..], menuId);
      assert forall i :: 0 < i < |ms| ==> ms[i] == ms[1..][i - 1];
    }
  }

  /** A record without an id stops the loop: only the matches before it are printed. */
  lemma InfoScanStops(ms: seq<RichMenu>, k: nat, menuId: string)
    requires k < |ms| && ms[k].Unidentified? && AllIdentified(ms[..k])
    ensures InfoScan(ms, menuId) == Scan(InfoScan(ms[..k], menuId).printed, Some(AttributeError("id")))
  {
    assert ms == ms[..k] + ms[k..];
    InfoScanAppend(ms[..k], ms[k..], menuId);
  }

  // ---------------------------------------------------------------------------
  // Handlers
  // ---------------------------------------------------------------------------

  /** `do_list`: one GET of the list; the ids are printed, or the failure reason logged. */
  function DoList(c: Dict, w: World): (o: Outcome)
    ensures TokenKey !in Keys(c) ==> o == Outcome(NoTrace, Some(KeyError(TokenKey)))
    ensures TokenKey in Keys(c) ==> o.trace.requests == [ListRequest(Get(c, TokenKey).value)]
    ensures TokenKey in Keys(c) && w.server(ListRequest(Get(c, TokenKey).value)).status != 200 ==> o.raised.None? && o.trace.printed == []
    ensures o.trace.printed != [] ==> o.raised.None? && |o.trace.printed| == 1 && o.trace.printed[0].Text?
    ensures TokenKey in Keys(c) ==>
      var resp := w.server(ListRequest(Get(c, TokenKey).value));
      resp.status == 200 && MenusOf(resp.data).Ok? && ListText(MenusOf(resp.data).value).Ok? ==>
        o.raised.None? && o.trace.printed == [Text(ListText(MenusOf(resp.data).value).value)]
    ensures TokenKey in Keys(c) ==>
      var resp := w.server(ListRequest(Get(c, TokenKey).value));
      resp.status == 200 && MenusOf(resp.data).Err? ==>
        o.raised == Some(MenusOf(resp.data).error) && o.trace.printed == []
    ensures TokenKey in Keys(c) ==>
      var resp := w.server(ListRequest(Get(c, TokenKey).value));
      resp.status == 200 && MenusOf(resp.data).Ok? && !AllIdentified(MenusOf(resp.data).value) ==>
        o.raised == Some(AttributeError("id")) && o.trace.printed == []
  {
    match Get(c, TokenKey)
    case None => Outcome(NoTrace, Some(KeyError(TokenKey)))
    case Some(token) =>
      var rq := ListRequest(token);
      var resp := w.server(rq);
      if resp.status != 200 then Outcome(Trace([rq], [], ["Error reading richmenu: " + resp.reason]), None)
      else
        match MenusOf(resp.data)
        case Err(e) => Outcome(Trace([rq], [], []), Some(e))
        case Ok(ms) =>
          match ListText(ms)
          case Err(e) => Outcome(Trace([rq], [], []), Some(e))
          case Ok(text) => Outcome(Trace([rq], [Text(text)], []), None)
  }

  /** `do_delete`: one DELETE for the id; HTTP failures are logged, never raised. */
  function DoDelete(menuId: string, c: Dict, w: World): (o: Outcome)
    ensures TokenKey !in Keys(c) ==> o == Outcome(NoTrace, Some(KeyError(TokenKey)))
    ensures TokenKey in Keys(c) ==> o.raised.None? && o.trace.requests == [DeleteRequest(Get(c, TokenKey).value, menuId)]
    ensures TokenKey in Keys(c) ==>
      (o.trace.printed == [Text("rich menu " + menuId + " was deleted.")]
       <==> w.server(DeleteRequest(Get(c, TokenKey).value, menuId)).status == 200)
  {
    match Get(c, TokenKey)
    case None => Outcome(NoTrace, Some(KeyError(TokenKey)))
    case Some(token) =>
      var rq := DeleteRequest(token, menuId);
      var resp := w.server(rq);
      if resp.status != 200 then Outcome(Trace([rq], [], ["Error deleting menu id: " + resp.reason]), None)
      else Outcome(Trace([rq], [Text("rich menu " + menuId + " was deleted.")], []), None)
  }

  /**
   * `do_link`: `_read_config` (so menu and image must be configured), then the
   * profile's user id, then one POST; nothing is sent when either check fails.
   */
  function DoLink(profile: string, menuId: string, c: Dict, w: World): (o: Outcome)
    ensures ReadConfig(c).Err? ==> o == Outcome(NoTrace, Some(ReadConfig(c).error))
    ensures ReadConfig(c).Ok? && ReadLineUserId(c, profile).Err? ==>
      o == Outcome(NoTrace, Some(Raised(UnknownProfileMessage(profile))))
    ensures ReadConfig(c).Ok? && ReadLineUserId(c, profile).Ok? ==>
      o.raised.None? && o.trace.requests == [LinkRequest(ReadConfig(c).value.token, ReadLineUserId(c, profile).value, menuId)]
  {
    match ReadConfig(c)
    case Err(e) => Outcome(NoTrace, Some(e))
    case Ok(s) =>
      match ReadLineUserId(c, profile)
      case Err(e) => Outcome(NoTrace, Some(e))
      case Ok(userId) =>
        var rq := LinkRequest(s.token, userId, menuId);
        var resp := w.server(rq);
        if resp.status != 200 then Outcome(Trace([rq], [], ["Error linking menu to user " + userId + ": " + resp.reason]), None)
        else Outcome(Trace([rq], [Text("rich menu linked to user.")], []), None)
  }

  /** `do_info`: `_read_config`, one GET of the list, then the selection loop over its records. */
  function DoInfo(menuId: string, c: Dict, w: World): (o: Outcome)
    ensures ReadConfig(c).Err? ==> o == Outcome(NoTrace, Some(ReadConfig(c).error))
    ensures ReadConfig(c).Ok? ==> o.trace.requests == [ListRequest(ReadConfig(c).value.token)]
    ensures ReadConfig(c).Ok? && w.server(ListRequest(ReadConfig(c).value.token)).status != 200 ==>
      o.raised.None? && o.trace.printed == []
    ensures ReadConfig(c).Ok? ==>
      var resp := w.server(ListRequest(ReadConfig(c).value.token));
      resp.status == 200 && MenusOf(resp.data).Err? ==>
        o.raised == Some(MenusOf(resp.data).error) && o.trace.printed == []
    ensures ReadConfig(c).Ok? ==>
      var resp := w.server(ListRequest(ReadConfig(c).value.token));
      resp.status == 200 && MenusOf(resp.data).Ok? ==>
        var scan := InfoScan(MenusOf(resp.data).value, menuId);
        o.raised == scan.failed
        && o.trace.printed == seq(|scan.printed|, i requires 0 <= i < |scan.printed| => JsonDump(scan.printed[i]))
  {
    match ReadConfig(c)
    case Err(e) => Outcome(NoTrace, Some(e))
    case Ok(s) =>
      var rq := ListRequest(s.token);
      var resp := w.server(rq);
      if resp.status != 200 then Outcome(Trace([rq], [], ["Error reading rich menus: " + resp.reason]), None)
      else
        match MenusOf(resp.data)
        case Err(e) => Outcome(Trace([rq], [], []), Some(e))
        case Ok(ms) =>
          var scan := InfoScan(ms, menuId);
          var dumps := seq(|scan.printed|, i requires 0 <= i < |scan.printed| => JsonDump(scan.printed[i]));
          Outcome(Trace([rq], dumps, []), scan.failed)
  }

  /** How the creation step of `do_new` ended. */
  datatype Creation = Created(trace: Trace, menuId: Json) | NotCreated(trace: Trace) | CreationRaised(trace: Trace, error: Error)

  /** The creation POST of `do_new`: a failure is logged and leaves `menu_id` unbound. */
  function CreateMenu(token: string, menuJson: string, w: World): (r: Creation)
    ensures r.trace.requests == [CreateRequest(token, menuJson)]
    ensures r.NotCreated? <==> w.server(CreateRequest(token, menuJson)).status != 200
    ensures var resp := w.server(CreateRequest(token, menuJson));
      resp.status == 200 && Index(resp.data, MenuIdKey).Ok? ==>
        r.Created? && r.menuId == Index(resp.data, MenuIdKey).value
        && r.trace.printed == [Text("rich menu " + Str(r.menuId) + " was created.")]
    ensures var resp := w.server(CreateRequest(token, menuJson));
      resp.status == 200 && Index(resp.data, MenuIdKey).Err? ==>
        r.CreationRaised? && r.error == Index(resp.data, MenuIdKey).error
  {
    var rq := CreateRequest(token, menuJson);
    var resp := w.server(rq);
    if resp.status != 200 then NotCreated(Trace([rq], [], ["Error creating menu: " + resp.reason]))
    else
      match Index(resp.data, MenuIdKey)
      case Err(e) => CreationRaised(Trace([rq], [], []), e)
      case Ok(id) => Created(Trace([rq], [Text("rich menu " + Str(id) + " was created.")], []), id)
  }

  /**
   * `do_new`: `_read_config`, read the menu file, create the menu, read the
   * image file, upload it under the new id, and link it when a user is given.
   * After a failed creation `menu_id` is unbound, so the upload line raises
   * `UnboundLocalError` (unless the image file is missing, which raises first).
   */
  function DoNew(user: Option<string>, c: Dict, w: World): (o: Outcome)
    ensures ReadConfig(c).Err? ==> o == Outcome(NoTrace, Some(ReadConfig(c).error))
    ensures ReadConfig(c).Ok? ==> o == NewFromSettings(user, ReadConfig(c).value, c, w)
  {
    match ReadConfig(c)
    case Err(e) => Outcome(NoTrace, Some(e))
    case Ok(s) => NewFromSettings(user, s, c, w)
  }

  /**
   * The steps of `do_new` after `_read_config`: the menu file is read in text
   * mode (so with universal newlines) and a missing one sends nothing; the creation request goes first; after a failed creation nothing
   * else is sent; a created menu is followed by the upload under its id.
   */
  function NewFromSettings(user: Option<string>, s: Settings, c: Dict, w: World): (o: Outcome)
    ensures s.menu !in w.files ==> o == Outcome(NoTrace, Some(FileNotFound(s.menu)))
    ensures s.menu in w.files ==>
      var create := CreateRequest(s.token, Translate(w.files[s.menu]));
      && |o.trace.requests| >= 1 && o.trace.requests[0] == create
      && (w.server(create).status != 200 ==>
            o.trace.requests == [create]
            && o.raised == Some(if s.image in w.files then UnboundLocalError("menu_id") else FileNotFound(s.image)))
      && (w.server(create).status == 200 && Index(w.server(create).data, MenuIdKey).Err? ==>
            o.trace.requests == [create] && o.raised == Some(Index(w.server(create).data, MenuIdKey).error))
      && (w.server(create).status == 200 && Index(w.server(create).data, MenuIdKey).Ok? && s.image !in w.files ==>
            o.trace.requests == [create] && o.raised == Some(FileNotFound(s.image)))
      && (w.server(create).status == 200 && Index(w.server(create).data, MenuIdKey).Ok? && s.image in w.files ==>
            var id := Str(Index(w.server(create).data, MenuIdKey).value);
            && |o.trace.requests| >= 2
            && o.trace.requests[1] == UploadRequest(s.token, id, GuessMediaType(s.image), w.files[s.image])
            && (user.None? ==> o.raised.None? && |o.trace.requests| == 2)
            && (user.Some? ==>
                  o.trace.requests[2..] == DoLink(user.value, id, c, w).trace.requests
                  && o.raised == DoLink(user.value, id, c, w).raised))
  {
    if s.menu !in w.files then Outcome(NoTrace, Some(FileNotFound(s.menu)))
    else
      match CreateMenu(s.token, Translate(w.files[s.menu]), w)
      case CreationRaised(t, e) => Outcome(t, Some(e))
      case NotCreated(t) =>
        if s.image !in w.files then Outcome(t, Some(FileNotFound(s.image)))
        else Outcome(t, Some(UnboundLocalError("menu_id")))
      case Created(t, id) =>
        if s.image !in w.files then Outcome(t, Some(FileNotFound(s.image)))
        else Then(t, UploadAndLink(user, Str(id), s, c, w))
  }

  /**
   * The rest of `do_new` once the menu exists and the image is readable: one
   * upload under the new id (a failure is logged), then `do_link` when a user
   * is given.
   */
  function UploadAndLink(user: Option<string>, menuId: string, s: Settings, c: Dict, w: World): (o: Outcome)
    requires s.image in w.files
    ensures |o.trace.requests| >= 1
    ensures o.trace.requests[0] == UploadRequest(s.token, menuId, GuessMediaType(s.image), w.files[s.image])
    ensures user.None? ==> o.raised.None? && |o.trace.requests| == 1
    ensures user.Some? ==>
      o.trace.requests[1..] == DoLink(user.value, menuId, c, w).trace.requests
      && o.raised == DoLink(user.value, menuId, c, w).raised
  {
    var rq := UploadRequest(s.token, menuId, GuessMediaType(s.image), w.files[s.image]);
    var resp := w.server(rq);
    var uploaded :=
      if resp.status != 200 then Trace([rq], [], ["Error uploading menu image " + s.image + ": " + resp.reason])
      else Trace([rq], [Text("rich menu image was uploaded.")], []);
    match user
    case None => Outcome(uploaded, None)
    case Some(u) => Then(uploaded, DoLink(u, menuId, c, w))
  }
}

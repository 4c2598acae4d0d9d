/**
 * The response model of `line_richmenu`: a rich-menu record per element of the
 * `richmenus` array of a decoded list response.
 */
module LineRichMenu {
  import opened Basics
  import opened PyValues

  const MenusKey := "richmenus"
  const MenuIdKey := "richMenuId"

  /**
   * `RichMenu`: an element with a `richMenuId` sets `id` to it and `raw` to the
   * whole element; any other element leaves both attributes unset.
   */
  datatype RichMenu = Identified(id: Json, raw: Json) | Unidentified

  /** `RichMenus`: `menus` is unset when the response has no `richmenus` key. */
  datatype RichMenus = RichMenus(menus: Option<seq<RichMenu>>)

  /** The `RichMenu` constructor applied to one element. */
  function NewRichMenu(d: Json): (r: Result<RichMenu, Error>)
    ensures d.JObject? ==> r.Ok?
    ensures d.JObject? && Field(d.fields, MenuIdKey).Some? ==> r == Ok(Identified(Field(d.fields, MenuIdKey).value, d))
    ensures d.JObject? && Field(d.fields, MenuIdKey).None? ==> r == Ok(Unidentified)
    ensures r.Ok? && r.value.Identified? ==> r.value.raw == d
  {
    match Contains(d, MenuIdKey)
    case Err(e) => Err(e)
    case Ok(false) => Ok(Unidentified)
    case Ok(true) =>
      match Index(d, MenuIdKey)
      case Err(e) => Err(e)
      case Ok(id) => Ok(Identified(id, d))
  }

  /**
   * The list comprehension over the elements: one record per element, in
   * order; the first element the constructor raises on ends it.
   */
  function NewRichMenuList(items: seq<Json>): (r: Result<seq<RichMenu>, Error>)
    ensures r.Ok? <==> forall i :: 0 <= i < |items| ==> NewRichMenu(items[i]).Ok?
    ensures r.Ok? ==> |r.value| == |items|
    ensures r.Ok? ==> forall i :: 0 <= i < |items| ==> NewRichMenu(items[i]) == Ok(r.value[i])
    ensures r.Err? ==>
      exists k :: 0 <= k < |items| && NewRichMenu(items[k]) == Err(r.error)
                  && forall i :: 0 <= i < k ==> NewRichMenu(items[i]).Ok?
  {
    if items == [] then Ok([])
    else
      match NewRichMenu(items[0])
      case Err(e) => Err(e)
      case Ok(m) =>
        match NewRichMenuList(items[1..])
        case Err(e) =>
          ghost var k :| 0 <= k < |items| - 1 && NewRichMenu(items[1..][k]) == Err(e)
            && forall i :: 0 <= i < k ==> NewRichMenu(items[1..][i]).Ok?;
          assert NewRichMenu(items[k + 1]) == Err(e);
          Err(e)
        case Ok(ms) => Ok([m] + ms)
  }

  /** The `RichMenus` constructor applied to a decoded response. */
  function NewRichMenus(d: Json): Result<RichMenus, Error> {
    match Contains(d, MenusKey)
    case Err(e) => Err(e)
    case Ok(false) => Ok(RichMenus(None))
    case Ok(true) =>
      match Index(d, MenusKey)
      case Err(e) => Err(e)
      case Ok(v) =>
        match Items(v)
        case Err(e) => Err(e)
        case Ok(items) =>
          match NewRichMenuList(items)
          case Err(e) => Err(e)
          case Ok(ms) => Ok(RichMenus(Some(ms)))
  }

  /** `iter(rm)`: the stored records, in order; with `menus` unset, reading it raises. */
  function Iterate(rm: RichMenus): (r: Result<seq<RichMenu>, Error>)
    ensures rm.menus.None? <==> r == Err(AttributeError("menus"))
    ensures rm.menus.Some? ==> r == Ok(rm.menus.value)
  {
    match rm.menus
    case None => Err(AttributeError("menus"))
    case Some(ms) => Ok(ms)
  }

  /** The records of a decoded response, as a command that builds `RichMenus` and iterates it sees them. */
  function MenusOf(d: Json): Result<seq<RichMenu>, Error> {
    match NewRichMenus(d)
    case Err(e) => Err(e)
    case Ok(rm) => Iterate(rm)
  }

  /**
   * A well-formed list response (an object whose `richmenus` is an array of
   * objects) gives exactly one record per element, in order: the element's
   * `richMenuId` and the element itself when it has that key, no id otherwise.
   */
  lemma MenusOfListResponse(d: Json, items: seq<Json>)
    requires d.JObject? && Field(d.fields, MenusKey) == Some(JArray(items))
    requires forall i :: 0 <= i < |items| ==> items[i].JObject?
    ensures MenusOf(d).Ok?
    ensures |MenusOf(d).value| == |items|
    ensures forall i :: 0 <= i < |items| ==>
      MenusOf(d).value[i] ==
        if Field(items[i].fields, MenuIdKey).Some? then Identified(Field(items[i].fields, MenuIdKey).value, items[i])
        else Unidentified
  {
    var r := NewRichMenuList(items);
    assert r.Ok?;
    forall i | 0 <= i < |items|
      ensures r.value[i] ==
        if Field(items[i].fields, MenuIdKey).Some? then Identified(Field(items[i].fields, MenuIdKey).value, items[i])
        else Unidentified
    {
      assert NewRichMenu(items[i]) == Ok(r.value[i]);
    }
  }

  /** A response object without `richmenus` leaves `menus` unset, and iterating it fails. */
  lemma MenusOfWithoutKey(d: Json)
    requires d.JObject? && Field(d.fields, MenusKey).None?
    ensures MenusOf(d) == Err(AttributeError("menus"))
  {
  }
}

/**
 * Reading and writing the `key = value` configuration file
 * (`get_config` and `write_config`).
 *
 * `GetConfig` and `WriteConfig` are the loops of the tool; `LoadConfig` and
 * `Serialize` are the functions they are proved to compute, and the lemmas
 * below state what those functions promise.
 */
module ConfigCodec {
  import opened Basics
  import opened Text
  import opened Paths
  import opened ConfigDict

  const ConfigPathKey := "_configPath"
  const ConfigDirKey := "_configDir"

  /** Keys with the internal marker are derived at load time and never written. */
  predicate Internal(key: string) {
    StartsWith(key, "_")
  }

  /** The two derived entries every loaded configuration starts with. */
  function Seed(normalized: string): (d: Dict)
    ensures UniqueKeys(d) && Keys(d) == [ConfigPathKey, ConfigDirKey]
  {
    [(ConfigPathKey, normalized), (ConfigDirKey, DirName(normalized))]
  }

  /** One line of the file: split at the first `=`, both sides stripped; `None` when there is no `=`. */
  function ParseLine(line: string): (r: Option<Entry>)
    ensures r.None? <==> '=' !in line
  {
    match IndexOf(line, '=')
    case None => None
    case Some(i) => Some((Strip(line[..i]), Strip(line[i + 1..])))
  }

  lemma ParseLineSplits(line: string, i: nat)
    requires IndexOf(line, '=') == Some(i)
    ensures ParseLine(line) == Some((Strip(line[..i]), Strip(line[i + 1..])))
  {
  }

  /** The effect of one line on the mapping being built. */
  function ApplyLine(d: Dict, line: string): Dict {
    match ParseLine(line)
    case None => d
    case Some(e) => Put(d, e.0, e.1)
  }

  /** The mapping after the lines, in order, have been applied to `d`. */
  function ParseLines(d: Dict, lines: seq<string>): Dict {
    if lines == [] then d
    else ApplyLine(ParseLines(d, lines[..|lines| - 1]), lines[|lines| - 1])
  }

  function NotFoundMessage(configPath: string): string {
    "Config file " + configPath + " not found. Please use --config to specify the path."
  }

  /**
   * `get_config`: `file` is what `readlines` returns, or `None` when the file
   * does not exist; `normalized` is `os.path.normpath(configPath)`. The error
   * carries the message printed before the exception is raised.
   */
  function LoadConfig(configPath: string, normalized: string, file: Option<seq<string>>): Result<Dict, string> {
    match file
    case None => Err(NotFoundMessage(configPath))
    case Some(lines) => Ok(ParseLines(Seed(normalized), lines))
  }

  method GetConfig(configPath: string, normalized: string, file: Option<seq<string>>)
    returns (r: Result<Dict, string>)
    ensures r == LoadConfig(configPath, normalized, file)
    ensures r.Err? <==> file.None?
    ensures r.Ok? ==> UniqueKeys(r.value) && [ConfigPathKey, ConfigDirKey] <= Keys(r.value)
  {
    if file.None? {
      return Err(NotFoundMessage(configPath));
    }
    var lines := file.value;
    var config := Seed(normalized);
    var n := 0;
    while n < |lines|
      invariant n <= |lines|
      invariant config == ParseLines(Seed(normalized), lines[..n])
      invariant UniqueKeys(config) && [ConfigPathKey, ConfigDirKey] <= Keys(config)
    {
      ghost var before := config;
      var line := lines[n];
      var idx := IndexOf(line, '=');
      if idx.Some? {
        var key, val := Strip(line[..idx.value]), Strip(line[idx.value + 1..]);
        ParseLineSplits(line, idx.value);
        config := Put(config, key, val);
        assert config == ApplyLine(before, line);
      } else {
        assert ParseLine(line).None?;
        assert config == ApplyLine(before, line);
      }
      ApplyLineKeys(before, line);
      PrefixTransitive([ConfigPathKey, ConfigDirKey], Keys(before), Keys(config));
      ParseLinesStep(Seed(normalized), lines, n);
      n := n + 1;
    }
    assert lines[..n] == lines;
    return Ok(config);
  }

  lemma ParseLinesStep(d: Dict, lines: seq<string>, n: nat)
    requires n < |lines|
    ensures ParseLines(d, lines[..n + 1]) == ApplyLine(ParseLines(d, lines[..n]), lines[n])
  {
    assert lines[..n + 1][..n] == lines[..n];
  }

  /** The line written for one entry. */
  function EntryLine(e: Entry): string {
    e.0 + " = " + e.1 + "\n"
  }

  /** The entries that are written back: those whose key is not internal, in mapping order. */
  function Persisted(d: Dict): (p: Dict)
    ensures forall e :: e in p <==> e in d && !Internal(e.0)
  {
    if d == [] then []
    else
      var last := d[|d| - 1];
      var p := Persisted(d[..|d| - 1]);
      assert d == d[..|d| - 1] + [last];
      if Internal(last.0) then p else p + [last]
  }

  /** The lines `write_config` writes for `d`, in order. */
  function SerializeLines(d: Dict): seq<string> {
    if d == [] then []
    else
      var last := d[|d| - 1];
      SerializeLines(d[..|d| - 1]) + if Internal(last.0) then [] else [EntryLine(last)]
  }

  /** The whole text of the file `write_config` leaves behind. */
  function Serialize(d: Dict): string {
    Concat(SerializeLines(d))
  }

  /**
   * `write_config`: the file written is the stripped path, and its text is the
   * concatenation of the lines for the persisted entries.
   */
  method WriteConfig(configPath: string, d: Dict) returns (target: string, text: string)
    ensures target == Strip(configPath)
    ensures text == Serialize(d)
  {
    target := Strip(configPath);
    text := "";
    var n := 0;
    while n < |d|
      invariant n <= |d|
      invariant text == Serialize(d[..n])
    {
      SerializeStep(d, n);
      if !StartsWith(d[n].0, "_") {
        text := text + EntryLine(d[n]);
      }
      n := n + 1;
    }
    assert d[..n] == d;
  }

  /** Writing one more entry appends its line, unless its key is internal. */
  lemma SerializeStep(d: Dict, n: nat)
    requires n < |d|
    ensures Serialize(d[..n + 1]) == Serialize(d[..n]) + if Internal(d[n].0) then "" else EntryLine(d[n])
  {
    assert d[..n + 1][..n] == d[..n];
    if Internal(d[n].0) {
      assert SerializeLines(d[..n + 1]) == SerializeLines(d[..n]);
    } else {
      ConcatSnoc(SerializeLines(d[..n]), EntryLine(d[n]));
    }
  }

  // ---------------------------------------------------------------------------
  // Parsing
  // ---------------------------------------------------------------------------

  /**
   * A line is split at its first `=`: the key is the stripped text before it,
   * the value the stripped text after it, which may itself contain `=`.
   */
  lemma ParseLineAtFirstEquals(before: string, after: string)
    requires '=' !in before
    ensures ParseLine(before + "=" + after) == Some((Strip(before), Strip(after)))
  {
    var line := before + "=" + after;
    assert line[|before|] == '=' && line[..|before|] == before;
    assert IndexOf(line, '=') == Some(|before|);
    assert line[|before| + 1..] == after;
  }

  /** A line without `=` is skipped: it neither changes the mapping nor stops the parse. */
  lemma {:induction false} ParseLinesSkipsLineWithoutEquals(d: Dict, before: seq<string>, line: string, after: seq<string>)
    requires '=' !in line
    ensures ParseLines(d, before + [line] + after) == ParseLines(d, before + after)
  {
    if after == [] {
      assert before + [line] + after == before + [line];
      assert (before + [line])[..|before|] == before;
      assert before + after == before;
    } else {
      var init := after[..|after| - 1];
      var last := after[|after| - 1];
      assert (before + [line] + after)[..|before + [line] + after| - 1] == before + [line] + init;
      assert (before + after)[..|before + after| - 1] == before + init;
      ParseLinesSkipsLineWithoutEquals(d, before, line, init);
    }
  }

  /** The keys assigned by the lines, in order, one per line that has `=`. */
  function LineKeys(lines: seq<string>): seq<string> {
    if lines == [] then []
    else
      var rest := LineKeys(lines[..|lines| - 1]);
      match ParseLine(lines[|lines| - 1])
      case None => rest
      case Some(e) => rest + [e.0]
  }

  /** The value the last line that assigns `k` gives it, if any line does. */
  function LastAssigned(lines: seq<string>, k: string): Option<string> {
    if lines == [] then None
    else
      var parsed := ParseLine(lines[|lines| - 1]);
      if parsed.Some? && parsed.value.0 == k then Some(parsed.value.1)
      else LastAssigned(lines[..|lines| - 1], k)
  }

  lemma ApplyLineKeys(d: Dict, line: string)
    requires UniqueKeys(d)
    ensures UniqueKeys(ApplyLine(d, line))
    ensures Keys(d) <= Keys(ApplyLine(d, line))
    ensures ParseLine(line).None? ==> Keys(ApplyLine(d, line)) == Keys(d)
    ensures ParseLine(line).Some? ==>
      forall x :: x in Keys(ApplyLine(d, line)) <==> x in Keys(d) || x == ParseLine(line).value.0
  {
    var p := ParseLine(line);
    if p.Some? {
      assert ApplyLine(d, line) == Put(d, p.value.0, p.value.1);
      PutKeys(d, p.value.0, p.value.1);
    }
  }

  /**
   * Parsing keeps the keys unique, keeps the keys it started with at the front
   * in their order (a repeated key keeps its first position), and ends with
   * exactly the starting keys and the keys the lines assign.
   */
  lemma {:induction false} ParseLinesKeys(d: Dict, lines: seq<string>)
    requires UniqueKeys(d)
    ensures UniqueKeys(ParseLines(d, lines))
    ensures Keys(d) <= Keys(ParseLines(d, lines))
    ensures forall k :: k in Keys(ParseLines(d, lines)) <==> k in Keys(d) || k in LineKeys(lines)
  {
    if lines != [] {
      var init := lines[..|lines| - 1];
      var last := lines[|lines| - 1];
      ParseLinesKeys(d, init);
      var before := ParseLines(d, init);
      ApplyLineKeys(before, last);
      PrefixTransitive(Keys(d), Keys(before), Keys(ParseLines(d, lines)));
    }
  }

  lemma PrefixTransitive(a: seq<string>, b: seq<string>, c: seq<string>)
    requires a <= b && b <= c
    ensures a <= c
  {
  }

  /** A later line for an existing key wins: the parsed value of `k` is the last one assigned, or the starting one. */
  lemma {:induction false} ParseLinesGet(d: Dict, lines: seq<string>, k: string)
    ensures Get(ParseLines(d, lines), k) == match LastAssigned(lines, k) case Some(v) => Some(v) case None => Get(d, k)
  {
    if lines != [] {
      ParseLinesGet(d, lines[..|lines| - 1], k);
    }
  }

  /** A loaded configuration always holds both derived keys, first and in this order, and its keys are unique. */
  lemma LoadedConfigHasSeed(configPath: string, normalized: string, lines: seq<string>)
    ensures LoadConfig(configPath, normalized, Some(lines)).Ok?
    ensures var d := LoadConfig(configPath, normalized, Some(lines)).value;
      UniqueKeys(d) && [ConfigPathKey, ConfigDirKey] <= Keys(d)
  {
    ParseLinesKeys(Seed(normalized), lines);
  }

  // ---------------------------------------------------------------------------
  // Serialising
  // ---------------------------------------------------------------------------

  /** Filtering distributes over concatenation, so persisted entries keep the mapping's order. */
  lemma {:induction false} PersistedAppend(a: Dict, b: Dict)
    ensures Persisted(a + b) == Persisted(a) + Persisted(b)
  {
    if b != [] {
      var init := b[..|b| - 1];
      assert (a + b)[..|a + b| - 1] == a + init;
      assert b[..|b| - 1] == init;
      PersistedAppend(a, init);
    } else {
      assert a + b == a;
    }
  }

  lemma {:induction false} PersistedUnique(d: Dict)
    requires UniqueKeys(d)
    ensures UniqueKeys(Persisted(d))
  {
    if d != [] {
      var init := d[..|d| - 1];
      PersistedUnique(init);
      var p := Persisted(init);
      forall i | 0 <= i < |p| ensures p[i].0 != d[|d| - 1].0 {
        assert p[i] in p;
        var j :| 0 <= j < |init| && init[j] == p[i];
      }
    }
  }

  /** `write_config` writes exactly the lines of the persisted entries, in mapping order. */
  lemma {:induction false} SerializeLinesArePersisted(d: Dict)
    ensures SerializeLines(d) == EntryLines(Persisted(d))
  {
    if d != [] {
      var init := d[..|d| - 1];
      var last := d[|d| - 1];
      SerializeLinesArePersisted(init);
      if !Internal(last.0) {
        var p := Persisted(init) + [last];
        assert p[..|p| - 1] == Persisted(init);
      }
    }
  }

  /** No line that `write_config` writes starts with the internal marker. */
  lemma NoInternalLineWritten(d: Dict)
    ensures forall i :: 0 <= i < |SerializeLines(d)| ==> !StartsWith(SerializeLines(d)[i], "_")
  {
    SerializeLinesArePersisted(d);
    var p := Persisted(d);
    forall i | 0 <= i < |p| ensures !StartsWith(EntryLines(p)[i], "_") {
      EntryLinesAt(p, i);
      assert p[i] in p;
      EntryLineStart(p[i]);
    }
  }

  lemma EntryLineStart(e: Entry)
    requires !Internal(e.0)
    ensures !StartsWith(EntryLine(e), "_")
  {
    var line := EntryLine(e);
    if e.0 == [] {
      assert line[0] == ' ';
    } else {
      assert line[0] == e.0[0];
    }
  }

  lemma {:induction false} EntryLinesAt(p: Dict, i: nat)
    requires i < |p|
    ensures EntryLines(p)[i] == EntryLine(p[i])
  {
    if i < |p| - 1 {
      EntryLinesAt(p[..|p| - 1], i);
    }
  }

  /** An entry that survives the file: its key and value are single-line, have no edge white space, and the key has no `=`. */
  predicate Storable(e: Entry) {
    '=' !in e.0 && '\n' !in e.0 && '\r' !in e.0 && NoEdgeSpace(e.0)
    && '\n' !in e.1 && '\r' !in e.1 && NoEdgeSpace(e.1)
  }

  lemma StripKeyPadding(k: string)
    requires NoEdgeSpace(k)
    ensures Strip(k + " ") == k
  {
    assert AllSpace([]) && AllSpace(" ");
    assert [] + k + " " == k + " ";
    StripPadded([], k, " ");
  }

  lemma StripValuePadding(v: string)
    requires NoEdgeSpace(v)
    ensures Strip(" " + v + "\n") == v
  {
    assert AllSpace(" ") && AllSpace("\n");
    StripPadded(" ", v, "\n");
  }

  lemma ParseEntryLine(e: Entry)
    requires Storable(e)
    ensures ParseLine(EntryLine(e)) == Some(e)
  {
    var k, v := e.0, e.1;
    assert EntryLine(e) == (k + " ") + "=" + (" " + v + "\n");
    assert '=' !in k + " ";
    ParseLineAtFirstEquals(k + " ", " " + v + "\n");
    StripKeyPadding(k);
    StripValuePadding(v);
  }

  lemma {:induction false} ConcatNoChar(parts: seq<string>, c: char)
    requires forall i :: 0 <= i < |parts| ==> c !in parts[i]
    ensures c !in Concat(parts)
  {
    if parts != [] {
      ConcatNoChar(parts[1..], c);
    }
  }

  /** The lines for a sequence of entries, in order. */
  function EntryLines(p: Dict): (lines: seq<string>)
    ensures |lines| == |p|
  {
    if p == [] then [] else EntryLines(p[..|p| - 1]) + [EntryLine(p[|p| - 1])]
  }

  /** Parsing the lines of storable entries with fresh keys appends exactly those entries. */
  lemma {:induction false} ParseEntryLines(d: Dict, p: Dict)
    requires UniqueKeys(d + p)
    requires forall i :: 0 <= i < |p| ==> Storable(p[i])
    ensures ParseLines(d, EntryLines(p)) == d + p
  {
    if p == [] {
      assert d + p == d;
    } else {
      var init := p[..|p| - 1];
      var e := p[|p| - 1];
      var lines := EntryLines(p);
      assert lines[..|lines| - 1] == EntryLines(init);
      assert (d + p)[..|d + p| - 1] == d + init;
      UniqueKeysLast(d + p);
      ParseEntryLines(d, init);
      ParseEntryLine(e);
      PutNew(d + init, e.0, e.1);
      assert d + init + [e] == d + p;
    }
  }

  /**
   * Round trip: reading back what `write_config` wrote yields the derived
   * entries followed by exactly the persisted entries, in order, provided every
   * persisted entry is storable.
   */
  lemma RoundTrip(d: Dict, configPath: string, normalized: string)
    requires UniqueKeys(d)
    requires forall i :: 0 <= i < |d| && !Internal(d[i].0) ==> Storable(d[i])
    ensures LoadConfig(configPath, normalized, Some(ReadLines(Serialize(d)))) == Ok(Seed(normalized) + Persisted(d))
  {
    var p := Persisted(d);
    var lines := SerializeLines(d);
    SerializeLinesArePersisted(d);
    PersistedUnique(d);
    forall i | 0 <= i < |p| ensures Storable(p[i]) {
      assert p[i] in p;
    }
    forall i | 0 <= i < |lines| ensures IsTerminatedLine(lines[i]) && '\r' !in lines[i] {
      EntryLinesAt(p, i);
      StorableLine(p[i]);
    }
    ConcatNoChar(lines, '\r');
    TranslateNoReturn(Serialize(d));
    SplitLinesConcat(lines);
    assert ReadLines(Serialize(d)) == lines;
    SeedThenPersistedUnique(normalized, d);
    ParseEntryLines(Seed(normalized), p);
  }

  lemma StorableLine(e: Entry)
    requires Storable(e)
    ensures IsTerminatedLine(EntryLine(e)) && '\r' !in EntryLine(e)
  {
    var line := EntryLine(e);
    assert line[..|line| - 1] == e.0 + " = " + e.1;
  }

  lemma SeedThenPersistedUnique(normalized: string, d: Dict)
    requires UniqueKeys(d)
    ensures UniqueKeys(Seed(normalized) + Persisted(d))
  {
    var s := Seed(normalized);
    var p := Persisted(d);
    var sp: Dict := s + p;
    PersistedUnique(d);
    forall i, j | 0 <= i < j < |sp| ensures sp[i].0 != sp[j].0 {
      if i < 2 && j >= 2 {
        assert sp[j] in p;
        assert Internal(sp[i].0);
      }
    }
  }

  /** Loading a written file and writing it again produces the same text. */
  lemma SaveLoadSave(d: Dict, configPath: string, normalized: string)
    requires UniqueKeys(d)
    requires forall i :: 0 <= i < |d| && !Internal(d[i].0) ==> Storable(d[i])
    ensures LoadConfig(configPath, normalized, Some(ReadLines(Serialize(d)))).Ok?
    ensures Serialize(LoadConfig(configPath, normalized, Some(ReadLines(Serialize(d)))).value) == Serialize(d)
  {
    RoundTrip(d, configPath, normalized);
    var s := Seed(normalized);
    var p := Persisted(d);
    PersistedAppend(s, p);
    assert Persisted(s) == [] by {
      assert s[..1][..0] == [];
      assert Persisted(s[..1]) == [];
    }
    assert Persisted(p) == p by {
      PersistedOfPersisted(d);
    }
    assert Persisted(s + p) == p;
    SerializeOfPersisted(s + p);
    SerializeOfPersisted(d);
    assert SerializeLines(s + p) == SerializeLines(d);
  }

  lemma {:induction false} PersistedOfPersisted(d: Dict)
    ensures Persisted(Persisted(d)) == Persisted(d)
  {
    if d != [] {
      var init := d[..|d| - 1];
      var last := d[|d| - 1];
      PersistedOfPersisted(init);
      if !Internal(last.0) {
        PersistedAppend(Persisted(init), [last]);
        assert Persisted([last]) == [last];
      }
    }
  }

  /** What is written depends only on the persisted entries. */
  lemma {:induction false} SerializeOfPersisted(d: Dict)
    ensures SerializeLines(d) == SerializeLines(Persisted(d))
  {
    SerializeLinesArePersisted(d);
    SerializeLinesArePersisted(Persisted(d));
    PersistedOfPersisted(d);
  }
}

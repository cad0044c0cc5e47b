/** The hand-written reader of the audit exception list, and the rendering it undoes. */
module AuditExceptions {
  import opened Wrappers
  import opened PyText

  type Record = map<string, string>

  /** `Raised` stands for the ValueError of unpacking a split without a colon. */
  datatype Result<+T> = Ok(value: T) | Raised(line: string)

  // ---- Reading a text file line by line, with universal newlines ----

  predicate IsBreak(c: char) {
    c == '\n' || c == '\r'
  }

  predicate NoBreak(s: string) {
    forall i | 0 <= i < |s| :: !IsBreak(s[i])
  }

  function LineLength(text: string): (n: nat)
    ensures n <= |text|
    ensures NoBreak(text[..n])
    ensures n < |text| ==> IsBreak(text[n])
  {
    if text == "" || IsBreak(text[0]) then 0
    else
      assert text[..1 + LineLength(text[1..])] == [text[0]] + text[1..][..LineLength(text[1..])];
      1 + LineLength(text[1..])
  }

  function Lines(text: string): seq<string>
    decreases |text|
  {
    if text == "" then []
    else
      var n := LineLength(text);
      if n == |text| then [text]
      else
        var width := if text[n] == '\r' && n + 1 < |text| && text[n + 1] == '\n' then 2 else 1;
        [text[..n]] + Lines(text[n + width..])
  }

  // ---- One line ----

  function ColonIndex(s: string): (n: nat)
    ensures n <= |s|
    ensures forall i | 0 <= i < n :: s[i] != ':'
    ensures n < |s| ==> s[n] == ':'
  {
    if s == "" || s[0] == ':' then 0 else 1 + ColonIndex(s[1..])
  }

  predicate Quoted(s: string, quote: char) {
    s != "" && s[0] == quote && s[|s| - 1] == quote
  }

  function Unquote(s: string): string {
    if Quoted(s, '"') || Quoted(s, '\'') then
      if |s| == 1 then "" else s[1..|s| - 1]
    else s
  }

  function SplitKeyValue(line: string): Result<(string, string)> {
    var n := ColonIndex(line);
    if n == |line| then Raised(line)
    else Ok((Strip(line[..n]), Unquote(Strip(line[n + 1..]))))
  }

  // ---- The reader's state machine ----

  datatype Reader = Reader(records: seq<Record>, current: Option<Record>) {
    /** `if current: exceptions.append(current)`: nothing open and an empty record are both dropped. */
    function Closed(): seq<Record> {
      if current.Some? && current.value != map[] then records + [current.value] else records
    }
  }

  predicate Skipped(line: string) {
    || line == ""
    || StartsWith(line, "#")
    || StartsWith(line, "version:")
    || StartsWith(line, "exceptions:")
  }

  function Feed(reader: Reader, raw: string): Result<Reader> {
    var line := Strip(raw);
    if Skipped(line) then Ok(reader)
    else if StartsWith(line, "- ") then
      var rest := Strip(line[2..]);
      if rest == "" then Ok(Reader(reader.Closed(), Some(map[])))
      else match SplitKeyValue(rest)
        case Ok((key, value)) => Ok(Reader(reader.Closed(), Some(map[key := value])))
        case Raised(at) => Raised(at)
    else if reader.current.Some? && ColonIndex(line) < |line| then
      match SplitKeyValue(line)
      case Ok((key, value)) => Ok(Reader(reader.records, Some(reader.current.value[key := value])))
      case Raised(at) => Raised(at)
    else Ok(reader)
  }

  function FeedAll(reader: Reader, lines: seq<string>): Result<Reader>
    decreases |lines|
  {
    if lines == [] then Ok(reader)
    else match Feed(reader, lines[0])
      case Ok(next) => FeedAll(next, lines[1..])
      case Raised(at) => Raised(at)
  }

  const START := Reader([], None)

  function Parse(text: string): Result<seq<Record>> {
    match FeedAll(START, Lines(text))
    case Ok(reader) => Ok(reader.Closed())
    case Raised(at) => Raised(at)
  }

  method ParseExceptions(text: string) returns (result: Result<seq<Record>>)
    ensures result == Parse(text)
  {
    var lines := Lines(text);
    var exceptions: seq<Record> := [];
    var current: Option<Record> := None;
    for i := 0 to |lines|
      invariant FeedAll(START, lines) == FeedAll(Reader(exceptions, current), lines[i..])
    {
      ghost var before := Reader(exceptions, current);
      assert lines[i..][0] == lines[i] && lines[i..][1..] == lines[i + 1..];
      var line := Strip(lines[i]);
      if line == "" || StartsWith(line, "#") {
        continue;
      }
      if StartsWith(line, "version:") || StartsWith(line, "exceptions:") {
        continue;
      }
      if StartsWith(line, "- ") {
        if current.Some? && current.value != map[] {
          exceptions := exceptions + [current.value];
        }
        current := Some(map[]);
        line := Strip(line[2..]);
        if line != "" {
          var split := SplitKeyValue(line);
          if split.Raised? {
            return Raised(split.line);
          }
          current := Some(current.value[split.value.0 := split.value.1]);
        }
        continue;
      }
      if current.Some? && ColonIndex(line) < |line| {
        var split := SplitKeyValue(line);
        current := Some(current.value[split.value.0 := split.value.1]);
      }
    }
    if current.Some? && current.value != map[] {
      exceptions := exceptions + [current.value];
    }
    result := Ok(exceptions);
  }

  // ---- When reading raises ----

  /** An item line with content but no colon. */
  predicate Unsplittable(raw: string) {
    var line := Strip(raw);
    && !Skipped(line)
    && StartsWith(line, "- ")
    && Strip(line[2..]) != ""
    && ColonIndex(Strip(line[2..])) == |Strip(line[2..])|
  }

  lemma FeedRaises(reader: Reader, raw: string)
    ensures Feed(reader, raw).Raised? <==> Unsplittable(raw)
  {
  }

  predicate AnyUnsplittable(lines: seq<string>) {
    exists i | 0 <= i < |lines| :: Unsplittable(lines[i])
  }

  lemma AnyUnsplittableCons(lines: seq<string>)
    requires lines != []
    ensures AnyUnsplittable(lines) <==> Unsplittable(lines[0]) || AnyUnsplittable(lines[1..])
  {
    hide Unsplittable;
    assert forall i | 1 <= i < |lines| :: lines[i] == lines[1..][i - 1];
    assert forall i | 0 <= i < |lines| - 1 :: lines[1..][i] == lines[i + 1];
  }

  lemma {:induction false} RaisesExactly(reader: Reader, lines: seq<string>)
    ensures FeedAll(reader, lines).Raised? <==> AnyUnsplittable(lines)
    decreases |lines|
  {
    hide Feed, Unsplittable;
    if lines != [] {
      FeedRaises(reader, lines[0]);
      AnyUnsplittableCons(lines);
      if Feed(reader, lines[0]).Ok? {
        RaisesExactly(Feed(reader, lines[0]).value, lines[1..]);
      }
    }
  }

  /** The reader raises exactly when some item line carries content without a colon. */
  lemma ParseRaisesExactly(text: string)
    ensures Parse(text).Raised? <==> AnyUnsplittable(Lines(text))
  {
    RaisesExactly(START, Lines(text));
  }

  // ---- The canonical rendering ----

  type Fields = seq<(string, string)>

  function Entry(field: (string, string)): string {
    field.0 + ": \"" + field.1 + "\""
  }

  function RenderFields(fields: Fields): seq<string> {
    if fields == [] then [] else [Entry(fields[0])] + RenderFields(fields[1..])
  }

  /** One `- key: "value"` line, then one `key: "value"` line for every further field. */
  function RenderRecord(fields: Fields): seq<string> {
    if fields == [] then ["- "] else ["- " + Entry(fields[0])] + RenderFields(fields[1..])
  }

  function RenderLines(records: seq<Fields>): seq<string> {
    if records == [] then [] else RenderRecord(records[0]) + RenderLines(records[1..])
  }

  function Join(lines: seq<string>): string {
    if lines == [] then "" else lines[0] + "\n" + Join(lines[1..])
  }

  function Render(records: seq<Fields>): string {
    Join(RenderLines(records))
  }

  function Assigned(start: Record, fields: Fields): Record
    decreases |fields|
  {
    if fields == [] then start else Assigned(start[fields[0].0 := fields[0].1], fields[1..])
  }

  function Dicts(records: seq<Fields>): seq<Record> {
    if records == [] then [] else [Assigned(map[], records[0])] + Dicts(records[1..])
  }

  /** A key that survives on an item line. */
  predicate ItemKey(key: string) {
    Trimmed(key) && ':' !in key && NoBreak(key)
  }

  /** A key that survives on a continuation line. */
  predicate ContinuationKey(key: string) {
    && ItemKey(key)
    && !StartsWith(key, "#") && !StartsWith(key, "- ")
    && key != "version" && key != "exceptions"
  }

  predicate Renderable(fields: Fields) {
    && fields != []
    && ItemKey(fields[0].0)
    && (forall i | 1 <= i < |fields| :: ContinuationKey(fields[i].0))
    && (forall i | 0 <= i < |fields| :: NoBreak(fields[i].1))
  }

  lemma ColonIndexIs(s: string, n: nat)
    requires n < |s| && s[n] == ':' && forall i | 0 <= i < n :: s[i] != ':'
    ensures ColonIndex(s) == n
  {
  }

  lemma EntryShape(field: (string, string))
    requires ItemKey(field.0)
    ensures var line := Entry(field);
      && ColonIndex(line) == |field.0| < |line|
      && line[..|field.0|] == field.0 && line[|field.0| + 1..] == " \"" + field.1 + "\""
      && line[|line| - 1] == '"'
      && Trimmed(line)
  {
    var (key, value) := field;
    var line := Entry(field);
    assert line == key + ":" + (" \"" + value + "\"");
    assert forall i | 0 <= i < |key| :: line[i] == key[i];
    ColonIndexIs(line, |key|);
  }

  lemma QuotedValue(value: string)
    ensures Unquote(Strip(" \"" + value + "\"")) == value
  {
    var quoted := "\"" + value + "\"";
    assert " \"" + value + "\"" == " " + quoted + "";
    StripPadding(" ", quoted, "");
    assert quoted[1..|quoted| - 1] == value;
  }

  lemma SplitEntry(field: (string, string))
    requires ItemKey(field.0)
    ensures SplitKeyValue(Entry(field)) == Ok(field)
    ensures Strip(Entry(field)) == Entry(field)
    ensures ColonIndex(Entry(field)) < |Entry(field)|
  {
    hide Entry, Strip, Unquote;
    EntryShape(field);
    StripTrims(Entry(field));
    StripTrims(field.0);
    QuotedValue(field.1);
  }

  lemma OneFirstCharacter(line: string, head: string, other: string)
    requires StartsWith(line, head) && head != "" && other != "" && head[0] != other[0]
    ensures !StartsWith(line, other)
  {
    assert line[0] == line[..|head|][0];
    if |other| <= |line| {
      assert line[..|other|][0] == line[0];
    }
  }

  lemma ItemIsNotSkipped(line: string)
    requires StartsWith(line, "- ")
    ensures !Skipped(line)
  {
    OneFirstCharacter(line, "- ", "#");
    OneFirstCharacter(line, "- ", "version:");
    OneFirstCharacter(line, "- ", "exceptions:");
  }

  lemma FeedItem(reader: Reader, field: (string, string))
    requires ItemKey(field.0)
    ensures Feed(reader, "- " + Entry(field)) == Ok(Reader(reader.Closed(), Some(map[field.0 := field.1])))
  {
    hide Entry, SplitKeyValue, Skipped, Strip;
    var entry := Entry(field);
    var raw := "- " + entry;
    SplitEntry(field);
    EntryShape(field);
    assert raw[0] == '-' && raw[|raw| - 1] == entry[|entry| - 1];
    StripTrims(raw);
    assert raw[..2] == "- " && raw[2..] == entry;
    ItemIsNotSkipped(raw);
  }

  /** A line starts with a reserved word and a colon only if the word is its key. */
  lemma KeywordKey(field: (string, string), word: string)
    requires ItemKey(field.0) && ':' !in word
    ensures StartsWith(Entry(field), word + ":") ==> field.0 == word
  {
    hide Entry;
    var line, w := Entry(field), word + ":";
    EntryShape(field);
    if StartsWith(line, w) {
      assert forall i | 0 <= i < |w| :: line[i] == line[..|w|][i] == w[i];
      ColonIndexIs(line, |word|);
      assert line[..|word|] == word;
    }
  }

  lemma EntryIsContinuation(field: (string, string))
    requires ContinuationKey(field.0)
    ensures !Skipped(Entry(field)) && !StartsWith(Entry(field), "- ")
  {
    var (key, line) := (field.0, Entry(field));
    KeywordKey(field, "version");
    KeywordKey(field, "exceptions");
    assert "version" + ":" == "version:" && "exceptions" + ":" == "exceptions:";
    assert line == key + (": \"" + field.1 + "\"");
    PrefixOfKey(key, ": \"" + field.1 + "\"", "#");
    PrefixOfKey(key, ": \"" + field.1 + "\"", "- ");
  }

  /** A colon-free prefix of a key followed by a colon is a prefix of the key. */
  lemma PrefixOfKey(key: string, tail: string, prefix: string)
    requires tail != "" && tail[0] == ':' && ':' !in prefix
    ensures StartsWith(key + tail, prefix) ==> StartsWith(key, prefix)
  {
    var line := key + tail;
    if StartsWith(line, prefix) {
      assert forall i | 0 <= i < |prefix| :: line[i] == line[..|prefix|][i] == prefix[i];
      assert line[|key|] == ':';
      assert |prefix| <= |key|;
      assert key[..|prefix|] == line[..|prefix|];
    }
  }

  lemma FeedContinuation(reader: Reader, field: (string, string))
    requires ContinuationKey(field.0) && reader.current.Some?
    ensures Feed(reader, Entry(field)) == Ok(Reader(reader.records, Some(reader.current.value[field.0 := field.1])))
  {
    hide Entry, SplitKeyValue, Skipped, Strip;
    SplitEntry(field);
    EntryIsContinuation(field);
  }

  lemma {:induction false} FeedFields(reader: Reader, fields: Fields, rest: seq<string>)
    requires reader.current.Some? && forall i | 0 <= i < |fields| :: ContinuationKey(fields[i].0)
    ensures FeedAll(reader, RenderFields(fields) + rest)
         == FeedAll(Reader(reader.records, Some(Assigned(reader.current.value, fields))), rest)
    decreases |fields|
  {
    hide Feed, SplitKeyValue, Entry, Skipped;
    if fields == [] {
      assert RenderFields(fields) + rest == rest;
    } else {
      FeedContinuation(reader, fields[0]);
      var lines := RenderFields(fields) + rest;
      assert lines[0] == Entry(fields[0]) && lines[1..] == RenderFields(fields[1..]) + rest;
      FeedFields(Feed(reader, lines[0]).value, fields[1..], rest);
    }
  }

  lemma {:induction false} AssignedIsNotEmpty(start: Record, fields: Fields)
    requires start != map[]
    ensures Assigned(start, fields) != map[]
    decreases |fields|
  {
    if fields != [] {
      assert fields[0].0 in start[fields[0].0 := fields[0].1];
      AssignedIsNotEmpty(start[fields[0].0 := fields[0].1], fields[1..]);
    }
  }

  lemma AssignedFirst(fields: Fields)
    requires fields != []
    ensures Assigned(map[], fields) == Assigned(map[fields[0].0 := fields[0].1], fields[1..])
    ensures Assigned(map[], fields) != map[]
  {
    var start: Record := map[];
    assert start[fields[0].0 := fields[0].1] == map[fields[0].0 := fields[0].1];
    assert fields[0].0 in map[fields[0].0 := fields[0].1];
    AssignedIsNotEmpty(map[fields[0].0 := fields[0].1], fields[1..]);
  }

  lemma FeedRecord(reader: Reader, fields: Fields, rest: seq<string>)
    requires Renderable(fields)
    ensures FeedAll(reader, RenderRecord(fields) + rest)
         == FeedAll(Reader(reader.Closed(), Some(Assigned(map[], fields))), rest)
  {
    hide Feed, Entry, ItemKey, ContinuationKey, Reader.Closed;
    var lines := RenderRecord(fields) + rest;
    var tail := fields[1..];
    FeedItem(reader, fields[0]);
    assert lines[0] == "- " + Entry(fields[0]) && lines[1..] == RenderFields(tail) + rest;
    assert forall i | 0 <= i < |tail| :: tail[i] == fields[i + 1];
    FeedFields(Reader(reader.Closed(), Some(map[fields[0].0 := fields[0].1])), tail, rest);
    AssignedFirst(fields);
  }

  lemma {:induction false} FeedRecords(reader: Reader, records: seq<Fields>)
    requires forall i | 0 <= i < |records| :: Renderable(records[i])
    ensures var result := FeedAll(reader, RenderLines(records));
      result.Ok? && result.value.Closed() == reader.Closed() + Dicts(records)
    decreases |records|
  {
    hide Feed, RenderRecord, Renderable;
    if records != [] {
      var first := Assigned(map[], records[0]);
      var next := Reader(reader.Closed(), Some(first));
      assert records[0] != [] by { NotEmpty(records[0]); }
      AssignedFirst(records[0]);
      FeedRecord(reader, records[0], RenderLines(records[1..]));
      FeedRecords(next, records[1..]);
      assert next.Closed() == reader.Closed() + [first];
      assert next.Closed() + Dicts(records[1..]) == reader.Closed() + Dicts(records);
    }
  }

  lemma NotEmpty(fields: Fields)
    requires Renderable(fields)
    ensures fields != []
  {
  }

  lemma LineLengthIs(text: string, n: nat)
    requires n < |text| && NoBreak(text[..n]) && IsBreak(text[n])
    ensures LineLength(text) == n
  {
    assert forall i | 0 <= i < n :: text[..n][i] == text[i];
    var m := LineLength(text);
    assert forall i | 0 <= i < m :: text[..m][i] == text[i];
  }

  lemma {:induction false} LinesOfJoin(lines: seq<string>)
    requires forall i | 0 <= i < |lines| :: NoBreak(lines[i])
    ensures Lines(Join(lines)) == lines
  {
    if lines != [] {
      var text, n := Join(lines), |lines[0]|;
      assert text == lines[0] + ("\n" + Join(lines[1..]));
      assert text[..n] == lines[0] && text[n] == '\n' && text[n + 1..] == Join(lines[1..]);
      LineLengthIs(text, n);
      LinesOfJoin(lines[1..]);
    }
  }

  lemma NoBreakEntry(field: (string, string))
    requires NoBreak(field.0) && NoBreak(field.1)
    ensures NoBreak(Entry(field)) && NoBreak("- " + Entry(field))
  {
  }

  lemma {:induction false} NoBreakFields(fields: Fields)
    requires forall i | 0 <= i < |fields| :: NoBreak(fields[i].0) && NoBreak(fields[i].1)
    ensures forall i | 0 <= i < |RenderFields(fields)| :: NoBreak(RenderFields(fields)[i])
  {
    if fields != [] {
      NoBreakEntry(fields[0]);
      NoBreakFields(fields[1..]);
    }
  }

  lemma {:induction false} NoBreakLines(records: seq<Fields>)
    requires forall i | 0 <= i < |records| :: Renderable(records[i])
    ensures forall i | 0 <= i < |RenderLines(records)| :: NoBreak(RenderLines(records)[i])
  {
    if records != [] {
      NoBreakEntry(records[0][0]);
      NoBreakFields(records[0][1..]);
      NoBreakLines(records[1..]);
    }
  }

  /** Reading undoes the canonical rendering; later fields override earlier ones with the same key. */
  lemma ParseUndoesRender(records: seq<Fields>)
    requires forall i | 0 <= i < |records| :: Renderable(records[i])
    ensures Parse(Render(records)) == Ok(Dicts(records))
  {
    NoBreakLines(records);
    LinesOfJoin(RenderLines(records));
    FeedRecords(START, records);
    assert START.Closed() + Dicts(records) == Dicts(records);
  }

  // ---- What the reader can produce at all ----

  predicate ProducedRecord(record: Record) {
    forall key | key in record :: Trimmed(key) && ':' !in key
  }

  lemma SplitKeyIsProduced(line: string)
    requires SplitKeyValue(line).Ok?
    ensures Trimmed(SplitKeyValue(line).value.0) && ':' !in SplitKeyValue(line).value.0
  {
    var key := line[..ColonIndex(line)];
    StripTrims(key);
    StripIsInside(key, ':');
  }

  lemma {:induction false} LStripIsInside(s: string, c: char)
    ensures c in LStrip(s) ==> c in s
  {
    if s != "" && IsSpace(s[0]) {
      LStripIsInside(s[1..], c);
    }
  }

  lemma {:induction false} RStripIsInside(s: string, c: char)
    ensures c in RStrip(s) ==> c in s
  {
    if s != "" && IsSpace(s[|s| - 1]) {
      RStripIsInside(s[..|s| - 1], c);
    }
  }

  lemma StripIsInside(s: string, c: char)
    ensures c in Strip(s) ==> c in s
  {
    LStripIsInside(s, c);
    RStripIsInside(LStrip(s), c);
  }

  predicate Produced(reader: Reader) {
    && (forall i | 0 <= i < |reader.records| :: reader.records[i] != map[] && ProducedRecord(reader.records[i]))
    && (reader.current.Some? ==> ProducedRecord(reader.current.value))
  }

  lemma FeedIsProduced(reader: Reader, raw: string)
    requires Produced(reader) && Feed(reader, raw).Ok?
    ensures Produced(Feed(reader, raw).value)
  {
    var line := Strip(raw);
    if !Skipped(line) {
      if StartsWith(line, "- ") {
        if Strip(line[2..]) != "" {
          SplitKeyIsProduced(Strip(line[2..]));
        }
      } else if reader.current.Some? && ColonIndex(line) < |line| {
        SplitKeyIsProduced(line);
      }
    }
  }

  lemma {:induction false} FeedAllIsProduced(reader: Reader, lines: seq<string>)
    requires Produced(reader) && FeedAll(reader, lines).Ok?
    ensures Produced(FeedAll(reader, lines).value)
    decreases |lines|
  {
    if lines != [] {
      FeedIsProduced(reader, lines[0]);
      FeedAllIsProduced(Feed(reader, lines[0]).value, lines[1..]);
    }
  }

  /** Whatever the text, every record read is non-empty and its keys are trimmed and colon-free: the key conditions
      of `ParseUndoesRender` cannot be dropped. */
  lemma ParseIsProduced(text: string)
    requires Parse(text).Ok?
    ensures forall i | 0 <= i < |Parse(text).value| :: Parse(text).value[i] != map[] && ProducedRecord(Parse(text).value[i])
  {
    FeedAllIsProduced(START, Lines(text));
  }
}

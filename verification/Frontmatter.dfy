/**
 Markdown frontmatter: the parser of scripts/validate-knowledge-metadata.js and the frontmatter that
 scripts/generate-context-pack.js writes, and for which values the parser reads back what was written.
 */
module Frontmatter {
  import opened Prelude
  import opened JsText
  import opened TextLines

  /* ---------- The parser ---------- */

  datatype Value = Scalar(text: string) | List(items: seq<string>)

  type Metadata = map<string, Value>

  datatype FrontmatterError =
    | MissingOpening
    | MissingClosing
    | OrphanItem(line: string)
    | UnsupportedLine(line: string)
    | InlineList(key: string)

  predicate IsListField(key: string) {
    key == "source" || key == "supports" || key == "contradicts" || key == "supersedes" || key == "reviewed_by"
  }

  predicate Quoted(s: string) {
    |s| >= 2 && ((s[0] == '"' && s[|s| - 1] == '"') || (s[0] == '\'' && s[|s| - 1] == '\''))
  }

  function StripQuotes(s: string): string {
    if Quoted(s) then s[1..|s| - 1] else s
  }

  /** Offset of the first line break that is followed by three hyphens. */
  function FindClose(s: string): (r: Option<nat>)
    ensures r.Some? ==> r.value + 4 <= |s|
  {
    if |s| < 4 then None
    else if s[..4] == "\n---" then Some(0)
    else
      match FindClose(s[1..])
      case None => None
      case Some(k) => Some(k + 1)
  }

  /** `/^\s*-\s+(.+)$/` on a line without trailing blanks: the group, if it matches. */
  function ListItem(line: string): Option<string> {
    var t := TrimStart(line);
    if |t| < 2 || t[0] != '-' || !IsSpace(t[1]) || HasTerminator(TrimStart(t[1..])) then None
    else Some(TrimStart(t[1..]))
  }

  predicate KeyChar(c: char) {
    'A' <= c <= 'Z' || 'a' <= c <= 'z' || '0' <= c <= '9' || c == '_' || c == '-'
  }

  function KeyLength(line: string): (n: nat)
    ensures n <= |line|
  {
    if line == "" || !KeyChar(line[0]) then 0 else 1 + KeyLength(line[1..])
  }

  /** `/^([A-Za-z0-9_-]+):(?:\s*(.*))?$/`: key and value, if it matches. */
  function FieldOf(line: string): Option<(string, string)> {
    var n := KeyLength(line);
    if n == 0 || n == |line| || line[n] != ':' || HasTerminator(TrimStart(line[n + 1..])) then None
    else Some((line[..n], TrimStart(line[n + 1..])))
  }

  /** The parser's two variables. The current list field, if any, is in the metadata as a list. */
  datatype State = State(metadata: Metadata, current: Option<string>)

  const START: State := State(map[], None)

  function Items(m: Metadata, key: string): seq<string> {
    if key in m && m[key].List? then m[key].items else []
  }

  function ReadLine(st: State, rawLine: string): Result<State, FrontmatterError> {
    var line := TrimEnd(rawLine);
    if Trim(line) == "" then Ok(st)
    else if ListItem(line).Some? then
      if st.current.None? then Err(OrphanItem(Trim(line)))
      else
        var key := st.current.value;
        var item := StripQuotes(Trim(ListItem(line).value));
        Ok(st.(metadata := st.metadata[key := List(Items(st.metadata, key) + [item])]))
    else if FieldOf(line).None? then Err(UnsupportedLine(Trim(line)))
    else
      var (key, rawValue) := FieldOf(line).value;
      var value := Trim(rawValue);
      if !IsListField(key) then Ok(State(st.metadata[key := Scalar(StripQuotes(value))], None))
      else if value == "" then Ok(State(st.metadata[key := List([])], Some(key)))
      else if value == "[]" then Ok(State(st.metadata[key := List([])], None))
      else Err(InlineList(key))
  }

  function ReadLines(st: State, lines: seq<string>): Result<State, FrontmatterError>
    decreases |lines|
  {
    if lines == [] then Ok(st)
    else
      match ReadLine(st, lines[0])
      case Err(e) => Err(e)
      case Ok(st') => ReadLines(st', lines[1..])
  }

  function Parse(content: string): Result<Metadata, FrontmatterError> {
    var normalized := Normalize(content);
    if !("---\n" <= normalized) then Err(MissingOpening)
    else
      match FindClose(normalized[4..])
      case None => Err(MissingClosing)
      case Some(end) =>
        match ReadLines(START, Split(normalized[4..4 + end]))
        case Err(e) => Err(e)
        case Ok(st) => Ok(st.metadata)
  }

  method ParseFrontmatter(content: string) returns (r: Result<Metadata, FrontmatterError>)
    ensures r == Parse(content)
  {
    var normalized := Normalize(content);
    if !("---\n" <= normalized) {
      return Err(MissingOpening);
    }
    var end := FindClose(normalized[4..]);
    if end.None? {
      return Err(MissingClosing);
    }
    var lines := Split(normalized[4..4 + end.value]);
    var metadata: Metadata := map[];
    var currentListKey: Option<string> := None;
    for i := 0 to |lines|
      invariant ReadLines(START, lines) == ReadLines(State(metadata, currentListKey), lines[i..])
    {
      assert lines[i..][1..] == lines[i + 1..];
      var line := TrimEnd(lines[i]);
      if Trim(line) == "" {
        continue;
      }
      var item := ListItem(line);
      if item.Some? {
        if currentListKey.None? {
          return Err(OrphanItem(Trim(line)));
        }
        var key := currentListKey.value;
        metadata := metadata[key := List(Items(metadata, key) + [StripQuotes(Trim(item.value))])];
        continue;
      }
      var field := FieldOf(line);
      if field.None? {
        return Err(UnsupportedLine(Trim(line)));
      }
      var (key, rawValue) := field.value;
      var value := Trim(rawValue);
      if IsListField(key) {
        if value == "" || value == "[]" {
          metadata := metadata[key := List([])];
          currentListKey := if value == "" then Some(key) else None;
        } else {
          return Err(InlineList(key));
        }
        continue;
      }
      metadata := metadata[key := Scalar(StripQuotes(value))];
      currentListKey := None;
    }
    return Ok(metadata);
  }

  /* ---------- The writer ---------- */

  function ItemLines(values: seq<string>): (lines: seq<string>)
    ensures |lines| == |values|
  {
    if values == [] then [] else ["  - " + values[0]] + ItemLines(values[1..])
  }

  function FormatList(name: string, values: seq<string>): string {
    if values == [] then name + ": []" else name + (":" + ("\n" + JoinLines(ItemLines(values))))
  }

  function OpeningLines(contextId: string, date: string): seq<string> {
    ["---", "id: " + contextId, "type: context-pack", "status: draft", "created: " + date, "updated: " + date]
  }

  function RelationLines(sourceId: string): seq<string> {
    ["supports:", "  - " + sourceId, "contradicts: []", "supersedes: []", "reviewed_by: []"]
  }

  /** `buildContextPack`, from the values it puts into the frontmatter and the lines after it. */
  function BuildContextPack(contextId: string, date: string, sources: seq<string>, sourceId: string, body: seq<string>): string {
    JoinLines(
      OpeningLines(contextId, date) + ([FormatList("source", sources)] + (RelationLines(sourceId) + (["---"] + body))))
  }

  /** The metadata those values stand for. */
  function PackMetadata(contextId: string, date: string, sources: seq<string>, sourceId: string): Metadata {
    map["id" := Scalar(contextId),
        "type" := Scalar("context-pack"),
        "status" := Scalar("draft"),
        "created" := Scalar(date),
        "updated" := Scalar(date),
        "source" := List(sources),
        "supports" := List([sourceId]),
        "contradicts" := List([]),
        "supersedes" := List([]),
        "reviewed_by" := List([])]
  }

  /* ---------- What a value reads back as ---------- */

  /** A value that survives: one line, no outer blanks, no wrapping quotes. */
  predicate Plain(v: string) {
    !HasTerminator(v) && Trim(v) == v && !Quoted(v)
  }

  /** What the parser makes of a value. */
  function ReadBack(v: string): string {
    StripQuotes(Trim(v))
  }

  lemma ReadBackIsExact(v: string)
    requires !HasTerminator(v)
    ensures ReadBack(v) == v <==> Plain(v)
  {
    TrimIsIdempotent(v);
  }

  /* ---------- Single lines ---------- */

  /** A character makes a field's name exactly when it is an ASCII letter, a digit, '_' or '-'. */
  lemma KeyCharsExactly(c: char, value: string)
    requires !HasTerminator(value)
    ensures FieldOf([c] + ":" + value).Some? <==>
      0x30 <= c as int <= 0x39 || 0x41 <= c as int <= 0x5A || 0x61 <= c as int <= 0x7A || c as int == 0x5F || c as int == 0x2D
  {
    var line := [c] + ":" + value;
    assert line[1] == ':' && line[1..] == ":" + value && line[2..] == value && (":" + value)[0] == ':';
    assert KeyLength(":" + value) == 0;
    NoTerminatorInTrimStart(value);
    if !KeyChar(c) {
      assert KeyLength(line) == 0;
    } else {
      assert KeyLength(line) == 1;
    }
  }

  lemma NoTerminatorInTrimStart(v: string)
    requires !HasTerminator(v)
    ensures !HasTerminator(TrimStart(v))
  {
    TrimStartCuts(v);
    forall i | 0 <= i < |TrimStart(v)| ensures !IsLineTerminator(TrimStart(v)[i]) {
      assert TrimStart(v)[i] == v[|v| - |TrimStart(v)| + i];
    }
  }

  lemma NoTerminatorInTrim(v: string)
    requires !HasTerminator(v)
    ensures !HasTerminator(Trim(v))
  {
    TrimIsIdempotent(v);
    forall i | 0 <= i < |Trim(v)| ensures !IsLineTerminator(Trim(v)[i]) {
      assert Trim(v)[i] in v;
    }
  }

  /** A list item's line, trimmed. */
  lemma ItemLineTrimmed(v: string)
    ensures TrimEnd("  - " + v) == if Blank(v) then "  -" else "  - " + TrimEnd(v)
  {
    TrimEndOfConcat("  - ", v);
    TrimEndOfConcat("  -", " ");
    assert "  -" + " " == "  - ";
    assert " "[..0] == "";
  }

  lemma ItemStart(w: string)
    ensures TrimStart("  - " + w) == "- " + w
  {
    assert "  - " + w == " " + (" " + ("- " + w));
    TrimStartSpace(" " + ("- " + w));
    TrimStartSpace("- " + w);
  }

  lemma ItemIsRead(v: string)
    requires !HasTerminator(v) && !Blank(v)
    ensures ListItem("  - " + TrimEnd(v)) == Some(Trim(v))
  {
    var w := TrimEnd(v);
    ItemStart(w);
    assert ("- " + w)[1..] == " " + w;
    TrimStartSpace(w);
    NoTerminatorInTrim(v);
  }

  lemma NotBlankWithDash(v: string, line: string)
    requires line == if Blank(v) then "  -" else "  - " + TrimEnd(v)
    ensures Trim(line) != ""
  {
    if Blank(v) {
      assert line[|line| - 1] == '-';
    } else {
      assert line[|line| - 1] == TrimEnd(v)[|TrimEnd(v)| - 1];
    }
    TrimStartBlank(line);
  }

  /** The parser appends what an item reads back as, or refuses a blank item. */
  lemma ReadItemLine(st: State, v: string)
    requires !HasTerminator(v)
    ensures ReadLine(st, "  - " + v) ==
      if Blank(v) then Err(UnsupportedLine(Trim("  -")))
      else if st.current.None? then Err(OrphanItem(Trim("  - " + TrimEnd(v))))
      else
        var key := st.current.value;
        Ok(st.(metadata := st.metadata[key := List(Items(st.metadata, key) + [ReadBack(v)])]))
  {
    ItemLineTrimmed(v);
    NotBlankWithDash(v, TrimEnd("  - " + v));
    if Blank(v) {
      DashAlone();
    } else {
      ItemIsRead(v);
      TrimIsIdempotent(v);
    }
  }

  lemma DashAlone()
    ensures ListItem("  -").None? && FieldOf("  -").None?
  {
    ItemStart("");
    assert "  -" == " " + (" " + "-");
    TrimStartSpace(" " + "-");
    TrimStartSpace("-");
  }

  /* ---------- Fields ---------- */

  predicate FieldName(key: string) {
    key != "" && key[0] != '-' && forall i | 0 <= i < |key| :: KeyChar(key[i])
  }

  lemma {:induction false} KeyLengthOf(key: string, rest: string)
    requires forall i | 0 <= i < |key| :: KeyChar(key[i])
    ensures KeyLength(key + (":" + rest)) == |key|
  {
    if key == "" {
      assert key + (":" + rest) == ":" + rest;
    } else {
      assert key == [key[0]] + key[1..];
      Cons(key[0], key[1..], ":" + rest);
      KeyLengthOf(key[1..], rest);
    }
  }

  /** A field's line without trailing blanks. */
  lemma FieldIsRead(key: string, rest: string)
    requires FieldName(key) && !HasTerminator(TrimStart(rest))
    ensures var line := key + (":" + rest);
      && TrimStart(line) == line && ListItem(line).None?
      && FieldOf(line) == Some((key, TrimStart(rest)))
  {
    var line := key + (":" + rest);
    KeyLengthOf(key, rest);
    assert line[0] == key[0] && KeyChar(key[0]);
    assert line[|key|] == ':' && line[..|key|] == key && line[|key| + 1..] == rest;
  }

  /** What a field line means to the parser; `value` is what follows the colon, trimmed. */
  function AfterField(st: State, key: string, value: string): Result<State, FrontmatterError> {
    if !IsListField(key) then Ok(State(st.metadata[key := Scalar(StripQuotes(value))], None))
    else if value == "" then Ok(State(st.metadata[key := List([])], Some(key)))
    else if value == "[]" then Ok(State(st.metadata[key := List([])], None))
    else Err(InlineList(key))
  }

  lemma FieldLineTrimmed(key: string, rest: string)
    ensures TrimEnd(key + (":" + rest)) == key + (":" + TrimEnd(rest))
  {
    TrimEndOfConcat(key + ":", rest);
    Regroup(key, ":", rest);
    Regroup(key, ":", TrimEnd(rest));
    TrimEndOfConcat(key, ":");
    assert key + (":" + "") == key + ":";
  }

  lemma ReadFieldLine(st: State, key: string, rest: string)
    requires FieldName(key) && !HasTerminator(rest)
    ensures ReadLine(st, key + (":" + rest)) == AfterField(st, key, Trim(rest))
  {
    FieldLineTrimmed(key, rest);
    NoTerminatorInTrim(rest);
    FieldIsRead(key, TrimEnd(rest));
    TrimIsIdempotent(rest);
    var line := key + (":" + TrimEnd(rest));
    TrimIsIdempotent(key + (":" + rest));
    assert TrimStart(line) == line != "";
  }

  /* ---------- Blocks of lines ---------- */

  predicate Clean(vs: seq<string>) {
    forall i | 0 <= i < |vs| :: !HasTerminator(vs[i])
  }

  predicate NoneBlank(vs: seq<string>) {
    forall i | 0 <= i < |vs| :: !Blank(vs[i])
  }

  function ReadBacks(vs: seq<string>): (r: seq<string>)
    ensures |r| == |vs| && forall i | 0 <= i < |vs| :: r[i] == ReadBack(vs[i])
  {
    if vs == [] then [] else [ReadBack(vs[0])] + ReadBacks(vs[1..])
  }

  lemma ReadOneLine(st: State, line: string, rest: seq<string>)
    ensures var r := ReadLine(st, line);
      ReadLines(st, [line] + rest) == if r.Ok? then ReadLines(r.value, rest) else Err(r.error)
  {
    assert ([line] + rest)[1..] == rest;
  }

  /** The state after reading the items of list field `key`. */
  function WithItems(st: State, key: string, items: seq<string>): State {
    State(st.metadata[key := List(Items(st.metadata, key) + items)], Some(key))
  }

  lemma ConsLines(v: string, vs: seq<string>, rest: seq<string>)
    ensures ItemLines([v] + vs) + rest == ["  - " + v] + (ItemLines(vs) + rest)
  {
    assert ([v] + vs)[1..] == vs;
  }

  lemma {:induction false} ReadItems(st: State, key: string, vs: seq<string>, rest: seq<string>)
    requires Clean(vs) && NoneBlank(vs)
    requires st.current == Some(key) && key in st.metadata && st.metadata[key].List?
    ensures ReadLines(st, ItemLines(vs) + rest) == ReadLines(WithItems(st, key, ReadBacks(vs)), rest)
    decreases |vs|
  {
    if vs == [] {
      assert ItemLines(vs) + rest == rest;
      assert Items(st.metadata, key) + [] == Items(st.metadata, key);
      assert WithItems(st, key, []) == st;
    } else {
      var v, more := vs[0], vs[1..];
      assert vs == [v] + more;
      ConsLines(v, more, rest);
      ReadOneItem(st, key, v, ItemLines(more) + rest);
      ReadItems(WithItems(st, key, [ReadBack(v)]), key, more, rest);
      ItemsTwice(st, key, [ReadBack(v)], ReadBacks(more));
    }
  }

  lemma ReadOneItem(st: State, key: string, v: string, rest: seq<string>)
    requires !HasTerminator(v) && !Blank(v) && st.current == Some(key)
    ensures ReadLines(st, ["  - " + v] + rest) == ReadLines(WithItems(st, key, [ReadBack(v)]), rest)
  {
    ReadItemLine(st, v);
    ReadOneLine(st, "  - " + v, rest);
  }

  lemma ItemsTwice(st: State, key: string, a: seq<string>, b: seq<string>)
    ensures WithItems(WithItems(st, key, a), key, b) == WithItems(st, key, a + b)
  {
    Regroup3(Items(st.metadata, key), a, b);
  }

  lemma Regroup3(a: seq<string>, b: seq<string>, c: seq<string>)
    ensures a + (b + c) == (a + b) + c
  {
  }

  lemma {:induction false} BlankItemFails(st: State, vs: seq<string>, rest: seq<string>)
    requires Clean(vs) && !NoneBlank(vs)
    ensures ReadLines(st, ItemLines(vs) + rest).Err?
    decreases |vs|
  {
    var v, more := vs[0], vs[1..];
    assert vs == [v] + more;
    ConsLines(v, more, rest);
    ReadItemLine(st, v);
    ReadOneLine(st, "  - " + v, ItemLines(more) + rest);
    if !Blank(v) && ReadLine(st, "  - " + v).Ok? {
      BlankItemFails(ReadLine(st, "  - " + v).value, more, rest);
    }
  }

  /* ---------- The writer's fields ---------- */

  function Line(key: string, v: string): string {
    key + (":" + (" " + v))
  }

  function ListLines(name: string, values: seq<string>): seq<string> {
    if values == [] then [Line(name, "[]")] else [name + (":" + "")] + ItemLines(values)
  }

  lemma SpaceIsTrimmed(v: string)
    ensures Trim(" " + v) == Trim(v)
    ensures HasTerminator(" " + v) <==> HasTerminator(v)
  {
    TrimEndOfConcat(" ", v);
    assert " "[..0] == "";
    TrimStartSpace(TrimEnd(v));
    if HasTerminator(v) {
      var i :| 0 <= i < |v| && IsLineTerminator(v[i]);
      assert (" " + v)[i + 1] == v[i];
    }
  }

  lemma ReadScalar(st: State, key: string, v: string, rest: seq<string>)
    requires FieldName(key) && !IsListField(key) && !HasTerminator(v)
    ensures ReadLines(st, [Line(key, v)] + rest) == ReadLines(State(st.metadata[key := Scalar(ReadBack(v))], None), rest)
  {
    SpaceIsTrimmed(v);
    ReadFieldLine(st, key, " " + v);
    ReadOneLine(st, Line(key, v), rest);
  }

  function AfterList(st: State, key: string, values: seq<string>): State {
    State(st.metadata[key := List(ReadBacks(values))], if values == [] then None else Some(key))
  }

  lemma ReadEmptyList(st: State, key: string, rest: seq<string>)
    requires FieldName(key) && IsListField(key)
    ensures ReadLines(st, [Line(key, "[]")] + rest) == ReadLines(State(st.metadata[key := List([])], None), rest)
  {
    SpaceIsTrimmed("[]");
    BracketsStay();
    ReadFieldLine(st, key, " " + "[]");
    ReadOneLine(st, Line(key, "[]"), rest);
  }

  lemma ReadListHeader(st: State, key: string, rest: seq<string>)
    requires FieldName(key) && IsListField(key)
    ensures ReadLines(st, [key + (":" + "")] + rest) == ReadLines(State(st.metadata[key := List([])], Some(key)), rest)
  {
    ReadFieldLine(st, key, "");
    ReadOneLine(st, key + (":" + ""), rest);
  }

  lemma HeaderAndItems(st: State, key: string, items: seq<string>)
    ensures WithItems(State(st.metadata[key := List([])], Some(key)), key, items)
      == State(st.metadata[key := List(items)], Some(key))
  {
    assert [] + items == items;
  }

  lemma ReadList(st: State, key: string, values: seq<string>, rest: seq<string>)
    requires FieldName(key) && IsListField(key) && Clean(values) && NoneBlank(values)
    ensures ReadLines(st, ListLines(key, values) + rest) == ReadLines(AfterList(st, key, values), rest)
  {
    if values == [] {
      ReadEmptyList(st, key, rest);
    } else {
      Regroup3([key + (":" + "")], ItemLines(values), rest);
      ReadListHeader(st, key, ItemLines(values) + rest);
      ReadItems(State(st.metadata[key := List([])], Some(key)), key, values, rest);
      HeaderAndItems(st, key, ReadBacks(values));
    }
  }

  lemma BlankListFails(st: State, key: string, values: seq<string>, rest: seq<string>)
    requires FieldName(key) && IsListField(key) && Clean(values) && !NoneBlank(values)
    ensures ReadLines(st, ListLines(key, values) + rest).Err?
  {
    Regroup3([key + (":" + "")], ItemLines(values), rest);
    ReadListHeader(st, key, ItemLines(values) + rest);
    BlankItemFails(State(st.metadata[key := List([])], Some(key)), values, rest);
  }

  lemma BracketsStay()
    ensures Trim("[]") == "[]" && ReadBacks([]) == []
  {
  }

  /* ---------- The whole frontmatter, line by line ---------- */

  function ScalarLines(contextId: string, date: string, rest: seq<string>): seq<string> {
    [Line("id", contextId)] + ([Line("type", "context-pack")] + ([Line("status", "draft")] +
    ([Line("created", date)] + ([Line("updated", date)] + rest))))
  }

  function ListsOfLines(sources: seq<string>, sourceId: string): seq<string> {
    ListLines("source", sources) + (ListLines("supports", [sourceId]) +
    ([Line("contradicts", "[]")] + ([Line("supersedes", "[]")] + ([Line("reviewed_by", "[]")] + []))))
  }

  function FrontLines(contextId: string, date: string, sources: seq<string>, sourceId: string): seq<string> {
    ScalarLines(contextId, date, ListsOfLines(sources, sourceId))
  }

  function WithScalars(contextId: string, date: string): Metadata {
    map[]["id" := Scalar(contextId)]["type" := Scalar("context-pack")]["status" := Scalar("draft")]
      ["created" := Scalar(date)]["updated" := Scalar(date)]
  }

  function WithLists(m: Metadata, sources: seq<string>, sourceId: string): Metadata {
    m["source" := List(sources)]["supports" := List([sourceId])]
      ["contradicts" := List([])]["supersedes" := List([])]["reviewed_by" := List([])]
  }

  lemma ScalarNames()
    ensures FieldName("id") && FieldName("type") && FieldName("status") && FieldName("created") && FieldName("updated")
    ensures !IsListField("id") && !IsListField("type") && !IsListField("status")
    ensures !IsListField("created") && !IsListField("updated")
  {
    assert "id"[0] == 'i' && "type"[0] == 't' && "status"[1] == 't' && "created"[1] == 'r' && "updated"[1] == 'p';
    assert "source"[0] == 's' && "source"[1] == 'o' && "supports"[0] == 's' && "supports"[1] == 'u';
    assert "contradicts"[0] == 'c' && "contradicts"[1] == 'o' && "supersedes"[0] == 's' && "supersedes"[1] == 'u';
    assert "reviewed_by"[0] == 'r';
  }

  lemma ListNames()
    ensures FieldName("source") && FieldName("supports") && FieldName("contradicts")
    ensures FieldName("supersedes") && FieldName("reviewed_by")
  {
  }

  lemma ConstantsReadBack()
    ensures !HasTerminator("context-pack") && ReadBack("context-pack") == "context-pack"
    ensures !HasTerminator("draft") && ReadBack("draft") == "draft"
  {
    assert "context-pack"[0] == 'c' && "context-pack"[11] == 'k';
    assert "draft"[0] == 'd' && "draft"[4] == 't';
  }

  lemma ReadScalars(contextId: string, date: string, rest: seq<string>)
    requires !HasTerminator(contextId) && !HasTerminator(date)
    ensures ReadLines(START, ScalarLines(contextId, date, rest))
      == ReadLines(State(WithScalars(ReadBack(contextId), ReadBack(date)), None), rest)
  {
    ScalarNames();
    ConstantsReadBack();
    var l5 := [Line("updated", date)] + rest;
    var l4 := [Line("created", date)] + l5;
    var l3 := [Line("status", "draft")] + l4;
    var l2 := [Line("type", "context-pack")] + l3;
    var s1 := State(map[]["id" := Scalar(ReadBack(contextId))], None);
    var s2 := State(s1.metadata["type" := Scalar("context-pack")], None);
    var s3 := State(s2.metadata["status" := Scalar("draft")], None);
    var s4 := State(s3.metadata["created" := Scalar(ReadBack(date))], None);
    ReadScalar(START, "id", contextId, l2);
    ReadScalar(s1, "type", "context-pack", l3);
    ReadScalar(s2, "status", "draft", l4);
    ReadScalar(s3, "created", date, l5);
    ReadScalar(s4, "updated", date, rest);
  }

  lemma ReadLists(st: State, sources: seq<string>, sourceId: string)
    requires Clean(sources) && NoneBlank(sources) && Clean([sourceId]) && NoneBlank([sourceId])
    ensures ReadLines(st, ListsOfLines(sources, sourceId))
      == Ok(State(WithLists(st.metadata, ReadBacks(sources), ReadBack(sourceId)), None))
  {
    ListNames();
    var l5 := [Line("reviewed_by", "[]")] + [];
    var l4 := [Line("supersedes", "[]")] + l5;
    var l3 := [Line("contradicts", "[]")] + l4;
    var s1 := AfterList(st, "source", sources);
    var s2 := AfterList(s1, "supports", [sourceId]);
    var s3 := State(s2.metadata["contradicts" := List([])], None);
    var s4 := State(s3.metadata["supersedes" := List([])], None);
    ReadList(st, "source", sources, ListLines("supports", [sourceId]) + l3);
    ReadList(s1, "supports", [sourceId], l3);
    ReadEmptyList(s2, "contradicts", l4);
    ReadEmptyList(s3, "supersedes", l5);
    ReadEmptyList(s4, "reviewed_by", []);
    assert ReadBacks([sourceId]) == [ReadBack(sourceId)];
  }

  lemma BlankListsFail(st: State, sources: seq<string>, sourceId: string)
    requires Clean(sources) && Clean([sourceId]) && !(NoneBlank(sources) && NoneBlank([sourceId]))
    ensures ReadLines(st, ListsOfLines(sources, sourceId)).Err?
  {
    ListNames();
    var l3 := [Line("contradicts", "[]")] + ([Line("supersedes", "[]")] + ([Line("reviewed_by", "[]")] + []));
    if NoneBlank(sources) {
      ReadList(st, "source", sources, ListLines("supports", [sourceId]) + l3);
      BlankListFails(AfterList(st, "source", sources), "supports", [sourceId], l3);
    } else {
      BlankListFails(st, "source", sources, ListLines("supports", [sourceId]) + l3);
    }
  }

  /* ---------- Delimiters ---------- */

  lemma {:induction false} FindCloseSkips(line: string, rest: string)
    requires OneLine(line)
    ensures var r := FindClose(rest);
      FindClose(line + rest) == if r.Some? then Some(|line| + r.value) else None
    decreases |line|
  {
    if line == "" {
      assert line + rest == rest;
    } else {
      var c, more := line[0], line[1..];
      assert line == [c] + more;
      assert c in line && forall d | d in more :: d in line;
      Cons(c, more, rest);
      FindCloseSkips(more, rest);
    }
  }

  /** A line the closing delimiter cannot be mistaken for. */
  predicate FrontLine(line: string) {
    OneLine(line) && line != "" && line[0] != '-'
  }

  predicate FrontLinesOnly(lines: seq<string>) {
    forall i | 0 <= i < |lines| :: FrontLine(lines[i])
  }

  lemma FrontLineIsNoClose(line: string, rest: string)
    requires FrontLine(line)
    ensures var r := FindClose(rest);
      FindClose("\n" + (line + rest)) == if r.Some? then Some(1 + (|line| + r.value)) else None
  {
    var text := line + rest;
    assert text[0] == line[0];
    assert ("\n" + text)[1..] == text;
    if |text| >= 3 {
      assert ("\n" + text)[..4][1] == text[0];
      assert "\n---"[1] == '-';
    }
    FindCloseSkips(line, rest);
  }

  lemma {:induction false} FirstCloseIsTheLast(lines: seq<string>, after: string)
    requires FrontLinesOnly(lines)
    ensures FindClose(Tail(lines, "\n---" + after)) == Some(|Tail(lines, "")|)
    decreases |lines|
  {
    if lines == [] {
      assert ("\n---" + after)[..4] == "\n---";
    } else {
      assert FrontLine(lines[0]);
      FrontLineIsNoClose(lines[0], Tail(lines[1..], "\n---" + after));
      FirstCloseIsTheLast(lines[1..], after);
    }
  }

  lemma ParseSteps(content: string, block: string)
    requires "---\n" <= Normalize(content) && FindClose(Normalize(content)[4..]) == Some(|block|)
    requires Normalize(content)[4..4 + |block|] == block
    ensures var r := ReadLines(START, Split(block));
      Parse(content) == if r.Ok? then Ok(r.value.metadata) else Err(r.error)
  {
  }

  lemma CloseOfDocument(lines: seq<string>, after: string)
    requires lines != [] && FrontLinesOnly(lines)
    ensures FindClose(lines[0] + Tail(lines[1..], "\n---" + after)) == Some(|JoinLines(lines)|)
  {
    assert FrontLine(lines[0]);
    FindCloseSkips(lines[0], Tail(lines[1..], "\n---" + after));
    FirstCloseIsTheLast(lines[1..], after);
  }

  /** A document with these front lines: the parser reads them, all of them and nothing else. */
  lemma ParseFrontLines(lines: seq<string>, after: string)
    requires lines != [] && FrontLinesOnly(lines)
    requires forall i | 0 <= i < |lines| :: '\r' !in lines[i]
    ensures var r := ReadLines(START, lines);
      Parse("---" + Tail(lines, "\n---" + after)) == if r.Ok? then Ok(r.value.metadata) else Err(r.error)
  {
    NormalizeDocument(lines, after);
    DocumentParts(lines, "\n---" + Normalize(after), Normalize("---" + Tail(lines, "\n---" + after)));
    CloseOfDocument(lines, Normalize(after));
    SplitOfJoin(lines);
    ParseSteps("---" + Tail(lines, "\n---" + after), JoinLines(lines));
  }

  lemma DocumentParts(lines: seq<string>, end: string, document: string)
    requires lines != [] && document == "---" + Tail(lines, end)
    ensures "---\n" <= document
    ensures document[4..] == lines[0] + Tail(lines[1..], end)
    ensures 4 + |JoinLines(lines)| <= |document| && document[4..4 + |JoinLines(lines)|] == JoinLines(lines)
  {
    var text := lines[0] + Tail(lines[1..], end);
    assert Tail(lines, end) == "\n" + text;
    assert document == "---\n" + text;
    assert lines == [lines[0]] + lines[1..];
    JoinThenText(lines[0], lines[1..], end);
    assert text == JoinLines(lines) + end;
  }

  lemma NormalizeDocument(lines: seq<string>, after: string)
    requires forall i | 0 <= i < |lines| :: '\r' !in lines[i]
    ensures Normalize("---" + Tail(lines, "\n---" + after)) == "---" + Tail(lines, "\n---" + Normalize(after))
  {
    NormalizePrefix("---", Tail(lines, "\n---" + after));
    NormalizeTail(lines, "\n---" + after);
    NormalizePrefix("\n---", after);
  }

  /* ---------- What the writer writes, line by line ---------- */

  lemma TailCons(line: string, lines: seq<string>, end: string)
    ensures Tail([line] + lines, end) == "\n" + (line + Tail(lines, end))
  {
    assert ([line] + lines)[1..] == lines;
  }

  lemma FormatListLines(name: string, values: seq<string>, lines: seq<string>, end: string)
    ensures Tail([FormatList(name, values)] + lines, end) == Tail(ListLines(name, values) + lines, end)
  {
    TailCons(FormatList(name, values), lines, end);
    if values == [] {
      assert name + ": []" == Line(name, "[]");
    } else {
      var items := ItemLines(values);
      assert items == [items[0]] + items[1..];
      JoinThenText(items[0], items[1..], Tail(lines, end));
      var rest := JoinLines(items) + Tail(lines, end);
      assert FormatList(name, values) + Tail(lines, end) == (name + (":" + "")) + ("\n" + rest);
      Regroup3([name + (":" + "")], items, lines);
      TailCons(name + (":" + ""), items + lines, end);
      TailOfConcat(items, lines, end);
      TailCons(items[0], items[1..], Tail(lines, end));
    }
  }

  lemma SameAfterScalars(contextId: string, date: string, xs: seq<string>, ys: seq<string>, e: string, f: string)
    requires Tail(xs, e) == Tail(ys, f)
    ensures Tail(ScalarLines(contextId, date, xs), e) == Tail(ScalarLines(contextId, date, ys), f)
  {
    SameAfterLine(Line("updated", date), xs, ys, e, f);
    var x4, y4 := [Line("updated", date)] + xs, [Line("updated", date)] + ys;
    SameAfterLine(Line("created", date), x4, y4, e, f);
    var x3, y3 := [Line("created", date)] + x4, [Line("created", date)] + y4;
    SameAfterLine(Line("status", "draft"), x3, y3, e, f);
    var x2, y2 := [Line("status", "draft")] + x3, [Line("status", "draft")] + y3;
    SameAfterLine(Line("type", "context-pack"), x2, y2, e, f);
    SameAfterLine(Line("id", contextId), [Line("type", "context-pack")] + x2, [Line("type", "context-pack")] + y2, e, f);
  }

  lemma SameAfterLine(line: string, xs: seq<string>, ys: seq<string>, e: string, f: string)
    requires Tail(xs, e) == Tail(ys, f)
    ensures Tail([line] + xs, e) == Tail([line] + ys, f)
  {
    TailCons(line, xs, e);
    TailCons(line, ys, f);
  }

  lemma OpeningIsScalars(contextId: string, date: string, rest: seq<string>)
    ensures OpeningLines(contextId, date) + rest == ["---"] + ScalarLines(contextId, date, rest)
  {
    LiteralLines(contextId, date);
    var i, t, s, c, u := "id: " + contextId, "type: context-pack", "status: draft", "created: " + date, "updated: " + date;
    SixLines("---", i, t, s, c, u, rest);
  }

  lemma SixLines(a: string, b: string, c: string, d: string, e: string, f: string, rest: seq<string>)
    ensures [a, b, c, d, e, f] + rest == [a] + ([b] + ([c] + ([d] + ([e] + ([f] + rest)))))
  {
  }

  lemma FiveLines(a: string, b: string, c: string, d: string, e: string)
    ensures [a, b, c, d, e] == [a, b] + ([c] + ([d] + ([e] + [])))
  {
  }

  lemma RelationsAreLists(sourceId: string)
    ensures RelationLines(sourceId) == RelationFields(sourceId)
  {
    LiteralRelations();
    assert ItemLines([sourceId]) == ["  - " + sourceId];
    FiveLines("supports:", "  - " + sourceId, "contradicts: []", "supersedes: []", "reviewed_by: []");
    assert ListLines("supports", [sourceId]) == ["supports:", "  - " + sourceId];
  }

  /** The relation lines, field by field. */
  function RelationFields(sourceId: string): seq<string> {
    ListLines("supports", [sourceId]) +
    ([Line("contradicts", "[]")] + ([Line("supersedes", "[]")] + ([Line("reviewed_by", "[]")] + [])))
  }

  lemma LiteralRelations()
    ensures "supports" + (":" + "") == "supports:"
    ensures Line("contradicts", "[]") == "contradicts: []" && Line("supersedes", "[]") == "supersedes: []"
    ensures Line("reviewed_by", "[]") == "reviewed_by: []"
  {
  }

  lemma LiteralLines(contextId: string, date: string)
    ensures Line("id", contextId) == "id: " + contextId
    ensures Line("type", "context-pack") == "type: context-pack" && Line("status", "draft") == "status: draft"
    ensures Line("created", date) == "created: " + date && Line("updated", date) == "updated: " + date
  {
  }

  lemma PackText(contextId: string, date: string, sources: seq<string>, sourceId: string, body: seq<string>)
    ensures BuildContextPack(contextId, date, sources, sourceId, body) ==
      "---" + Tail(FrontLines(contextId, date, sources, sourceId), "\n---" + Tail(body, ""))
  {
    var relations, close := RelationFields(sourceId), ["---"] + body;
    var lists := [FormatList("source", sources)] + (relations + close);
    RelationsAreLists(sourceId);
    OpeningIsScalars(contextId, date, lists);
    FormatListLines("source", sources, relations + close, "");
    Regroup3(ListLines("source", sources), relations, close);
    TailOfConcat(ListsOfLines(sources, sourceId), close, "");
    CloseText(body);
    SameAfterScalars(contextId, date, lists, ListsOfLines(sources, sourceId), "", "\n---" + Tail(body, ""));
    FirstThenTail("---", ScalarLines(contextId, date, lists));
  }

  lemma CloseText(body: seq<string>)
    ensures Tail(["---"] + body, "") == "\n---" + Tail(body, "")
  {
    TailCons("---", body, "");
    Regroup("\n", "---", Tail(body, ""));
    assert "\n" + "---" == "\n---";
  }

  lemma FirstThenTail(first: string, lines: seq<string>)
    ensures JoinLines([first] + lines) == first + Tail(lines, "")
  {
    assert ([first] + lines)[1..] == lines;
  }

  /* ---------- Lines of clean values ---------- */

  predicate Harmless(line: string) {
    FrontLine(line) && '\r' !in line
  }

  predicate AllHarmless(lines: seq<string>) {
    forall i | 0 <= i < |lines| :: Harmless(lines[i])
  }

  lemma CleanHasNoBreaks(v: string)
    requires !HasTerminator(v)
    ensures '\n' !in v && '\r' !in v
  {
    forall c | c in v ensures !IsLineTerminator(c) {
      var i :| 0 <= i < |v| && v[i] == c;
    }
  }

  lemma FieldIsHarmless(key: string, v: string)
    requires FieldName(key) && !HasTerminator(v)
    ensures Harmless(Line(key, v)) && Harmless(key + (":" + ""))
  {
    CleanHasNoBreaks(v);
    assert forall i | 0 <= i < |key| :: KeyChar(key[i]);
    assert Line(key, v)[0] == key[0] && (key + (":" + ""))[0] == key[0];
  }

  lemma {:induction false} ItemsAreHarmless(vs: seq<string>)
    requires Clean(vs)
    ensures AllHarmless(ItemLines(vs))
  {
    if vs != [] {
      CleanHasNoBreaks(vs[0]);
      assert ("  - " + vs[0])[0] == ' ';
      ItemsAreHarmless(vs[1..]);
    }
  }

  lemma ListIsHarmless(key: string, values: seq<string>)
    requires FieldName(key) && Clean(values)
    ensures AllHarmless(ListLines(key, values))
  {
    assert !HasTerminator("[]");
    FieldIsHarmless(key, "[]");
    ItemsAreHarmless(values);
  }

  lemma HarmlessConcat(a: seq<string>, b: seq<string>)
    requires AllHarmless(a) && AllHarmless(b)
    ensures AllHarmless(a + b)
  {
  }

  lemma ListsAreHarmless(sources: seq<string>, sourceId: string)
    requires Clean(sources) && Clean([sourceId])
    ensures AllHarmless(ListsOfLines(sources, sourceId))
  {
    ListNames();
    ListIsHarmless("source", sources);
    ListIsHarmless("supports", [sourceId]);
    ListIsHarmless("contradicts", []);
    ListIsHarmless("supersedes", []);
    ListIsHarmless("reviewed_by", []);
    var rest := [Line("contradicts", "[]")] + ([Line("supersedes", "[]")] + ([Line("reviewed_by", "[]")] + []));
    assert AllHarmless(rest) by {
      assert Harmless(Line("contradicts", "[]")) && Harmless(Line("supersedes", "[]")) && Harmless(Line("reviewed_by", "[]")) by {
        assert ListLines("contradicts", [])[0] == Line("contradicts", "[]");
        assert ListLines("supersedes", [])[0] == Line("supersedes", "[]");
        assert ListLines("reviewed_by", [])[0] == Line("reviewed_by", "[]");
      }
    }
    HarmlessConcat(ListLines("supports", [sourceId]), rest);
    HarmlessConcat(ListLines("source", sources), ListLines("supports", [sourceId]) + rest);
  }

  lemma ScalarsAreHarmless(contextId: string, date: string, rest: seq<string>)
    requires !HasTerminator(contextId) && !HasTerminator(date) && AllHarmless(rest)
    ensures AllHarmless(ScalarLines(contextId, date, rest))
  {
    ScalarNames();
    ConstantsReadBack();
    FieldIsHarmless("id", contextId);
    FieldIsHarmless("type", "context-pack");
    FieldIsHarmless("status", "draft");
    FieldIsHarmless("created", date);
    FieldIsHarmless("updated", date);
    HarmlessConcat([Line("updated", date)], rest);
    var l5 := [Line("updated", date)] + rest;
    HarmlessConcat([Line("created", date)], l5);
    var l4 := [Line("created", date)] + l5;
    HarmlessConcat([Line("status", "draft")], l4);
    var l3 := [Line("status", "draft")] + l4;
    HarmlessConcat([Line("type", "context-pack")], l3);
    HarmlessConcat([Line("id", contextId)], [Line("type", "context-pack")] + l3);
  }

  /** For values of one line each, what the parser reads is each value as it reads back, or an error. */
  lemma ParseOfClean(contextId: string, date: string, sources: seq<string>, sourceId: string, body: seq<string>)
    requires !HasTerminator(contextId) && !HasTerminator(date) && Clean(sources) && Clean([sourceId])
    ensures var r := Parse(BuildContextPack(contextId, date, sources, sourceId, body));
      if NoneBlank(sources) && NoneBlank([sourceId])
      then r == Ok(WithLists(WithScalars(ReadBack(contextId), ReadBack(date)), ReadBacks(sources), ReadBack(sourceId)))
      else r.Err?
  {
    var lines := FrontLines(contextId, date, sources, sourceId);
    PackText(contextId, date, sources, sourceId, body);
    ListsAreHarmless(sources, sourceId);
    ScalarsAreHarmless(contextId, date, ListsOfLines(sources, sourceId));
    assert forall i | 0 <= i < |lines| :: Harmless(lines[i]);
    ParseFrontLines(lines, Tail(body, ""));
    ReadScalars(contextId, date, ListsOfLines(sources, sourceId));
    var st := State(WithScalars(ReadBack(contextId), ReadBack(date)), None);
    if NoneBlank(sources) && NoneBlank([sourceId]) {
      ReadLists(st, sources, sourceId);
    } else {
      BlankListsFail(st, sources, sourceId);
    }
  }

  /* ---------- What the parser can return at all ---------- */

  predicate CleanValue(v: Value) {
    match v
    case Scalar(text) => !HasTerminator(text)
    case List(items) => Clean(items)
  }

  predicate CleanMetadata(m: Metadata) {
    forall key | key in m :: CleanValue(m[key])
  }

  lemma StripKeepsClean(v: string)
    requires !HasTerminator(v)
    ensures !HasTerminator(StripQuotes(v))
  {
    forall i | 0 <= i < |StripQuotes(v)| ensures !IsLineTerminator(StripQuotes(v)[i]) {
      assert StripQuotes(v)[i] == v[if Quoted(v) then i + 1 else i];
    }
  }

  lemma CleanUpdate(m: Metadata, key: string, item: string)
    requires CleanMetadata(m) && !HasTerminator(item)
    ensures CleanMetadata(m[key := List(Items(m, key) + [StripQuotes(Trim(item))])])
    ensures CleanMetadata(m[key := Scalar(StripQuotes(Trim(item)))])
    ensures CleanMetadata(m[key := List([])])
  {
    NoTerminatorInTrim(item);
    StripKeepsClean(Trim(item));
    assert key in m ==> CleanValue(m[key]);
    assert Clean(Items(m, key) + [StripQuotes(Trim(item))]);
  }

  lemma ReadLineKeepsClean(st: State, rawLine: string)
    requires CleanMetadata(st.metadata) && ReadLine(st, rawLine).Ok?
    ensures CleanMetadata(ReadLine(st, rawLine).value.metadata)
  {
    var line := TrimEnd(rawLine);
    var item, field := ListItem(line), FieldOf(line);
    if item.Some? && st.current.Some? {
      CleanUpdate(st.metadata, st.current.value, item.value);
    } else if field.Some? {
      CleanUpdate(st.metadata, field.value.0, field.value.1);
    }
  }

  lemma {:induction false} ReadLinesKeepsClean(st: State, lines: seq<string>)
    requires CleanMetadata(st.metadata) && ReadLines(st, lines).Ok?
    ensures CleanMetadata(ReadLines(st, lines).value.metadata)
    decreases |lines|
  {
    if lines != [] {
      ReadLineKeepsClean(st, lines[0]);
      ReadLinesKeepsClean(ReadLine(st, lines[0]).value, lines[1..]);
    }
  }

  /** Whatever the text, no value that the parser returns contains a line terminator. */
  lemma ParsedValuesAreClean(content: string)
    requires Parse(content).Ok?
    ensures CleanMetadata(Parse(content).value)
  {
    var normalized := Normalize(content);
    ReadLinesKeepsClean(START, Split(normalized[4..4 + FindClose(normalized[4..]).value]));
  }

  /* ---------- The round trip ---------- */

  lemma PackFields(contextId: string, date: string, sources: seq<string>, sourceId: string)
    ensures var m := PackMetadata(contextId, date, sources, sourceId);
      && m == WithLists(WithScalars(contextId, date), sources, sourceId)
      && "id" in m && m["id"] == Scalar(contextId) && "created" in m && m["created"] == Scalar(date)
      && "source" in m && m["source"] == List(sources) && "supports" in m && m["supports"] == List([sourceId])
  {
    DistinctNames();
  }

  lemma DistinctNames()
    ensures "id" !in ["type", "status", "created", "updated", "source", "supports", "contradicts", "supersedes", "reviewed_by"]
    ensures "created" !in ["updated", "source", "supports", "contradicts", "supersedes", "reviewed_by"]
    ensures "source" !in ["supports", "contradicts", "supersedes", "reviewed_by"]
    ensures "supports" !in ["contradicts", "supersedes", "reviewed_by"]
  {
    assert "supports"[5] == 'r' && "supersedes"[5] == 's';
    assert "source"[1] == 'o' && "supports"[1] == 'u';
  }

  /** The values that survive as list items. */
  predicate Survives(v: string) {
    Plain(v) && v != ""
  }

  predicate AllSurvive(contextId: string, date: string, sources: seq<string>, sourceId: string) {
    Plain(contextId) && Plain(date) && Survives(sourceId) && forall i | 0 <= i < |sources| :: Survives(sources[i])
  }

  lemma SurvivorIsNotBlank(v: string)
    requires Survives(v)
    ensures !HasTerminator(v) && !Blank(v) && ReadBack(v) == v
  {
    BlankIsTrimmedAway(v);
  }

  lemma SurvivorsComeBack(contextId: string, date: string, sources: seq<string>, sourceId: string, body: seq<string>)
    requires AllSurvive(contextId, date, sources, sourceId)
    ensures Parse(BuildContextPack(contextId, date, sources, sourceId, body))
      == Ok(WithLists(WithScalars(contextId, date), sources, sourceId))
  {
    SurvivorIsNotBlank(sourceId);
    forall i | 0 <= i < |sources| ensures !HasTerminator(sources[i]) && !Blank(sources[i]) && ReadBack(sources[i]) == sources[i] {
      SurvivorIsNotBlank(sources[i]);
    }
    ParseOfClean(contextId, date, sources, sourceId, body);
    assert ReadBacks(sources) == sources;
  }

  lemma SameReadingMeansPlain(v: string)
    requires !HasTerminator(v) && ReadBack(v) == v
    ensures Plain(v) && (!Blank(v) ==> Survives(v))
  {
    ReadBackIsExact(v);
  }

  lemma OnlySurvivorsComeBack(contextId: string, date: string, sources: seq<string>, sourceId: string, body: seq<string>)
    requires Parse(BuildContextPack(contextId, date, sources, sourceId, body))
      == Ok(PackMetadata(contextId, date, sources, sourceId))
    ensures AllSurvive(contextId, date, sources, sourceId)
  {
    ParsedValuesAreClean(BuildContextPack(contextId, date, sources, sourceId, body));
    PackFields(contextId, date, sources, sourceId);
    assert CleanValue(Scalar(contextId)) && CleanValue(Scalar(date)) && CleanValue(List(sources));
    assert CleanValue(List([sourceId])) && [sourceId][0] == sourceId;
    ParseOfClean(contextId, date, sources, sourceId, body);
    PackFields(ReadBack(contextId), ReadBack(date), ReadBacks(sources), ReadBack(sourceId));
    SameReadingMeansPlain(contextId);
    SameReadingMeansPlain(date);
    assert [ReadBack(sourceId)] == [sourceId];
    SameReadingMeansPlain(sourceId);
    forall i | 0 <= i < |sources| ensures Survives(sources[i]) {
      assert ReadBacks(sources)[i] == sources[i];
      SameReadingMeansPlain(sources[i]);
    }
  }

  /**
   The parser reads back exactly what was put in (id, dates and all five lists, in order, and nothing
   else) if and only if every value is plain: one line, no outer blanks, no wrapping quotes, and not
   empty where it is a list item. What follows the frontmatter makes no difference.
   */
  lemma RoundTrip(contextId: string, date: string, sources: seq<string>, sourceId: string, body: seq<string>)
    ensures (Parse(BuildContextPack(contextId, date, sources, sourceId, body))
             == Ok(PackMetadata(contextId, date, sources, sourceId)))
      <==> AllSurvive(contextId, date, sources, sourceId)
  {
    PackFields(contextId, date, sources, sourceId);
    if AllSurvive(contextId, date, sources, sourceId) {
      SurvivorsComeBack(contextId, date, sources, sourceId, body);
    }
    if Parse(BuildContextPack(contextId, date, sources, sourceId, body))
       == Ok(PackMetadata(contextId, date, sources, sourceId)) {
      OnlySurvivorsComeBack(contextId, date, sources, sourceId, body);
    }
  }

  /** One family it fails for: a path wrapped in quotes is read back without them. */
  lemma QuotesAreLost(contextId: string, date: string, path: string, sourceId: string, body: seq<string>)
    requires Plain(contextId) && Plain(date) && Survives(sourceId) && !HasTerminator(path)
    ensures Parse(BuildContextPack(contextId, date, ["'" + path + "'"], sourceId, body))
      == Ok(PackMetadata(contextId, date, [path], sourceId))
  {
    var v := "'" + path + "'";
    QuotedReadsBack(path);
    SurvivorIsNotBlank(sourceId);
    ParseOfClean(contextId, date, [v], sourceId, body);
    PackFields(contextId, date, [path], sourceId);
    assert ReadBacks([v]) == [path];
  }

  lemma QuotedReadsBack(path: string)
    requires !HasTerminator(path)
    ensures var v := "'" + path + "'"; !HasTerminator(v) && !Blank(v) && ReadBack(v) == path
  {
    var v := "'" + path + "'";
    assert v[0] == '\'' && v[|v| - 1] == '\'';
    assert Trim(v) == v && v[1..|v| - 1] == path;
    forall i | 0 <= i < |v| ensures !IsLineTerminator(v[i]) {
      assert v[i] == '\'' || v[i] == path[i - 1];
    }
  }
}

/** Parsing of .env lines and of vault references (apps/cli/src/secret-refs.ts). */
module Dotenv {
  import opened Wrappers

  // ── Character classes of the regular expressions ───────────────────────────

  predicate IsSpace(c: char) {
    || '\t' <= c <= '\r' || c == ' ' || c == '\U{a0}' || c == '\U{1680}' || '\U{2000}' <= c <= '\U{200a}'
    || c == '\U{2028}' || c == '\U{2029}' || c == '\U{202f}' || c == '\U{205f}' || c == '\U{3000}' || c == '\U{feff}'
  }

  /** The characters `.` does not match. */
  predicate IsLineEnd(c: char) {
    c == '\n' || c == '\r' || c == '\U{2028}' || c == '\U{2029}'
  }

  predicate IsKeyStart(c: char) {
    'A' <= c <= 'Z' || 'a' <= c <= 'z' || c == '_'
  }

  predicate IsKeyChar(c: char) {
    IsKeyStart(c) || '0' <= c <= '9' || c == '.' || c == '-'
  }

  predicate NoLineEnd(s: string) {
    forall i :: 0 <= i < |s| ==> !IsLineEnd(s[i])
  }

  function DropSpaces(s: string): (r: string)
    ensures r == "" || !IsSpace(r[0])
  {
    if s != "" && IsSpace(s[0]) then DropSpaces(s[1..]) else s
  }

  function TrimEnd(s: string): (r: string)
    ensures r <= s
    ensures r == "" || !IsSpace(r[|r| - 1])
  {
    if s != "" && IsSpace(s[|s| - 1]) then TrimEnd(s[..|s| - 1]) else s
  }

  function TakeKey(s: string): (r: string)
    ensures r <= s
    ensures forall i :: 0 <= i < |r| ==> IsKeyChar(r[i])
    ensures |r| < |s| ==> !IsKeyChar(s[|r|])
  {
    if s != "" && IsKeyChar(s[0]) then [s[0]] + TakeKey(s[1..]) else ""
  }

  // ── One line ───────────────────────────────────────────────────────────────

  predicate IsKey(s: string) {
    s != "" && IsKeyStart(s[0]) && forall i :: 0 <= i < |s| ==> IsKeyChar(s[i])
  }

  datatype Assignment = Assignment(exported: bool, key: string, rest: string)

  /** `KEY\s*=\s*(.*)$` at the front of `s`. */
  function MatchKey(s: string, exported: bool): (r: Option<Assignment>)
    ensures r.Some? ==> r.value.exported == exported && IsKey(r.value.key) && NoLineEnd(r.value.rest)
  {
    if s == "" || !IsKeyStart(s[0]) then None
    else
      var key := TakeKey(s);
      var after := DropSpaces(s[|key|..]);
      if after == "" || after[0] != '=' then None
      else
        var rest := DropSpaces(after[1..]);
        if NoLineEnd(rest) then Some(Assignment(exported, key, rest)) else None
  }

  predicate StartsWithExport(s: string) {
    |s| > 6 && s[..6] == "export" && IsSpace(s[6])
  }

  /** The whole line expression; the export prefix is tried first and given up if the rest does not match. */
  function MatchLine(line: string): (r: Option<Assignment>) {
    var s := DropSpaces(line);
    if StartsWithExport(s) && MatchKey(DropSpaces(s[6..]), true).Some? then MatchKey(DropSpaces(s[6..]), true)
    else MatchKey(s, false)
  }

  /** Index of the quote that closes a double-quoted value, honouring escapes. */
  function CloseDouble(raw: string, i: nat): (r: Option<nat>)
    requires i <= |raw|
    decreases |raw| - i
    ensures r.Some? ==> i <= r.value < |raw|
  {
    if i == |raw| then None
    else if raw[i] == '"' then Some(i)
    else if raw[i] == '\\' then if i + 1 < |raw| then CloseDouble(raw, i + 2) else None
    else CloseDouble(raw, i + 1)
  }

  function CloseSingle(raw: string, i: nat): (r: Option<nat>)
    requires i <= |raw|
    decreases |raw| - i
    ensures r.Some? ==> i <= r.value < |raw| && raw[r.value] == '\'' && (forall k :: i <= k < r.value ==> raw[k] != '\'')
    ensures r.None? ==> forall k :: i <= k < |raw| ==> raw[k] != '\''
  {
    if i == |raw| then None else if raw[i] == '\'' then Some(i) else CloseSingle(raw, i + 1)
  }

  function Unescape(s: string): string {
    if s == "" then ""
    else if s[0] == '\\' && |s| >= 2 then [if s[1] == 'n' then '\n' else s[1]] + Unescape(s[2..])
    else [s[0]] + Unescape(s[1..])
  }

  /** Where an inline comment starts: the first run of spaces that a '#' follows. */
  function CommentStart(raw: string, i: nat): (r: nat)
    requires i <= |raw|
    decreases |raw| - i
    ensures i <= r <= |raw|
  {
    if i == |raw| then |raw|
    else if IsSpace(raw[i]) && DropSpaces(raw[i..]) != "" && DropSpaces(raw[i..])[0] == '#' then i
    else CommentStart(raw, i + 1)
  }

  datatype ParsedLine = ParsedLine(exported: bool, key: string, value: string, trailing: string, unterminated: bool)

  function ParseValue(a: Assignment): (p: ParsedLine)
    ensures p.exported == a.exported && p.key == a.key
  {
    var raw := TrimEnd(a.rest);
    if raw != "" && raw[0] == '"' then
      match CloseDouble(raw, 1)
      case None => ParsedLine(a.exported, a.key, raw, "", true)
      case Some(end) => ParsedLine(a.exported, a.key, Unescape(raw[1..end]), raw[end + 1..], false)
    else if raw != "" && raw[0] == '\'' then
      match CloseSingle(raw, 1)
      case None => ParsedLine(a.exported, a.key, raw, "", true)
      case Some(end) => ParsedLine(a.exported, a.key, raw[1..end], raw[end + 1..], false)
    else
      var c := CommentStart(raw, 0);
      ParsedLine(a.exported, a.key, raw[..c], raw[c..], false)
  }

  function ParseLine(line: string): (r: Option<ParsedLine>) {
    match MatchLine(line)
    case None => None
    case Some(a) => Some(ParseValue(a))
  }

  /** Text that can stand at the end of a trimmed line. */
  predicate IsTrailing(s: string) {
    NoLineEnd(s) && (s == "" || !IsSpace(s[|s| - 1]))
  }

  lemma SuffixIsTrailing(raw: string, i: nat)
    requires i <= |raw| && IsTrailing(raw)
    ensures IsTrailing(raw[i..])
  {
  }

  /** What a parsed line guarantees about its parts. */
  lemma ParsedParts(line: string)
    requires ParseLine(line).Some?
    ensures var p := ParseLine(line).value; IsKey(p.key) && IsTrailing(p.trailing)
  {
    hide IsSpace, IsLineEnd, IsKeyStart, IsKeyChar, Unescape, CommentStart, MatchKey;
    var a := MatchLine(line).value;
    var raw := TrimEnd(a.rest);
    assert IsTrailing(raw);
    if raw != "" && raw[0] == '"' && CloseDouble(raw, 1).Some? {
      SuffixIsTrailing(raw, CloseDouble(raw, 1).value + 1);
    } else if raw != "" && raw[0] == '\'' && CloseSingle(raw, 1).Some? {
      SuffixIsTrailing(raw, CloseSingle(raw, 1).value + 1);
    } else {
      SuffixIsTrailing(raw, CommentStart(raw, 0));
    }
  }

  // ── The rewritten line ─────────────────────────────────────────────────────

  /** A line that assigns a single-quoted literal. */
  function QuotedLine(exported: bool, key: string, literal: string, trailing: string): string {
    (if exported then "export " else "") + (key + ("=" + Quoted(literal, trailing)))
  }

  function Quoted(literal: string, trailing: string): string {
    "'" + literal + "'" + trailing
  }

  lemma CharFacts()
    ensures !IsKeyChar('=') && !IsSpace('=') && !IsSpace('\'') && !IsLineEnd('\'')
    ensures IsSpace(' ') && !IsKeyChar(' ')
    ensures forall c :: IsKeyStart(c) ==> IsKeyChar(c)
    ensures forall c :: IsKeyChar(c) ==> !IsSpace(c)
    ensures forall c :: IsLineEnd(c) ==> IsSpace(c)
    ensures IsKey("export")
  {
  }

  lemma {:induction false} TakesWholeKey(key: string, tail: string)
    requires forall i :: 0 <= i < |key| ==> IsKeyChar(key[i])
    requires tail == "" || !IsKeyChar(tail[0])
    ensures TakeKey(key + tail) == key
  {
    hide IsKeyChar;
    if key == "" {
      assert key + tail == tail;
    } else {
      assert (key + tail)[1..] == key[1..] + tail;
      TakesWholeKey(key[1..], tail);
      assert key == [key[0]] + key[1..];
    }
  }

  lemma KeyMatches(key: string, rest: string, exported: bool)
    requires IsKey(key) && rest != "" && !IsSpace(rest[0])
    ensures MatchKey(key + ("=" + rest), exported) == if NoLineEnd(rest) then Some(Assignment(exported, key, rest)) else None
  {
    CharFacts();
    hide IsSpace, IsLineEnd, IsKeyStart, IsKeyChar;
    var tail := "=" + rest;
    TakesWholeKey(key, tail);
    var body := key + tail;
    assert body[0] == key[0];
    assert body[|key|..] == tail && tail[1..] == rest;
    assert DropSpaces(tail) == tail && DropSpaces(rest) == rest;
  }

  /** A line without the prefix is not read as one with it. */
  lemma KeyIsNoExport(key: string, rest: string)
    requires IsKey(key)
    ensures !StartsWithExport(key + ("=" + rest))
  {
    CharFacts();
    hide IsSpace, IsLineEnd, IsKeyStart, IsKeyChar;
    var body := key + ("=" + rest);
    if |body| > 6 {
      assert |key| < 6 ==> body[..6][|key|] == '=' && IsKeyChar("export"[|key|]);
      assert |key| >= 6 ==> body[6] == if |key| == 6 then '=' else key[6];
    }
  }

  lemma ExportedMatches(body: string)
    requires body != "" && IsKeyStart(body[0])
    requires MatchKey(body, true).Some? <==> MatchKey(body, false).Some?
    ensures MatchLine("export " + body) == MatchKey(body, true)
  {
    CharFacts();
    var line, spaced := "export " + body, " " + body;
    assert line == "export" + spaced;
    TakesWholeKey("export", spaced);
    hide IsSpace, IsLineEnd, IsKeyStart, IsKeyChar;
    assert line[..6] == "export" && line[6..] == spaced && spaced[1..] == body;
    assert line[0] == "export"[0];
    assert DropSpaces(body) == body && DropSpaces(spaced) == body && DropSpaces(line) == line;
    assert body[0] != '=';
    assert MatchKey(line, false).None?;
  }

  lemma MatchesQuoted(exported: bool, key: string, literal: string, trailing: string)
    requires IsKey(key)
    ensures var rest := Quoted(literal, trailing);
            MatchLine(QuotedLine(exported, key, literal, trailing)) ==
            if NoLineEnd(rest) then Some(Assignment(exported, key, rest)) else None
  {
    var rest := Quoted(literal, trailing);
    var body := key + ("=" + rest);
    CharFacts();
    KeyMatches(key, rest, true);
    KeyMatches(key, rest, false);
    hide IsSpace, IsLineEnd, IsKeyStart, IsKeyChar, MatchKey, Quoted;
    assert body[0] == key[0];
    if exported {
      ExportedMatches(body);
    } else {
      KeyIsNoExport(key, rest);
      assert QuotedLine(exported, key, literal, trailing) == body;
      assert DropSpaces(body) == body;
    }
  }

  /**
   * A single-quoted literal without quotes comes back as it went in exactly
   * when it holds no character that `.` does not match; otherwise the line is
   * no assignment at all.
   */
  lemma QuotedLineParses(exported: bool, key: string, literal: string, trailing: string)
    requires IsKey(key) && IsTrailing(trailing)
    requires forall i :: 0 <= i < |literal| ==> literal[i] != '\''
    ensures ParseLine(QuotedLine(exported, key, literal, trailing)) ==
            if NoLineEnd(literal) then Some(ParsedLine(exported, key, literal, trailing, false)) else None
  {
    MatchesQuoted(exported, key, literal, trailing);
    QuotedHasLineEnd(literal, trailing);
    if NoLineEnd(literal) {
      QuotedValueParses(exported, key, literal, trailing);
    }
    hide MatchLine, ParseValue, IsLineEnd, QuotedLine;
  }

  lemma QuotedValueParses(exported: bool, key: string, literal: string, trailing: string)
    requires IsTrailing(trailing)
    requires forall i :: 0 <= i < |literal| ==> literal[i] != '\''
    ensures ParseValue(Assignment(exported, key, Quoted(literal, trailing))) == ParsedLine(exported, key, literal, trailing, false)
  {
    CharFacts();
    hide IsSpace, IsLineEnd, CloseDouble, CommentStart;
    var rest, end := Quoted(literal, trailing), 1 + |literal|;
    assert rest[|rest| - 1] == if trailing == "" then '\'' else trailing[|trailing| - 1];
    assert TrimEnd(rest) == rest;
    assert rest[end] == '\'' && forall k :: 1 <= k < end ==> rest[k] == literal[k - 1];
    assert CloseSingle(rest, 1) == Some(end);
    assert rest[1..end] == literal && rest[end + 1..] == trailing;
  }

  lemma QuotedHasLineEnd(literal: string, trailing: string)
    requires NoLineEnd(trailing)
    ensures NoLineEnd(Quoted(literal, trailing)) <==> NoLineEnd(literal)
  {
    CharFacts();
    hide IsLineEnd;
    var rest := Quoted(literal, trailing);
    assert forall k :: 0 <= k < |literal| ==> rest[k + 1] == literal[k];
    assert forall k :: 0 <= k < |trailing| ==> rest[k + 2 + |literal|] == trailing[k];
  }

  // ── Whole files ────────────────────────────────────────────────────────────

  /** A line and the terminator that follows it ("" after the last line). */
  datatype Line = Line(text: string, end: string)

  function Lines(content: string): (ls: seq<Line>)
    ensures |ls| >= 1
  {
    LinesFrom(content, 0)
  }

  /** Split off the first line at or after position `i`; nothing before `i` ends a line. */
  function LinesFrom(content: string, i: nat): (ls: seq<Line>)
    requires i <= |content|
    decreases |content|, |content| - i
    ensures |ls| >= 1
  {
    if i == |content| then [Line(content, "")]
    else if content[i] == '\n' then
      [if i > 0 && content[i - 1] == '\r' then Line(content[..i - 1], "\r\n") else Line(content[..i], "\n")]
      + LinesFrom(content[i + 1..], 0)
    else LinesFrom(content, i + 1)
  }

  function Join(ls: seq<Line>): string {
    if ls == [] then "" else ls[0].text + ls[0].end + Join(ls[1..])
  }

  /** Lines that a split can produce. */
  ghost predicate Separated(ls: seq<Line>) {
    && |ls| >= 1
    && (forall i :: 0 <= i < |ls| ==> NoNewline(ls[i].text))
    && (forall i :: 0 <= i < |ls| - 1 ==> Ended(ls[i]))
    && ls[|ls| - 1].end == ""
  }

  predicate NoNewline(s: string) {
    forall k :: 0 <= k < |s| ==> s[k] != '\n'
  }

  predicate Ended(l: Line) {
    l.end == "\r\n" || (l.end == "\n" && (l.text == "" || l.text[|l.text| - 1] != '\r'))
  }

  lemma SeparatedPrepend(first: Line, rest: seq<Line>)
    requires NoNewline(first.text) && Ended(first) && Separated(rest)
    ensures Separated([first] + rest)
  {
  }

  /** Where a line ends: the first line and its terminator, then the rest. */
  lemma SplitAtNewline(content: string, i: nat, first: Line, rest: seq<Line>)
    requires i < |content| && content[i] == '\n' && NoNewline(content[..i])
    requires LinesFrom(content, i) == [first] + rest
    requires first == if i > 0 && content[i - 1] == '\r' then Line(content[..i - 1], "\r\n") else Line(content[..i], "\n")
    requires Join(rest) == content[i + 1..] && Separated(rest)
    ensures Join(LinesFrom(content, i)) == content && Separated(LinesFrom(content, i))
  {
    hide LinesFrom;
    assert first.text + first.end == content[..i + 1];
    assert NoNewline(first.text) && Ended(first) by {
      assert forall k :: 0 <= k < |first.text| ==> first.text[k] == content[..i][k];
    }
    hide NoNewline, Ended, Separated;
    SeparatedPrepend(first, rest);
    assert ([first] + rest)[1..] == rest;
    assert content == content[..i + 1] + content[i + 1..];
  }

  lemma {:induction false} SplitThenJoin(content: string, i: nat)
    requires i <= |content| && NoNewline(content[..i])
    ensures Join(LinesFrom(content, i)) == content
    ensures Separated(LinesFrom(content, i))
    decreases |content|, |content| - i
  {
    if i == |content| {
      assert content[..i] == content;
      assert [Line(content, "")][1..] == [];
    } else if content[i] == '\n' {
      SplitThenJoin(content[i + 1..], 0);
      var rest := LinesFrom(content[i + 1..], 0);
      var first := if i > 0 && content[i - 1] == '\r' then Line(content[..i - 1], "\r\n") else Line(content[..i], "\n");
      hide Join, Separated, NoNewline;
      SplitAtNewline(content, i, first, rest);
    } else {
      assert content[..i + 1] == content[..i] + [content[i]];
      hide Join, Separated;
      SplitThenJoin(content, i + 1);
    }
  }

  lemma {:induction false} JoinThenSplit(ls: seq<Line>)
    requires Separated(ls)
    ensures Lines(Join(ls)) == ls
  {
    var first := ls[0];
    var content := Join(ls);
    if |ls| == 1 {
      assert ls[1..] == [];
      assert content == first.text + first.end + Join(ls[1..]);
      assert content == first.text && ls == [first];
      SkipsTo(content, 0, |content|);
    } else {
      assert Ended(first);
      var rest := Join(ls[1..]);
      var n := |first.text| + |first.end| - 1;
      assert content == (first.text + first.end) + rest;
      assert content[n] == '\n' && content[n + 1..] == rest;
      assert forall k :: 0 <= k < |first.text| ==> content[k] == first.text[k];
      assert first.end == "\r\n" ==> content[|first.text|] == '\r';
      SkipsTo(content, 0, n);
      assert forall k :: 0 <= k < |ls[1..]| ==> ls[1..][k] == ls[k + 1];
      JoinThenSplit(ls[1..]);
      if first.end == "\r\n" {
        assert content[..n - 1] == first.text;
      } else {
        assert content[..n] == first.text;
      }
      assert ls == [first] + ls[1..];
    }
  }

  lemma {:induction false} SkipsTo(content: string, i: nat, n: nat)
    requires i <= n <= |content|
    requires forall k :: i <= k < n ==> content[k] != '\n'
    ensures LinesFrom(content, i) == LinesFrom(content, n)
    decreases n - i
  {
    if i < n {
      SkipsTo(content, i + 1, n);
    }
  }

  datatype Entry = Entry(key: string, value: string, line: nat)

  /** Entries of the first `n` lines, numbered from 1. */
  function EntriesOf(ls: seq<Line>, n: nat): seq<Entry>
    requires n <= |ls|
  {
    if n == 0 then []
    else
      var before := EntriesOf(ls, n - 1);
      match ParseLine(ls[n - 1].text)
      case Some(p) => if p.unterminated then before else before + [Entry(p.key, p.value, n)]
      case None => before
  }

  method ParseDotenv(content: string) returns (entries: seq<Entry>)
    ensures entries == EntriesOf(Lines(content), |Lines(content)|)
  {
    hide ParseLine;
    entries := [];
    var lines := Lines(content);
    for i := 0 to |lines|
      invariant entries == EntriesOf(lines, i)
    {
      var parsed := ParseLine(lines[i].text);
      if parsed.Some? && !parsed.value.unterminated {
        entries := entries + [Entry(parsed.value.key, parsed.value.value, i + 1)];
      }
    }
  }

  // ── References ─────────────────────────────────────────────────────────────

  datatype VaultItem =
    | Login(name: string, username: string, password: string, totp: string, fields: seq<(string, string)>)
    | Note(name: string, content: string)
    | SshKey(name: string, publicKey: string, privateKey: string)
    | OtherItem(name: string)

  /** Case folding and the mapping of names to variable names, as the runtime has them. */
  datatype Naming = Naming(lower: string -> string, envKey: string -> string)

  /** "nopwd://" */
  const REF_PREFIX := "nopwd://"

  function FormatReference(itemName: string, field: string): string {
    REF_PREFIX + itemName + "/" + field
  }

  predicate IsReference(s: string) {
    REF_PREFIX <= s
  }

  function CustomVars(key: string, fields: seq<(string, string)>, naming: Naming, vars: map<string, string>): map<string, string> {
    if fields == [] then vars
    else
      var before := CustomVars(key, fields[..|fields| - 1], naming, vars);
      var f := fields[|fields| - 1];
      if f.1 == "" then before else before[key + "_" + naming.envKey(f.0) := f.1]
  }

  function ItemToEnvVars(item: VaultItem, naming: Naming): map<string, string> {
    var key := naming.envKey(item.name);
    match item
    case Login(_, username, password, totp, fields) =>
      var v0: map<string, string> := if password == "" then map[] else map[key := password];
      var v1 := if username == "" then v0 else v0[key + "_USERNAME" := username];
      var v2 := if totp == "" then v1 else v1[key + "_TOTP" := totp];
      CustomVars(key, fields, naming, v2)
    case Note(_, content) => map[key := content]
    case SshKey(_, publicKey, privateKey) =>
      var v0: map<string, string> := if publicKey == "" then map[] else map[key + "_PUBLIC" := publicKey];
      v0[key + "_PRIVATE" := privateKey]
    case OtherItem(_) => map[]
  }

  function IndexOf(s: string, c: char, i: nat): (r: Option<nat>)
    requires i <= |s|
    decreases |s| - i
    ensures r.Some? ==> i <= r.value < |s| && s[r.value] == c && (forall k :: i <= k < r.value ==> s[k] != c)
    ensures r.None? ==> forall k :: i <= k < |s| ==> s[k] != c
  {
    if i == |s| then None else if s[i] == c then Some(i) else IndexOf(s, c, i + 1)
  }

  function FindItem(vault: seq<VaultItem>, folded: string, naming: Naming): (r: Option<VaultItem>)
    ensures r.Some? ==> r.value in vault && naming.lower(r.value.name) == folded
    ensures r.None? ==> forall i :: 0 <= i < |vault| ==> naming.lower(vault[i].name) != folded
  {
    if vault == [] then None
    else if naming.lower(vault[0].name) == folded then Some(vault[0])
    else FindItem(vault[1..], folded, naming)
  }

  datatype ResolveError = Malformed | NoSuchItem | NoSuchField

  function FieldKey(itemKey: string, field: string, naming: Naming): string {
    if field == "password" then itemKey
    else if field == "username" then itemKey + "_USERNAME"
    else if field == "totp" then itemKey + "_TOTP"
    else itemKey + "_" + naming.envKey(field)
  }

  function ResolveReference(vault: seq<VaultItem>, reference: string, naming: Naming): (r: Result<string, ResolveError>) {
    if !IsReference(reference) then Err(Malformed)
    else
      var rest := reference[|REF_PREFIX|..];
      match IndexOf(rest, '/', 0)
      case None => Err(Malformed)
      case Some(slash) =>
        if slash == 0 then Err(Malformed)
        else match FindItem(vault, naming.lower(rest[..slash]), naming)
          case None => Err(NoSuchItem)
          case Some(item) =>
            var vars := ItemToEnvVars(item, naming);
            var key := FieldKey(naming.envKey(item.name), naming.lower(rest[slash + 1..]), naming);
            if key in vars then Ok(vars[key]) else Err(NoSuchField)
  }
}

/**
 * What a .env line says: double-quoted values with escapes, unquoted values
 * with an inline comment, and quotes that never close; and what a reference to a
 * login item resolves to (apps/cli/src/secret-refs.ts).
 */
module DotenvValues {
  import opened Wrappers
  import opened Dotenv

  function AssignmentLine(exported: bool, key: string, rest: string): string {
    (if exported then "export " else "") + (key + ("=" + rest))
  }

  /** An assignment is read as its key and everything after the sign. */
  lemma LineMatches(exported: bool, key: string, rest: string)
    requires IsKey(key) && rest != "" && !IsSpace(rest[0])
    ensures MatchLine(AssignmentLine(exported, key, rest)) == if NoLineEnd(rest) then Some(Assignment(exported, key, rest)) else None
  {
    var body := key + ("=" + rest);
    CharFacts();
    KeyMatches(key, rest, true);
    KeyMatches(key, rest, false);
    hide IsSpace, IsLineEnd, IsKeyStart, IsKeyChar, MatchKey;
    assert body[0] == key[0];
    if exported {
      ExportedMatches(body);
    } else {
      KeyIsNoExport(key, rest);
      assert AssignmentLine(exported, key, rest) == body;
      assert DropSpaces(body) == body;
    }
  }

  lemma NothingToTrim(s: string)
    requires s == "" || !IsSpace(s[|s| - 1])
    ensures TrimEnd(s) == s
  {
  }

  // ── Double quotes ──────────────────────────────────────────────────────────

  function EscapedChar(c: char): string {
    if c == '\n' then "\\n" else if c == '"' then "\\\"" else if c == '\\' then "\\\\" else [c]
  }

  /** The literal as it is written between double quotes. */
  function Escaped(s: string): string {
    if s == "" then "" else EscapedChar(s[0]) + Escaped(s[1..])
  }

  lemma {:induction false} UnescapeInverts(s: string)
    ensures Unescape(Escaped(s)) == s
  {
    if s != "" {
      UnescapeInverts(s[1..]);
      var rest := Escaped(s[1..]);
      UnescapeStep(s[0], rest);
      assert s == [s[0]] + s[1..];
    }
  }

  lemma UnescapeStep(c: char, rest: string)
    ensures Unescape(EscapedChar(c) + rest) == [c] + Unescape(rest)
  {
    var e := EscapedChar(c);
    if |e| == 2 {
      assert (e + rest)[2..] == rest;
    } else {
      assert (e + rest)[1..] == rest;
    }
  }

  /** The quote behind an escaped literal is the one that closes it. */
  lemma {:induction false} ClosesAfter(front: string, s: string, tail: string)
    ensures CloseDouble(front + (Escaped(s) + ("\"" + tail)), |front|) == Some(|front| + |Escaped(s)|)
    decreases |s|
  {
    var raw := front + (Escaped(s) + ("\"" + tail));
    if s == "" {
      assert raw[|front|] == '"';
    } else {
      var e, rest := EscapedChar(s[0]), Escaped(s[1..]);
      var front' := front + e;
      assert raw == front' + (rest + ("\"" + tail));
      ClosesAfter(front', s[1..], tail);
      assert raw[|front|] == e[0];
      assert |e| == 2 ==> e[0] == '\\' && |front| + 1 < |raw|;
    }
  }

  /** Line ends other than a newline have no escape. */
  predicate Quotable(s: string) {
    forall i :: 0 <= i < |s| ==> s[i] == '\n' || !IsLineEnd(s[i])
  }

  lemma {:induction false} EscapedHasNoLineEnd(s: string)
    requires Quotable(s)
    ensures NoLineEnd(Escaped(s))
  {
    if s != "" {
      EscapedHasNoLineEnd(s[1..]);
      CharHasNoLineEnd(s[0]);
      ConcatNoLineEnd(EscapedChar(s[0]), Escaped(s[1..]));
    }
  }

  lemma CharHasNoLineEnd(c: char)
    requires c == '\n' || !IsLineEnd(c)
    ensures NoLineEnd(EscapedChar(c))
  {
  }

  lemma ConcatNoLineEnd(s: string, t: string)
    requires NoLineEnd(s) && NoLineEnd(t)
    ensures NoLineEnd(s + t)
  {
    hide IsLineEnd;
  }

  /** A double-quoted literal, escaped, comes back as it was, newlines included; what follows the quote is the trailing text. */
  lemma DoubleQuotedParses(exported: bool, key: string, literal: string, trailing: string)
    requires IsKey(key) && IsTrailing(trailing) && Quotable(literal)
    ensures ParseLine(AssignmentLine(exported, key, DoubleQuoted(literal, trailing)))
            == Some(ParsedLine(exported, key, literal, trailing, false))
  {
    hide IsSpace, IsLineEnd, MatchLine, ParseValue, NoLineEnd, AssignmentLine, Escaped, IsKey;
    var rest := DoubleQuoted(literal, trailing);
    DoubleQuotedShape(literal, trailing);
    LineMatches(exported, key, rest);
    DoubleQuotedValue(exported, key, literal, trailing);
  }

  function DoubleQuoted(literal: string, trailing: string): string {
    "\"" + (Escaped(literal) + ("\"" + trailing))
  }

  lemma DoubleQuotedShape(literal: string, trailing: string)
    requires IsTrailing(trailing) && Quotable(literal)
    ensures var rest := DoubleQuoted(literal, trailing); rest != "" && !IsSpace(rest[0]) && NoLineEnd(rest)
  {
    assert !IsSpace('"') && !IsLineEnd('"');
    EscapedHasNoLineEnd(literal);
    assert NoLineEnd("\"");
    hide IsSpace, IsLineEnd, Escaped, NoLineEnd;
    ConcatNoLineEnd("\"", trailing);
    ConcatNoLineEnd(Escaped(literal), "\"" + trailing);
    ConcatNoLineEnd("\"", Escaped(literal) + ("\"" + trailing));
    assert DoubleQuoted(literal, trailing)[0] == '"';
  }

  lemma DoubleQuotedValue(exported: bool, key: string, literal: string, trailing: string)
    requires IsTrailing(trailing)
    ensures ParseValue(Assignment(exported, key, DoubleQuoted(literal, trailing))) == ParsedLine(exported, key, literal, trailing, false)
  {
    hide IsSpace, IsLineEnd, NoLineEnd, Escaped, CloseSingle, CommentStart, CloseDouble, Unescape, TrimEnd;
    var rest, end := DoubleQuoted(literal, trailing), 1 + |Escaped(literal)|;
    DoubleQuotedParts(literal, trailing);
    NothingToTrim(rest);
    ClosesAfter("\"", literal, trailing);
    UnescapeInverts(literal);
  }

  lemma DoubleQuotedParts(literal: string, trailing: string)
    requires IsTrailing(trailing)
    ensures var rest, end := DoubleQuoted(literal, trailing), 1 + |Escaped(literal)|;
            && rest != "" && rest[0] == '"' && !IsSpace(rest[|rest| - 1])
            && end < |rest| && rest[1..end] == Escaped(literal) && rest[end + 1..] == trailing
  {
    assert !IsSpace('"');
    hide IsSpace, NoLineEnd, Escaped;
    var rest := DoubleQuoted(literal, trailing);
    assert rest[|rest| - 1] == if trailing == "" then '"' else trailing[|trailing| - 1];
  }

  /** A quote that the line never closes makes the value unterminated: the line is no entry. */
  lemma UnclosedIsUnterminated(exported: bool, key: string, quote: char, rest: string)
    requires IsKey(key) && NoLineEnd(rest) && (quote == '"' || quote == '\'')
    requires forall i :: 0 <= i < |rest| ==> rest[i] != quote
    ensures var p := ParseLine(AssignmentLine(exported, key, [quote] + rest));
            p.Some? && p.value.unterminated && p.value.key == key && p.value.exported == exported
  {
    var raw := [quote] + rest;
    assert !IsSpace(quote) && NoLineEnd([quote]) && raw[0] == quote;
    hide MatchLine, AssignmentLine, IsLineEnd, NoLineEnd, ParseValue, IsKey, IsSpace;
    ConcatNoLineEnd([quote], rest);
    LineMatches(exported, key, raw);
    UnclosedValue(exported, key, quote, rest);
  }

  lemma UnclosedValue(exported: bool, key: string, quote: char, rest: string)
    requires (quote == '"' || quote == '\'') && !IsSpace(quote)
    requires forall i :: 0 <= i < |rest| ==> rest[i] != quote
    ensures ParseValue(Assignment(exported, key, [quote] + rest)).unterminated
  {
    hide IsSpace, Unescape, CommentStart;
    var raw := [quote] + rest;
    TrimKeepsFirst(raw);
    var trimmed := TrimEnd(raw);
    assert forall i :: 1 <= i < |trimmed| ==> trimmed[i] == rest[i - 1];
    NeverCloses(trimmed, 1);
  }

  lemma {:induction false} TrimKeepsFirst(s: string)
    requires s != "" && !IsSpace(s[0])
    ensures TrimEnd(s) != "" && TrimEnd(s)[0] == s[0]
  {
    hide IsSpace;
    if IsSpace(s[|s| - 1]) {
      TrimKeepsFirst(s[..|s| - 1]);
    }
  }

  lemma {:induction false} NeverCloses(raw: string, i: nat)
    requires i <= |raw|
    ensures (forall k :: i <= k < |raw| ==> raw[k] != '"') ==> CloseDouble(raw, i).None?
    ensures (forall k :: i <= k < |raw| ==> raw[k] != '\'') ==> CloseSingle(raw, i).None?
    decreases |raw| - i
  {
    if i < |raw| {
      NeverCloses(raw, i + 1);
      if i + 1 < |raw| {
        NeverCloses(raw, i + 2);
      }
    }
  }

  // ── No quotes ──────────────────────────────────────────────────────────────

  /** A value that needs no quotes: no '#', no quote in front, no white space at either end. */
  predicate Plain(v: string) {
    && v != "" && NoLineEnd(v) && !IsSpace(v[0]) && !IsSpace(v[|v| - 1]) && v[0] != '"' && v[0] != '\''
    && forall i :: 0 <= i < |v| ==> v[i] != '#'
  }

  lemma {:induction false} DropStopsInside(v: string, tail: string)
    requires v != "" && !IsSpace(v[|v| - 1]) && forall i :: 0 <= i < |v| ==> v[i] != '#'
    ensures DropSpaces(v + tail) != "" && DropSpaces(v + tail)[0] != '#'
  {
    hide IsSpace;
    assert (v + tail)[0] == v[0];
    if IsSpace(v[0]) {
      assert (v + tail)[1..] == v[1..] + tail;
      DropStopsInside(v[1..], tail);
    }
  }

  /** White space before the end of the value starts no comment. */
  lemma {:induction false} CommentAfter(v: string, comment: string, i: nat)
    requires Plain(v) && i <= |v| && (comment == "" || (|comment| >= 2 && comment[0] == ' ' && comment[1] == '#'))
    ensures CommentStart(v + comment, i) == |v|
    decreases |v| - i
  {
    var raw := v + comment;
    if i == |v| {
      assert raw[i..] == comment;
      if comment != "" {
        assert raw[i] == ' ' && IsSpace(' ') && comment[1..][0] == '#' && !IsSpace('#');
        assert DropSpaces(comment[1..]) == comment[1..] && DropSpaces(comment) == comment[1..];
      }
    } else {
      assert raw[i..] == v[i..] + comment;
      DropStopsInside(v[i..], comment);
      hide IsSpace;
      CommentAfter(v, comment, i + 1);
    }
  }

  /** KEY=value, with or without " #comment" behind it: the value up to the comment, the comment as trailing text. */
  lemma PlainParses(exported: bool, key: string, v: string, comment: string)
    requires IsKey(key) && Plain(v) && IsTrailing(comment)
    requires comment == "" || (|comment| >= 2 && comment[0] == ' ' && comment[1] == '#')
    ensures ParseLine(AssignmentLine(exported, key, v + comment)) == Some(ParsedLine(exported, key, v, comment, false))
  {
    var rest := v + comment;
    ConcatNoLineEnd(v, comment);
    assert rest[0] == v[0];
    LineMatches(exported, key, rest);
    assert rest[|rest| - 1] == if comment == "" then v[|v| - 1] else comment[|comment| - 1];
    NothingToTrim(rest);
    CommentAfter(v, comment, 0);
    hide IsSpace, IsLineEnd, MatchLine, AssignmentLine, CommentStart, TrimEnd, NoLineEnd;
    assert rest[..|v|] == v && rest[|v|..] == comment;
  }

  // ── Entries ────────────────────────────────────────────────────────────────

  predicate Assigns(ls: seq<Line>, e: Entry) {
    1 <= e.line <= |ls| && var p := ParseLine(ls[e.line - 1].text);
    p.Some? && !p.value.unterminated && p.value.key == e.key && p.value.value == e.value
  }

  /** The entries are exactly the terminated assignments, each with its own line number, in line order. */
  lemma {:induction false} EntryIff(ls: seq<Line>, n: nat)
    requires n <= |ls|
    ensures forall e :: e in EntriesOf(ls, n) <==> e.line <= n && Assigns(ls, e)
    ensures forall i, j :: 0 <= i < j < |EntriesOf(ls, n)| ==> EntriesOf(ls, n)[i].line < EntriesOf(ls, n)[j].line
  {
    hide ParseLine;
    if n > 0 {
      EntryIff(ls, n - 1);
      var before := EntriesOf(ls, n - 1);
      assert forall i :: 0 <= i < |before| ==> before[i] in before;
    }
  }

  // ── References ─────────────────────────────────────────────────────────────

  /** The last custom field with a value that maps to this variable. */
  function LastCustom(itemKey: string, fields: seq<(string, string)>, naming: Naming, variable: string): Option<string> {
    if fields == [] then None
    else
      var f := fields[|fields| - 1];
      if f.1 != "" && itemKey + "_" + naming.envKey(f.0) == variable then Some(f.1)
      else LastCustom(itemKey, fields[..|fields| - 1], naming, variable)
  }

  lemma {:induction false} CustomAt(itemKey: string, fields: seq<(string, string)>, naming: Naming, vars: map<string, string>, variable: string)
    ensures var all, last := CustomVars(itemKey, fields, naming, vars), LastCustom(itemKey, fields, naming, variable);
            && (variable in all <==> last.Some? || variable in vars)
            && (variable in all ==> all[variable] == if last.Some? then last.value else vars[variable])
  {
    if fields != [] {
      CustomAt(itemKey, fields[..|fields| - 1], naming, vars, variable);
    }
  }

  /** What a login item holds in one of its own three fields. */
  function OwnField(item: VaultItem, field: string): string
    requires item.Login?
  {
    if field == "password" then item.password else if field == "username" then item.username else item.totp
  }

  /**
   * A reference to a login item's password, user name or one-time secret
   * resolves to it, unless it is empty or a custom field maps to the same
   * variable; then the last such field wins.
   */
  lemma FieldResolves(vault: seq<VaultItem>, item: VaultItem, field: string, naming: Naming)
    requires item.Login? && item.name != "" && (forall i :: 0 <= i < |item.name| ==> item.name[i] != '/')
    requires field == "password" || field == "username" || field == "totp"
    requires naming.lower(field) == field && FindItem(vault, naming.lower(item.name), naming) == Some(item)
    ensures var custom := LastCustom(naming.envKey(item.name), item.fields, naming, FieldKey(naming.envKey(item.name), field, naming));
            ResolveReference(vault, FormatReference(item.name, field), naming) ==
            if custom.Some? then Ok(custom.value) else if OwnField(item, field) == "" then Err(NoSuchField) else Ok(OwnField(item, field))
  {
    hide FindItem, CustomVars, LastCustom, FormatReference, IndexOf, OwnVars;
    ReferenceTakesApart(item.name, field);
    var key := naming.envKey(item.name);
    var own := OwnVars(item, key);
    CustomAt(key, item.fields, naming, own, FieldKey(key, field, naming));
    OwnVarAt(item, key, field, naming);
    VarsOfLogin(item, naming);
    hide ItemToEnvVars, FieldKey, OwnField;
  }

  lemma ReferenceTakesApart(name: string, field: string)
    requires forall i :: 0 <= i < |name| ==> name[i] != '/'
    ensures var reference := FormatReference(name, field);
            && |REF_PREFIX| <= |reference| && IsReference(reference)
            && var rest := reference[|REF_PREFIX|..];
               && IndexOf(rest, '/', 0) == Some(|name|) && |name| < |rest|
               && rest[..|name|] == name && rest[|name| + 1..] == field
  {
    var reference, rest := FormatReference(name, field), name + "/" + field;
    assert reference == REF_PREFIX + rest;
    assert reference[|REF_PREFIX|..] == rest && rest[|name|] == '/';
    assert forall k :: 0 <= k < |name| ==> rest[k] == name[k];
  }

  lemma VarsOfLogin(item: VaultItem, naming: Naming)
    requires item.Login?
    ensures var key := naming.envKey(item.name);
            ItemToEnvVars(item, naming) == CustomVars(key, item.fields, naming, OwnVars(item, key))
  {
  }

  /** The variables of the item's own three fields. */
  function OwnVars(item: VaultItem, key: string): map<string, string>
    requires item.Login?
  {
    var v0: map<string, string> := if item.password == "" then map[] else map[key := item.password];
    var v1 := if item.username == "" then v0 else v0[key + "_USERNAME" := item.username];
    if item.totp == "" then v1 else v1[key + "_TOTP" := item.totp]
  }

  lemma OwnVarAt(item: VaultItem, key: string, field: string, naming: Naming)
    requires item.Login? && (field == "password" || field == "username" || field == "totp")
    ensures var own, k := OwnVars(item, key), FieldKey(key, field, naming);
            && (k in own <==> OwnField(item, field) != "")
            && (k in own ==> own[k] == OwnField(item, field))
  {
    assert |key + "_USERNAME"| == |key| + 9 && |key + "_TOTP"| == |key| + 5;
  }
}

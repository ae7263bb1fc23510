/** Moving a secret from a .env file into the vault (apps/cli/src/adopt.ts). */
module Adopt {
  import opened Wrappers
  import opened Dotenv

  datatype AdoptError = NotAnAssignment | MultiLine | AlreadyReference | BadName | NameTaken | NoSuchLine | SaveFailed | RewriteFailed

  datatype Secret = Secret(value: string, key: string, exported: bool, trailing: string)

  /** The dotenv branch of extractSecret. */
  function ExtractSecret(line: string): (r: Result<Secret, AdoptError>) {
    match ParseLine(line)
    case None => Err(NotAnAssignment)
    case Some(p) =>
      if p.value == "" then Err(NotAnAssignment)
      else if p.unterminated then Err(MultiLine)
      else if IsReference(p.value) then Err(AlreadyReference)
      else Ok(Secret(p.value, p.key, p.exported, p.trailing))
  }

  predicate ValidNameChar(c: char) {
    c != '/' && c != '\'' && c > '\U{1f}' && c != '\U{7f}'
  }

  predicate ValidItemName(name: string) {
    forall i :: 0 <= i < |name| ==> ValidNameChar(name[i])
  }

  /** What adopting line `i` saves to the vault and writes to the file. */
  datatype Adopted = Adopted(item: VaultItem, reference: string, lines: seq<Line>)

  const BOM := "\U{feff}"

  /** The byte order mark in front of the first line, if any. */
  function BomOf(ls: seq<Line>, i: nat): string
    requires i < |ls|
  {
    if i == 0 && BOM <= ls[0].text then BOM else ""
  }

  function Plan(ls: seq<Line>, i: nat, name: string, existing: seq<string>, naming: Naming): (r: Result<Adopted, AdoptError>) {
    if i >= |ls| || (i == |ls| - 1 && ls[i].text == "") then Err(NoSuchLine)
    else
      var bom := BomOf(ls, i);
      match ExtractSecret(ls[i].text[|bom|..])
      case Err(e) => Err(e)
      case Ok(secret) =>
        if !ValidItemName(name) then Err(BadName)
        else if exists k :: 0 <= k < |existing| && naming.lower(existing[k]) == naming.lower(name) then Err(NameTaken)
        else
          var reference := FormatReference(name, "password");
          var text := bom + QuotedLine(secret.exported, secret.key, reference, secret.trailing);
          Ok(Adopted(Login(name, "", secret.value, "", []), reference, ls[i := ls[i].(text := text)]))
  }

  /** The name given, or the project directory's name and the variable's. */
  function NameFor(ls: seq<Line>, i: nat, name: Option<string>, project: string): string {
    if name.Some? then name.value
    else if i >= |ls| then ""
    else
      var secret := ExtractSecret(ls[i].text[|BomOf(ls, i)|..]);
      if secret.Ok? then project + " " + secret.value.key else ""
  }

  /**
   * The file as written, or untouched on any error. `saves` and `rewrites` tell
   * whether the vault takes the item and the disk the file: the item is offered
   * once the plan stands, and the file is written once the item is saved.
   */
  method AdoptSecret(content: string, i: nat, name: Option<string>, project: string, existing: seq<string>, naming: Naming,
                     saves: bool, rewrites: bool)
    returns (r: Result<Adopted, AdoptError>, written: string, saved: Option<VaultItem>)
    ensures var plan := Plan(Lines(content), i, NameFor(Lines(content), i, name, project), existing, naming);
            && saved == (if plan.Ok? && saves then Some(plan.value.item) else None)
            && r == (if plan.Ok? && !saves then Err(SaveFailed) else if plan.Ok? && !rewrites then Err(RewriteFailed) else plan)
    ensures written == if r.Ok? then Join(r.value.lines) else content
  {
    hide ParseLine, QuotedLine, LinesFrom;
    var parts := Lines(content);
    written, saved := content, None;
    if i >= |parts| || (i == |parts| - 1 && parts[i].text == "") {
      return Err(NoSuchLine), content, None;
    }
    var bom := if i == 0 && BOM <= parts[0].text then BOM else "";
    var secret := ExtractSecret(parts[i].text[|bom|..]);
    if secret.Err? {
      return Err(secret.error), content, None;
    }
    var itemName := if name.Some? then name.value else project + " " + secret.value.key;
    if !ValidItemName(itemName) {
      return Err(BadName), content, None;
    }
    for k := 0 to |existing|
      invariant forall j :: 0 <= j < k ==> naming.lower(existing[j]) != naming.lower(itemName)
    {
      if naming.lower(existing[k]) == naming.lower(itemName) {
        return Err(NameTaken), content, None;
      }
    }
    var item := Login(itemName, "", secret.value.value, "", []);
    if !saves {
      return Err(SaveFailed), content, None;
    }
    var reference := FormatReference(itemName, "password");
    var text := bom + QuotedLine(secret.value.exported, secret.value.key, reference, secret.value.trailing);
    parts := parts[i := parts[i].(text := text)];
    if !rewrites {
      return Err(RewriteFailed), content, Some(item);
    }
    return Ok(Adopted(item, reference, parts)), Join(parts), Some(item);
  }

  // ── The rewritten file ─────────────────────────────────────────────────────

  /** A byte order mark is white space to the line expression. */
  lemma BomIsSkipped(bom: string, line: string)
    requires bom == "" || bom == BOM
    ensures ParseLine(bom + line) == ParseLine(line)
  {
    if bom == BOM {
      assert (bom + line)[1..] == line && IsSpace((bom + line)[0]);
      hide IsSpace, MatchKey;
      assert DropSpaces(bom + line) == DropSpaces(line);
    } else {
      assert bom + line == line;
    }
  }

  lemma ReferenceShape(name: string)
    ensures FormatReference(name, "password") == REF_PREFIX + (name + "/password")
  {
    assert "/" + "password" == "/password";
    Regrouped(REF_PREFIX, name, "/", "password");
  }

  lemma Regrouped(a: string, b: string, c: string, d: string)
    ensures a + b + c + d == a + (b + (c + d))
  {
  }

  /** A reference takes apart at its first slash into the name and the field. */
  lemma ReferenceSplits(name: string)
    requires ValidItemName(name)
    ensures var reference := FormatReference(name, "password");
            && |REF_PREFIX| <= |reference| && IsReference(reference)
            && var rest := reference[|REF_PREFIX|..];
               && IndexOf(rest, '/', 0) == Some(|name|)
               && |rest| == |name| + 9 && rest[..|name|] == name && rest[|name| + 1..] == "password"
  {
    ReferenceShape(name);
    hide FormatReference;
    var rest := FormatReference(name, "password")[|REF_PREFIX|..];
    assert rest == name + "/password";
    hide ValidItemName, IndexOf;
    RestSplits(rest, name);
  }

  lemma RestSplits(rest: string, name: string)
    requires ValidItemName(name) && rest == name + "/password"
    ensures IndexOf(rest, '/', 0) == Some(|name|)
    ensures |rest| == |name| + 9 && rest[..|name|] == name && rest[|name| + 1..] == "password"
  {
    assert rest[|name|] == '/';
    assert forall k :: 0 <= k < |name| ==> rest[k] == name[k] && ValidNameChar(name[k]);
    hide ValidItemName;
    assert rest[|name| + 1..] == "/password"[1..] == "password";
  }

  lemma ReferenceParts(name: string)
    requires ValidItemName(name)
    ensures forall i :: 0 <= i < |FormatReference(name, "password")| ==> FormatReference(name, "password")[i] != '\''
    ensures NoLineEnd(FormatReference(name, "password")) <==> NoLineEnd(name)
    ensures NoNewline(FormatReference(name, "password"))
  {
    var r := FormatReference(name, "password");
    var n := |REF_PREFIX|;
    ReferenceShape(name);
    hide FormatReference;
    assert forall k :: 0 <= k < |name| ==> r[n + k] == name[k] && ValidNameChar(name[k]);
    assert forall k :: 0 <= k < n ==> r[k] == REF_PREFIX[k];
    assert forall k :: 0 <= k < 9 ==> r[n + |name| + k] == "/password"[k];
    assert forall k :: 0 <= k < |r| ==> k < n || (n <= k < n + |name| && r[k] == name[k - n]) || r[k] == "/password"[k - n - |name|];
  }

  /** The rewritten line is the same assignment of the reference, exactly when `.` matches the whole name. */
  lemma RewrittenLineParses(ls: seq<Line>, i: nat, name: string, existing: seq<string>, naming: Naming)
    requires Plan(ls, i, name, existing, naming).Ok?
    ensures var a := Plan(ls, i, name, existing, naming).value;
            var before := ParseLine(ls[i].text);
            && before.Some? && !before.value.unterminated && before.value.value == a.item.password
            && ParseLine(a.lines[i].text) ==
               if NoLineEnd(name) then Some(before.value.(value := a.reference)) else None
    ensures var text := Plan(ls, i, name, existing, naming).value.lines[i].text;
            NoNewline(text) && text != "" && !IsSpace(text[|text| - 1])
  {
    var bom := BomOf(ls, i);
    var line := ls[i].text[|bom|..];
    var p := PlanText(ls, i, name, existing, naming);
    hide Plan, ParseLine, QuotedLine, IsSpace, NoLineEnd, FormatReference, NoNewline, ValidItemName;
    BomIsSkipped(bom, line);
    RewrittenTextParses(bom, line, p, name);
  }

  /** What an accepted plan read from the line and writes in its place. */
  lemma PlanText(ls: seq<Line>, i: nat, name: string, existing: seq<string>, naming: Naming) returns (p: ParsedLine)
    requires Plan(ls, i, name, existing, naming).Ok?
    ensures i < |ls| && |BomOf(ls, i)| <= |ls[i].text| && ls[i].text == BomOf(ls, i) + ls[i].text[|BomOf(ls, i)|..]
    ensures ParseLine(ls[i].text[|BomOf(ls, i)|..]) == Some(p) && !p.unterminated && ValidItemName(name)
    ensures var a := Plan(ls, i, name, existing, naming).value;
            && |a.lines| == |ls| && a.item.password == p.value && a.reference == FormatReference(name, "password")
            && a.lines[i].text == BomOf(ls, i) + QuotedLine(p.exported, p.key, a.reference, p.trailing)
  {
    hide ParseLine, QuotedLine, FormatReference, ValidItemName, IsReference;
    p := ParseLine(ls[i].text[|BomOf(ls, i)|..]).value;
  }

  lemma RewrittenTextParses(bom: string, line: string, p: ParsedLine, name: string)
    requires (bom == "" || bom == BOM) && ParseLine(line) == Some(p) && ValidItemName(name)
    ensures var reference := FormatReference(name, "password");
            var text := bom + QuotedLine(p.exported, p.key, reference, p.trailing);
            && ParseLine(text) == (if NoLineEnd(name) then Some(ParsedLine(p.exported, p.key, reference, p.trailing, false)) else None)
            && NoNewline(text) && text != "" && !IsSpace(text[|text| - 1])
  {
    hide ParseLine, QuotedLine, IsSpace, NoLineEnd, NoNewline, FormatReference, IsKey, IsTrailing;
    ParsedParts(line);
    var reference := FormatReference(name, "password");
    ReferenceParts(name);
    QuotedLineParses(p.exported, p.key, reference, p.trailing);
    BomIsSkipped(bom, QuotedLine(p.exported, p.key, reference, p.trailing));
    QuotedLineShape(bom, p.exported, p.key, reference, p.trailing);
  }

  lemma QuotedLineShape(bom: string, exported: bool, key: string, literal: string, trailing: string)
    requires bom == "" || bom == BOM
    requires IsKey(key) && IsTrailing(trailing) && NoNewline(literal)
    ensures var text := bom + QuotedLine(exported, key, literal, trailing);
            NoNewline(text) && text != "" && !IsSpace(text[|text| - 1])
  {
    CharFacts();
    var text := bom + QuotedLine(exported, key, literal, trailing);
    assert IsSpace('\n') && IsLineEnd('\n');
    assert NoNewline(key) && NoNewline(trailing);
    hide IsSpace, IsLineEnd, IsKeyChar, IsKeyStart;
    assert text[|text| - 1] == if trailing == "" then '\'' else trailing[|trailing| - 1];
    ConcatNoNewline("'" + literal + "'", trailing);
    ConcatNoNewline("'" + literal, "'");
    ConcatNoNewline("'", literal);
    ConcatNoNewline("=", Quoted(literal, trailing));
    ConcatNoNewline(key, "=" + Quoted(literal, trailing));
    ConcatNoNewline(if exported then "export " else "", key + ("=" + Quoted(literal, trailing)));
    ConcatNoNewline(bom, QuotedLine(exported, key, literal, trailing));
  }

  lemma ConcatNoNewline(s: string, t: string)
    requires NoNewline(s) && NoNewline(t)
    ensures NoNewline(s + t)
  {
  }

  /** Splitting the written file gives the old lines back, with only line `i`'s text replaced. */
  lemma OnlyOneLineChanges(content: string, i: nat, name: string, existing: seq<string>, naming: Naming)
    requires Plan(Lines(content), i, name, existing, naming).Ok?
    ensures var a := Plan(Lines(content), i, name, existing, naming).value;
            && Lines(Join(a.lines)) == a.lines
            && |a.lines| == |Lines(content)|
            && a.lines[i].end == Lines(content)[i].end
            && (forall k :: 0 <= k < |a.lines| && k != i ==> a.lines[k] == Lines(content)[k])
  {
    var ls := Lines(content);
    assert Separated(ls) by {
      assert content[..0] == "";
      SplitThenJoin(content, 0);
    }
    hide LinesFrom, Lines, Plan, Separated, Join;
    RewriteKeepsOthers(ls, i, name, existing, naming, Plan(ls, i, name, existing, naming).value);
  }

  lemma RewriteKeepsOthers(ls: seq<Line>, i: nat, name: string, existing: seq<string>, naming: Naming, a: Adopted)
    requires Separated(ls) && Plan(ls, i, name, existing, naming) == Ok(a)
    ensures Lines(Join(a.lines)) == a.lines
    ensures i < |ls| == |a.lines| && a.lines[i].end == ls[i].end
    ensures forall k :: 0 <= k < |ls| && k != i ==> a.lines[k] == ls[k]
  {
    PlanShape(ls, i, name, existing, naming);
    RewrittenLineParses(ls, i, name, existing, naming);
    hide Plan, ParseLine;
    RetextKeepsSeparated(ls, i, a.lines[i].text);
    hide Separated, LinesFrom, Join, IsSpace;
    JoinThenSplit(a.lines);
  }

  lemma RetextKeepsSeparated(ls: seq<Line>, i: nat, text: string)
    requires Separated(ls) && i < |ls| && NoNewline(text) && text != "" && !IsSpace(text[|text| - 1])
    ensures Separated(ls[i := Line(text, ls[i].end)])
  {
  }

  /** Only the text of line `i` is replaced. */
  lemma PlanShape(ls: seq<Line>, i: nat, name: string, existing: seq<string>, naming: Naming)
    requires Plan(ls, i, name, existing, naming).Ok?
    ensures i < |ls| && |Plan(ls, i, name, existing, naming).value.lines| == |ls|
    ensures var a := Plan(ls, i, name, existing, naming).value;
            a.lines == ls[i := Line(a.lines[i].text, ls[i].end)]
  {
    hide ExtractSecret, QuotedLine, ValidItemName;
  }

  function Replaced(entries: seq<Entry>, line: nat, value: string): seq<Entry> {
    seq(|entries|, k requires 0 <= k < |entries| =>
      if entries[k].line == line then entries[k].(value := value) else entries[k])
  }

  lemma {:induction false} EntriesReplaced(a: seq<Line>, b: seq<Line>, i: nat, value: string, n: nat)
    requires n <= |a| && |a| == |b| && i < |a|
    requires forall k :: 0 <= k < |a| && k != i ==> a[k] == b[k]
    requires var p, q := ParseLine(a[i].text), ParseLine(b[i].text);
             p.Some? && !p.value.unterminated && q == Some(p.value.(value := value))
    ensures EntriesOf(b, n) == Replaced(EntriesOf(a, n), i + 1, value)
    ensures forall k :: 0 <= k < |EntriesOf(a, n)| ==> EntriesOf(a, n)[k].line <= n
  {
    hide ParseLine;
    if n > 0 {
      EntriesReplaced(a, b, i, value, n - 1);
      var p, q := ParseLine(a[n - 1].text), ParseLine(b[n - 1].text);
      assert n - 1 != i ==> p == q;
    }
  }

  // ── Resolving ──────────────────────────────────────────────────────────────

  lemma {:induction false} FindsSaved(vault: seq<VaultItem>, saved: VaultItem, naming: Naming)
    requires forall k :: 0 <= k < |vault| ==> naming.lower(vault[k].name) != naming.lower(saved.name)
    ensures FindItem(vault + [saved], naming.lower(saved.name), naming) == Some(saved)
  {
    if vault != [] {
      assert (vault + [saved])[1..] == vault[1..] + [saved];
      FindsSaved(vault[1..], saved, naming);
    }
  }

  /** The reference to a saved secret resolves to its value, unless the name is empty. */
  lemma ReferenceResolves(vault: seq<VaultItem>, name: string, value: string, naming: Naming)
    requires ValidItemName(name) && value != ""
    requires naming.lower("password") == "password"
    requires forall k :: 0 <= k < |vault| ==> naming.lower(vault[k].name) != naming.lower(name)
    ensures var saved := Login(name, "", value, "", []);
            ResolveReference(vault + [saved], FormatReference(name, "password"), naming) ==
            if name == "" then Err(Malformed) else Ok(value)
  {
    var saved := Login(name, "", value, "", []);
    ReferenceSplits(name);
    FindsSaved(vault, saved, naming);
    hide FormatReference, IndexOf, IsReference, ValidItemName, FindItem;
    assert CustomVars(naming.envKey(name), [], naming, map[naming.envKey(name) := value]) == map[naming.envKey(name) := value];
  }

  /**
   * Adopting any accepted line under a non-empty name: the written file holds
   * the same entries with the one value replaced by the reference, and the
   * reference resolves to the old value — exactly when the name is free of
   * U+2028 and U+2029. Otherwise the rewritten line is lost as an entry.
   */
  lemma AdoptRoundTrip(content: string, i: nat, name: string, vault: seq<VaultItem>, naming: Naming)
    requires naming.lower("password") == "password"
    requires var names := seq(|vault|, k requires 0 <= k < |vault| => vault[k].name);
             Plan(Lines(content), i, name, names, naming).Ok?
    requires name != ""
    ensures var names := seq(|vault|, k requires 0 <= k < |vault| => vault[k].name);
            var a := Plan(Lines(content), i, name, names, naming).value;
            var after := Lines(Join(a.lines));
            && after == a.lines
            && (NoLineEnd(name) ==>
                  EntriesOf(after, |after|) == Replaced(EntriesOf(Lines(content), |after|), i + 1, a.reference))
            && (!NoLineEnd(name) ==> ParseLine(after[i].text).None?)
            && ResolveReference(vault + [a.item], a.reference, naming) == Ok(a.item.password)
            && ParseLine(Lines(content)[i].text).value.value == a.item.password
  {
    var names := seq(|vault|, k requires 0 <= k < |vault| => vault[k].name);
    var a := Plan(Lines(content), i, name, names, naming).value;
    OnlyOneLineChanges(content, i, name, names, naming);
    RewrittenLineParses(Lines(content), i, name, names, naming);
    forall k | 0 <= k < |vault| ensures naming.lower(vault[k].name) != naming.lower(name) {
      assert names[k] == vault[k].name;
    }
    ReferenceResolves(vault, name, a.item.password, naming);
    if NoLineEnd(name) {
      EntriesReplaced(Lines(content), a.lines, i, a.reference, |a.lines|);
    }
    hide ParseLine, QuotedLine, ResolveReference, EntriesOf, LinesFrom;
  }

  /** The names that pass validation and break the rewrite: those with a Unicode line or paragraph separator. */
  lemma BreakingNames(name: string)
    requires ValidItemName(name)
    ensures NoLineEnd(name) <==> forall i :: 0 <= i < |name| ==> name[i] != '\U{2028}' && name[i] != '\U{2029}'
  {
  }

  /** One such name: the line K='v' is adopted, and the line written in its place is no assignment any more. */
  lemma SeparatorNameBreaks(naming: Naming)
    ensures var ls := [Line(QuotedLine(false, "K", "v", ""), "")];
            var plan := Plan(ls, 0, "a\U{2028}b", [], naming);
            plan.Ok? && ParseLine(plan.value.lines[0].text).None?
  {
    var ls := [Line(QuotedLine(false, "K", "v", ""), "")];
    var name := "a\U{2028}b";
    SampleLine(ls[0].text);
    SampleName(name);
    hide ParseLine, QuotedLine, ValidItemName, NoLineEnd, IsReference;
    assert BomOf(ls, 0) == "" && ls[0].text[0..] == ls[0].text;
    RewrittenLineParses(ls, 0, name, [], naming);
  }

  lemma SampleName(name: string)
    requires name == "a\U{2028}b"
    ensures ValidItemName(name) && !NoLineEnd(name)
  {
    assert name[1] == '\U{2028}' && IsLineEnd(name[1]);
  }

  lemma SampleLine(line: string)
    requires line == QuotedLine(false, "K", "v", "")
    ensures line != "" && line[0] != BOM[0] && !IsReference("v")
    ensures ParseLine(line) == Some(ParsedLine(false, "K", "v", "", false))
  {
    assert line[0] == 'K';
    assert IsKey("K") && IsTrailing("") && NoLineEnd("v");
    hide ParseLine, QuotedLine;
    QuotedLineParses(false, "K", "v", "");
  }

  /** A line is adopted exactly when it is a terminated, non-empty assignment of something else than a reference, and the name is valid and free. */
  lemma AdoptedIff(ls: seq<Line>, i: nat, name: string, existing: seq<string>, naming: Naming)
    requires Separated(ls)
    ensures Plan(ls, i, name, existing, naming).Ok? <==>
            && i < |ls| && ParseLine(ls[i].text).Some?
            && (var p := ParseLine(ls[i].text).value; !p.unterminated && p.value != "" && !IsReference(p.value))
            && ValidItemName(name) && forall k :: 0 <= k < |existing| ==> naming.lower(existing[k]) != naming.lower(name)
  {
    if i < |ls| {
      var bom := BomOf(ls, i);
      assert ls[i].text == bom + ls[i].text[|bom|..];
      BomIsSkipped(bom, ls[i].text[|bom|..]);
      assert ls[i].text == "" ==> ParseLine(ls[i].text).None?;
    }
    hide ParseLine, QuotedLine, FormatReference, Separated;
  }
}

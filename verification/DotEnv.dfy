/** Reading and editing a dotenv file: what the editor writes, the parser reads back. */
module DotEnv {
  import opened Wrappers
  import opened Text

  /** One `key=value` pair of a file. */
  datatype Pair = Pair(key: string, value: string)

  predicate Quoted(value: string) {
    && |value| >= 2
    && value[0] == value[|value| - 1]
    && (value[0] == '"' || value[0] == '\'')
  }

  /** What a line means to the parser, if anything. */
  function ParseLine(raw: string): Option<Pair> {
    ParseTrimmed(Trim(raw))
  }

  function ParseTrimmed(line: string): Option<Pair> {
    var eq := IndexOf(line, '=');
    if line == "" || line[0] == '#' || eq == |line| then None
    else
      var value := Trim(line[eq + 1..]);
      Some(Pair(Trim(line[..eq]), if Quoted(value) then value[1..|value| - 1] else value))
  }

  /** The pairs of some lines, the last of a repeated key winning. */
  function ParseLines(lines: seq<string>): map<string, string> {
    if lines == [] then map[]
    else
      var before := ParseLines(lines[..|lines| - 1]);
      match ParseLine(lines[|lines| - 1])
      case Some(pair) => before[pair.key := pair.value]
      case None => before
  }

  /** `None` stands for a file that cannot be read. */
  function Parse(file: Option<string>): map<string, string> {
    if file.Some? then ParseLines(Lines(file.value)) else map[]
  }

  /** The key a line assigns, as the editor finds it. */
  function AssignedKey(raw: string): Option<string> {
    var trimmed := Trim(raw);
    if trimmed != "" && trimmed[0] == '#' then None
    else
      var eq := IndexOf(trimmed, '=');
      if eq == |trimmed| then None else Some(Trim(trimmed[..eq]))
  }

  function EditLine(raw: string, updates: map<string, string>): string {
    match AssignedKey(raw)
    case Some(key) => if key in updates then key + "=" + updates[key] else raw
    case None => raw
  }

  function EditLines(lines: seq<string>, updates: map<string, string>): (edited: seq<string>)
    ensures |edited| == |lines|
  {
    seq(|lines|, i requires 0 <= i < |lines| => EditLine(lines[i], updates))
  }

  /** The update keys that some line already assigns. */
  function Written(lines: seq<string>, updates: map<string, string>): set<string> {
    set line | line in lines && AssignedKey(line).Some? && AssignedKey(line).value in updates :: AssignedKey(line).value
  }

  function Get(m: map<string, string>, key: string): string {
    if key in m then m[key] else ""
  }

  function Missing(keys: seq<string>, updates: map<string, string>, written: set<string>): seq<string> {
    if keys == [] then []
    else
      var before := Missing(keys[..|keys| - 1], updates, written);
      var key := keys[|keys| - 1];
      if Get(updates, key) != "" && key !in written then before + [key + "=" + updates[key]] else before
  }

  function WithAppended(lines: seq<string>, missing: seq<string>): seq<string> {
    if missing == [] then lines
    else (if lines != [] && lines[|lines| - 1] != "" then lines + [""] else lines) + missing
  }

  function Render(lines: seq<string>): string {
    var content := Join(lines, '\n');
    if content == "" || content[|content| - 1] != '\n' then content + "\n" else content
  }

  function FileLines(file: Option<string>): seq<string> {
    if file.Some? then Lines(file.value) else []
  }

  /** The lines the editor ends up with. */
  function EditedLines(file: Option<string>, keys: seq<string>, updates: map<string, string>): seq<string> {
    var lines := FileLines(file);
    WithAppended(EditLines(lines, updates), Missing(keys, updates, Written(lines, updates)))
  }

  // ---- The two functions as they run ----

  /** One turn of the parser's loop. */
  method ReadAssignment(raw: string) returns (pair: Option<Pair>)
    ensures pair == ParseLine(raw)
  {
    var line := Trim(raw);
    if line == "" || line[0] == '#' {
      return None;
    }
    var eq := IndexOf(line, '=');
    if eq == |line| {
      return None;
    }
    var key, val := Trim(line[..eq]), Trim(line[eq + 1..]);
    if |val| >= 2 && ((val[0] == '"' && val[|val| - 1] == '"') || (val[0] == '\'' && val[|val| - 1] == '\'')) {
      val := val[1..|val| - 1];
    }
    pair := Some(Pair(key, val));
  }

  method ParseDotEnv(file: Option<string>) returns (result: map<string, string>)
    ensures result == Parse(file)
  {
    result := map[];
    if file.None? {
      return;
    }
    var lines := Lines(file.value);
    for i := 0 to |lines|
      invariant result == ParseLines(lines[..i])
    {
      assert lines[..i + 1][..i] == lines[..i];
      var pair := ReadAssignment(lines[i]);
      if pair.Some? {
        result := result[pair.value.key := pair.value.value];
      }
    }
    assert lines[..|lines|] == lines;
  }

  /** Which key a line assigns, skipping comments and lines without "=". */
  method FindKey(line: string) returns (key: Option<string>)
    ensures key == AssignedKey(line)
  {
    var trimmed := Trim(line);
    if trimmed != "" && trimmed[0] == '#' {
      return None;
    }
    var eq := IndexOf(trimmed, '=');
    if eq == |trimmed| {
      return None;
    }
    key := Some(Trim(trimmed[..eq]));
  }

  /** The in-place half: assignments of updated keys are rewritten where they stand. */
  method ReplaceInPlace(lines: array<string>, updates: map<string, string>) returns (written: set<string>)
    modifies lines
    ensures lines[..] == EditLines(old(lines[..]), updates)
    ensures written == Written(old(lines[..]), updates)
  {
    ghost var original := lines[..];
    written := {};
    for i := 0 to lines.Length
      invariant lines[..] == EditLines(original[..i], updates) + original[i..]
      invariant written == Written(original[..i], updates)
    {
      assert original[..i + 1] == original[..i] + [original[i]];
      WrittenGrows(original[..i], original[i], updates);
      NextEdited(original, i, updates);
      var key := FindKey(lines[i]);
      if key.Some? && key.value in updates {
        var line := key.value + "=" + updates[key.value];
        assert line == EditLine(original[i], updates);
        lines[i] := line;
        written := written + {key.value};
      }
    }
    assert original[..lines.Length] == original;
  }

  lemma NextEdited(lines: seq<string>, i: nat, updates: map<string, string>)
    requires i < |lines|
    ensures var edited := EditLines(lines[..i], updates) + lines[i..];
            && edited[i] == lines[i]
            && EditLines(lines[..i + 1], updates) + lines[i + 1..] == edited[i := EditLine(lines[i], updates)]
  {
  }

  /** The updated keys that no line had, in the given order. */
  method CollectMissing(orderedKeys: seq<string>, updates: map<string, string>, written: set<string>)
    returns (toAppend: seq<string>)
    ensures toAppend == Missing(orderedKeys, updates, written)
  {
    toAppend := [];
    for i := 0 to |orderedKeys|
      invariant toAppend == Missing(orderedKeys[..i], updates, written)
    {
      assert orderedKeys[..i + 1][..i] == orderedKeys[..i];
      var key := orderedKeys[i];
      if Get(updates, key) != "" || key in written {
        if key !in written {
          toAppend := toAppend + [key + "=" + updates[key]];
        }
      }
    }
    assert orderedKeys[..|orderedKeys|] == orderedKeys;
  }

  method WriteDotEnvKeys(file: Option<string>, orderedKeys: seq<string>, updates: map<string, string>)
    returns (content: string)
    ensures content == Render(EditedLines(file, orderedKeys, updates))
  {
    var original := FileLines(file);
    var lines := new string[|original|](i requires 0 <= i < |original| => original[i]);
    assert lines[..] == original;
    var written := ReplaceInPlace(lines, updates);
    var all := lines[..];
    var toAppend := CollectMissing(orderedKeys, updates, written);
    all := AppendMissing(all, toAppend);
    assert all == EditedLines(file, orderedKeys, updates);
    content := Join(all, '\n');
    if content == "" || content[|content| - 1] != '\n' {
      content := content + "\n";
    }
  }

  /** New assignments go after a separating blank line. */
  method AppendMissing(lines: seq<string>, toAppend: seq<string>) returns (all: seq<string>)
    ensures all == WithAppended(lines, toAppend)
  {
    all := lines;
    if |toAppend| > 0 {
      if |all| > 0 && all[|all| - 1] != "" {
        all := all + [""];
      }
      all := all + toAppend;
    }
  }

  lemma WrittenGrows(lines: seq<string>, line: string, updates: map<string, string>)
    ensures Written(lines + [line], updates) ==
            Written(lines, updates)
            + (if AssignedKey(line).Some? && AssignedKey(line).value in updates then {AssignedKey(line).value} else {})
  {
    assert forall l :: l in lines + [line] <==> l in lines || l == line;
  }

  // ---- Well-formed updates ----

  predicate GoodKey(key: string) {
    && key != "" && Trimmed(key) && key[0] != '#'
    && '=' !in key && '\n' !in key
  }

  predicate GoodValue(value: string) {
    Trimmed(value) && !Quoted(value) && '\n' !in value
  }

  /** An assignment written by the editor is read back as it was meant. */
  lemma AssignmentReads(key: string, value: string)
    requires Trimmed(key) && (key == "" || key[0] != '#') && '=' !in key && GoodValue(value)
    ensures ParseLine(key + "=" + value) == Some(Pair(key, value))
    ensures AssignedKey(key + "=" + value) == Some(key)
  {
    var line := key + "=" + value;
    assert line[|key|] == '=';
    assert line[0] == if key == "" then '=' else key[0];
    assert line[|line| - 1] == if value == "" then '=' else value[|value| - 1];
    TrimTrimmed(line);
    assert line[..|key|] == key && line[|key| + 1..] == value;
    IndexOfUnique(line, '=', |key|);
    TrimTrimmed(key);
    TrimTrimmed(value);
  }

  /** And only well-formed values are: one with a blank at an end, or wrapped in quotes, reads back
      as something shorter. */
  lemma ValueReadsExact(key: string, value: string)
    requires GoodKey(key) && '\n' !in value
    ensures ParseLine(key + "=" + value) == Some(Pair(key, value)) <==> GoodValue(value)
  {
    if GoodValue(value) {
      AssignmentReads(key, value);
    } else if Trimmed(value) {
      QuotesAreLost(key, value);
    } else {
      BlanksAreLost(key, value);
    }
  }

  lemma QuotesAreLost(key: string, value: string)
    requires GoodKey(key) && Trimmed(value) && Quoted(value)
    ensures ParseLine(key + "=" + value) != Some(Pair(key, value))
  {
    var line := key + "=" + value;
    TrimTrimmed(line);
    assert line[..|key|] == key && line[|key| + 1..] == value;
    IndexOfUnique(line, '=', |key|);
    TrimTrimmed(value);
  }

  lemma BlanksAreLost(key: string, value: string)
    requires GoodKey(key) && !Trimmed(value)
    ensures ParseLine(key + "=" + value) != Some(Pair(key, value))
  {
    var line := key + "=" + value;
    assert line[..|key|] == key && line[|key|] == '=' && line[|key| + 1..] == value;
    if IsSpace(value[|value| - 1]) {
      assert !Trimmed(line);
      TrimShortens(line);
      assert line[0] == key[0] && TrimLeft(line) == line;
      TrimRightEnds(line);
      ShortValue(Trim(line), key, |value|);
    } else {
      TrimTrimmed(line);
      IndexOfUnique(line, '=', |key|);
      TrimShortens(value);
    }
  }

  /** A prefix of `key=...` too short for a value of length `n` does not hold one. */
  lemma ShortValue(line: string, key: string, n: nat)
    requires '=' !in key && |line| <= |key| + n
    requires forall i | 0 <= i < |line| && i < |key| :: line[i] == key[i]
    ensures ParseTrimmed(line).Some? ==> |ParseTrimmed(line).value.value| < n
  {
    var eq := IndexOf(line, '=');
    if eq < |line| {
      assert line[eq] == '=';
      TrimShortens(line[eq + 1..]);
    }
  }

  /** The parser and the editor agree on which key a line assigns. */
  lemma SameKey(raw: string)
    ensures AssignedKey(raw).Some? <==> ParseLine(raw).Some?
    ensures AssignedKey(raw).Some? ==> ParseLine(raw).value.key == AssignedKey(raw).value
    ensures AssignedKey(raw).Some? ==>
              var key := AssignedKey(raw).value;
              Trimmed(key) && (key == "" || key[0] != '#') && '=' !in key
  {
    if AssignedKey(raw).Some? {
      var trimmed := Trim(raw);
      var eq := IndexOf(trimmed, '=');
      TrimIsTrimmed(raw);
      TrimIsTrimmed(trimmed[..eq]);
      KeepsStart(trimmed[..eq]);
      if '=' in Trim(trimmed[..eq]) {
        TrimWithin(trimmed[..eq], '=');
      }
    }
  }

  /** Trimming a text that starts with no blank keeps its first character. */
  lemma KeepsStart(s: string)
    requires s == "" || !IsSpace(s[0])
    ensures Trim(s) == "" || Trim(s)[0] == s[0]
  {
    if s != "" {
      assert TrimLeft(s) == s;
      TrimRightEnds(s);
    }
  }

  /** An edited line means the same pair with the new value. */
  lemma EditedLineReads(raw: string, updates: map<string, string>)
    requires forall key | key in updates :: GoodValue(updates[key])
    ensures ParseLine(EditLine(raw, updates)) ==
            match ParseLine(raw)
            case None => None
            case Some(pair) => Some(if pair.key in updates then Pair(pair.key, updates[pair.key]) else pair)
  {
    SameKey(raw);
    if AssignedKey(raw).Some? && AssignedKey(raw).value in updates {
      AssignmentReads(AssignedKey(raw).value, updates[AssignedKey(raw).value]);
    }
  }

  // ---- Lines through a file and back ----

  /** Lines that mean nothing, or mean the same, parse alike. */
  lemma {:induction false} SameMeaning(a: seq<string>, b: seq<string>)
    requires |a| == |b|
    requires forall i | 0 <= i < |a| :: ParseLine(a[i]) == ParseLine(b[i])
    ensures ParseLines(a) == ParseLines(b)
  {
    if a != [] {
      SameMeaning(a[..|a| - 1], b[..|b| - 1]);
    }
  }

  lemma {:induction false} ParseConcat(a: seq<string>, b: seq<string>)
    ensures ParseLines(a + b) == ParseLines(a) + ParseLines(b)
  {
    if b == [] {
      assert a + b == a;
    } else {
      var n := |b| - 1;
      assert (a + b)[..|a + b| - 1] == a + b[..n];
      ParseConcat(a, b[..n]);
    }
  }

  lemma DropCRMeansNothing(line: string)
    ensures ParseLine(DropCR(line)) == ParseLine(line)
  {
    TrimDropCR(line);
  }

  /** Writing lines to a file and reading the file back keeps what they mean. */
  lemma RenderReads(lines: seq<string>)
    requires forall line | line in lines :: '\n' !in line
    ensures Parse(Some(Render(lines))) == ParseLines(lines)
  {
    var content := Join(lines, '\n');
    if content == "" || content[|content| - 1] != '\n' {
      TerminatedReads(lines);
    } else {
      SplitJoin(lines, '\n');
      EndsBlank(lines);
      var front := lines[..|lines| - 1];
      assert lines == front + [""];
      LinesMean(content, front);
      BlankMeansNothing(front);
    }
  }

  lemma BlankMeansNothing(lines: seq<string>)
    ensures ParseLines(lines + [""]) == ParseLines(lines)
  {
    assert (lines + [""])[..|lines|] == lines;
    assert Trim("") == "";
  }

  /** The case where the newline is added. */
  lemma TerminatedReads(lines: seq<string>)
    requires forall line | line in lines :: '\n' !in line
    ensures Parse(Some(Join(lines, '\n') + "\n")) == ParseLines(lines)
  {
    var content := Join(lines, '\n');
    SplitConcat(content, "", '\n');
    assert content + "\n" == content + ['\n'] + "";
    LinesMean(content + "\n", Split(content, '\n'));
    if lines == [] {
      BlankMeansNothing([]);
      assert [] + [""] == [""];
    } else {
      SplitJoin(lines, '\n');
    }
  }

  lemma LinesMean(text: string, kept: seq<string>)
    requires Split(text, '\n') == kept + [""]
    ensures ParseLines(Lines(text)) == ParseLines(kept)
  {
    var parts := Split(text, '\n');
    assert parts[..|parts| - 1] == kept;
    forall i | 0 <= i < |kept| ensures ParseLine(Lines(text)[i]) == ParseLine(kept[i]) {
      DropCRMeansNothing(kept[i]);
    }
    SameMeaning(Lines(text), kept);
  }

  /** A joined text ends in a newline only if its last line is blank. */
  lemma {:induction false} EndsBlank(lines: seq<string>)
    requires lines != [] && forall line | line in lines :: '\n' !in line
    requires var content := Join(lines, '\n'); content != "" && content[|content| - 1] == '\n'
    ensures |lines| > 1 && lines[|lines| - 1] == ""
  {
    assert lines[0] in lines;
    if |lines| == 1 {
    } else if Join(lines[1..], '\n') == "" {
      assert |lines| == 2;
    } else {
      assert forall line | line in lines[1..] :: line in lines;
      EndsBlank(lines[1..]);
    }
  }

  // ---- Write then parse ----

  /** The parsed meaning of the edited lines: every key some line assigns keeps its place, with its
      new value if it is updated. */
  lemma {:induction false} EditedLinesMean(lines: seq<string>, updates: map<string, string>)
    requires forall key | key in updates :: GoodValue(updates[key])
    ensures ParseLines(EditLines(lines, updates)).Keys == ParseLines(lines).Keys
    ensures forall key | key in ParseLines(lines) ::
              ParseLines(EditLines(lines, updates))[key]
              == if key in updates then updates[key] else ParseLines(lines)[key]
  {
    if lines != [] {
      var n := |lines| - 1;
      EditedLinesMean(lines[..n], updates);
      EditedLineReads(lines[n], updates);
      ParseSnoc(EditLines(lines, updates), EditLines(lines[..n], updates));
    }
  }

  lemma ParseSnoc(lines: seq<string>, before: seq<string>)
    requires lines != [] && |before| == |lines| - 1 && forall i | 0 <= i < |before| :: before[i] == lines[i]
    ensures ParseLines(lines) ==
            match ParseLine(lines[|lines| - 1])
            case Some(pair) => ParseLines(before)[pair.key := pair.value]
            case None => ParseLines(before)
  {
    assert lines[..|lines| - 1] == before;
  }

  /** A key counts as written exactly when it is updated and the file already defines it. */
  lemma {:induction false} WrittenIsDefined(lines: seq<string>, updates: map<string, string>, key: string)
    ensures key in Written(lines, updates) <==> key in updates && key in ParseLines(lines)
  {
    if lines != [] {
      var n := |lines| - 1;
      WrittenIsDefined(lines[..n], updates, key);
      SameKey(lines[n]);
      assert lines == lines[..n] + [lines[n]];
      assert forall l | l in lines :: l in lines[..n] || l == lines[n];
      assert forall l | l in lines[..n] :: l in lines;
      assert lines[n] in lines;
    }
  }

  /** The appended assignments define the non-empty updates that no line had. */
  lemma {:induction false} MissingMeans(keys: seq<string>, updates: map<string, string>, written: set<string>)
    requires forall key | key in updates :: GoodKey(key) && GoodValue(updates[key])
    ensures var added := ParseLines(Missing(keys, updates, written));
            && (forall key :: key in added <==> key in keys && key in updates && updates[key] != "" && key !in written)
            && (forall key | key in added :: added[key] == updates[key])
    ensures forall line | line in Missing(keys, updates, written) :: '\n' !in line
  {
    if keys != [] {
      var n := |keys| - 1;
      var key := keys[n];
      MissingMeans(keys[..n], updates, written);
      assert keys == keys[..n] + [key];
      if Get(updates, key) != "" && key !in written {
        AssignmentReads(key, updates[key]);
        var before := Missing(keys[..n], updates, written);
        assert (before + [key + "=" + updates[key]])[..|before|] == before;
      }
    }
  }

  lemma EditedLinesHaveNoNewline(lines: seq<string>, updates: map<string, string>)
    requires forall line | line in lines :: '\n' !in line
    requires forall key | key in updates :: GoodValue(updates[key])
    ensures forall line | line in EditLines(lines, updates) :: '\n' !in line
  {
    forall i | 0 <= i < |lines| ensures '\n' !in EditLines(lines, updates)[i] {
      assert lines[i] in lines;
      if AssignedKey(lines[i]).Some? {
        var trimmed := Trim(lines[i]);
        var key := Trim(trimmed[..IndexOf(trimmed, '=')]);
        if '\n' in key {
          TrimWithin(trimmed[..IndexOf(trimmed, '=')], '\n');
          TrimWithin(lines[i], '\n');
        }
      }
    }
  }

  lemma FileLinesHaveNoNewline(file: Option<string>)
    ensures forall line | line in FileLines(file) :: '\n' !in line
  {
    if file.Some? {
      SplitParts(file.value, '\n');
      var parts := Split(file.value, '\n');
      forall i | 0 <= i < |Lines(file.value)| ensures '\n' !in Lines(file.value)[i] {
        assert parts[i] in parts;
        assert Lines(file.value)[i] == DropCR(parts[i]);
        assert '\n' !in DropCR(parts[i]);
      }
    }
  }

  /** Write then parse, for any file at all, with comments, junk lines, repeated keys and quotes:
      every updated key that is listed or already there reads back its new value (an absent key
      reading as empty), and every other key reads back exactly as before. */
  lemma WriteThenParse(file: Option<string>, keys: seq<string>, updates: map<string, string>, key: string)
    requires forall k | k in updates :: GoodKey(k) && GoodValue(updates[k])
    ensures var before, after := Parse(file), Parse(Some(Render(EditedLines(file, keys, updates))));
            if key in updates && (key in keys || key in before) then Get(after, key) == updates[key]
            else (key in after <==> key in before) && Get(after, key) == Get(before, key)
  {
    var lines := FileLines(file);
    var edited := EditLines(lines, updates);
    var written := Written(lines, updates);
    var missing := Missing(keys, updates, written);
    FileLinesHaveNoNewline(file);
    EditedLinesHaveNoNewline(lines, updates);
    MissingMeans(keys, updates, written);
    RenderReads(EditedLines(file, keys, updates));
    AppendedMean(edited, missing);
    EditedLinesMean(lines, updates);
    WrittenIsDefined(lines, updates, key);
    assert ParseLines(lines) == Parse(file);
  }

  lemma AppendedMean(lines: seq<string>, missing: seq<string>)
    ensures ParseLines(WithAppended(lines, missing)) == ParseLines(lines) + ParseLines(missing)
  {
    if missing != [] {
      assert Trim("") == "";
      assert (lines + [""])[..|lines|] == lines;
      ParseConcat(lines, missing);
      ParseConcat(lines + [""], missing);
    }
  }

  /** Editing again with the same updates changes nothing that can be read. */
  lemma WriteIsIdempotent(file: Option<string>, keys: seq<string>, updates: map<string, string>, key: string)
    requires forall k | k in updates :: GoodKey(k) && GoodValue(updates[k])
    ensures var once := Some(Render(EditedLines(file, keys, updates)));
            var twice := Some(Render(EditedLines(once, keys, updates)));
            Get(Parse(twice), key) == Get(Parse(once), key)
  {
    var once := Some(Render(EditedLines(file, keys, updates)));
    WriteThenParse(file, keys, updates, key);
    WriteThenParse(once, keys, updates, key);
  }
}

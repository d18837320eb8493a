/** The documentation generator's brace-counting scanners, against a reading of the source as nested
    blocks. */
module SourceScanners {
  import opened Wrappers
  import opened Text

  // ---- splitTopLevel ----

  function Delta(ch: char): int {
    if ch == '{' then 1 else if ch == '}' then -1 else 0
  }

  /** Opening minus closing braces. */
  function Depth(s: string): int {
    if s == "" then 0
    else Depth(s[..|s| - 1]) + Delta(s[|s| - 1])
  }

  /** Every closing brace has its opening one, and none stays open. */
  ghost predicate Balanced(s: string) {
    Depth(s) == 0 && forall i | 0 <= i <= |s| :: Depth(s[..i]) >= 0
  }

  ghost predicate HasTopLevelComma(s: string) {
    exists i | 0 <= i < |s| :: s[i] == ',' && Depth(s[..i]) == 0
  }

  datatype Scan = Scan(parts: seq<string>, current: string, depth: int)

  function Scanned(text: string): Scan {
    if text == "" then Scan([], "", 0)
    else
      var s, ch := Scanned(text[..|text| - 1]), text[|text| - 1];
      if ch == '{' then s.(depth := s.depth + 1, current := s.current + [ch])
      else if ch == '}' then s.(depth := s.depth - 1, current := s.current + [ch])
      else if ch == ',' && s.depth == 0 then s.(parts := s.parts + [s.current], current := "")
      else s.(current := s.current + [ch])
  }

  function TopLevelParts(text: string): seq<string> {
    var s := Scanned(text);
    if Trim(s.current) != "" then s.parts + [s.current] else s.parts
  }

  method SplitTopLevel(text: string) returns (parts: seq<string>)
    ensures parts == TopLevelParts(text)
  {
    parts := [];
    var depth := 0;
    var current := "";
    for i := 0 to |text|
      invariant Scan(parts, current, depth) == Scanned(text[..i])
    {
      assert text[..i + 1][..i] == text[..i];
      var ch := text[i];
      match ch {
        case '{' =>
          depth := depth + 1;
          current := current + [ch];
        case '}' =>
          depth := depth - 1;
          current := current + [ch];
        case ',' =>
          if depth == 0 {
            parts := parts + [current];
            current := "";
          } else {
            current := current + [ch];
          }
        case _ =>
          current := current + [ch];
      }
    }
    assert text[..|text|] == text;
    if Trim(current) != "" {
      parts := parts + [current];
    }
  }

  lemma {:induction false} JoinSnoc(parts: seq<string>, last: string, more: string)
    ensures Join(parts + [last + more], ',') == Join(parts + [last], ',') + more
    ensures Join(parts + [last, more], ',') == Join(parts + [last], ',') + "," + more
  {
    if parts == [] {
      assert [last, more][1..] == [more];
    } else {
      assert (parts + [last + more])[1..] == parts[1..] + [last + more];
      assert (parts + [last])[1..] == parts[1..] + [last];
      assert (parts + [last, more])[1..] == parts[1..] + [last, more];
      JoinSnoc(parts[1..], last, more);
    }
  }

  lemma JoinStartsPart(parts: seq<string>, last: string)
    ensures Join(parts + [last] + [""], ',') == Join(parts + [last], ',') + ","
  {
    JoinSnoc(parts, last, "");
    assert parts + [last] + [""] == parts + [last, ""];
  }

  /** For any text at all, the parts and what follows them, joined by commas, are the text. */
  lemma {:induction false} ScanIsLossless(text: string)
    ensures var s := Scanned(text); Join(s.parts + [s.current], ',') == text
  {
    if text != "" {
      var n := |text| - 1;
      ScanIsLossless(text[..n]);
      var s := Scanned(text[..n]);
      assert text == text[..n] + [text[n]];
      JoinSnoc(s.parts, s.current, [text[n]]);
      JoinStartsPart(s.parts, s.current);
    }
  }

  /** Rejoining the parts gives back the text, up to a dropped blank last part. */
  lemma SplittingIsLossless(text: string)
    ensures var parts, last := TopLevelParts(text), Scanned(text).current;
            || text == Join(parts, ',')
            || (Trim(last) == "" && text == if parts == [] then last else Join(parts, ',') + "," + last)
  {
    var s := Scanned(text);
    ScanIsLossless(text);
    if Trim(s.current) == "" && s.parts != [] {
      JoinOneMore(s.parts, s.current);
    }
  }

  /** What the scan knows: its depth is that of the text and of the part under way, finished parts
      are closed, and no part holds a comma at depth 0. */
  lemma {:induction false} ScanShape(text: string)
    requires forall i | 0 <= i <= |text| :: Depth(text[..i]) >= 0
    ensures var s := Scanned(text);
            && s.depth == Depth(text) == Depth(s.current)
            && (forall i | 0 <= i <= |s.current| :: Depth(s.current[..i]) >= 0)
            && !HasTopLevelComma(s.current)
            && (forall p | p in s.parts :: Balanced(p) && !HasTopLevelComma(p))
  {
    if text != "" {
      var n := |text| - 1;
      forall i | 0 <= i <= n ensures Depth(text[..n][..i]) >= 0 {
        assert text[..n][..i] == text[..i];
      }
      ScanShape(text[..n]);
      var s, s' := Scanned(text[..n]), Scanned(text);
      assert text[..|text|] == text;
      if s'.parts == s.parts {
        GrowPart(s.current, text[n], s.depth, Depth(text));
      } else {
        assert s.current[..|s.current|] == s.current;
      }
    }
  }

  lemma GrowPart(part: string, ch: char, before: int, after: int)
    requires before == Depth(part)
    requires forall i | 0 <= i <= |part| :: Depth(part[..i]) >= 0
    requires !HasTopLevelComma(part)
    requires after == before + Delta(ch) && after >= 0
    requires ch == ',' ==> before != 0
    ensures Depth(part + [ch]) == after
    ensures forall i | 0 <= i <= |part + [ch]| :: Depth((part + [ch])[..i]) >= 0
    ensures !HasTopLevelComma(part + [ch])
  {
    var whole := part + [ch];
    assert whole[..|part|] == part && whole[..|whole|] == whole && part[..|part|] == part;
    assert Depth(whole) == after;
    forall i | 0 <= i <= |whole| ensures Depth(whole[..i]) >= 0 {
      if i <= |part| {
        assert whole[..i] == part[..i];
      } else {
        assert whole[..i] == whole;
      }
    }
    NoNewComma(part, ch);
  }

  lemma NoNewComma(part: string, ch: char)
    requires !HasTopLevelComma(part) && (ch == ',' ==> Depth(part) != 0)
    ensures !HasTopLevelComma(part + [ch])
  {
    var whole := part + [ch];
    forall i | 0 <= i < |whole| ensures !(whole[i] == ',' && Depth(whole[..i]) == 0) {
      if i < |part| {
        assert whole[..i] == part[..i] && whole[i] == part[i];
      } else {
        assert whole[..i] == part;
      }
    }
  }

  /** On brace-balanced text every part is balanced and holds no comma at depth 0. */
  lemma PartsAreWhole(text: string)
    requires Balanced(text)
    ensures forall p | p in TopLevelParts(text) :: Balanced(p) && !HasTopLevelComma(p)
  {
    ScanShape(text);
  }

  /** And it is the only such splitting: balanced parts without top-level commas, the last one not
      blank, come back from their joined text. */
  lemma {:induction false} PartsComeBack(parts: seq<string>)
    requires parts != [] && Trim(parts[|parts| - 1]) != ""
    requires forall p | p in parts :: Balanced(p) && !HasTopLevelComma(p)
    ensures TopLevelParts(Join(parts, ',')) == parts
  {
    ScanJoined(parts);
    FrontAndLast(parts);
  }

  lemma ScanComma(text: string)
    requires Scanned(text).depth == 0
    ensures var s := Scanned(text); Scanned(text + ",") == Scan(s.parts + [s.current], "", 0)
  {
    assert (text + ",")[..|text|] == text;
  }

  lemma ScanClosedPart(text: string, part: string)
    requires Scanned(text).current == "" && Scanned(text).depth == 0
    requires Balanced(part) && !HasTopLevelComma(part)
    ensures Scanned(text + part) == Scan(Scanned(text).parts, part, 0)
  {
    assert part[..|part|] == part;
    ScanOnePart(text, part, |part|);
  }

  ghost predicate AllWhole(parts: seq<string>) {
    forall p | p in parts :: Balanced(p) && !HasTopLevelComma(p)
  }

  lemma {:induction false} ScanJoined(parts: seq<string>)
    requires parts != [] && AllWhole(parts)
    ensures Scanned(Join(parts, ',')) == Scan(parts[..|parts| - 1], parts[|parts| - 1], 0)
  {
    var n := |parts| - 1;
    FrontAndLast(parts);
    if n == 0 {
      ScanFirstPart(parts[0]);
      assert parts[..0] == [];
    } else {
      ScanJoined(parts[..n]);
      ScanNextPart(parts[..n], parts[n]);
    }
  }

  lemma ScanFirstPart(part: string)
    requires Balanced(part) && !HasTopLevelComma(part)
    ensures Scanned(part) == Scan([], part, 0)
  {
    ScanClosedPart("", part);
    assert "" + part == part;
  }

  lemma ScanNextPart(before: seq<string>, last: string)
    requires before != [] && Scanned(Join(before, ',')) == Scan(before[..|before| - 1], before[|before| - 1], 0)
    requires Balanced(last) && !HasTopLevelComma(last)
    ensures Scanned(Join(before + [last], ',')) == Scan(before, last, 0)
  {
    JoinOneMore(before, last);
    FrontAndLast(before);
    ScanAfterComma(Join(before, ','), last, before);
  }

  lemma FrontAndLast(parts: seq<string>)
    requires parts != []
    ensures parts[..|parts| - 1] + [parts[|parts| - 1]] == parts
  {
  }

  lemma ScanAfterComma(text: string, last: string, before: seq<string>)
    requires var s := Scanned(text); s.depth == 0 && s.parts + [s.current] == before
    requires Balanced(last) && !HasTopLevelComma(last)
    ensures Scanned(text + "," + last) == Scan(before, last, 0)
  {
    ScanComma(text);
    ScanClosedPart(text + ",", last);
  }

  lemma JoinOneMore(before: seq<string>, last: string)
    requires before != []
    ensures Join(before + [last], ',') == Join(before, ',') + "," + last
  {
    var n := |before| - 1;
    JoinSnoc(before[..n], before[n], last);
    assert before == before[..n] + [before[n]] && before + [last] == before[..n] + [before[n], last];
  }

  /** Scanning a prefix of a closed part from a clean state collects it. */
  lemma {:induction false} ScanOnePart(text: string, whole: string, n: nat)
    requires Scanned(text).current == "" && Scanned(text).depth == 0
    requires n <= |whole| && Balanced(whole) && !HasTopLevelComma(whole)
    ensures Scanned(text + whole[..n]) == Scan(Scanned(text).parts, whole[..n], Depth(whole[..n]))
  {
    if n == 0 {
      assert text + whole[..0] == text;
    } else {
      ScanOnePart(text, whole, n - 1);
      PrefixStep(text, whole, n - 1);
      NoCommaAt(whole, n - 1);
      ScanKept(text + whole[..n - 1], whole[n - 1]);
      DepthSnoc(whole[..n - 1], whole[n - 1]);
    }
  }

  lemma PrefixStep(text: string, whole: string, n: nat)
    requires n < |whole|
    ensures whole[..n + 1] == whole[..n] + [whole[n]]
    ensures text + whole[..n + 1] == text + whole[..n] + [whole[n]]
  {
  }

  /** A character that does not end a part goes to the part under way. */
  lemma ScanKept(text: string, ch: char)
    requires ch == ',' ==> Scanned(text).depth != 0
    ensures var s := Scanned(text);
            Scanned(text + [ch]) == Scan(s.parts, s.current + [ch], s.depth + Delta(ch))
  {
    assert (text + [ch])[..|text|] == text;
  }

  lemma DepthSnoc(s: string, ch: char)
    ensures Depth(s + [ch]) == Depth(s) + Delta(ch)
  {
    assert (s + [ch])[..|s|] == s;
  }

  lemma NoCommaAt(whole: string, n: nat)
    requires n < |whole| && !HasTopLevelComma(whole)
    ensures whole[n] == ',' ==> Depth(whole[..n]) != 0
  {
  }

  // ---- parseHandlerScopes ----

  /** A source line: its text, the scope it puts in force if it is an `r.Use(scope(...))` with a known
      constant, the handlers whose registrations overwrite, and the one that does not. */
  datatype Line = Line(text: string, scope: Option<string>, handlers: seq<string>, direct: Option<string>)

  /** Recording a line's handlers under the scope in force. */
  function Record(result: map<string, string>, line: Line, scope: string): map<string, string> {
    if scope == "" then result
    else
      var all := RecordAll(result, line.handlers, scope);
      if line.direct.Some? && line.direct.value !in all then all[line.direct.value := scope] else all
  }

  function RecordAll(result: map<string, string>, handlers: seq<string>, scope: string): map<string, string> {
    if handlers == [] then result
    else
      var n := |handlers| - 1;
      RecordAll(result, handlers[..n], scope)[handlers[n] := scope]
  }

  /** The scanner's variables. */
  datatype Tracker = Tracker(current: string, depth: int, scopeDepth: int)

  function TrackChar(t: Tracker, ch: char): Tracker {
    if ch == '{' then t.(depth := t.depth + 1)
    else if ch == '}' then
      if t.scopeDepth >= 0 && t.depth - 1 < t.scopeDepth then Tracker("", t.depth - 1, -1) else t.(depth := t.depth - 1)
    else t
  }

  function TrackText(t: Tracker, text: string): Tracker {
    if text == "" then t else TrackChar(TrackText(t, text[..|text| - 1]), text[|text| - 1])
  }

  function TrackLine(t: Tracker, line: Line): Tracker {
    var t' := TrackText(t, line.text);
    if line.scope.Some? then Tracker(line.scope.value, t'.depth, t'.depth) else t'
  }

  const AT_START := Tracker("", 0, -1)

  function Tracked(lines: seq<Line>): Tracker {
    if lines == [] then AT_START else TrackLine(Tracked(lines[..|lines| - 1]), lines[|lines| - 1])
  }

  function HandlerScopes(lines: seq<Line>): map<string, string> {
    if lines == [] then map[]
    else Record(HandlerScopes(lines[..|lines| - 1]), lines[|lines| - 1], Tracked(lines).current)
  }

  method ParseHandlerScopes(lines: seq<Line>) returns (result: map<string, string>)
    ensures result == HandlerScopes(lines)
  {
    result := map[];
    var t := AT_START;
    for i := 0 to |lines|
      invariant t == Tracked(lines[..i])
      invariant result == HandlerScopes(lines[..i])
    {
      assert lines[..i + 1][..i] == lines[..i];
      t := ScanBraces(t, lines[i].text);
      if lines[i].scope.Some? {
        t := t.(current := lines[i].scope.value, scopeDepth := t.depth);
      }
      result := RecordLine(result, lines[i], t.current);
    }
    assert lines[..|lines|] == lines;
  }

  method ScanBraces(start: Tracker, text: string) returns (t: Tracker)
    ensures t == TrackText(start, text)
  {
    t := start;
    for i := 0 to |text|
      invariant t == TrackText(start, text[..i])
    {
      assert text[..i + 1][..i] == text[..i];
      if text[i] == '{' {
        t := t.(depth := t.depth + 1);
      } else if text[i] == '}' {
        t := t.(depth := t.depth - 1);
        if t.scopeDepth >= 0 && t.depth < t.scopeDepth {
          t := t.(current := "", scopeDepth := -1);
        }
      }
    }
    assert text[..|text|] == text;
  }

  method RecordLine(before: map<string, string>, line: Line, scope: string) returns (result: map<string, string>)
    ensures result == Record(before, line, scope)
  {
    result := before;
    if scope == "" {
      return;
    }
    for i := 0 to |line.handlers|
      invariant result == RecordAll(before, line.handlers[..i], scope)
    {
      assert line.handlers[..i + 1][..i] == line.handlers[..i];
      result := result[line.handlers[i] := scope];
    }
    assert line.handlers[..|line.handlers|] == line.handlers;
    if line.direct.Some? && line.direct.value !in result {
      result := result[line.direct.value := scope];
    }
  }

  // ---- The source read as nested blocks ----

  /** The open blocks, outermost first, each with the scope declared directly in it. The first entry
      stands for the file itself. */
  type Blocks = seq<Option<string>>

  function BlocksAfterText(blocks: Blocks, text: string): Blocks {
    if text == "" then blocks
    else
      var b := BlocksAfterText(blocks, text[..|text| - 1]);
      if text[|text| - 1] == '{' then b + [None]
      else if text[|text| - 1] == '}' && b != [] then b[..|b| - 1]
      else b
  }

  function BlocksAfterLine(blocks: Blocks, line: Line): Blocks {
    var b := BlocksAfterText(blocks, line.text);
    if line.scope.Some? && b != [] then b[|b| - 1 := line.scope] else b
  }

  function OpenBlocks(lines: seq<Line>): Blocks {
    if lines == [] then [None] else BlocksAfterLine(OpenBlocks(lines[..|lines| - 1]), lines[|lines| - 1])
  }

  /** The scope of the innermost block that declares one. */
  function ScopeInForce(blocks: Blocks): string {
    if blocks == [] then ""
    else if blocks[|blocks| - 1].Some? then blocks[|blocks| - 1].value
    else ScopeInForce(blocks[..|blocks| - 1])
  }

  function BlockScopes(lines: seq<Line>): map<string, string> {
    if lines == [] then map[]
    else Record(BlockScopes(lines[..|lines| - 1]), lines[|lines| - 1], ScopeInForce(OpenBlocks(lines)))
  }

  predicate Declares(blocks: Blocks) {
    exists k | 0 <= k < |blocks| :: blocks[k].Some?
  }

  /** The block reading, and whether a declaring block has closed inside another one with no scope
      declared since and some declaring block still open. */
  datatype Reading = Reading(blocks: Blocks, lost: bool)

  function ReadChar(r: Reading, ch: char): Reading {
    if ch == '{' then r.(blocks := r.blocks + [None])
    else if ch == '}' && r.blocks != [] then
      var n := |r.blocks| - 1;
      Reading(r.blocks[..n], Declares(r.blocks[..n]) && (r.lost || r.blocks[n].Some?))
    else r
  }

  function ReadText(r: Reading, text: string): Reading {
    if text == "" then r else ReadChar(ReadText(r, text[..|text| - 1]), text[|text| - 1])
  }

  function ReadLine(r: Reading, line: Line): Reading {
    var r' := ReadText(r, line.text);
    if line.scope.Some? && r'.blocks != [] then Reading(r'.blocks[|r'.blocks| - 1 := line.scope], false) else r'
  }

  function ReadSource(lines: seq<Line>): Reading {
    if lines == [] then Reading([None], false) else ReadLine(ReadSource(lines[..|lines| - 1]), lines[|lines| - 1])
  }

  lemma {:induction false} ReadTextBlocks(r: Reading, text: string)
    ensures ReadText(r, text).blocks == BlocksAfterText(r.blocks, text)
  {
    if text != "" {
      ReadTextBlocks(r, text[..|text| - 1]);
    }
  }

  lemma {:induction false} ReadSourceBlocks(lines: seq<Line>)
    ensures ReadSource(lines).blocks == OpenBlocks(lines)
  {
    if lines != [] {
      ReadSourceBlocks(lines[..|lines| - 1]);
      ReadTextBlocks(ReadSource(lines[..|lines| - 1]), lines[|lines| - 1].text);
    }
  }

  /** No line closes a block that is not open. */
  ghost predicate Closed(blocks: Blocks, text: string) {
    forall i | 0 <= i <= |text| :: BlocksAfterText(blocks, text[..i]) != []
  }

  /** Braces match and scopes have names. */
  ghost predicate WellScoped(lines: seq<Line>) {
    forall i | 0 <= i < |lines| ::
      && Closed(OpenBlocks(lines[..i]), lines[i].text)
      && (lines[i].scope.Some? ==> lines[i].scope.value != "")
  }

  ghost predicate Named(blocks: Blocks) {
    forall k | 0 <= k < |blocks| :: blocks[k].Some? ==> blocks[k].value != ""
  }

  /** The tracker stands for the reading: it knows the innermost declaring block and how deep it is,
      unless the reading is lost, when it knows none. */
  ghost predicate Represents(t: Tracker, r: Reading) {
    && r.blocks != [] && Named(r.blocks)
    && t.depth == |r.blocks| - 1
    && -1 <= t.scopeDepth <= t.depth
    && (t.scopeDepth == -1 ==> t.current == "" && (r.lost <==> Declares(r.blocks)))
    && (t.scopeDepth >= 0 ==>
          && !r.lost && r.blocks[t.scopeDepth] == Some(t.current)
          && forall k | t.scopeDepth < k < |r.blocks| :: r.blocks[k].None?)
  }

  lemma CharKeepsRepresents(t: Tracker, r: Reading, ch: char)
    requires Represents(t, r) && ReadChar(r, ch).blocks != []
    ensures Represents(TrackChar(t, ch), ReadChar(r, ch))
  {
    var n := |r.blocks| - 1;
    if ch == '{' && Declares(r.blocks) {
      var k :| 0 <= k < |r.blocks| && r.blocks[k].Some?;
      assert (r.blocks + [None])[k].Some?;
    } else if ch == '}' && Declares(r.blocks) && r.blocks[n].None? {
      var k :| 0 <= k < |r.blocks| && r.blocks[k].Some?;
      assert r.blocks[..n][k].Some?;
    }
  }

  lemma {:induction false} TextKeepsRepresents(t: Tracker, r: Reading, text: string)
    requires Represents(t, r) && Closed(r.blocks, text)
    ensures Represents(TrackText(t, text), ReadText(r, text))
  {
    if text != "" {
      var n := |text| - 1;
      forall i | 0 <= i <= n ensures BlocksAfterText(r.blocks, text[..n][..i]) != [] {
        assert text[..n][..i] == text[..i];
      }
      TextKeepsRepresents(t, r, text[..n]);
      assert text[..|text|] == text;
      ReadTextBlocks(r, text);
      CharKeepsRepresents(TrackText(t, text[..n]), ReadText(r, text[..n]), text[n]);
    }
  }

  lemma {:induction false} InnermostInForce(blocks: Blocks, k: nat)
    requires k < |blocks| && blocks[k].Some? && forall j | k < j < |blocks| :: blocks[j].None?
    ensures ScopeInForce(blocks) == blocks[k].value
    decreases |blocks|
  {
    if k < |blocks| - 1 {
      InnermostInForce(blocks[..|blocks| - 1], k);
    }
  }

  lemma {:induction false} NoneInForce(blocks: Blocks)
    requires Named(blocks)
    ensures ScopeInForce(blocks) == "" <==> !Declares(blocks)
  {
    if blocks != [] {
      var front := blocks[..|blocks| - 1];
      NoneInForce(front);
      assert blocks == front + [blocks[|blocks| - 1]];
      if Declares(front) {
        var k :| 0 <= k < |front| && front[k].Some?;
        assert blocks[k].Some?;
      }
    }
  }

  lemma WellScopedPrefix(lines: seq<Line>)
    requires WellScoped(lines) && lines != []
    ensures WellScoped(lines[..|lines| - 1])
  {
    var front := lines[..|lines| - 1];
    forall i | 0 <= i < |front| ensures front[..i] == lines[..i] && front[i] == lines[i] {
    }
  }

  lemma {:induction false} TrackerRepresents(lines: seq<Line>)
    requires WellScoped(lines)
    ensures Represents(Tracked(lines), ReadSource(lines))
  {
    if lines != [] {
      var n := |lines| - 1;
      WellScopedPrefix(lines);
      TrackerRepresents(lines[..n]);
      ReadSourceBlocks(lines[..n]);
      assert Closed(OpenBlocks(lines[..n]), lines[n].text);
      TextKeepsRepresents(Tracked(lines[..n]), ReadSource(lines[..n]), lines[n].text);
    }
  }

  /** The scope the one-variable scan has in force is the block reading's, exactly when the reading is
      not lost. */
  lemma ScopeInForceExact(lines: seq<Line>)
    requires WellScoped(lines)
    ensures Tracked(lines).current == ScopeInForce(OpenBlocks(lines)) <==> !ReadSource(lines).lost
    ensures ReadSource(lines).lost ==> Tracked(lines).current == ""
  {
    var t, r := Tracked(lines), ReadSource(lines);
    TrackerRepresents(lines);
    ReadSourceBlocks(lines);
    if t.scopeDepth >= 0 {
      InnermostInForce(r.blocks, t.scopeDepth);
    } else {
      NoneInForce(r.blocks);
    }
  }

  // ---- From scopes in force to handlers' scopes ----

  ghost predicate NeverLost(lines: seq<Line>) {
    forall i | 0 <= i <= |lines| :: !ReadSource(lines[..i]).lost
  }

  /** The same source with handlers registered elsewhere. */
  ghost predicate SameShape(a: seq<Line>, b: seq<Line>) {
    |a| == |b| && forall i | 0 <= i < |a| :: a[i].text == b[i].text && a[i].scope == b[i].scope
  }

  lemma {:induction false} ShapeDecides(a: seq<Line>, b: seq<Line>)
    requires SameShape(a, b)
    ensures Tracked(a) == Tracked(b) && OpenBlocks(a) == OpenBlocks(b) && ReadSource(a) == ReadSource(b)
  {
    if a != [] {
      ShapeDecides(a[..|a| - 1], b[..|b| - 1]);
    }
  }

  lemma SameShapePrefixes(a: seq<Line>, b: seq<Line>)
    requires SameShape(a, b)
    ensures forall i | 0 <= i <= |a| ::
              OpenBlocks(a[..i]) == OpenBlocks(b[..i]) && ReadSource(a[..i]) == ReadSource(b[..i])
    ensures WellScoped(a) ==> WellScoped(b)
  {
    forall i | 0 <= i <= |a|
      ensures OpenBlocks(a[..i]) == OpenBlocks(b[..i]) && ReadSource(a[..i]) == ReadSource(b[..i])
    {
      ShapeDecides(a[..i], b[..i]);
    }
  }

  lemma {:induction false} NeverLostAgrees(lines: seq<Line>)
    requires WellScoped(lines) && NeverLost(lines)
    ensures HandlerScopes(lines) == BlockScopes(lines)
  {
    if lines != [] {
      var n := |lines| - 1;
      WellScopedPrefix(lines);
      forall i | 0 <= i <= n ensures !ReadSource(lines[..n][..i]).lost {
        assert lines[..n][..i] == lines[..i];
      }
      NeverLostAgrees(lines[..n]);
      assert lines[..|lines|] == lines;
      ScopeInForceExact(lines);
    }
  }

  /** The source with one handler, on line `k`. */
  function WithHandlerAt(lines: seq<Line>, k: nat): (placed: seq<Line>)
    ensures SameShape(lines, placed) && HandlerOnlyAt(placed, k)
  {
    seq(|lines|, i requires 0 <= i < |lines| =>
      Line(lines[i].text, lines[i].scope, if i == k then ["handler"] else [], None))
  }

  ghost predicate HandlerOnlyAt(placed: seq<Line>, k: nat) {
    forall i | 0 <= i < |placed| ::
      placed[i].direct.None? && placed[i].handlers == if i == k then ["handler"] else []
  }

  lemma RecordOne(result: map<string, string>, line: Line, scope: string)
    requires line.direct.None?
    ensures line.handlers == [] ==> Record(result, line, scope) == result
    ensures line.handlers == ["handler"] ==>
              Record(result, line, scope) == if scope == "" then result else result["handler" := scope]
  {
    assert ["handler"][..0] == [];
    assert RecordAll(result, ["handler"], scope) == result["handler" := scope];
  }

  /** Before its one handler nothing is recorded, and after it nothing changes. */
  lemma {:induction false} NothingRecordedYet(placed: seq<Line>, k: nat, n: nat)
    requires HandlerOnlyAt(placed, k) && n <= k < |placed|
    ensures HandlerScopes(placed[..n]) == map[] == BlockScopes(placed[..n])
  {
    if n > 0 {
      NothingRecordedYet(placed, k, n - 1);
      QuietLine(placed, n - 1);
    }
  }

  lemma {:induction false} NothingRecordedSince(placed: seq<Line>, k: nat, n: nat)
    requires HandlerOnlyAt(placed, k) && k < n <= |placed|
    ensures HandlerScopes(placed[..n]) == HandlerScopes(placed[..k + 1])
    ensures BlockScopes(placed[..n]) == BlockScopes(placed[..k + 1])
  {
    if n > k + 1 {
      NothingRecordedSince(placed, k, n - 1);
      QuietLine(placed, n - 1);
    }
  }

  lemma QuietLine(placed: seq<Line>, n: nat)
    requires n < |placed| && placed[n].handlers == [] && placed[n].direct.None?
    ensures HandlerScopes(placed[..n + 1]) == HandlerScopes(placed[..n])
    ensures BlockScopes(placed[..n + 1]) == BlockScopes(placed[..n])
  {
    var lines := placed[..n + 1];
    assert lines[..|lines| - 1] == placed[..n] && lines[|lines| - 1] == placed[n];
    OneLineMore(lines, placed[..n]);
  }

  /** A handler on a line that ends lost is missed by the scan and found by the block reading. */
  lemma LostHandlerIsMissed(lines: seq<Line>, k: nat)
    requires WellScoped(lines) && k < |lines| && ReadSource(lines[..k + 1]).lost
    ensures HandlerScopes(WithHandlerAt(lines, k)) == map[]
    ensures "handler" in BlockScopes(WithHandlerAt(lines, k))
  {
    var placed := WithHandlerAt(lines, k);
    LostAt(lines, k);
    NothingRecordedYet(placed, k, k);
    OneLineMore(placed[..k + 1], placed[..k]);
    NothingRecordedSince(placed, k, |placed|);
    assert placed[..|placed|] == placed;
  }

  /** One more line, with one handler or none. */
  lemma OneLineMore(lines: seq<Line>, before: seq<Line>)
    requires lines != [] && before == lines[..|lines| - 1]
    requires lines[|lines| - 1].direct.None? && lines[|lines| - 1].handlers in {[], ["handler"]}
    ensures var none := lines[|lines| - 1].handlers == [];
            && HandlerScopes(lines) == (
                 if none || Tracked(lines).current == "" then HandlerScopes(before)
                 else HandlerScopes(before)["handler" := Tracked(lines).current])
            && BlockScopes(lines) == (
                 if none || ScopeInForce(OpenBlocks(lines)) == "" then BlockScopes(before)
                 else BlockScopes(before)["handler" := ScopeInForce(OpenBlocks(lines))])
  {
    var last := lines[|lines| - 1];
    RecordOne(HandlerScopes(before), last, Tracked(lines).current);
    RecordOne(BlockScopes(before), last, ScopeInForce(OpenBlocks(lines)));
  }

  lemma LostAt(lines: seq<Line>, k: nat)
    requires WellScoped(lines) && k < |lines| && ReadSource(lines[..k + 1]).lost
    ensures var front := WithHandlerAt(lines, k)[..k + 1];
            Tracked(front).current == "" && ScopeInForce(OpenBlocks(front)) != ""
  {
    var placed := WithHandlerAt(lines, k);
    SameShapePrefixes(lines, placed);
    PrefixIsWellScoped(placed, k + 1);
    ScopeInForceExact(placed[..k + 1]);
  }

  lemma PrefixIsWellScoped(lines: seq<Line>, n: nat)
    requires WellScoped(lines) && n <= |lines|
    ensures WellScoped(lines[..n])
  {
    forall i | 0 <= i < n ensures lines[..n][..i] == lines[..i] && lines[..n][i] == lines[i] {
    }
  }

  /** The one-variable scan and the block reading give every handler the same scope, wherever
      handlers are registered. */
  ghost predicate AgreesEverywhere(lines: seq<Line>) {
    forall placed | SameShape(lines, placed) :: HandlerScopes(placed) == BlockScopes(placed)
  }

  lemma NeverLostAgreesEverywhere(lines: seq<Line>)
    requires WellScoped(lines) && NeverLost(lines)
    ensures AgreesEverywhere(lines)
  {
    forall placed | SameShape(lines, placed) ensures HandlerScopes(placed) == BlockScopes(placed) {
      SameShapePrefixes(lines, placed);
      forall i | 0 <= i <= |placed| ensures !ReadSource(placed[..i]).lost {
        assert ReadSource(lines[..i]) == ReadSource(placed[..i]);
      }
      NeverLostAgrees(placed);
    }
  }

  lemma LostDisagreesSomewhere(lines: seq<Line>, i: nat)
    requires WellScoped(lines) && i <= |lines| && ReadSource(lines[..i]).lost
    ensures !AgreesEverywhere(lines)
  {
    assert lines[..0] == [];
    LostHandlerIsMissed(lines, i - 1);
    assert HandlerScopes(WithHandlerAt(lines, i - 1)) != BlockScopes(WithHandlerAt(lines, i - 1));
  }

  /** Scope attribution: scan and block reading agree everywhere if and only if no line ends lost. */
  lemma AttributionExact(lines: seq<Line>)
    requires WellScoped(lines)
    ensures AgreesEverywhere(lines) <==> NeverLost(lines)
  {
    if NeverLost(lines) {
      NeverLostAgreesEverywhere(lines);
    } else {
      var i :| 0 <= i <= |lines| && ReadSource(lines[..i]).lost;
      LostDisagreesSomewhere(lines, i);
    }
  }

  // ---- Flat groups ----

  /** No scope is declared inside another one's block. */
  ghost predicate FlatGroups(lines: seq<Line>) {
    && WellScoped(lines)
    && forall i | 0 <= i < |lines| && lines[i].scope.Some? ::
         var b := BlocksAfterText(OpenBlocks(lines[..i]), lines[i].text);
         forall k | 0 <= k < |b| - 1 :: b[k].None?
  }

  /** At most one block declares a scope, and nothing is lost. */
  ghost predicate Flat(r: Reading) {
    !r.lost && forall j, k | 0 <= j < k < |r.blocks| :: r.blocks[j].None? || r.blocks[k].None?
  }

  lemma {:induction false} TextKeepsFlat(r: Reading, text: string)
    requires Flat(r)
    ensures Flat(ReadText(r, text))
  {
    if text != "" {
      TextKeepsFlat(r, text[..|text| - 1]);
    }
  }

  lemma {:induction false} FlatIsNeverLost(lines: seq<Line>, n: nat)
    requires FlatGroups(lines) && n <= |lines|
    ensures Flat(ReadSource(lines[..n]))
  {
    if n > 0 {
      FlatIsNeverLost(lines, n - 1);
      var before, line := ReadSource(lines[..n - 1]), lines[n - 1];
      assert lines[..n][..n - 1] == lines[..n - 1];
      TextKeepsFlat(before, line.text);
      ReadSourceBlocks(lines[..n - 1]);
      ReadTextBlocks(before, line.text);
    }
  }

  /** Where no scope group nests inside another, every handler gets the scope its enclosing blocks
      declare, and none outside any group. */
  lemma ScanAgreesWithBlocks(lines: seq<Line>)
    requires FlatGroups(lines)
    ensures HandlerScopes(lines) == BlockScopes(lines)
  {
    forall i | 0 <= i <= |lines| ensures !ReadSource(lines[..i]).lost {
      FlatIsNeverLost(lines, i);
    }
    NeverLostAgrees(lines);
  }

  /** A nested group: once it closes, the scan has forgotten the outer group's scope. */
  const OUTER := Line("{", Some("outer"), [], None)
  const INNER := Line("{", Some("inner"), [], None)
  const AFTER := Line("}", None, ["handler"], None)

  lemma TrackNested()
    ensures TrackLine(TrackLine(TrackLine(AT_START, OUTER), INNER), AFTER) == Tracker("", 1, -1)
  {
    TrackBrace(AT_START, '{');
    TrackBrace(Tracker("outer", 1, 1), '{');
    TrackBrace(Tracker("inner", 2, 2), '}');
  }

  lemma TrackBrace(t: Tracker, ch: char)
    ensures TrackText(t, [ch]) == TrackChar(t, ch)
  {
    assert [ch][..0] == "";
  }

  lemma BlocksBrace(blocks: Blocks, ch: char)
    ensures BlocksAfterText(blocks, [ch]) ==
            if ch == '{' then blocks + [None] else if ch == '}' && blocks != [] then blocks[..|blocks| - 1] else blocks
  {
    assert [ch][..0] == "";
    assert BlocksAfterText(blocks, [ch][..0]) == blocks;
  }

  lemma NestedBlocks()
    ensures BlocksAfterLine(BlocksAfterLine(BlocksAfterLine([None], OUTER), INNER), AFTER) == [None, Some("outer")]
  {
    var o := Some("outer");
    BlocksBrace([None], '{');
    assert BlocksAfterLine([None], OUTER) == [None, o];
    BlocksBrace([None, o], '{');
    assert BlocksAfterLine([None, o], INNER) == [None, o, Some("inner")];
    BlocksBrace([None, o, Some("inner")], '}');
  }

  lemma ThreeLines(a: Line, b: Line, c: Line)
    requires a.handlers == [] == b.handlers && a.direct == None == b.direct
    ensures Tracked([a, b, c]) == TrackLine(TrackLine(TrackLine(AT_START, a), b), c)
    ensures OpenBlocks([a, b, c]) == BlocksAfterLine(BlocksAfterLine(BlocksAfterLine([None], a), b), c)
    ensures HandlerScopes([a, b, c]) == Record(map[], c, Tracked([a, b, c]).current)
    ensures BlockScopes([a, b, c]) == Record(map[], c, ScopeInForce(OpenBlocks([a, b, c])))
  {
    assert [a][..0] == [] && [a, b][..1] == [a] && [a, b, c][..2] == [a, b];
    assert Tracked([a]) == TrackLine(AT_START, a) && Tracked([a, b]) == TrackLine(Tracked([a]), b);
    assert OpenBlocks([a]) == BlocksAfterLine([None], a) && OpenBlocks([a, b]) == BlocksAfterLine(OpenBlocks([a]), b);
    assert HandlerScopes([a]) == map[] == HandlerScopes([a, b]);
    assert BlockScopes([a]) == map[] == BlockScopes([a, b]);
  }

  lemma NestedGroupsAreForgotten()
    ensures HandlerScopes([OUTER, INNER, AFTER]) == map[]
    ensures BlockScopes([OUTER, INNER, AFTER]) == map["handler" := "outer"]
  {
    ThreeLines(OUTER, INNER, AFTER);
    TrackNested();
    NestedBlocks();
    assert ["handler"][..0] == [];
    assert RecordAll(map[], ["handler"], "outer") == map["handler" := "outer"];
    assert ScopeInForce([None, Some("outer")]) == "outer";
  }
}

/** The pieces of Go's `strings` and `bufio` packages that the relay's parsers and writers use,
    with the facts about them that the round trips need. */
module Text {

  /** `unicode.IsSpace`. */
  predicate IsSpace(c: char) {
    c in {'\t', '\n', '\U{B}', '\U{C}', '\r', ' ', '\U{85}', '\U{A0}', '\U{1680}',
          '\U{2028}', '\U{2029}', '\U{202F}', '\U{205F}', '\U{3000}'}
    || '\U{2000}' <= c <= '\U{200A}'
  }

  function TrimLeft(s: string): string {
    if s != "" && IsSpace(s[0]) then TrimLeft(s[1..]) else s
  }

  function TrimRight(s: string): string {
    if s != "" && IsSpace(s[|s| - 1]) then TrimRight(s[..|s| - 1]) else s
  }

  /** `strings.TrimSpace`. */
  function Trim(s: string): string {
    TrimRight(TrimLeft(s))
  }

  /** No blank at either end. */
  predicate Trimmed(s: string) {
    s == "" || (!IsSpace(s[0]) && !IsSpace(s[|s| - 1]))
  }

  lemma TrimLeftStart(s: string)
    ensures TrimLeft(s) == "" || !IsSpace(TrimLeft(s)[0])
  {
  }

  lemma TrimRightEnds(s: string)
    ensures TrimRight(s) <= s
    ensures TrimRight(s) == "" || !IsSpace(TrimRight(s)[|TrimRight(s)| - 1])
  {
  }

  lemma TrimIsTrimmed(s: string)
    ensures Trimmed(Trim(s))
  {
    TrimLeftStart(s);
    TrimRightEnds(TrimLeft(s));
  }

  lemma TrimTrimmed(s: string)
    requires Trimmed(s)
    ensures Trim(s) == s
  {
  }

  /** Trimming shortens exactly the texts with a blank at an end. */
  lemma TrimShortens(s: string)
    ensures |Trim(s)| <= |s|
    ensures |Trim(s)| == |s| <==> Trimmed(s)
  {
    TrimLeftShortens(s);
    TrimRightEnds(TrimLeft(s));
    if Trimmed(s) {
      TrimTrimmed(s);
    }
  }

  lemma TrimLeftShortens(s: string)
    ensures |TrimLeft(s)| <= |s|
    ensures |TrimLeft(s)| == |s| ==> TrimLeft(s) == s && (s == "" || !IsSpace(s[0]))
  {
  }

  /** A trailing blank never changes what a trim leaves. */
  lemma {:induction false} TrimDropsLastBlank(s: string)
    requires s != "" && IsSpace(s[|s| - 1])
    ensures Trim(s) == Trim(s[..|s| - 1])
  {
    if IsSpace(s[0]) && |s| > 1 {
      assert s[1..][..|s| - 2] == s[..|s| - 1][1..];
      TrimDropsLastBlank(s[1..]);
    } else if |s| > 1 {
      assert TrimLeft(s) == s;
      assert TrimLeft(s[..|s| - 1]) == s[..|s| - 1];
    } else {
      assert s[1..] == "" && s[..|s| - 1] == "";
    }
  }

  lemma {:induction false} TrimWithin(s: string, c: char)
    requires c in Trim(s)
    ensures c in s
  {
    TrimRightEnds(TrimLeft(s));
    TrimLeftWithin(s, c);
  }

  lemma TrimLeftWithin(s: string, c: char)
    requires c in TrimLeft(s)
    ensures c in s
  {
  }

  /** `strings.Split` on a single character: one part more than there are separators. */
  function Split(s: string, sep: char): (parts: seq<string>)
    ensures parts != []
  {
    if s == "" then [""]
    else
      var rest := Split(s[1..], sep);
      if s[0] == sep then [""] + rest else [[s[0]] + rest[0]] + rest[1..]
  }

  /** `strings.Join` with a single-character separator. */
  function Join(parts: seq<string>, sep: char): string {
    if parts == [] then ""
    else if |parts| == 1 then parts[0]
    else parts[0] + [sep] + Join(parts[1..], sep)
  }

  lemma {:induction false} SplitWhole(s: string, sep: char)
    requires sep !in s
    ensures Split(s, sep) == [s]
  {
    if s != "" {
      SplitWhole(s[1..], sep);
      assert [s[0]] + s[1..] == s;
    }
  }

  lemma {:induction false} SplitConcat(a: string, b: string, sep: char)
    ensures Split(a + [sep] + b, sep) == Split(a, sep) + Split(b, sep)
  {
    var whole := a + [sep] + b;
    if a == "" {
      assert whole[1..] == b;
    } else {
      assert whole[1..] == a[1..] + [sep] + b;
      SplitConcat(a[1..], b, sep);
    }
  }

  /** A last character that is no separator belongs to the last part. */
  lemma SplitSnoc(front: string, c: char, sep: char)
    requires c != sep
    ensures Split(front + [c], sep) == Longer(Split(front, sep), c)
  {
    if sep !in front {
      SplitWhole(front, sep);
      SplitWhole(front + [c], sep);
    } else {
      var k := LastOf(front, sep);
      var a, b := front[..k], front[k + 1..];
      assert front == a + [sep] + b;
      assert front + [c] == a + [sep] + (b + [c]);
      SplitAtLast(a, b, sep);
      SplitAtLast(a, b + [c], sep);
      LongerSnoc(Split(a, sep), b, c);
    }
  }

  /** The last part lengthened by a character. */
  function Longer(parts: seq<string>, c: char): seq<string>
    requires parts != []
  {
    parts[..|parts| - 1] + [parts[|parts| - 1] + [c]]
  }

  lemma LongerSnoc(parts: seq<string>, last: string, c: char)
    ensures Longer(parts + [last], c) == parts + [last + [c]]
  {
    assert (parts + [last])[..|parts|] == parts;
  }

  lemma {:induction false} LastOf(s: string, c: char) returns (k: nat)
    requires c in s
    ensures k < |s| && s[k] == c && c !in s[k + 1..]
  {
    k := |s| - 1;
    if s[k] != c {
      assert s == s[..k] + [s[k]];
      k := LastOf(s[..k], c);
      assert s[k + 1..] == s[..|s| - 1][k + 1..] + [s[|s| - 1]];
    }
  }

  lemma SplitAtLast(a: string, b: string, sep: char)
    requires sep !in b
    ensures Split(a + [sep] + b, sep) == Split(a, sep) + [b]
  {
    SplitConcat(a, b, sep);
    SplitWhole(b, sep);
  }

  /** Splitting undoes joining when no part holds the separator. */
  lemma {:induction false} SplitJoin(parts: seq<string>, sep: char)
    requires parts != []
    requires forall p | p in parts :: sep !in p
    ensures Split(Join(parts, sep), sep) == parts
  {
    SplitWhole(parts[0], sep);
    if |parts| == 1 {
      assert parts == [parts[0]];
    } else {
      SplitConcat(parts[0], Join(parts[1..], sep), sep);
      SplitJoin(parts[1..], sep);
      assert parts == [parts[0]] + parts[1..];
    }
  }

  /** No part of a split holds the separator. */
  lemma {:induction false} SplitParts(s: string, sep: char)
    ensures forall p | p in Split(s, sep) :: sep !in p
  {
    if s != "" {
      SplitParts(s[1..], sep);
      var rest := Split(s[1..], sep);
      assert rest[0] in rest;
      assert forall p | p in rest[1..] :: p in rest;
    }
  }

  /** The first index of `c`, or `|s|` (`strings.IndexByte`, which answers -1 there). */
  function IndexOf(s: string, c: char): (i: nat)
    ensures i <= |s|
    ensures c !in s[..i]
    ensures i < |s| ==> s[i] == c
  {
    if s == "" || s[0] == c then 0
    else
      var i := IndexOf(s[1..], c) + 1;
      assert s[..i] == [s[0]] + s[1..][..i - 1];
      i
  }

  lemma IndexOfUnique(s: string, c: char, i: nat)
    requires i < |s| && s[i] == c && c !in s[..i]
    ensures IndexOf(s, c) == i
  {
  }

  /** `bufio.ScanLines` drops one carriage return at the end of a line. */
  function DropCR(line: string): string {
    if line != "" && line[|line| - 1] == '\r' then line[..|line| - 1] else line
  }

  lemma TrimDropCR(line: string)
    ensures Trim(DropCR(line)) == Trim(line)
  {
    if line != "" && line[|line| - 1] == '\r' {
      TrimDropsLastBlank(line);
    }
  }

  /** Everything a `bufio.Scanner` yields: the lines, without an empty unterminated last one. */
  function Lines(data: string): seq<string> {
    var parts := Split(data, '\n');
    var kept := if parts[|parts| - 1] == "" then parts[..|parts| - 1] else parts;
    seq(|kept|, i requires 0 <= i < |kept| => DropCR(kept[i]))
  }
}

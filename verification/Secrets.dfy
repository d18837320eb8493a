/** The secrets that the relay generates on its first start and must find again on every later one. */
module Secrets {
  import opened Wrappers
  import opened Text

  const ENCRYPTION_KEY := "CREDENTIALS_ENCRYPTION_KEY"
  const JWT_SECRET := "ADMIN_JWT_SECRET"
  const PERSISTED_KEYS: seq<string> := [ENCRYPTION_KEY, JWT_SECRET]

  /** The comment lines the file opens with; their wording is immaterial. */
  ghost predicate IsHeader(header: seq<string>) {
    forall line | line in header :: line != "" && line[0] == '#' && '\n' !in line
  }

  type Values = map<string, string>

  function Get(m: Values, key: string): string {
    if key in m then m[key] else ""
  }

  // ---- The file ----

  /** The pair a line holds, if any: blank lines, comments and lines without "=" hold none, and only
      the first "=" separates. */
  function LoadLine(raw: string): Option<(string, string)> {
    var line := Trim(raw);
    var eq := IndexOf(line, '=');
    if line == "" || line[0] == '#' || eq == |line| then None else Some((line[..eq], line[eq + 1..]))
  }

  function LoadLines(lines: seq<string>): Values {
    if lines == [] then map[]
    else
      var before := LoadLines(lines[..|lines| - 1]);
      match LoadLine(lines[|lines| - 1])
      case Some((k, v)) => before[k := v]
      case None => before
  }

  /** A missing file holds nothing. */
  function Load(file: Option<string>): Values {
    if file.Some? then LoadLines(Split(file.value, '\n')) else map[]
  }

  /** The line of one secret, if there is one. */
  function Entry(secrets: Values, key: string): seq<string> {
    if key in secrets then [key + "=" + secrets[key]] else []
  }

  function SecretLines(secrets: Values, keys: seq<string>): seq<string> {
    if keys == [] then [] else SecretLines(secrets, keys[..|keys| - 1]) + Entry(secrets, keys[|keys| - 1])
  }

  /** Each line followed by a newline. */
  function Terminated(lines: seq<string>): string {
    if lines == [] then "" else lines[0] + "\n" + Terminated(lines[1..])
  }

  function Written(header: seq<string>, secrets: Values): string {
    Terminated(header + SecretLines(secrets, PERSISTED_KEYS))
  }

  method LoadSecretsFile(file: Option<string>) returns (result: Values)
    ensures result == Load(file)
  {
    result := map[];
    if file.None? {
      return;
    }
    var lines := Split(file.value, '\n');
    for i := 0 to |lines|
      invariant result == LoadLines(lines[..i])
    {
      assert lines[..i + 1][..i] == lines[..i];
      var line := Trim(lines[i]);
      if line != "" && line[0] != '#' {
        var eq := IndexOf(line, '=');
        if eq < |line| {
          result := result[line[..eq] := line[eq + 1..]];
        }
      }
    }
    assert lines[..|lines|] == lines;
  }

  method WriteSecretsFile(header: seq<string>, secrets: Values) returns (content: string)
    ensures content == Written(header, secrets)
  {
    content := WriteEntries(header, secrets, PERSISTED_KEYS);
  }

  method WriteEntries(header: seq<string>, secrets: Values, keys: seq<string>) returns (content: string)
    ensures content == Terminated(header + SecretLines(secrets, keys))
  {
    content := Terminated(header);
    assert header + SecretLines(secrets, keys[..0]) == header;
    for i := 0 to |keys|
      invariant content == Terminated(header + SecretLines(secrets, keys[..i]))
    {
      content := WriteEntry(header + SecretLines(secrets, keys[..i]), content, secrets, keys[i]);
      NextEntry(header, secrets, keys, i);
    }
    assert keys[..|keys|] == keys;
  }

  lemma NextEntry(header: seq<string>, secrets: Values, keys: seq<string>, i: nat)
    requires i < |keys|
    ensures header + SecretLines(secrets, keys[..i + 1])
            == header + SecretLines(secrets, keys[..i]) + Entry(secrets, keys[i])
  {
    assert keys[..i + 1][..i] == keys[..i];
  }

  /** One turn of the writer's loop. */
  method WriteEntry(ghost lines: seq<string>, before: string, secrets: Values, key: string) returns (content: string)
    requires before == Terminated(lines)
    ensures content == Terminated(lines + Entry(secrets, key))
  {
    content := before;
    if key in secrets {
      content := content + (key + "=" + secrets[key]) + "\n";
      TerminatedSnoc(lines, key + "=" + secrets[key]);
    } else {
      assert lines + [] == lines;
    }
  }

  lemma {:induction false} TerminatedSnoc(lines: seq<string>, line: string)
    ensures Terminated(lines + [line]) == Terminated(lines) + line + "\n"
  {
    if lines == [] {
      assert [line][1..] == [];
      assert lines + [line] == [line];
    } else {
      assert (lines + [line])[1..] == lines[1..] + [line];
      TerminatedSnoc(lines[1..], line);
    }
  }

  // ---- Start-up ----

  /** What one start finds: the environment's overrides and the random values it would generate. */
  datatype Start = Start(envKey: string, envJwt: string, hex: string, base64: string)

  datatype Result = Result(file: Option<string>, key: string, jwt: string, madeKey: bool, madeJwt: bool)

  /** EnsureSecrets: environment, else file, else generated and written. */
  function Ensure(header: seq<string>, file: Option<string>, start: Start): Result {
    var persisted := Load(file);
    var madeKey := start.envKey == "" && Get(persisted, ENCRYPTION_KEY) == "";
    var madeJwt := start.envJwt == "" && Get(persisted, JWT_SECRET) == "";
    var withKey := if madeKey then persisted[ENCRYPTION_KEY := start.hex] else persisted;
    var withBoth := if madeJwt then withKey[JWT_SECRET := start.base64] else withKey;
    Result(if madeKey || madeJwt then Some(Written(header, withBoth)) else file,
           if start.envKey != "" then start.envKey else Get(withBoth, ENCRYPTION_KEY),
           if start.envJwt != "" then start.envJwt else Get(withBoth, JWT_SECRET),
           madeKey, madeJwt)
  }

  class Config {
    var credentialsEncryptionKey: string
    var adminJWTSecret: string

    constructor (envKey: string, envJwt: string)
      ensures credentialsEncryptionKey == envKey && adminJWTSecret == envJwt
    {
      credentialsEncryptionKey, adminJWTSecret := envKey, envJwt;
    }

    method EnsureSecrets(header: seq<string>, file: Option<string>, hex: string, base64: string)
      returns (newFile: Option<string>, madeKey: bool, madeJwt: bool)
      modifies this
      ensures Result(newFile, credentialsEncryptionKey, adminJWTSecret, madeKey, madeJwt)
              == Ensure(header, file, Start(old(credentialsEncryptionKey), old(adminJWTSecret), hex, base64))
    {
      var persisted := LoadSecretsFile(file);
      var needsWrite := false;
      madeKey, madeJwt, newFile := false, false, file;
      if credentialsEncryptionKey == "" {
        if Get(persisted, ENCRYPTION_KEY) != "" {
          credentialsEncryptionKey := persisted[ENCRYPTION_KEY];
        } else {
          credentialsEncryptionKey := hex;
          persisted := persisted[ENCRYPTION_KEY := hex];
          madeKey, needsWrite := true, true;
        }
      }
      if adminJWTSecret == "" {
        if Get(persisted, JWT_SECRET) != "" {
          adminJWTSecret := persisted[JWT_SECRET];
        } else {
          adminJWTSecret := base64;
          persisted := persisted[JWT_SECRET := base64];
          madeJwt, needsWrite := true, true;
        }
      }
      if needsWrite {
        var content := WriteSecretsFile(header, persisted);
        newFile := Some(content);
      }
    }
  }

  // ---- Load after write ----

  /** A value that a line can hold: it may contain "=" and inner blanks. */
  predicate Storable(value: string) {
    '\n' !in value && (value == "" || !IsSpace(value[|value| - 1]))
  }

  /** A random value: hexadecimal, or base64 with its "=" padding. */
  predicate Generated(value: string) {
    value != "" && forall c | c in value :: !IsSpace(c)
  }

  lemma GeneratedIsStorable(value: string)
    requires Generated(value)
    ensures Storable(value)
  {
    assert value[|value| - 1] in value;
  }

  predicate PlainKey(key: string) {
    key != "" && key[0] != '#' && Trimmed(key) && '=' !in key && '\n' !in key
  }

  lemma KeysArePlain(key: string)
    requires key in PERSISTED_KEYS
    ensures PlainKey(key)
  {
  }

  lemma SecretLineLoads(key: string, value: string)
    requires PlainKey(key) && Storable(value)
    ensures LoadLine(key + "=" + value) == Some((key, value))
    ensures '\n' !in key + "=" + value
  {
    var line := key + "=" + value;
    assert line[|key|] == '=' && line[0] == key[0];
    assert line[|line| - 1] == if value == "" then '=' else value[|value| - 1];
    TrimTrimmed(line);
    assert line[..|key|] == key && line[|key| + 1..] == value;
    IndexOfUnique(line, '=', |key|);
  }

  /** Everything a file holds can be stored again. */
  lemma {:induction false} LoadedIsStorable(lines: seq<string>)
    requires forall line | line in lines :: '\n' !in line
    ensures forall k | k in LoadLines(lines) :: Storable(LoadLines(lines)[k])
  {
    if lines != [] {
      var n := |lines| - 1;
      LoadedIsStorable(lines[..n]);
      assert lines[n] in lines;
      if LoadLine(lines[n]).Some? {
        var line := Trim(lines[n]);
        var value := line[IndexOf(line, '=') + 1..];
        TrimIsTrimmed(lines[n]);
        if '\n' in value {
          TrimWithin(lines[n], '\n');
        }
      }
    }
  }

  lemma {:induction false} TerminatedSplits(lines: seq<string>)
    requires forall line | line in lines :: '\n' !in line
    ensures Split(Terminated(lines), '\n') == lines + [""]
  {
    if lines != [] {
      assert lines[0] in lines;
      assert forall line | line in lines[1..] :: line in lines;
      TerminatedSplits(lines[1..]);
      SplitWhole(lines[0], '\n');
      SplitConcat(lines[0], Terminated(lines[1..]), '\n');
    }
  }

  lemma EntryLoads(lines: seq<string>, secrets: Values, key: string)
    requires PlainKey(key) && (key in secrets ==> Storable(secrets[key]))
    ensures LoadLines(lines + Entry(secrets, key))
            == if key in secrets then LoadLines(lines)[key := secrets[key]] else LoadLines(lines)
    ensures forall line | line in Entry(secrets, key) :: '\n' !in line
  {
    if key in secrets {
      SecretLineLoads(key, secrets[key]);
      LoadSnoc(lines, key + "=" + secrets[key]);
    } else {
      assert lines + [] == lines;
    }
  }

  /** Two entries after lines that hold nothing. */
  lemma TwoEntriesLoad(lines: seq<string>, secrets: Values, a: string, b: string)
    requires LoadLines(lines) == map[] && a != b && PlainKey(a) && PlainKey(b)
    requires forall k | k in secrets :: Storable(secrets[k])
    ensures var m := LoadLines(lines + Entry(secrets, a) + Entry(secrets, b));
            Get(m, a) == Get(secrets, a) && Get(m, b) == Get(secrets, b) && m.Keys <= {a, b}
    ensures forall line | line in Entry(secrets, a) + Entry(secrets, b) :: '\n' !in line
  {
    EntryLoads(lines, secrets, a);
    EntryLoads(lines + Entry(secrets, a), secrets, b);
  }

  lemma TwoSecretLines(secrets: Values, a: string, b: string)
    ensures SecretLines(secrets, [a, b]) == Entry(secrets, a) + Entry(secrets, b)
  {
    assert [a, b][..1] == [a] && [a][..0] == [];
    assert SecretLines(secrets, [a]) == Entry(secrets, a);
  }

  lemma LoadSnoc(lines: seq<string>, line: string)
    ensures LoadLines(lines + [line]) ==
            match LoadLine(line) case Some((k, v)) => LoadLines(lines)[k := v] case None => LoadLines(lines)
  {
    assert (lines + [line])[..|lines|] == lines;
  }

  lemma {:induction false} HeaderLoadsNothing(header: seq<string>)
    requires IsHeader(header)
    ensures LoadLines(header) == map[]
  {
    if header != [] {
      var n := |header| - 1;
      HeaderLoadsNothing(header[..n]);
      var line := header[n];
      assert line in header;
      assert TrimLeft(line) == line;
      TrimRightEnds(line);
    }
  }

  /** Load after write: exactly the two secrets come back, with their values, whatever else the file
      held before. */
  lemma LoadAfterWrite(header: seq<string>, secrets: Values)
    requires IsHeader(header)
    requires forall k | k in secrets :: Storable(secrets[k])
    ensures var m := Load(Some(Written(header, secrets)));
            && Get(m, ENCRYPTION_KEY) == Get(secrets, ENCRYPTION_KEY)
            && Get(m, JWT_SECRET) == Get(secrets, JWT_SECRET)
            && m.Keys <= {ENCRYPTION_KEY, JWT_SECRET}
  {
    KeysArePlain(ENCRYPTION_KEY);
    KeysArePlain(JWT_SECRET);
    HeaderLoadsNothing(header);
    TwoEntriesLoad(header, secrets, ENCRYPTION_KEY, JWT_SECRET);
    TwoSecretLines(secrets, ENCRYPTION_KEY, JWT_SECRET);
    WrittenLoads(header, Entry(secrets, ENCRYPTION_KEY) + Entry(secrets, JWT_SECRET));
    assert header + (Entry(secrets, ENCRYPTION_KEY) + Entry(secrets, JWT_SECRET))
        == header + Entry(secrets, ENCRYPTION_KEY) + Entry(secrets, JWT_SECRET);
  }

  lemma WrittenLoads(header: seq<string>, entries: seq<string>)
    requires IsHeader(header) && forall line | line in entries :: '\n' !in line
    ensures Load(Some(Terminated(header + entries))) == LoadLines(header + entries)
  {
    TerminatedSplits(header + entries);
    LoadSnoc(header + entries, "");
    assert Trim("") == "";
  }

  // ---- Stability ----

  ghost predicate RandomStart(start: Start) {
    Generated(start.hex) && Generated(start.base64)
  }

  lemma LoadIsStorable(file: Option<string>)
    ensures forall k | k in Load(file) :: Storable(Load(file)[k])
  {
    if file.Some? {
      SplitParts(file.value, '\n');
      LoadedIsStorable(Split(file.value, '\n'));
    }
  }

  /** One start: a secret in the file stays there and is used unless the environment overrides it; a
      secret that is missing is generated, used and kept, unless the environment supplies it. */
  lemma StartKeepsSecrets(header: seq<string>, file: Option<string>, start: Start, key: string)
    requires IsHeader(header) && RandomStart(start) && key in PERSISTED_KEYS
    ensures var result := Ensure(header, file, start);
            var before, after := Get(Load(file), key), Get(Load(result.file), key);
            var env := if key == ENCRYPTION_KEY then start.envKey else start.envJwt;
            var used := if key == ENCRYPTION_KEY then result.key else result.jwt;
            && (before != "" ==> after == before)
            && (env != "" ==> used == env && after == before)
            && (env == "" ==> used == after && after != "")
  {
    LoadIsStorable(file);
    GeneratedIsStorable(start.hex);
    GeneratedIsStorable(start.base64);
    var persisted := Load(file);
    var madeKey := start.envKey == "" && Get(persisted, ENCRYPTION_KEY) == "";
    var madeJwt := start.envJwt == "" && Get(persisted, JWT_SECRET) == "";
    var withKey := if madeKey then persisted[ENCRYPTION_KEY := start.hex] else persisted;
    var withBoth := if madeJwt then withKey[JWT_SECRET := start.base64] else withKey;
    LoadAfterWrite(header, withBoth);
  }

  function FileAfter(header: seq<string>, file: Option<string>, starts: seq<Start>): Option<string>
    decreases |starts|
  {
    if starts == [] then file else FileAfter(header, Ensure(header, file, starts[0]).file, starts[1..])
  }

  /** A start without an override uses the stored value and generates none. */
  ghost predicate UsesStored(header: seq<string>, file: Option<string>, start: Start, key: string, stored: string) {
    var result := Ensure(header, file, start);
    && (key == ENCRYPTION_KEY && start.envKey == "" ==> result.key == stored && !result.madeKey)
    && (key == JWT_SECRET && start.envJwt == "" ==> result.jwt == stored && !result.madeJwt)
  }

  /** Over any sequence of starts with any overrides, from any file: a secret once in the file is
      never changed or regenerated, and every start without an override uses it. */
  lemma {:induction false} SecretsAreStable(header: seq<string>, file: Option<string>, starts: seq<Start>, key: string)
    requires forall i | 0 <= i < |starts| :: RandomStart(starts[i])
    requires IsHeader(header) && key in PERSISTED_KEYS
    ensures Get(Load(file), key) != "" ==> Get(Load(FileAfter(header, file, starts)), key) == Get(Load(file), key)
    ensures Get(Load(file), key) != "" ==>
              forall i | 0 <= i < |starts| ::
                UsesStored(header, FileAfter(header, file, starts[..i]), starts[i], key, Get(Load(file), key))
    decreases |starts|
  {
    if starts != [] && Get(Load(file), key) != "" {
      var next := Ensure(header, file, starts[0]).file;
      StartKeepsSecrets(header, file, starts[0], key);
      SecretsAreStable(header, next, starts[1..], key);
      forall i | 0 < i < |starts|
        ensures UsesStored(header, FileAfter(header, file, starts[..i]), starts[i], key, Get(Load(file), key))
      {
        FileAfterNext(header, file, starts, i);
      }
    }
  }

  lemma FileAfterNext(header: seq<string>, file: Option<string>, starts: seq<Start>, i: nat)
    requires 0 < i < |starts|
    ensures FileAfter(header, file, starts[..i]) ==
            FileAfter(header, Ensure(header, file, starts[0]).file, starts[1..][..i - 1])
    ensures starts[i] == starts[1..][i - 1]
  {
    assert starts[..i][1..] == starts[1..][..i - 1];
  }
}

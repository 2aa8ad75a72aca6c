/** The file through which one step hands environment variables to the next. */
module EnvFile {
  import opened Basics
  import opened StringOrder

  type Env = map<string, string>

  // ---------- The text functions it is built from ----------

  /** strings.SplitSeq(s, "\n"). */
  function Split(s: string): (lines: seq<string>)
    ensures lines != []
  {
    if s == "" then [""] else Prepend(s[0], Split(s[1..]))
  }

  /** The lines of a text whose first character is `c` and whose remaining text has `lines`. */
  function Prepend(c: char, lines: seq<string>): (more: seq<string>)
    requires lines != []
    ensures more != []
  {
    if c == '\n' then [""] + lines else [[c] + lines[0]] + lines[1..]
  }

  lemma {:induction false} LinesHaveNoNewline(s: string)
    ensures forall i :: 0 <= i < |Split(s)| ==> '\n' !in Split(s)[i]
  {
    if s != "" {
      LinesHaveNoNewline(s[1..]);
    }
  }

  function Join(lines: seq<string>): string {
    if lines == [] then ""
    else if |lines| == 1 then lines[0]
    else lines[0] + "\n" + Join(lines[1..])
  }

  /** unicode.IsSpace. */
  predicate IsSpace(c: char) {
    c in {'\t', '\n', '\U{0B}', '\U{0C}', '\r', ' ', '\U{85}', '\U{A0}', '\U{1680}', '\U{2028}', '\U{2029}', '\U{202F}',
      '\U{205F}', '\U{3000}'}
    || '\U{2000}' <= c <= '\U{200A}'
  }

  predicate StartsWithSpace(s: string) { s != "" && IsSpace(s[0]) }
  predicate EndsWithSpace(s: string) { s != "" && IsSpace(s[|s| - 1]) }

  function TrimLeft(s: string): (t: string)
    ensures !StartsWithSpace(t)
  {
    if StartsWithSpace(s) then TrimLeft(s[1..]) else s
  }

  function TrimRight(s: string): (t: string)
    ensures !EndsWithSpace(t) && t <= s
  {
    if EndsWithSpace(s) then TrimRight(s[..|s| - 1]) else s
  }

  /** strings.TrimSpace. */
  function TrimSpace(s: string): (t: string)
    ensures !StartsWithSpace(t) && !EndsWithSpace(t)
  {
    TrimRight(TrimLeft(s))
  }

  lemma {:induction false} TrimLeftKeepsSuffix(s: string, c: char)
    ensures c in TrimLeft(s) ==> c in s
  {
    if StartsWithSpace(s) {
      TrimLeftKeepsSuffix(s[1..], c);
    }
  }

  /** strings.Cut(s, "="). */
  function Cut(s: string): (r: Option<(string, string)>)
    ensures r.None? <==> '=' !in s
    ensures r.Some? ==> s == r.value.0 + "=" + r.value.1 && '=' !in r.value.0
  {
    if s == "" then None
    else if s[0] == '=' then assert s == "" + "=" + s[1..]; Some(("", s[1..]))
    else
      assert s == [s[0]] + s[1..];
      match Cut(s[1..])
      case None => None
      case Some((key, val)) =>
        assert s == ([s[0]] + key) + "=" + val;
        Some(([s[0]] + key, val))
  }

  // ---------- parseEnvFile ----------

  function ParseLine(line: string): Option<(string, string)> {
    var trimmed := TrimSpace(line);
    if trimmed == "" then None else Cut(trimmed)
  }

  /** Entries laid over one another: a line that is no entry is ignored, and the later value
      of a key wins. */
  function Overlay(entries: seq<Option<(string, string)>>): Env {
    if entries == [] then map[]
    else
      var env := Overlay(entries[..|entries| - 1]);
      match entries[|entries| - 1]
      case None => env
      case Some((key, val)) => env[key := val]
  }

  function ParseEach(lines: seq<string>): (entries: seq<Option<(string, string)>>)
    ensures |entries| == |lines|
    ensures forall i :: 0 <= i < |lines| ==> entries[i] == ParseLine(lines[i])
  {
    seq(|lines|, i requires 0 <= i < |lines| => ParseLine(lines[i]))
  }

  function Parse(contents: string): Env {
    Overlay(ParseEach(Split(contents)))
  }

  method ParseEnvFile(contents: string) returns (env: Env)
    ensures env == Parse(contents)
  {
    env := map[];
    var lines := Split(contents);
    ghost var entries := ParseEach(lines);
    for i := 0 to |lines|
      invariant env == Overlay(entries[..i])
    {
      assert entries[..i + 1][..i] == entries[..i];
      var line := TrimSpace(lines[i]);
      if line == "" {
        continue;
      }
      var cut := Cut(line);
      if cut.None? {
        continue;
      }
      env := env[cut.value.0 := cut.value.1];
    }
    assert entries[..|lines|] == entries;
  }

  // ---------- Appending is overlaying ----------

  lemma PrependConcat(c: char, a: seq<string>, b: seq<string>)
    requires a != []
    ensures Prepend(c, a + b) == Prepend(c, a) + b
  {
    assert (a + b)[0] == a[0] && (a + b)[1..] == a[1..] + b;
  }

  lemma {:induction false} SplitConcat(a: string, b: string)
    ensures Split(a + "\n" + b) == Split(a) + Split(b)
  {
    if a == "" {
      assert a + "\n" + b == "\n" + b;
      assert ("\n" + b)[1..] == b;
    } else {
      var ab := a + "\n" + b;
      assert ab[0] == a[0] && ab[1..] == a[1..] + "\n" + b;
      SplitConcat(a[1..], b);
      PrependConcat(a[0], Split(a[1..]), Split(b));
    }
  }

  lemma {:induction false} OverlayConcat(a: seq<Option<(string, string)>>, b: seq<Option<(string, string)>>)
    ensures Overlay(a + b) == Overlay(a) + Overlay(b)
  {
    if b == [] {
      assert a + b == a;
    } else {
      var ab := a + b;
      assert ab[..|ab| - 1] == a + b[..|b| - 1] && ab[|ab| - 1] == b[|b| - 1];
      OverlayConcat(a, b[..|b| - 1]);
    }
  }

  lemma LinesConcat(a: seq<string>, b: seq<string>)
    ensures Overlay(ParseEach(a + b)) == Overlay(ParseEach(a)) + Overlay(ParseEach(b))
  {
    hide Overlay, ParseLine;
    OverlayConcat(ParseEach(a), ParseEach(b));
    assert ParseEach(a + b) == ParseEach(a) + ParseEach(b);
  }

  /** What a step appends on new lines overrides, key by key, what was there. */
  lemma AppendOverlays(a: string, b: string)
    ensures Parse(a + "\n" + b) == Parse(a) + Parse(b)
  {
    SplitConcat(a, b);
    LinesConcat(Split(a), Split(b));
  }

  lemma EmptyFile()
    ensures Parse("") == map[]
  {
    assert ParseLine("") == None;
    assert ParseEach([""]) == [None];
  }

  /** The file after each of several steps has appended its lines, newline included. */
  function Appended(blocks: seq<string>): string {
    if blocks == [] then "" else Appended(blocks[..|blocks| - 1]) + blocks[|blocks| - 1] + "\n"
  }

  function Exported(blocks: seq<string>): Env {
    if blocks == [] then map[] else Exported(blocks[..|blocks| - 1]) + Parse(blocks[|blocks| - 1])
  }

  lemma TrailingNewline(file: string)
    ensures Parse(file + "\n") == Parse(file)
  {
    EmptyFile();
    AppendOverlays(file, "");
    assert file + "\n" + "" == file + "\n";
  }

  /** A later step reads every variable any earlier step exported, with the latest value. */
  lemma {:induction false} ExportsAccumulate(blocks: seq<string>)
    ensures Parse(Appended(blocks)) == Exported(blocks)
  {
    if blocks == [] {
      EmptyFile();
    } else {
      var init, last := blocks[..|blocks| - 1], blocks[|blocks| - 1];
      ExportsAccumulate(init);
      TrailingNewline(Appended(init) + last);
      AppendAfterNewline(init, last);
    }
  }

  lemma AppendAfterNewline(init: seq<string>, last: string)
    ensures Parse(Appended(init) + last) == Parse(Appended(init)) + Parse(last)
  {
    if init == [] {
      EmptyFile();
      assert Appended(init) + last == last;
    } else {
      var earlier := Appended(init[..|init| - 1]) + init[|init| - 1];
      AppendOverlays(earlier, last);
      TrailingNewline(earlier);
    }
  }

  // ---------- What the file can carry ----------

  predicate CleanKey(key: string) {
    '=' !in key && '\n' !in key && !StartsWithSpace(key)
  }

  predicate CleanValue(val: string) {
    '\n' !in val && !EndsWithSpace(val)
  }

  /** The environments whose every entry survives a KEY=value line. */
  predicate Clean(env: Env) {
    forall key :: key in env ==> CleanKey(key) && CleanValue(env[key])
  }

  lemma ParseLineIsClean(line: string)
    requires '\n' !in line
    ensures ParseLine(line).Some? ==> CleanKey(ParseLine(line).value.0) && CleanValue(ParseLine(line).value.1)
  {
    var trimmed := TrimSpace(line);
    TrimLeftKeepsSuffix(line, '\n');
    assert '\n' !in trimmed;
    if ParseLine(line).Some? {
      var (key, val) := ParseLine(line).value;
      assert forall c :: c in key ==> c in trimmed;
      assert forall c :: c in val ==> c in trimmed;
      if key != "" { assert key[0] == trimmed[0]; }
      if val != "" { assert val[|val| - 1] == trimmed[|trimmed| - 1]; }
    }
  }

  lemma {:induction false} OverlayIsClean(entries: seq<Option<(string, string)>>)
    requires forall i :: 0 <= i < |entries| && entries[i].Some? ==>
      CleanKey(entries[i].value.0) && CleanValue(entries[i].value.1)
    ensures Clean(Overlay(entries))
  {
    if entries != [] {
      OverlayIsClean(entries[..|entries| - 1]);
    }
  }

  /** Whatever a file holds, what is parsed from it is clean. */
  lemma ParseIsClean(contents: string)
    ensures Clean(Parse(contents))
  {
    var lines := Split(contents);
    LinesHaveNoNewline(contents);
    forall i | 0 <= i < |lines|
      ensures ParseLine(lines[i]).Some? ==>
        CleanKey(ParseLine(lines[i]).value.0) && CleanValue(ParseLine(lines[i]).value.1)
    {
      ParseLineIsClean(lines[i]);
    }
    OverlayIsClean(ParseEach(lines));
  }

  function Entry(key: string, val: string): string { key + "=" + val }

  lemma TrimNothing(s: string)
    requires !StartsWithSpace(s) && !EndsWithSpace(s)
    ensures TrimSpace(s) == s
  {
  }

  lemma CutFirst(key: string, val: string)
    requires '=' !in key
    ensures Cut(Entry(key, val)) == Some((key, val))
  {
    var s := Entry(key, val);
    assert '=' in s by { assert s[|key|] == '='; }
    var (k, v) := Cut(s).value;
    assert s[|k|] == '=' && s[|key|] == '=';
    assert forall i :: 0 <= i < |key| ==> s[i] == key[i] && key[i] in key;
    assert forall i :: 0 <= i < |k| ==> s[i] == k[i] && k[i] in k;
    assert |k| == |key|;
    assert k == s[..|k|] == key && v == s[|k| + 1..] == val;
  }

  lemma CleanEntryParses(key: string, val: string)
    requires CleanKey(key) && CleanValue(val)
    ensures ParseLine(Entry(key, val)) == Some((key, val)) && '\n' !in Entry(key, val)
  {
    var s := Entry(key, val);
    assert s[0] == if key == "" then '=' else key[0];
    assert s[|s| - 1] == if val == "" then '=' else val[|val| - 1];
    TrimNothing(s);
    CutFirst(key, val);
  }

  // ---------- envSlice ----------

  /** The KEY=value lines of `env` with its keys taken in the order `keys`. */
  function Entries(env: Env, keys: seq<string>): (lines: seq<string>)
    requires forall key :: key in keys ==> key in env
    ensures |lines| == |keys|
    ensures forall i :: 0 <= i < |keys| ==> lines[i] == Entry(keys[i], env[keys[i]])
  {
    if keys == [] then []
    else Entries(env, keys[..|keys| - 1]) + [Entry(keys[|keys| - 1], env[keys[|keys| - 1]])]
  }

  /** `keys` are the variables of `env`, each once, and `lines` their entries in that order. */
  ghost predicate Lists(env: Env, keys: seq<string>, lines: seq<string>) {
    Distinct(keys) && (forall key :: key in keys <==> key in env) && lines == Entries(env, keys)
  }

  /** Lists each variable once, in whatever order the map yields its keys. */
  method EnvSlice(env: Env) returns (out: seq<string>)
    ensures exists keys :: Lists(env, keys, out)
  {
    out := [];
    ghost var keys := [];
    if |env| == 0 {
      assert Lists(env, keys, out);
      return;
    }
    var rest := env.Keys;
    while rest != {}
      invariant rest <= env.Keys
      invariant Distinct(keys) && forall key :: key in keys <==> key in env && key !in rest
      invariant out == Entries(env, keys)
      decreases rest
    {
      var key :| key in rest;
      out := out + [key + "=" + env[key]];
      ghost var more := keys + [key];
      assert more[..|more| - 1] == keys;
      keys := more;
      rest := rest - {key};
    }
    assert Lists(env, keys, out);
  }

  lemma {:induction false} SplitNoNewline(s: string)
    requires '\n' !in s
    ensures Split(s) == [s]
  {
    if s != "" {
      SplitNoNewline(s[1..]);
      assert [s[0]] + s[1..] == s;
    }
  }

  lemma {:induction false} SplitJoin(lines: seq<string>)
    requires lines != [] && forall i :: 0 <= i < |lines| ==> '\n' !in lines[i]
    ensures Split(Join(lines)) == lines
  {
    if |lines| == 1 {
      SplitNoNewline(lines[0]);
      assert lines == [lines[0]];
    } else {
      SplitConcat(lines[0], Join(lines[1..]));
      SplitNoNewline(lines[0]);
      SplitJoin(lines[1..]);
      assert lines == [lines[0]] + lines[1..];
    }
  }

  function Pairs(env: Env, keys: seq<string>): (pairs: seq<Option<(string, string)>>)
    requires forall key :: key in keys ==> key in env
    ensures |pairs| == |keys|
  {
    seq(|keys|, i requires 0 <= i < |keys| => Some((keys[i], env[keys[i]])))
  }

  lemma {:induction false} OverlayPairs(env: Env, keys: seq<string>)
    requires forall key :: key in keys ==> key in env
    ensures Overlay(Pairs(env, keys)) == map key | key in keys :: env[key]
  {
    if keys != [] {
      var init, last := keys[..|keys| - 1], keys[|keys| - 1];
      assert keys == init + [last];
      OverlayPairs(env, init);
      assert Pairs(env, keys)[..|keys| - 1] == Pairs(env, init);
    }
  }

  lemma EntriesParse(env: Env, keys: seq<string>)
    requires Clean(env) && keys != [] && forall key :: key in keys ==> key in env
    ensures Split(Join(Entries(env, keys))) == Entries(env, keys)
    ensures ParseEach(Entries(env, keys)) == Pairs(env, keys)
  {
    forall i | 0 <= i < |keys|
      ensures '\n' !in Entries(env, keys)[i]
      ensures ParseLine(Entries(env, keys)[i]) == Pairs(env, keys)[i]
    {
      CleanEntryParses(keys[i], env[keys[i]]);
    }
    SplitJoin(Entries(env, keys));
  }

  lemma CleanComesBack(env: Env, keys: seq<string>)
    requires Clean(env) && forall key :: key in keys <==> key in env
    ensures Parse(Join(Entries(env, keys))) == env
  {
    if keys == [] {
      EmptyFile();
      assert env == map[];
    } else {
      EntriesParse(env, keys);
      OverlayPairs(env, keys);
      assert env == map key | key in keys :: env[key];
    }
  }

  /** Written out in any order and parsed again, an environment comes back if and only if
      it is clean. */
  lemma WriteReadRoundTrip(env: Env, keys: seq<string>, lines: seq<string>)
    requires Lists(env, keys, lines)
    ensures Parse(Join(lines)) == env <==> Clean(env)
  {
    if Clean(env) {
      CleanComesBack(env, keys);
    } else {
      ParseIsClean(Join(lines));
    }
  }

  // ---------- newlyExportedKeys ----------

  predicate Changed(before: Env, after: Env, key: string) {
    key in after && (key !in before || before[key] != after[key])
  }

  /** The changed keys, each once, in order. */
  method NewlyExportedKeys(before: Env, after: Env) returns (keys: seq<string>)
    ensures forall key :: key in keys <==> key in after && (key !in before || before[key] != after[key])
    ensures StrictlySorted(keys)
    ensures forall key :: key in keys <==> Changed(before, after, key)
  {
    var changed: set<string> := {};
    var rest := after.Keys;
    while rest != {}
      invariant rest <= after.Keys
      invariant forall key :: key in changed <==> Changed(before, after, key) && key !in rest
      decreases rest
    {
      var key :| key in rest;
      if key !in before || before[key] != after[key] {
        changed := changed + {key};
      }
      rest := rest - {key};
    }
    keys := SortKeys(changed);
  }

  /** Overlaying the reported keys on the old environment gives the new one exactly when no
      variable was removed. */
  lemma ReportedKeysSuffice(before: Env, after: Env, keys: seq<string>)
    requires forall key :: key in keys <==> Changed(before, after, key)
    ensures before + (map key | key in keys && key in after :: after[key]) == after <==> before.Keys <= after.Keys
  {
    var overlaid := before + (map key | key in keys && key in after :: after[key]);
    if before.Keys <= after.Keys {
      assert overlaid.Keys == after.Keys;
      assert forall key :: key in after ==> overlaid[key] == after[key];
    } else {
      var key :| key in before && key !in after;
      assert key in overlaid;
    }
  }
}

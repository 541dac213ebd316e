/** Plugin blocks in the runtime's memory file (workspace-template/adapters/base.py and
    workspace-template/plugins_registry/builtins.py).  Text mode reading turns every
    carriage return into a newline, so the text has none. */
module MemoryFile {
  import opened Basics
  import opened Regex
  import opened Text

  /** The line boundaries of `str.splitlines`. */
  predicate IsBreak(c: char) {
    10 as char <= c <= 13 as char || 28 as char <= c <= 30 as char || c in "\U{85}\U{2028}\U{2029}"
  }

  function FirstLine(s: string): string {
    if s == "" || IsBreak(s[0]) then "" else [s[0]] + FirstLine(s[1..])
  }

  /** What a re-install looks for. */
  function Marker(u: Unicode, content: string): string {
    Strip(u, FirstLine(content))
  }

  predicate EndsLine(s: string) {
    s != "" && s[|s| - 1] == '\n'
  }

  function Existing(file: Option<string>): string {
    if file.Some? then file.value else ""
  }

  function Separator(existing: string): string {
    if existing != "" && !EndsLine(existing) then "\n" else ""
  }

  /** `append_to_memory_hook`; no file is `None`. */
  function Appended(u: Unicode, file: Option<string>, content: string): Option<string> {
    var marker := Marker(u, content);
    if file.Some? && marker != "" && Contains(file.value, marker) then file
    else Some(Existing(file) + Separator(Existing(file)) + content + if EndsLine(content) then "" else "\n")
  }

  function AllAppended(u: Unicode, file: Option<string>, contents: seq<string>): Option<string>
    decreases |contents|
  {
    if contents == [] then file else AllAppended(u, Appended(u, file, contents[0]), contents[1..])
  }

  // ---- installing

  predicate Unbroken(s: string) {
    forall i :: 0 <= i < |s| ==> !IsBreak(s[i])
  }

  /** The first line goes up to the first line boundary, or to the end. */
  lemma {:induction false} FirstLineStarts(s: string)
    ensures var n := |FirstLine(s)|;
            && n <= |s| && s[..n] == FirstLine(s) && Unbroken(s[..n]) && (n < |s| ==> IsBreak(s[n]))
  {
    if s != "" && !IsBreak(s[0]) {
      FirstLineStarts(s[1..]);
      assert s[..|FirstLine(s)|] == [s[0]] + s[1..][..|FirstLine(s[1..])|];
    }
  }

  /** The marker is the first line of the content without the blanks at its ends. */
  lemma MarkerIs(u: Unicode, content: string) returns (i: nat, j: nat, n: nat)
    ensures i <= j <= n <= |content| && Marker(u, content) == content[i..j]
    ensures Unbroken(content[..n]) && (n < |content| ==> IsBreak(content[n]))
    ensures forall k :: 0 <= k < i || j <= k < n ==> IsSpace(u, content[k])
    ensures i < j ==> !IsSpace(u, content[i]) && !IsSpace(u, content[j - 1])
  {
    FirstLineStarts(content);
    var line := FirstLine(content);
    n := |line|;
    i, j := StripIs(u, line);
    SliceOfPrefix(content, n, i, j);
    forall k | 0 <= k < n ensures line[k] == content[k] { assert content[..n][k] == content[k]; }
  }

  lemma SliceOfPrefix(s: string, n: nat, i: nat, j: nat)
    requires i <= j <= n <= |s|
    ensures s[..n][i..j] == s[i..j]
  {
  }

  lemma MarkerInContent(u: Unicode, content: string)
    ensures Contains(content, Marker(u, content))
  {
    FirstLineStarts(content);
    var line := FirstLine(content);
    var i, j := StripIs(u, line);
    SliceOfPrefix(content, |line|, i, j);
    ContainsAt(content, Marker(u, content), i);
  }

  /** An install keeps the old text as a prefix; what it adds begins on a fresh line, is
      the content, and ends its last line, with a newline more at each end only where one is
      missing. */
  lemma AppendKeepsPrefix(u: Unicode, file: Option<string>, content: string)
    ensures var old', new' := Existing(file), Existing(Appended(u, file, content));
            && |old'| <= |new'| && new'[..|old'|] == old'
            && (Appended(u, file, content) != file ==>
                  var at := |old'| + |Separator(old')|;
                  && (at == 0 || new'[at - 1] == '\n')
                  && at == (if old' == "" || old'[|old'| - 1] == '\n' then |old'| else |old'| + 1)
                  && at + |content| <= |new'| && new'[at..at + |content|] == content
                  && EndsLine(new')
                  && |new'| == at + |content| + if content != "" && content[|content| - 1] == '\n' then 0 else 1)
  {
    var old', tail := Existing(file), if EndsLine(content) then "" else "\n";
    Pieces(old', Separator(old'), content, tail);
  }

  /** It adds the content exactly if there is no file, the marker is blank or it stands
      nowhere in the file. */
  lemma AppendsIff(u: Unicode, file: Option<string>, content: string)
    ensures Appended(u, file, content) != file <==>
            file.None? || Marker(u, content) == "" || forall i :: !OccursAt(file.value, Marker(u, content), i)
  {
    if file.Some? {
      ContainsMeans(file.value, Marker(u, content));
      if Marker(u, content) == "" || !Contains(file.value, Marker(u, content)) {
        assert |Appended(u, file, content).value| > |file.value|;
      }
    }
  }

  lemma Pieces(a: string, b: string, c: string, d: string)
    ensures var t := a + b + c + d;
            && t[..|a|] == a && t[|a| + |b|..|a| + |b| + |c|] == c && |t| == |a| + |b| + |c| + |d|
            && (b == "\n" ==> t[|a|] == '\n')
            && (b == "" && a != "" ==> t[|a| - 1] == a[|a| - 1])
            && (d == "\n" ==> t[|t| - 1] == '\n')
            && (d == "" && c != "" ==> t[|t| - 1] == c[|c| - 1])
  {
  }

  lemma AppendKeepsContents(u: Unicode, file: Option<string>, content: string, part: string)
    requires Contains(Existing(file), part)
    ensures Contains(Existing(Appended(u, file, content)), part)
  {
    if Appended(u, file, content) != file {
      var rest := Separator(Existing(file)) + content + if EndsLine(content) then "" else "\n";
      ContainsMore("", Existing(file), rest, part);
      assert "" + Existing(file) + rest == Existing(Appended(u, file, content));
    }
  }

  /** Afterwards the marker is in the file. */
  lemma AppendLeavesMarker(u: Unicode, file: Option<string>, content: string)
    requires Marker(u, content) != ""
    ensures Appended(u, file, content).Some? && Contains(Existing(Appended(u, file, content)), Marker(u, content))
  {
    if Appended(u, file, content) != file || file.None? {
      MarkerInContent(u, content);
      ContainsMore(Existing(file) + Separator(Existing(file)), content, if EndsLine(content) then "" else "\n",
                   Marker(u, content));
    }
  }

  ghost predicate Holds(u: Unicode, file: Option<string>, contents: seq<string>) {
    forall c :: c in contents ==> file.Some? && Marker(u, c) != "" && Contains(Existing(file), Marker(u, c))
  }

  lemma {:induction false} AllAppendedKeep(u: Unicode, file: Option<string>, contents: seq<string>, part: string)
    requires file.Some? && Contains(Existing(file), part)
    ensures AllAppended(u, file, contents).Some? && Contains(Existing(AllAppended(u, file, contents)), part)
    decreases |contents|
  {
    if contents != [] {
      AppendKeepsContents(u, file, contents[0], part);
      AllAppendedKeep(u, Appended(u, file, contents[0]), contents[1..], part);
    }
  }

  lemma {:induction false} AllAppendedHolds(u: Unicode, file: Option<string>, contents: seq<string>)
    requires forall c :: c in contents ==> Marker(u, c) != ""
    ensures Holds(u, AllAppended(u, file, contents), contents)
    decreases |contents|
  {
    if contents != [] {
      var next := Appended(u, file, contents[0]);
      AppendLeavesMarker(u, file, contents[0]);
      AllAppendedHolds(u, next, contents[1..]);
      AllAppendedKeep(u, next, contents[1..], Marker(u, contents[0]));
      assert contents == [contents[0]] + contents[1..];
    }
  }

  lemma {:induction false} HeldIsSkipped(u: Unicode, file: Option<string>, contents: seq<string>)
    requires Holds(u, file, contents)
    ensures AllAppended(u, file, contents) == file
    decreases |contents|
  {
    if contents != [] {
      assert contents[0] in contents;
      HeldIsSkipped(u, file, contents[1..]);
    }
  }

  lemma {:induction false} AllAppendedGrows(u: Unicode, file: Option<string>, contents: seq<string>)
    ensures |Existing(AllAppended(u, file, contents))| >= |Existing(file)|
    ensures (exists c :: c in contents && Marker(u, c) == "") ==>
            |Existing(AllAppended(u, file, contents))| > |Existing(file)|
    decreases |contents|
  {
    if contents != [] {
      AllAppendedGrows(u, Appended(u, file, contents[0]), contents[1..]);
      if c :| c in contents && Marker(u, c) == "" {
        assert c == contents[0] || c in contents[1..];
      }
    }
  }

  /** Installing a whole list again leaves the file as it is exactly when every block in it
      starts with a line that is not blank. */
  lemma SecondInstallChangesNothing(u: Unicode, file: Option<string>, contents: seq<string>)
    ensures var once := AllAppended(u, file, contents);
            AllAppended(u, once, contents) == once <==> forall c :: c in contents ==> Marker(u, c) != ""
  {
    var once := AllAppended(u, file, contents);
    if forall c :: c in contents ==> Marker(u, c) != "" {
      AllAppendedHolds(u, file, contents);
      HeldIsSkipped(u, once, contents);
    } else {
      AllAppendedGrows(u, once, contents);
    }
  }

  // ---- what plugins install

  /** Rules and prompt fragments, each a file name and stripped text. */
  datatype Plugin = Plugin(name: string, rules: seq<(string, string)>, fragments: seq<(string, string)>)

  function Prefix(name: string): string {
    "# Plugin: " + name + " / "
  }

  function Blocks(name: string, kind: string, files: seq<(string, string)>): seq<string> {
    seq(|files|, i requires 0 <= i < |files| => Prefix(name) + kind + ": " + files[i].0 + "\n\n" + files[i].1)
  }

  function Joined(blocks: seq<string>): string {
    Glue(blocks, "\n\n")
  }

  function MemoryBlocks(p: Plugin): seq<string> {
    Blocks(p.name, "rule", p.rules) + Blocks(p.name, "fragment", p.fragments)
  }

  /** The texts handed to the memory hook; a plugin without blocks hands none. */
  function Contents(ps: seq<Plugin>): seq<string> {
    if ps == [] then []
    else (if MemoryBlocks(ps[0]) == [] then [] else [Joined(MemoryBlocks(ps[0]))]) + Contents(ps[1..])
  }

  lemma {:induction false} ContentsAre(ps: seq<Plugin>)
    ensures Contents(ps) == FilterMap(ps, (p: Plugin) => MemoryBlocks(p) != [], (p: Plugin) => Joined(MemoryBlocks(p)))
  {
    if ps != [] { ContentsAre(ps[1..]); }
  }

  /** After an install that adds the plugin's text, every rule and every fragment stands in
      the file under its heading, the rules first, in order, an empty line between any
      two. */
  lemma InstalledBlocksStand(u: Unicode, file: Option<string>, p: Plugin, k: nat)
    requires k < |p.rules| + |p.fragments| && Appended(u, file, Joined(MemoryBlocks(p))) != file
    ensures var blocks, new' := MemoryBlocks(p), Existing(Appended(u, file, Joined(MemoryBlocks(p))));
            && |blocks| == |p.rules| + |p.fragments| && blocks[k] == BlockOf(p, k)
            && StandsInside(new', blocks, |Existing(file)| + |Separator(Existing(file))|, k)
  {
    BlocksAre(p, k);
    AddedStands(u, file, MemoryBlocks(p), k);
  }

  lemma BlocksAre(p: Plugin, k: nat)
    requires k < |p.rules| + |p.fragments|
    ensures |MemoryBlocks(p)| == |p.rules| + |p.fragments| && MemoryBlocks(p)[k] == BlockOf(p, k)
  {
  }

  lemma AddedStands(u: Unicode, file: Option<string>, blocks: seq<string>, k: nat)
    requires k < |blocks| && Appended(u, file, Joined(blocks)) != file
    ensures StandsInside(Existing(Appended(u, file, Joined(blocks))), blocks,
                         |Existing(file)| + |Separator(Existing(file))|, k)
  {
    AppendKeepsPrefix(u, file, Joined(blocks));
    GluedInside(Existing(Appended(u, file, Joined(blocks))), blocks, |Existing(file)| + |Separator(Existing(file))|, k);
  }

  lemma GluedInside(t: string, blocks: seq<string>, at: nat, k: nat)
    requires k < |blocks| && at + |Joined(blocks)| <= |t| && t[at..at + |Joined(blocks)|] == Joined(blocks)
    ensures StandsInside(t, blocks, at, k)
  {
    var i := GluedAt(blocks, "\n\n", k);
    GlueHolds(blocks, "\n\n", k);
    InsideText(t, Joined(blocks), at, blocks[k], i);
    if k + 1 < |blocks| { InsideText(t, Joined(blocks), at, "\n\n", i + |blocks[k]|); }
  }

  /** The heading and the text of rule `k`, or of a fragment behind the rules. */
  function BlockOf(p: Plugin, k: nat): string
    requires k < |p.rules| + |p.fragments|
  {
    if k < |p.rules| then "# Plugin: " + p.name + " / " + "rule: " + p.rules[k].0 + "\n\n" + p.rules[k].1
    else
      var f := p.fragments[k - |p.rules|];
      "# Plugin: " + p.name + " / " + "fragment: " + f.0 + "\n\n" + f.1
  }

  /** Block `k` stands in the text that begins at `at`, and an empty line behind it if another
      follows. */
  ghost predicate StandsInside(t: string, blocks: seq<string>, at: nat, k: nat)
    requires k < |blocks|
  {
    var i := at + GluedAt(blocks, "\n\n", k);
    OccursAt(t, blocks[k], i) && (k + 1 < |blocks| ==> OccursAt(t, "\n\n", i + |blocks[k]|))
  }

  lemma InsideText(t: string, content: string, at: nat, part: string, i: nat)
    requires at + |content| <= |t| && t[at..at + |content|] == content && OccursAt(content, part, i)
    ensures OccursAt(t, part, at + i)
  {
    forall k | 0 <= k < |part| ensures t[at + i..at + i + |part|][k] == part[k] {
      assert t[at + i + k] == content[i + k] == content[i..i + |part|][k];
    }
  }

  lemma PluginMarker(u: Unicode, p: Plugin)
    requires MemoryBlocks(p) != []
    ensures Marker(u, Joined(MemoryBlocks(p))) != ""
  {
    var content := Joined(MemoryBlocks(p));
    var first := MemoryBlocks(p)[0];
    assert first[0] == '#';
    assert content[0] == '#';
    var line := FirstLine(content);
    assert line[0] == '#' && !IsSpace(u, '#');
    var i, j := StripIs(u, line);
    assert !(0 <= 0 < i || j <= 0 < |line|);
  }

  lemma {:induction false} ContentsAreMarked(u: Unicode, ps: seq<Plugin>)
    ensures forall c :: c in Contents(ps) ==> Marker(u, c) != ""
  {
    if ps != [] {
      ContentsAreMarked(u, ps[1..]);
      if MemoryBlocks(ps[0]) != [] { PluginMarker(u, ps[0]); }
    }
  }

  /** For plugins, whatever their names and texts, the second install changes nothing. */
  lemma PluginsInstallOnce(u: Unicode, file: Option<string>, ps: seq<Plugin>)
    ensures var once := AllAppended(u, file, Contents(ps));
            AllAppended(u, once, Contents(ps)) == once
  {
    ContentsAreMarked(u, ps);
    SecondInstallChangesNothing(u, file, Contents(ps));
  }

  // ---- uninstalling

  /** `splitlines(keepends=True)` of a text without carriage returns. */
  function LineEnd(s: string): nat {
    if s == "" then 0 else if IsBreak(s[0]) then 1 else 1 + LineEnd(s[1..])
  }

  function Lines(s: string): (ls: seq<string>)
    decreases |s|
  {
    if s == "" then []
    else
      LineEndIs(s);
      [s[..LineEnd(s)]] + Lines(s[LineEnd(s)..])
  }

  lemma {:induction false} LineEndIs(s: string)
    requires s != ""
    ensures 0 < LineEnd(s) <= |s|
    ensures forall k :: 0 <= k < LineEnd(s) - 1 ==> !IsBreak(s[k])
    ensures LineEnd(s) < |s| ==> IsBreak(s[LineEnd(s) - 1])
  {
    if !IsBreak(s[0]) && |s| > 1 { LineEndIs(s[1..]); }
  }

  /** A line: no boundary before its last character. */
  ghost predicate IsLine(l: string) {
    l != "" && forall k :: 0 <= k < |l| - 1 ==> !IsBreak(l[k])
  }

  /** Lines as they come out of a text: all but the last are closed by a boundary. */
  ghost predicate AreLines(ls: seq<string>) {
    && (forall i :: 0 <= i < |ls| ==> IsLine(ls[i]))
    && forall i :: 0 <= i < |ls| - 1 ==> IsBreak(ls[i][|ls[i]| - 1])
  }

  lemma {:induction false} LinesOfText(s: string)
    ensures AreLines(Lines(s)) && Flatten(Lines(s)) == s
    decreases |s|
  {
    if s != "" {
      LineEndIs(s);
      var n := LineEnd(s);
      LinesOfText(s[n..]);
      assert s == s[..n] + s[n..];
    }
  }

  lemma {:induction false} LineEndOf(l: string, rest: string)
    requires IsLine(l) && (rest == "" || IsBreak(l[|l| - 1]))
    ensures LineEnd(l + rest) == |l|
    decreases |l|
  {
    if |l| == 1 {
      assert (l + rest)[0] == l[0];
      if !IsBreak(l[0]) { assert (l + rest)[1..] == ""; }
    } else {
      assert (l + rest)[0] == l[0] && (l + rest)[1..] == l[1..] + rest;
      forall k | 0 <= k < |l[1..]| - 1 ensures !IsBreak(l[1..][k]) { assert l[1..][k] == l[k + 1]; }
      LineEndOf(l[1..], rest);
    }
  }

  /** Lines written one after the other are read back as the same lines. */
  lemma {:induction false} LinesReadBack(ls: seq<string>)
    requires AreLines(ls)
    ensures Lines(Flatten(ls)) == ls
    decreases |ls|
  {
    if ls != [] {
      var rest := Flatten(ls[1..]);
      if |ls| > 1 {
        assert ls[1..][0] == ls[1] && IsLine(ls[1]);
      }
      LineEndOf(ls[0], rest);
      LinesReadBack(ls[1..]);
      assert (ls[0] + rest)[..|ls[0]|] == ls[0] && (ls[0] + rest)[|ls[0]|..] == rest;
    }
  }

  function Kept(ls: seq<string>, prefix: string): seq<string> {
    if ls == [] then []
    else if prefix <= ls[0] then Kept(ls[1..], prefix)
    else [ls[0]] + Kept(ls[1..], prefix)
  }

  lemma {:induction false} KeptFacts(ls: seq<string>, prefix: string)
    ensures forall l :: l in Kept(ls, prefix) <==> l in ls && !(prefix <= l)
    ensures |Kept(ls, prefix)| <= |ls|
    ensures |Kept(ls, prefix)| == |ls| ==> Kept(ls, prefix) == ls
  {
    if ls != [] { KeptFacts(ls[1..], prefix); }
  }

  lemma {:induction false} KeptIs(ls: seq<string>, prefix: string)
    ensures Kept(ls, prefix) == FilterMap(ls, (l: string) => !(prefix <= l), (l: string) => l)
  {
    if ls != [] { KeptIs(ls[1..], prefix); }
  }

  lemma {:induction false} KeptAreLines(ls: seq<string>, prefix: string)
    requires AreLines(ls)
    ensures AreLines(Kept(ls, prefix))
  {
    if ls != [] {
      var rest := Kept(ls[1..], prefix);
      LinesTail(ls);
      KeptAreLines(ls[1..], prefix);
      KeptFacts(ls[1..], prefix);
      if !(prefix <= ls[0]) { LinesCons(ls[0], rest, ls); }
    }
  }

  lemma LinesTail(ls: seq<string>)
    requires AreLines(ls) && ls != []
    ensures AreLines(ls[1..])
  {
    forall i | 0 <= i < |ls[1..]| ensures IsLine(ls[1..][i]) { assert ls[1..][i] == ls[i + 1]; }
    forall i | 0 <= i < |ls[1..]| - 1 ensures IsBreak(ls[1..][i][|ls[1..][i]| - 1]) {
      assert ls[1..][i] == ls[i + 1];
    }
  }

  lemma LinesCons(l: string, rest: seq<string>, ls: seq<string>)
    requires AreLines(ls) && ls != [] && ls[0] == l && AreLines(rest) && |rest| <= |ls| - 1
    ensures AreLines([l] + rest)
  {
    var all := [l] + rest;
    forall i | 0 <= i < |all| ensures IsLine(all[i]) {
      if i > 0 { assert all[i] == rest[i - 1]; }
    }
    forall i | 0 <= i < |all| - 1 ensures IsBreak(all[i][|all[i]| - 1]) {
      if i > 0 { assert all[i] == rest[i - 1]; }
    }
  }

  /** The memory file after `uninstall`. */
  function Uninstalled(file: Option<string>, name: string): Option<string> {
    if file.None? then None
    else
      var ls := Lines(file.value);
      var kept := Kept(ls, Prefix(name));
      if |kept| != |ls| then Some(Flatten(kept)) else file
  }

  /** Uninstalling removes exactly the lines that start with the plugin's marker: read
      again, the file has the other lines, all of them, in order. */
  lemma UninstallRemovesMarkedLines(file: Option<string>, name: string) returns (at: seq<nat>)
    requires file.Some?
    ensures Uninstalled(file, name).Some?
    ensures Lines(Uninstalled(file, name).value) == Kept(Lines(file.value), Prefix(name))
    ensures Picks(Lines(file.value), (l: string) => !(Prefix(name) <= l), (l: string) => l, at,
                  Lines(Uninstalled(file, name).value))
    ensures Uninstalled(Uninstalled(file, name), name) == Uninstalled(file, name)
  {
    var ls := Lines(file.value);
    LinesOfText(file.value);
    KeptFacts(ls, Prefix(name));
    KeptAreLines(ls, Prefix(name));
    LinesReadBack(Kept(ls, Prefix(name)));
    KeptFacts(Kept(ls, Prefix(name)), Prefix(name));
    KeptTwice(ls, Prefix(name));
    var prefix := Prefix(name);
    KeptIs(ls, prefix);
    at := FilterMapPicks(ls, (l: string) => !(prefix <= l), (l: string) => l);
    forall i: nat ensures i in at <==> i < |ls| && !(Prefix(name) <= ls[i]) {}
  }

  lemma {:induction false} KeptTwice(ls: seq<string>, prefix: string)
    ensures Kept(Kept(ls, prefix), prefix) == Kept(ls, prefix)
  {
    if ls != [] { KeptTwice(ls[1..], prefix); }
  }

  // ---- installing again after an uninstall

  lemma {:induction false} FirstLineIsUnbroken(s: string)
    ensures Unbroken(FirstLine(s))
  {
    if s != "" && !IsBreak(s[0]) { FirstLineIsUnbroken(s[1..]); }
  }

  lemma MarkerIsUnbroken(u: Unicode, content: string)
    ensures Unbroken(Marker(u, content))
  {
    FirstLineIsUnbroken(content);
    var line := FirstLine(content);
    var i, j := StripIs(u, line);
    forall k | 0 <= k < |Marker(u, content)| ensures !IsBreak(Marker(u, content)[k]) {
      assert line[i..j][k] == line[i + k];
    }
  }

  /** A part without line boundaries that lies in two pieces of which the first ends a line
      lies in one of them. */
  lemma ContainsInTwo(l: string, rest: string, part: string)
    requires l != "" && part != "" && Unbroken(part) && (rest == "" || IsBreak(l[|l| - 1]))
    ensures Contains(l + rest, part) <==> Contains(l, part) || Contains(rest, part)
  {
    assert "" + l + rest == l + rest && l + rest + "" == l + rest;
    if Contains(l, part) { ContainsMore("", l, rest, part); }
    if Contains(rest, part) { ContainsMore(l, rest, "", part); }
    if Contains(l + rest, part) {
      var i := ContainsWhere(l + rest, part);
      forall k | 0 <= k < |part| ensures part[k] == (l + rest)[i + k] {
        assert (l + rest)[i..i + |part|][k] == (l + rest)[i + k];
      }
      if i + |part| <= |l| {
        assert l[i..i + |part|] == (l + rest)[i..i + |part|];
        ContainsAt(l, part, i);
      } else if i >= |l| {
        assert rest[i - |l|..i - |l| + |part|] == (l + rest)[i..i + |part|];
        ContainsAt(rest, part, i - |l|);
      } else {
        assert part[|l| - 1 - i] == l[|l| - 1];
      }
    }
  }

  lemma {:induction false} ContainsInLines(ls: seq<string>, part: string)
    requires AreLines(ls) && part != "" && Unbroken(part)
    ensures Contains(Flatten(ls), part) <==> exists l :: l in ls && Contains(l, part)
  {
    if ls != [] {
      LinesTail(ls);
      if |ls| > 1 { assert ls[1] != ""; }
      ContainsInLines(ls[1..], part);
      ContainsInTwo(ls[0], Flatten(ls[1..]), part);
      assert ls == [ls[0]] + ls[1..];
    }
  }

  /** After an uninstall, installing the plugin again adds its block if and only if no line
      that stays quotes the block's marker somewhere behind its start. */
  lemma ReinstallAddsIff(u: Unicode, file: string, p: Plugin)
    requires MemoryBlocks(p) != []
    ensures var content, left := Joined(MemoryBlocks(p)), Uninstalled(Some(file), p.name);
            Appended(u, left, content) != left <==>
            forall l :: l in Lines(file) && !(Prefix(p.name) <= l) ==> !Contains(l, Marker(u, content))
  {
    var content := Joined(MemoryBlocks(p));
    var left := Uninstalled(Some(file), p.name);
    var at := UninstallRemovesMarkedLines(Some(file), p.name);
    KeptFacts(Lines(file), Prefix(p.name));
    PluginMarker(u, p);
    MarkerIsUnbroken(u, content);
    LinesOfText(left.value);
    ContainsInLines(Lines(left.value), Marker(u, content));
    AppendChangesIff(u, left, content);
  }

  lemma AppendChangesIff(u: Unicode, file: Option<string>, content: string)
    requires file.Some? && Marker(u, content) != ""
    ensures Appended(u, file, content) != file <==> !Contains(file.value, Marker(u, content))
  {
    if !Contains(file.value, Marker(u, content)) {
      assert |Appended(u, file, content).value| > |file.value|;
    }
  }

  // ---- the code

  lemma WrittenInPieces(existing: string, content: string, text: string)
    requires text == if existing != "" && !EndsLine(existing) then existing + "\n" else existing
    ensures text + (if EndsLine(content) then content else content + "\n") ==
            existing + Separator(existing) + content + if EndsLine(content) then "" else "\n"
  {
  }

  class Memory {
    var file: Option<string>

    method AppendToMemoryHook(u: Unicode, content: string)
      modifies this
      ensures file == Appended(u, old(file), content)
    {
      var marker := if content != "" then Strip(u, FirstLine(content)) else "";
      var existing := "";
      if file.Some? {
        existing := file.value;
        if marker != "" && Contains(existing, marker) {
          return;
        }
      }
      var text := existing;
      if existing != "" && !EndsLine(existing) {
        text := text + "\n";
      }
      WrittenInPieces(existing, content, text);
      text := text + if EndsLine(content) then content else content + "\n";
      file := Some(text);
    }

    /** The memory part of `AgentskillsAdaptor.install`. */
    method Install(u: Unicode, p: Plugin)
      modifies this
      ensures file == AllAppended(u, old(file), Contents([p]))
    {
      var memoryBlocks: seq<string> := [];
      for i := 0 to |p.rules|
        invariant memoryBlocks == Blocks(p.name, "rule", p.rules[..i]) && file == old(file)
      {
        memoryBlocks := memoryBlocks + [Prefix(p.name) + "rule" + ": " + p.rules[i].0 + "\n\n" + p.rules[i].1];
      }
      assert p.rules[..|p.rules|] == p.rules;
      ghost var rules := memoryBlocks;
      for i := 0 to |p.fragments|
        invariant memoryBlocks == rules + Blocks(p.name, "fragment", p.fragments[..i]) && file == old(file)
      {
        memoryBlocks :=
          memoryBlocks + [Prefix(p.name) + "fragment" + ": " + p.fragments[i].0 + "\n\n" + p.fragments[i].1];
      }
      assert p.fragments[..|p.fragments|] == p.fragments;
      assert memoryBlocks == MemoryBlocks(p);
      if |memoryBlocks| > 0 {
        AppendToMemoryHook(u, Joined(memoryBlocks));
        OneContent(u, old(file), Joined(memoryBlocks));
        assert Contents([p]) == [Joined(memoryBlocks)];
      } else {
        assert Contents([p]) == [];
      }
    }

    /** The loop of `install_plugins_via_registry`. */
    method InstallAll(u: Unicode, ps: seq<Plugin>)
      modifies this
      ensures file == AllAppended(u, old(file), Contents(ps))
    {
      assert ps[0..] == ps;
      for i := 0 to |ps|
        invariant AllAppended(u, file, Contents(ps[i..])) == AllAppended(u, old(file), Contents(ps))
      {
        ContentsSplit(u, file, ps[i..]);
        assert ps[i..][0] == ps[i] && ps[i..][1..] == ps[i + 1..];
        Install(u, ps[i]);
      }
    }

    /** The memory part of `AgentskillsAdaptor.uninstall`. */
    method Uninstall(name: string)
      modifies this
      ensures file == Uninstalled(old(file), name)
    {
      if file.None? {
        return;
      }
      var prefix := Prefix(name);
      var lines := Lines(file.value);
      var kept: seq<string> := [];
      assert lines[0..] == lines;
      for i := 0 to |lines|
        invariant kept + Kept(lines[i..], prefix) == Kept(lines, prefix)
      {
        assert lines[i..][0] == lines[i] && lines[i..][1..] == lines[i + 1..];
        if !(prefix <= lines[i]) {
          kept := kept + [lines[i]];
        }
      }
      assert kept + [] == kept;
      if |kept| != |lines| {
        file := Some(Flatten(kept));
      }
    }
  }

  lemma OneContent(u: Unicode, file: Option<string>, content: string)
    ensures AllAppended(u, file, [content]) == Appended(u, file, content)
  {
    assert [content][1..] == [];
  }

  lemma ContentsSplit(u: Unicode, file: Option<string>, ps: seq<Plugin>)
    requires ps != []
    ensures AllAppended(u, file, Contents(ps)) ==
            AllAppended(u, AllAppended(u, file, Contents([ps[0]])), Contents(ps[1..]))
  {
    assert [ps[0]][1..] == [];
    if MemoryBlocks(ps[0]) == [] {
      assert Contents([ps[0]]) == [];
      assert Contents(ps) == Contents(ps[1..]);
    } else {
      var c := Joined(MemoryBlocks(ps[0]));
      assert Contents([ps[0]]) == [c];
      OneContent(u, file, c);
      assert Contents(ps)[1..] == Contents(ps[1..]);
    }
  }
}

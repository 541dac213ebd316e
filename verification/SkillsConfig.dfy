/** Editing the `skills` list of a workspace's config.yaml
    (platform/cmd/cli/cmd_agent_skill.go), on the parsed node tree. */
module SkillsConfig {
  import opened Basics
  import Text

  datatype Kind = Mapping | Sequence | Scalar | Alias

  /** A yaml.v3 node; a mapping's content alternates keys and values. */
  datatype Node = Node(kind: Kind, tag: string, value: string, content: seq<Node>)

  /** What unmarshalling a file gives: an error, an empty document, or one root node. */
  datatype Document = Unparsable | Empty | Root(node: Node)

  datatype Result<T> = Ok(value: T) | Error

  // ---- reading and replacing the list

  /** The keys sit at the even places; the last place is never read as a key. */
  function FirstKey(content: seq<Node>, i: nat): (k: Option<nat>)
    ensures k.Some? ==> i <= k.value < |content| - 1 && content[k.value].value == "skills"
    decreases |content| - i
  {
    if i >= |content| - 1 then None
    else if content[i].value == "skills" then Some(i)
    else FirstKey(content, i + 2)
  }

  function FirstList(content: seq<Node>, i: nat): (k: Option<nat>)
    ensures k.Some? ==> i <= k.value < |content| - 1 && content[k.value].value == "skills"
                        && content[k.value + 1].kind.Sequence?
    decreases |content| - i
  {
    if i >= |content| - 1 then None
    else if content[i].value == "skills" && content[i + 1].kind.Sequence? then Some(i)
    else FirstList(content, i + 2)
  }

  function Values(items: seq<Node>): seq<string> {
    seq(|items|, i requires 0 <= i < |items| => items[i].value)
  }

  function Items(skills: seq<string>): seq<Node> {
    seq(|skills|, i requires 0 <= i < |skills| => Node(Scalar, "!!str", skills[i], []))
  }

  /** `parseSkillsFromConfig` */
  function Parsed(d: Document): Result<seq<string>> {
    match d
    case Unparsable => Error
    case Empty => Ok([])
    case Root(m) =>
      if !m.kind.Mapping? then Ok([])
      else
        var k := FirstList(m.content, 0);
        Ok(if k.Some? then Values(m.content[k.value + 1].content) else [])
  }

  /** The list's node turned into a sequence of these skills; a stale value stays. */
  function AsList(n: Node, skills: seq<string>): Node {
    n.(kind := Sequence, tag := "!!seq", content := Items(skills))
  }

  function ReplacedIn(content: seq<Node>, skills: seq<string>): seq<Node> {
    var k := FirstKey(content, 0);
    if k.Some? then content[k.value + 1 := AsList(content[k.value + 1], skills)]
    else content + [Node(Scalar, "!!str", "skills", []), AsList(Node(Sequence, "!!seq", "", []), skills)]
  }

  /** `replaceSkillsInConfig` */
  function Replaced(d: Document, skills: seq<string>): Result<Document> {
    if d.Root? && d.node.kind.Mapping? then Ok(Root(d.node.(content := ReplacedIn(d.node.content, skills))))
    else Error
  }

  /** What the parser guarantees of a mapping: keys and values in pairs. */
  ghost predicate Paired(d: Document) {
    d.Root? && d.node.kind.Mapping? ==> |d.node.content| % 2 == 0
  }

  lemma {:induction false} FirstKeyIs(content: seq<Node>, i: nat)
    requires i % 2 == 0
    ensures var k := FirstKey(content, i);
            && (k.Some? ==> i <= k.value < |content| - 1 && k.value % 2 == 0 && content[k.value].value == "skills")
            && forall j :: i <= j < |content| - 1 && j % 2 == 0 && (k.Some? ==> j < k.value) ==>
                 content[j].value != "skills"
    decreases |content| - i
  {
    if i < |content| - 1 && content[i].value != "skills" { FirstKeyIs(content, i + 2); }
  }

  lemma {:induction false} FirstKeyAt(content: seq<Node>, i: nat, k: nat)
    requires i % 2 == 0 && k % 2 == 0 && i <= k < |content| - 1 && content[k].value == "skills"
    requires forall j :: i <= j < k && j % 2 == 0 ==> content[j].value != "skills"
    ensures FirstKey(content, i) == Some(k)
    decreases k - i
  {
    if i < k { FirstKeyAt(content, i + 2, k); }
  }

  /** A key at `k` is "skills" and its value a list. */
  predicate ListsAt(content: seq<Node>, k: int) {
    0 <= k < |content| - 1 && k % 2 == 0 && content[k].value == "skills" && content[k + 1].kind.Sequence?
  }

  lemma {:induction false} FirstListListed(content: seq<Node>, i: nat)
    requires i % 2 == 0 && FirstList(content, i).Some?
    ensures ListsAt(content, FirstList(content, i).value)
    decreases |content| - i
  {
    if !ListsAt(content, i) { FirstListListed(content, i + 2); }
  }

  ghost predicate ListsFirstAt(content: seq<Node>, k: int) {
    ListsAt(content, k) && forall j :: 0 <= j < k ==> !ListsAt(content, j)
  }

  predicate AreValues(list: seq<Node>, values: seq<string>) {
    |values| == |list| && forall i :: 0 <= i < |list| ==> values[i] == list[i].value
  }

  /** Parsing gives the values of the first such list of a top-level mapping, in order, and no
      skills if there is none. */
  lemma ParseFinds(m: Node)
    requires m.kind.Mapping?
    ensures Parsed(Root(m)).Ok?
    ensures (forall k :: !ListsAt(m.content, k)) ==> Parsed(Root(m)).value == []
    ensures forall k :: ListsFirstAt(m.content, k) ==> AreValues(m.content[k + 1].content, Parsed(Root(m)).value)
  {
    if FirstList(m.content, 0).Some? { FirstListListed(m.content, 0); }
    forall k | ListsFirstAt(m.content, k) ensures AreValues(m.content[k + 1].content, Parsed(Root(m)).value) {
      FirstListAt(m.content, 0, k);
    }
  }

  lemma {:induction false} FirstListAt(content: seq<Node>, i: nat, k: nat)
    requires i % 2 == 0 && i <= k && ListsAt(content, k)
    requires forall j :: i <= j < k ==> !ListsAt(content, j)
    ensures FirstList(content, i) == Some(k)
    decreases k - i
  {
    assert !ListsAt(content, i) || i == k;
    if i < k { FirstListAt(content, i + 2, k); }
  }

  /** Reading back a replaced list gives exactly the list written. */
  lemma ReplaceThenParse(d: Document, skills: seq<string>)
    requires Paired(d) && Replaced(d, skills).Ok?
    ensures Parsed(Replaced(d, skills).value) == Ok(skills)
  {
    var content := d.node.content;
    FirstKeyIs(content, 0);
    var k := FirstKey(content, 0);
    var new' := ReplacedIn(content, skills);
    FirstListAt(new', 0, if k.Some? then k.value else |content|);
    assert Values(Items(skills)) == skills;
  }

  /** Where the list's value stands after a replacement. */
  function ListPlace(content: seq<Node>): nat {
    var k := FirstKey(content, 0);
    if k.Some? then k.value + 1 else |content| + 1
  }

  /** Replacing succeeds exactly on a top-level mapping, and touches one value there:
      every other key and value keeps its place and content, and a missing list is added
      at the end, behind its key. */
  lemma ReplaceTouchesOnlyTheList(d: Document, skills: seq<string>)
    ensures Replaced(d, skills).Ok? <==> d.Root? && d.node.kind.Mapping?
    ensures Replaced(d, skills).Ok? ==>
              var was, now := d.node.content, Replaced(d, skills).value.node.content;
              var v := ListPlace(was);
              && |now| == (if v < |was| then |was| else |was| + 2)
              && v < |now| && now[v - 1].value == "skills" && now[v].kind.Sequence? && Values(now[v].content) == skills
              && forall i :: 0 <= i < |was| && i != v ==> now[i] == was[i]
  {
    assert Values(Items(skills)) == skills;
  }

  /** The last of two replacements wins, whatever stood there before. */
  lemma LastReplaceWins(d: Document, a: seq<string>, b: seq<string>)
    requires Paired(d) && Replaced(d, a).Ok?
    ensures Replaced(Replaced(d, a).value, b) == Replaced(d, b)
  {
    var content := d.node.content;
    FirstKeyIs(content, 0);
    var once := ReplacedIn(content, a);
    var k := FirstKey(content, 0);
    FirstKeyAt(once, 0, if k.Some? then k.value else |content|);
    assert ReplacedIn(once, b) == ReplacedIn(content, b);
  }

  // ---- adding and removing one skill

  /** Go's `unicode.IsSpace`. */
  predicate IsSpace(c: char) {
    9 as char <= c <= 13 as char || c in " \U{85}\U{A0}\U{1680}\U{2028}\U{2029}\U{202F}\U{205F}\U{3000}"
    || '\U{2000}' <= c <= '\U{200A}'
  }

  /** `strings.TrimSpace` */
  function Trim(s: string): string {
    Text.Trim(IsSpace, s)
  }

  /** Trimming takes away all of Go's blanks at both ends and nothing else. */
  lemma TrimIs(s: string) returns (i: nat, j: nat)
    ensures i <= j <= |s| && Trim(s) == s[i..j]
    ensures i < j ==> !IsSpace(s[i]) && !IsSpace(s[j - 1])
    ensures forall k :: 0 <= k < i || j <= k < |s| ==> IsSpace(s[k])
  {
    i, j := Text.TrimIs(IsSpace, s);
  }

  function Without(skills: seq<string>, t: string): seq<string> {
    if skills == [] then []
    else if skills[0] == t then Without(skills[1..], t)
    else [skills[0]] + Without(skills[1..], t)
  }

  /** `upsertSkill`: the new list and whether it changed. */
  function Upserted(skills: seq<string>, target: string, add: bool): (seq<string>, bool) {
    var t := Trim(target);
    if t == "" then (skills, false)
    else if add then if t in skills then (skills, false) else (skills + [t], true)
    else if t in skills then (Without(skills, t), true) else (skills, false)
  }

  lemma {:induction false} WithoutMeans(skills: seq<string>, t: string)
    ensures forall x :: x in Without(skills, t) <==> x in skills && x != t
    ensures t !in skills ==> Without(skills, t) == skills
    ensures Distinct(skills) ==> Distinct(Without(skills, t))
  {
    if skills != [] {
      WithoutMeans(skills[1..], t);
      assert skills == [skills[0]] + skills[1..];
      if Distinct(skills) {
        var rest := Without(skills[1..], t);
        forall j | 0 <= j < |rest| ensures rest[j] != skills[0] { assert rest[j] in rest; }
      }
    }
  }

  lemma {:induction false} WithoutLast(skills: seq<string>, t: string)
    requires t !in skills
    ensures Without(skills + [t], t) == skills
  {
    if skills == [] {
      assert skills + [t] == [t];
    } else {
      assert (skills + [t])[1..] == skills[1..] + [t];
      WithoutLast(skills[1..], t);
    }
  }

  /** The flag says whether the list changed; a change adds or removes exactly the trimmed
      name; and no duplicate comes in. */
  lemma UpsertMeans(skills: seq<string>, target: string, add: bool)
    ensures var (next, changed) := Upserted(skills, target, add);
            && (changed <==> next != skills)
            && (changed <==> Trim(target) != "" && (add <==> Trim(target) !in skills))
            && (forall x :: x in next <==> if changed && x == Trim(target) then add else x in skills)
            && (Distinct(skills) ==> Distinct(next))
  {
    WithoutMeans(skills, Trim(target));
  }

  lemma {:induction false} WithoutIs(skills: seq<string>, t: string)
    ensures Without(skills, t) == FilterMap(skills, (x: string) => x != t, (x: string) => x)
  {
    if skills != [] { WithoutIs(skills[1..], t); }
  }

  /** A new name comes last, and a removal leaves the others in their order. */
  lemma UpsertKeepsOrder(skills: seq<string>, target: string, add: bool) returns (at: seq<nat>)
    ensures var (next, changed) := Upserted(skills, target, add);
            && (changed && add ==> next == skills + [Trim(target)])
            && (changed && !add ==> Picks(skills, (x: string) => x != Trim(target), (x: string) => x, at, next))
  {
    var t := Trim(target);
    WithoutIs(skills, t);
    at := FilterMapPicks(skills, (x: string) => x != t, (x: string) => x);
    assert AreAll(skills, (x: string) => x != Trim(target), at);
  }

  /** Adding an absent skill and removing it again, through the file each time, restores
      the list and leaves every other entry of the file alone. */
  lemma AddThenRemove(d: Document, target: string)
    requires Paired(d) && d.Root? && d.node.kind.Mapping?
    requires var list := Parsed(d).value; Upserted(list, target, true).1
    ensures var list := Parsed(d).value;
            var added := Replaced(d, Upserted(list, target, true).0).value;
            var removed := Replaced(added, Upserted(Parsed(added).value, target, false).0).value;
            && Parsed(added) == Ok(list + [Trim(target)])
            && Parsed(removed) == Ok(list)
            && removed == Replaced(d, list).value
  {
    var list := Parsed(d).value;
    var longer := list + [Trim(target)];
    var added := Replaced(d, longer).value;
    ReplaceThenParse(d, longer);
    WithoutLast(list, Trim(target));
    LastReplaceWins(d, longer, list);
    ReplaceThenParse(d, list);
  }

  // ---- the code

  method ParseSkillsFromConfig(d: Document) returns (r: Result<seq<string>>)
    ensures r == Parsed(d)
  {
    match d
    case Unparsable => return Error;
    case Empty => return Ok([]);
    case Root(mapping) =>
      if !mapping.kind.Mapping? {
        return Ok([]);
      }
      var content := mapping.content;
      var i := 0;
      while i < |content| - 1
        invariant FirstList(content, i) == FirstList(content, 0)
        decreases |content| - i
      {
        var key, val := content[i], content[i + 1];
        if key.value == "skills" && val.kind.Sequence? {
          var skills: seq<string> := [];
          for j := 0 to |val.content|
            invariant skills == Values(val.content[..j])
          {
            assert val.content[..j + 1] == val.content[..j] + [val.content[j]];
            skills := skills + [val.content[j].value];
          }
          assert val.content[..|val.content|] == val.content;
          return Ok(skills);
        }
        i := i + 2;
      }
      return Ok([]);
  }

  method ReplaceSkillsInConfig(d: Document, skills: seq<string>) returns (r: Result<Document>)
    ensures r == Replaced(d, skills)
  {
    if !d.Root? || !d.node.kind.Mapping? {
      return Error;
    }
    var content := d.node.content;
    var valAt: Option<nat> := None;
    var i := 0;
    while i < |content| - 1
      invariant valAt.None? && FirstKey(content, i) == FirstKey(content, 0)
      decreases |content| - i
    {
      if content[i].value == "skills" {
        valAt := Some(i + 1);
        break;
      }
      i := i + 2;
    }
    var skillsVal: Node;
    if valAt.None? {
      skillsVal := Node(Sequence, "!!seq", "", []);
    } else {
      skillsVal := content[valAt.value].(kind := Sequence, tag := "!!seq", content := []);
    }
    ghost var empty := skillsVal;
    for j := 0 to |skills|
      invariant skillsVal == empty.(content := Items(skills[..j]))
    {
      assert Items(skills[..j + 1]) == Items(skills[..j]) + [Node(Scalar, "!!str", skills[j], [])];
      skillsVal := skillsVal.(content := skillsVal.content + [Node(Scalar, "!!str", skills[j], [])]);
    }
    assert skills[..|skills|] == skills;
    if valAt.None? {
      content := content + [Node(Scalar, "!!str", "skills", []), skillsVal];
    } else {
      content := content[valAt.value := skillsVal];
    }
    return Ok(Root(d.node.(content := content)));
  }

  lemma WithoutFrom(skills: seq<string>, i: nat, t: string, kept: seq<string>)
    requires i < |skills|
    ensures kept + Without(skills[i..], t) ==
            (if skills[i] == t then kept else kept + [skills[i]]) + Without(skills[i + 1..], t)
  {
    assert skills[i..][0] == skills[i] && skills[i..][1..] == skills[i + 1..];
  }

  method UpsertSkill(skills: seq<string>, target: string, add: bool) returns (next: seq<string>, changed: bool)
    ensures (next, changed) == Upserted(skills, target, add)
  {
    var trimmed := Trim(target);
    if trimmed == "" {
      return skills, false;
    }
    var exists_ := false;
    for i := 0 to |skills|
      invariant !exists_ && trimmed !in skills[..i]
    {
      if skills[i] == trimmed {
        exists_ := true;
        break;
      }
    }
    if add {
      if exists_ { return skills, false; }
      return skills + [trimmed], true;
    }
    if !exists_ {
      return skills, false;
    }
    next := [];
    assert skills[0..] == skills;
    for i := 0 to |skills|
      invariant next + Without(skills[i..], trimmed) == Without(skills, trimmed)
    {
      WithoutFrom(skills, i, trimmed, next);
      if skills[i] != trimmed {
        next := next + [skills[i]];
      }
    }
    assert next + [] == next;
    return next, true;
  }

  /** A workspace's files as the platform stores them. */
  class Workspace {
    var config: Document
    var files: map<string, string>

    function PathOf(skill: string, rel: string): string {
      "skills/" + skill + "/" + rel
    }

    /** `installWorkspaceSkillFromDir`: every skill file first, the config last.  `puts`
        says which of the requests succeed.  However far it gets, the config changes only
        after all the files are there. */
    method InstallSkill(name: string, source: map<string, string>, puts: seq<bool>) returns (ok: bool)
      requires |puts| == |source| + 1
      modifies this
      ensures ok ==> Parsed(old(config)).Ok? && "SKILL.md" in source
                     && Ok(config) == Replaced(old(config), Upserted(Parsed(old(config)).value, name, true).0)
      ensures !ok ==> config == old(config)
      ensures ok ==> forall rel :: rel in source ==>
                PathOf(name, rel) in files && files[PathOf(name, rel)] == source[rel]
      ensures forall p :: p in old(files) && (forall rel :: rel in source ==> p != PathOf(name, rel)) ==>
                p in files && files[p] == old(files)[p]
    {
      if "SKILL.md" !in source {
        return false;
      }
      var skills := ParseSkillsFromConfig(config);
      if skills.Error? {
        return false;
      }
      var next, _ := UpsertSkill(skills.value, name, true);
      var updated := ReplaceSkillsInConfig(config, next);
      if updated.Error? {
        return false;
      }
      var rest := source.Keys;
      var k := 0;
      while rest != {}
        invariant rest <= source.Keys && k + |rest| == |source|
        invariant config == old(config)
        invariant forall rel :: rel in source && rel !in rest ==>
                    PathOf(name, rel) in files && files[PathOf(name, rel)] == source[rel]
        invariant forall p :: p in old(files) && (forall rel :: rel in source ==> p != PathOf(name, rel)) ==>
                    p in files && files[p] == old(files)[p]
        decreases rest
      {
        var rel :| rel in rest;
        if !puts[k] {
          return false;
        }
        forall r | r in source && r != rel ensures PathOf(name, r) != PathOf(name, rel) {
          assert PathOf(name, r)[|PathOf(name, "")|..] == r;
          assert PathOf(name, rel)[|PathOf(name, "")|..] == rel;
        }
        files := files[PathOf(name, rel) := source[rel]];
        rest := rest - {rel};
        k := k + 1;
      }
      if !puts[k] {
        return false;
      }
      config := updated.value;
      return true;
    }
  }

  /** The config then lists the trimmed name, if that is not empty, while the files lie under
      the name as given: the directory's name is in the list exactly if it was before or has
      no surrounding blanks. */
  lemma ListedNameIsTrimmed(d: Document, name: string)
    requires Paired(d) && d.Root? && d.node.kind.Mapping?
    ensures var was, list := Parsed(d).value, Upserted(Parsed(d).value, name, true).0;
            && Parsed(Replaced(d, list).value) == Ok(list)
            && (name in list <==> name in was || (name != "" && Trim(name) == name))
            && (Trim(name) in list <==> Trim(name) in was || Trim(name) != "")
            && (Trim(name) == "" ==> list == was)
  {
    ReplaceThenParse(d, Upserted(Parsed(d).value, name, true).0);
  }
}

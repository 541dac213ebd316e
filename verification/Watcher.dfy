/** The hot-reload watcher (workspace-template/skill_loader/watcher.py).  The disk may
    change in any way between two scans. */
module Watcher {
  import opened Basics

  type Skill = string
  type Hash = string

  /** A path below the skills root: its first component, which is the skill, and the rest. */
  datatype Path = Path(skill: Skill, file: string)

  /** The skill directories that exist, with the hashes of the regular files below each, by
      their path from there; the hash is "" when a file cannot be read. */
  type Disk = map<Skill, map<string, Hash>>

  /** The last component of a path. */
  function NameOf(file: string): string
    decreases |file|
  {
    if file == "" || file[|file| - 1] == '/' then "" else NameOf(file[..|file| - 1]) + [file[|file| - 1]]
  }

  /** The file's own name starts with a dot. */
  predicate Hidden(file: string) {
    NameOf(file) != "" && NameOf(file)[0] == '.'
  }

  /** A dot stands at the start of the path or behind a slash, and no slash behind it. */
  ghost predicate DotStartsName(file: string, i: int) {
    0 <= i < |file| && file[i] == '.' && (i == 0 || file[i - 1] == '/') && '/' !in file[i..]
  }

  lemma HiddenMeans(file: string)
    ensures Hidden(file) <==> exists i :: DotStartsName(file, i)
  {
    var k := NameStarts(file);
    if k < |file| { assert file[k..][0] == file[k]; }
    if Hidden(file) { assert DotStartsName(file, k); }
    if i :| DotStartsName(file, i) {
      assert i < k ==> file[i..][k - 1 - i] == '/';
      assert i > k ==> file[k..][i - 1 - k] == '/';
    }
  }

  lemma {:induction false} NameStarts(file: string) returns (k: nat)
    ensures k == |file| - |NameOf(file)| && file[k..] == NameOf(file)
    ensures '/' !in file[k..] && (k > 0 ==> file[k - 1] == '/')
    decreases |file|
  {
    if file == "" || file[|file| - 1] == '/' {
      k := |file|;
    } else {
      k := NameStarts(file[..|file| - 1]);
      assert file == file[..|file| - 1] + [file[|file| - 1]];
      assert file[k..] == file[..|file| - 1][k..] + [file[|file| - 1]];
    }
  }

  type Hashes = map<Path, Hash>

  /** The paths a scan records for the watched skills. */
  function PathsOf(disk: Disk, names: seq<Skill>): set<Path> {
    set k, f | k in disk && f in disk[k] && k in names && !Hidden(f) :: Path(k, f)
  }

  function ScanOf(disk: Disk, names: seq<Skill>): Hashes {
    map p | p in PathsOf(disk, names) :: disk[p.skill][p.file]
  }

  /** A scan has exactly the files of watched skills whose name does not start with a dot, in
      any directory, with their hashes. */
  lemma ScanSees(disk: Disk, names: seq<Skill>, p: Path)
    ensures p in ScanOf(disk, names) <==>
            && p.skill in names && p.skill in disk && p.file in disk[p.skill]
            && forall i :: !DotStartsName(p.file, i)
    ensures p in ScanOf(disk, names) ==> ScanOf(disk, names)[p] == disk[p.skill][p.file]
  {
    HiddenMeans(p.file);
  }

  /** The file is there with this hash. */
  predicate Has(disk: Disk, k: Skill, f: string, h: Hash) {
    k in disk && f in disk[k] && disk[k][f] == h
  }

  /** So what changes in hidden files or in skills not watched is never seen. */
  lemma ScanIgnores(a: Disk, b: Disk, names: seq<Skill>)
    requires forall k, f, h :: k in names && !Hidden(f) ==> (Has(a, k, f, h) <==> Has(b, k, f, h))
    ensures ScanOf(a, names) == ScanOf(b, names)
  {
    forall p: Path | p in PathsOf(a, names) ensures p in PathsOf(b, names) && a[p.skill][p.file] == b[p.skill][p.file] {
      assert Has(a, p.skill, p.file, a[p.skill][p.file]);
    }
    forall p: Path | p in PathsOf(b, names) ensures p in PathsOf(a, names) {
      assert Has(b, p.skill, p.file, b[p.skill][p.file]);
    }
  }

  /** `dict.get(path, "")`: an unreadable file looks like an absent one. */
  function Seen(h: Hashes, p: Path): Hash {
    if p in h then h[p] else ""
  }

  /** The two snapshots look the same for this skill. */
  ghost predicate Agree(a: Hashes, b: Hashes, k: Skill) {
    forall p: Path :: p.skill == k ==> Seen(a, p) == Seen(b, p)
  }

  ghost predicate AllAgree(a: Hashes, b: Hashes, names: seq<Skill>) {
    forall k :: k in names ==> Agree(a, b, k)
  }

  type Report = map<Skill, seq<Path>>

  /** The report lists, for exactly the watched skills that look changed, the paths that
      look changed, each once. */
  ghost predicate IsReport(changed: Report, before: Hashes, now: Hashes, names: seq<Skill>) {
    && (forall k :: k in changed <==> k in names && !Agree(before, now, k))
    && (forall k :: k in changed ==> ListsChanges(changed[k], k, before, now))
  }

  ghost predicate ListsChanges(paths: seq<Path>, k: Skill, before: Hashes, now: Hashes) {
    Distinct(paths) && forall p :: p in paths <==> p.skill == k && Seen(before, p) != Seen(now, p)
  }

  /** The committed baseline and, as history, the snapshot each skill was last reloaded
      from (the scan at the start counts as a reload). */
  datatype State = State(hashes: Hashes, reloadedAt: map<Skill, Hashes>)

  function AllAt(names: seq<Skill>, h: Hashes): map<Skill, Hashes> {
    map k | k in names :: h
  }

  function Started(names: seq<Skill>, disk: Disk): State {
    State(ScanOf(disk, names), AllAt(names, ScanOf(disk, names)))
  }

  function Reload(s: State, report: Report, h: Hashes): State {
    State(h, map k | k in s.reloadedAt.Keys + report.Keys :: if k in report then h else s.reloadedAt[k])
  }

  /** One tick: the disk at the poll, and the disk after the debounce. */
  ghost predicate Tick(names: seq<Skill>, s: State, atPoll: Disk, settled: Disk, s': State, report: Report) {
    if AllAgree(s.hashes, ScanOf(atPoll, names), names) then s' == s && report == map[]
    else
      var h := ScanOf(settled, names);
      IsReport(report, s.hashes, h, names) && s' == Reload(s, report, h)
  }

  // ---- what ticks keep and achieve

  /** The baseline says of every watched skill what its last reload saw. */
  ghost predicate InStep(names: seq<Skill>, s: State) {
    forall k :: k in names ==> k in s.reloadedAt && Agree(s.reloadedAt[k], s.hashes, k)
  }

  lemma TickKeepsInStep(names: seq<Skill>, s: State, atPoll: Disk, settled: Disk, s': State, report: Report)
    requires InStep(names, s) && Tick(names, s, atPoll, settled, s', report)
    ensures InStep(names, s')
  {
    if !AllAgree(s.hashes, ScanOf(atPoll, names), names) {
      forall k | k in names ensures k in s'.reloadedAt && Agree(s'.reloadedAt[k], s'.hashes, k) {
        if k !in report {
          assert Agree(s.hashes, s'.hashes, k) && Agree(s.reloadedAt[k], s.hashes, k);
        }
      }
    }
  }

  ghost predicate IsRun(names: seq<Skill>, start: Disk, run: seq<State>, disks: seq<(Disk, Disk)>,
                        reports: seq<Report>) {
    && |run| == |disks| + 1 && |reports| == |disks| && run[0] == Started(names, start)
    && forall i :: 0 <= i < |disks| ==> Tick(names, run[i], disks[i].0, disks[i].1, run[i + 1], reports[i])
  }

  /** Whatever the disk does: after every tick the snapshot each watched skill was last
      reloaded from agrees with the committed baseline. */
  lemma {:induction false} AlwaysInStep(names: seq<Skill>, start: Disk, run: seq<State>, disks: seq<(Disk, Disk)>,
                                        reports: seq<Report>, n: nat)
    requires IsRun(names, start, run, disks, reports) && n < |run|
    ensures InStep(names, run[n])
    decreases n
  {
    if n > 0 {
      var i := n - 1;
      AlwaysInStep(names, start, run, disks, reports, i);
      TickKeepsInStep(names, run[i], disks[i].0, disks[i].1, run[i + 1], reports[i]);
    }
  }

  /** A tick over a disk at rest makes the baseline agree with the disk; it reloads exactly
      the skills whose last reload saw something else; and the next tick reloads nothing. */
  lemma RestingDiskSettles(names: seq<Skill>, s: State, disk: Disk, s': State, report: Report, s'': State,
                           report': Report)
    requires InStep(names, s)
    requires Tick(names, s, disk, disk, s', report) && Tick(names, s', disk, disk, s'', report')
    ensures AllAgree(s'.hashes, ScanOf(disk, names), names)
    ensures forall k :: k in report <==> k in names && !Agree(s.reloadedAt[k], ScanOf(disk, names), k)
    ensures report' == map[] && s'' == s'
  {
    var h := ScanOf(disk, names);
    forall k | k in names ensures Agree(s.reloadedAt[k], h, k) <==> Agree(s.hashes, h, k) {
      assert Agree(s.reloadedAt[k], s.hashes, k);
      SameView(s.reloadedAt[k], s.hashes, h, k);
    }
    assert AllAgree(h, h, names);
  }

  lemma SameView(a: Hashes, b: Hashes, h: Hashes, k: Skill)
    requires Agree(a, b, k)
    ensures Agree(a, h, k) <==> Agree(b, h, k)
  {
    if Agree(a, h, k) {
      forall p: Path | p.skill == k ensures Seen(b, p) == Seen(h, p) { assert Seen(a, p) == Seen(h, p); }
    }
    if Agree(b, h, k) {
      forall p: Path | p.skill == k ensures Seen(a, p) == Seen(h, p) { assert Seen(b, p) == Seen(h, p); }
    }
  }

  /** No reload is idle: what a skill is reloaded from differs from what it was reloaded
      from before, in exactly the paths reported. */
  lemma ReloadsAreDue(names: seq<Skill>, s: State, atPoll: Disk, settled: Disk, s': State, report: Report, k: Skill)
    requires InStep(names, s) && Tick(names, s, atPoll, settled, s', report) && k in report
    ensures k in names && !Agree(s.reloadedAt[k], s'.reloadedAt[k], k)
    ensures forall p: Path :: p in report[k] <==> p.skill == k && Seen(s.reloadedAt[k], p) != Seen(s'.reloadedAt[k], p)
  {
    assert Agree(s.reloadedAt[k], s.hashes, k);
    SameView(s.reloadedAt[k], s.hashes, s'.hashes, k);
    assert ListsChanges(report[k], k, s.hashes, s'.hashes);
  }

  // ---- the code

  ghost predicate HashesFrom(h: Hashes, disk: Disk) {
    forall p :: p in h ==> p.skill in disk && p.file in disk[p.skill] && h[p] == disk[p.skill][p.file]
  }

  /** Those of the named files of one skill that a scan records. */
  ghost function PathsIn(name: Skill, files: map<string, Hash>, some: set<string>): set<Path>
    requires some <= files.Keys
  {
    set f | f in some && !Hidden(f) :: Path(name, f)
  }

  lemma PathsOfOneMore(disk: Disk, names: seq<Skill>, i: nat)
    requires i < |names|
    ensures PathsOf(disk, names[..i + 1]) ==
            PathsOf(disk, names[..i]) +
            if names[i] in disk then PathsIn(names[i], disk[names[i]], disk[names[i]].Keys) else {}
  {
    assert names[..i + 1] == names[..i] + [names[i]];
  }

  lemma PathsInOneMore(name: Skill, files: map<string, Hash>, some: set<string>, f: string)
    requires some <= files.Keys && f in files
    ensures PathsIn(name, files, some + {f}) ==
            PathsIn(name, files, some) + if Hidden(f) then {} else {Path(name, f)}
  {
  }

  class SkillsWatcher {
    const skillNames: seq<Skill>
    var hashes: Hashes
    ghost var reloadedAt: map<Skill, Hashes>

    ghost function View(): State
      reads this
    {
      State(hashes, reloadedAt)
    }

    /** `start`, up to its loop. */
    constructor (names: seq<Skill>, disk: Disk)
      ensures skillNames == names && View() == Started(names, disk)
    {
      skillNames := names;
      hashes, reloadedAt := map[], map[];
      new;
      hashes := Scan(disk);
      reloadedAt := AllAt(names, hashes);
    }

    /** `_scan` */
    method Scan(disk: Disk) returns (h: Hashes)
      ensures h == ScanOf(disk, skillNames)
    {
      h := map[];
      for i := 0 to |skillNames|
        invariant h.Keys == PathsOf(disk, skillNames[..i]) && HashesFrom(h, disk)
      {
        var name := skillNames[i];
        PathsOfOneMore(disk, skillNames, i);
        if name !in disk {
          continue;
        }
        var files := disk[name];
        ghost var before := h.Keys;
        var rest := files.Keys;
        while rest != {}
          invariant rest <= files.Keys && HashesFrom(h, disk)
          invariant h.Keys == before + PathsIn(name, files, files.Keys - rest)
          decreases rest
        {
          var file :| file in rest;
          PathsInOneMore(name, files, files.Keys - rest, file);
          if !Hidden(file) {
            h := h[Path(name, file) := files[file]];
          }
          assert files.Keys - (rest - {file}) == (files.Keys - rest) + {file};
          rest := rest - {file};
        }
      }
      assert skillNames[..|skillNames|] == skillNames;
      assert h == ScanOf(disk, skillNames);
    }

    /** `_changed_skills` */
    method ChangedSkills(newHashes: Hashes) returns (changed: Report)
      ensures IsReport(changed, hashes, newHashes, skillNames)
    {
      changed := map[];
      var all := newHashes.Keys + hashes.Keys;
      var rest := all;
      while rest != {}
        invariant rest <= all && Lists(changed, all - rest, hashes, newHashes, skillNames)
        decreases rest
      {
        var relPath :| relPath in rest;
        var before := if relPath in hashes then hashes[relPath] else "";
        var now := if relPath in newHashes then newHashes[relPath] else "";
        ListsOneMore(changed, all - rest, relPath, hashes, newHashes, skillNames);
        if before != now && relPath.skill in skillNames {
          var files := if relPath.skill in changed then changed[relPath.skill] else [];
          changed := changed[relPath.skill := files + [relPath]];
        }
        assert all - (rest - {relPath}) == (all - rest) + {relPath};
        rest := rest - {relPath};
      }
      assert all - {} == all;
      ReportIsRight(changed, hashes, newHashes, skillNames);
    }

    /** `_tick`; the result tells what is reloaded, and with which changed files. */
    method TickOnce(atPoll: Disk, settled: Disk) returns (report: Report)
      modifies this
      ensures Tick(skillNames, old(View()), atPoll, settled, View(), report)
    {
      ghost var s := View();
      var newHashes := Scan(atPoll);
      var changed := ChangedSkills(newHashes);
      EmptyReport(changed, hashes, newHashes, skillNames);
      if changed == map[] {
        return map[];
      }
      newHashes := Scan(settled);
      report := ChangedSkills(newHashes);
      Committed(skillNames, s, atPoll, settled, report);
      ghost var s' := Reload(s, report, newHashes);
      assert s'.hashes == newHashes;
      hashes, reloadedAt := newHashes, s'.reloadedAt;
    }
  }

  lemma Committed(names: seq<Skill>, s: State, atPoll: Disk, settled: Disk, report: Report)
    requires !AllAgree(s.hashes, ScanOf(atPoll, names), names)
    requires IsReport(report, s.hashes, ScanOf(settled, names), names)
    ensures Tick(names, s, atPoll, settled, Reload(s, report, ScanOf(settled, names)), report)
  {
  }

  lemma EmptyReport(changed: Report, before: Hashes, now: Hashes, names: seq<Skill>)
    requires IsReport(changed, before, now, names)
    ensures changed == map[] <==> AllAgree(before, now, names)
  {
    if changed == map[] {
      forall k | k in names ensures Agree(before, now, k) { assert k !in changed; }
    } else {
      var k :| k in changed;
    }
  }

  /** The report lists the changed ones of the paths looked at, each once. */
  ghost predicate Lists(changed: Report, looked: set<Path>, before: Hashes, now: Hashes, names: seq<Skill>) {
    && (forall k :: k in changed ==> k in names && changed[k] != [] && Distinct(changed[k]))
    && (forall k, p :: k in changed && p in changed[k] ==>
        p.skill == k && p in looked && Seen(before, p) != Seen(now, p))
    && (forall p :: p in looked && p.skill in names && Seen(before, p) != Seen(now, p)
          ==> p.skill in changed && p in changed[p.skill])
  }

  lemma ListsOneMore(changed: Report, looked: set<Path>, p: Path, before: Hashes, now: Hashes, names: seq<Skill>)
    requires Lists(changed, looked, before, now, names) && p !in looked
    ensures Lists(if Seen(before, p) != Seen(now, p) && p.skill in names
                  then changed[p.skill := (if p.skill in changed then changed[p.skill] else []) + [p]] else changed,
                  looked + {p}, before, now, names)
  {
  }

  lemma ReportIsRight(changed: Report, before: Hashes, now: Hashes, names: seq<Skill>)
    requires Lists(changed, now.Keys + before.Keys, before, now, names)
    ensures IsReport(changed, before, now, names)
  {
    forall k | k in changed ensures !Agree(before, now, k) && ListsChanges(changed[k], k, before, now) {
      assert changed[k][0] in changed[k];
      forall p: Path ensures p in changed[k] <==> p.skill == k && Seen(before, p) != Seen(now, p) {
        if p.skill == k && Seen(before, p) != Seen(now, p) { assert p in now.Keys + before.Keys; }
      }
    }
    forall k | k in names && k !in changed ensures Agree(before, now, k) {
      forall p: Path | p.skill == k ensures Seen(before, p) == Seen(now, p) {
        assert Seen(before, p) != Seen(now, p) ==> p in now.Keys + before.Keys;
      }
    }
  }
}

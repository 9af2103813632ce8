/** Archiving and pruning one Silver partition, with a crash possible before every change
    to the disk (scripts/archive_bybit_silver.py).

    A crash is modelled by a budget: each change to the disk consumes one unit, and a run
    whose budget is spent stops where it stands. A contract that holds for every budget
    therefore holds for a crash at every step. */
module SilverArchive {
  import opened Common

  type Bytes = seq<nat>

  /** An injective digest of a file. */
  datatype Hash = Sha256(of: Bytes)

  /** A directory entry: a regular file, or a symlink or directory. */
  datatype FileEntry = Regular(content: Bytes) | NotRegular

  type Directory = map<string, FileEntry>

  datatype Facts = Facts(size: nat, sha256: Hash)

  type Inventory = map<string, Facts>

  /** A tar member; `content` is None when `extractfile` gives nothing. */
  datatype Member = Member(name: string, isFile: bool, size: nat, content: Option<Bytes>)

  /** An archive as a reader finds it; one that was cut off does not read to its end. */
  datatype Tar = Tar(members: seq<Member>, cutOff: bool)

  /** An injective digest of an archive. */
  datatype TarHash = TarSha256(of: Tar)

  /** `manifest.json`: half-written, or a report. */
  datatype Evidence = Torn | Report(source: string, files: Inventory, archiveSha256: TarHash, restoreVerified: bool)

  datatype Disk = Disk(
    source: Option<Directory>, partial: Option<Tar>, archive: Option<Tar>, evidence: Option<Evidence>)

  datatype Ending = Crashed | Refused | Finished(sourcePruned: bool)

  // ------------------------------------------------------- verify_archive

  predicate UnsafeName(name: string) {
    '/' in name || '\\' in name || name == "." || name == ".."
  }

  predicate MemberMatches(m: Member, entries: Inventory) {
    && m.isFile && m.name in entries && !UnsafeName(m.name)
    && m.content.Some? && m.size == entries[m.name].size
    && Sha256(m.content.value) == entries[m.name].sha256
  }

  /** The archive reads to its end and holds each listed file once, with its exact bytes,
      and nothing else. */
  ghost predicate Matches(t: Tar, entries: Inventory) {
    && !t.cutOff
    && (forall i :: 0 <= i < |t.members| ==> MemberMatches(t.members[i], entries))
    && (forall i, j :: 0 <= i < j < |t.members| ==> t.members[i].name != t.members[j].name)
    && (forall n :: n in entries ==> exists i :: 0 <= i < |t.members| && t.members[i].name == n)
  }

  /** `verify_archive`: the streaming check accepts exactly the matching archives. */
  method VerifyArchive(t: Tar, entries: Inventory) returns (ok: bool)
    ensures ok <==> Matches(t, entries)
  {
    var seen: set<string> := {};
    for i := 0 to |t.members|
      invariant forall j :: 0 <= j < i ==> MemberMatches(t.members[j], entries)
      invariant forall j, k :: 0 <= j < k < i ==> t.members[j].name != t.members[k].name
      invariant forall n :: n in seen <==> exists j :: 0 <= j < i && t.members[j].name == n
    {
      var m := t.members[i];
      if !m.isFile || m.name !in entries || m.name in seen || UnsafeName(m.name) {
        return false;
      }
      if m.content.None? || m.size != entries[m.name].size {
        return false;
      }
      if Sha256(m.content.value) != entries[m.name].sha256 {
        return false;
      }
      seen := seen + {m.name};
    }
    if t.cutOff {
      return false; // reading past the last member raises
    }
    ok := seen == entries.Keys;
  }

  // ------------------------------------------------------------ inventory

  predicate AllRegular(d: Directory) {
    forall n :: n in d ==> d[n].Regular?
  }

  function InventoryOf(d: Directory): Inventory
    requires AllRegular(d)
  {
    map n | n in d :: Facts(|d[n].content|, Sha256(d[n].content))
  }

  /** The archive holds this file's exact bytes. */
  ghost predicate Holds(t: Tar, name: string, content: Bytes) {
    exists i :: 0 <= i < |t.members| && t.members[i].name == name && t.members[i].content == Some(content)
  }

  /** An archive that matches a directory's inventory can restore every file of it. */
  lemma MatchingArchiveHoldsEverything(t: Tar, d: Directory)
    requires AllRegular(d) && Matches(t, InventoryOf(d))
    ensures forall n :: n in d ==> Holds(t, n, d[n].content)
  {
    forall n | n in d ensures Holds(t, n, d[n].content) {
      assert n in InventoryOf(d);
      var i :| 0 <= i < |t.members| && t.members[i].name == n;
      assert MemberMatches(t.members[i], InventoryOf(d));
    }
  }

  /** The archive that is written of a directory: one regular member per file, in any order. */
  ghost predicate TarOf(t: Tar, d: Directory)
    requires AllRegular(d)
  {
    && !t.cutOff
    && (forall i :: 0 <= i < |t.members| ==> MemberOf(t.members[i], d))
    && (forall i, j :: 0 <= i < j < |t.members| ==> t.members[i].name != t.members[j].name)
    && (forall n :: n in d ==> exists i :: 0 <= i < |t.members| && t.members[i].name == n)
  }

  predicate MemberOf(m: Member, d: Directory)
    requires AllRegular(d)
  {
    m.name in d && m == Member(m.name, true, |d[m.name].content|, Some(d[m.name].content))
  }

  predicate SafeNames(d: Directory) {
    forall n :: n in d ==> '/' !in n && '\\' !in n && n != "." && n != ".."
  }

  lemma MemberMatchesIff(m: Member, d: Directory)
    requires AllRegular(d)
    ensures MemberMatches(m, InventoryOf(d)) <==> MemberOf(m, d) && !UnsafeName(m.name)
  {
  }

  /** Of a directory's inventory, exactly the archives verify that could have been written of it,
      and of these none if some file has an unsafe name. */
  lemma VerifiesIff(t: Tar, d: Directory)
    requires AllRegular(d)
    ensures Matches(t, InventoryOf(d)) <==> TarOf(t, d) && SafeNames(d)
  {
    forall i | 0 <= i < |t.members|
      ensures MemberMatches(t.members[i], InventoryOf(d)) <==>
        MemberOf(t.members[i], d) && !UnsafeName(t.members[i].name)
    {
      MemberMatchesIff(t.members[i], d);
    }
    assert InventoryOf(d).Keys == d.Keys;
    if Matches(t, InventoryOf(d)) {
      forall n | n in d ensures !UnsafeName(n) {
        var i :| 0 <= i < |t.members| && t.members[i].name == n;
        assert MemberMatches(t.members[i], InventoryOf(d));
      }
    }
  }

  // ------------------------------------------------------ the crash invariant

  ghost predicate Within(d: Directory, original: Directory) {
    forall n :: n in d ==> n in original && d[n] == original[n]
  }

  /** What every crash leaves behind: until complete evidence exists the source is as it was;
      once it exists, it describes the original files, the archive matches it, and the source
      only ever shrinks. */
  ghost predicate Safe(original: Directory, relative: string, disk: Disk) {
    match disk.evidence
    case None => disk.source == Some(original)
    case Some(Torn) => disk.source == Some(original)
    case Some(Report(source, files, archiveSha256, restoreVerified)) =>
      && AllRegular(original) && source == relative && restoreVerified
      && files == InventoryOf(original)
      && disk.archive.Some? && archiveSha256 == TarSha256(disk.archive.value)
      && Matches(disk.archive.value, files)
      && (disk.source.Some? ==> Within(disk.source.value, original))
  }

  /** Complete evidence is on disk. */
  predicate Vouched(disk: Disk) {
    disk.evidence.Some? && disk.evidence.value.Report?
  }

  lemma ShrinkingIsSafe(original: Directory, relative: string, disk: Disk, smaller: Option<Directory>)
    requires Safe(original, relative, disk) && Vouched(disk) && disk.source.Some?
    requires smaller.Some? ==> Within(smaller.value, disk.source.value)
    ensures Safe(original, relative, disk.(source := smaller))
  {
  }

  /** The file is in the source unchanged, or byte for byte in an archive whose hash the
      evidence records. */
  ghost predicate Survives(disk: Disk, name: string, entry: FileEntry) {
    || (disk.source.Some? && name in disk.source.value && disk.source.value[name] == entry)
    || (entry.Regular? && disk.archive.Some? && disk.evidence.Some? && disk.evidence.value.Report?
        && disk.evidence.value.archiveSha256 == TarSha256(disk.archive.value)
        && Holds(disk.archive.value, name, entry.content))
  }

  /** Nothing is ever lost: each original entry is still in the source, or the archive that
      the evidence vouches for holds its exact bytes. */
  lemma NothingIsLost(original: Directory, relative: string, disk: Disk, name: string)
    requires Safe(original, relative, disk) && name in original
    ensures Survives(disk, name, original[name])
  {
    if disk.evidence.Some? && disk.evidence.value.Report? {
      MatchingArchiveHoldsEverything(disk.archive.value, original);
    }
  }

  // --------------------------------------------------------- archive_partition

  /** The members written so far are those of all files but the rest. */
  ghost predicate WrittenSoFar(members: seq<Member>, d: Directory, rest: set<string>)
    requires AllRegular(d)
  {
    && (forall i :: 0 <= i < |members| ==> MemberOf(members[i], d) && members[i].name !in rest)
    && (forall i, j :: 0 <= i < j < |members| ==> members[i].name != members[j].name)
    && (forall n :: n in d && n !in rest ==> exists i :: 0 <= i < |members| && members[i].name == n)
  }

  lemma WriteOne(members: seq<Member>, d: Directory, rest: set<string>, name: string)
    requires AllRegular(d) && name in rest && name in d && WrittenSoFar(members, d, rest)
    ensures
      WrittenSoFar(members + [Member(name, true, |d[name].content|, Some(d[name].content))], d, rest - {name})
  {
    var more := members + [Member(name, true, |d[name].content|, Some(d[name].content))];
    forall n | n in d && n !in rest - {name} ensures exists i :: 0 <= i < |more| && more[i].name == n {
      if n == name {
        assert more[|members|].name == n;
      } else {
        var i :| 0 <= i < |members| && members[i].name == n;
        assert more[i].name == n;
      }
    }
  }

  class Partition {
    const relative: string
    var source: Option<Directory>
    var partial: Option<Tar>
    var archive: Option<Tar>
    var evidence: Option<Evidence>
    var budget: nat           // disk changes left before the crash
    ghost const original: Directory

    function OnDisk(): Disk
      reads this
    {
      Disk(source, partial, archive, evidence)
    }

    ghost predicate Valid()
      reads this
    {
      Safe(original, relative, OnDisk())
    }

    /** A partition nobody has archived yet. */
    constructor (relative: string, files: Directory)
      ensures Valid() && original == files && this.relative == relative
      ensures OnDisk() == Disk(Some(files), None, None, None)
    {
      this.relative := relative;
      this.original := files;
      source, partial, archive, evidence, budget := Some(files), None, None, None, 0;
    }

    /** `inventory`: refuse anything but regular files, and an empty directory unless allowed. */
    method TakeInventory(allowEmpty: bool) returns (r: Option<Inventory>)
      requires source.Some?
      ensures r.Some? <==> AllRegular(source.value) && (allowEmpty || source.value != map[])
      ensures r.Some? ==> r.value == InventoryOf(source.value)
    {
      var files := source.value;
      if !AllRegular(files) {
        return None;
      }
      if files == map[] && !allowEmpty {
        return None;
      }
      return Some(InventoryOf(files));
    }

    /** Writing `partition.tar.partial`: created empty, one member per file, then closed. */
    method WriteTar(entries: Inventory) returns (crashed: bool)
      requires source.Some? && AllRegular(source.value) && entries.Keys == source.value.Keys
      modifies `partial, `budget
      ensures !crashed ==> partial.Some? && TarOf(partial.value, source.value)
      ensures !crashed ==> budget == old(budget) - |entries.Keys| - 2
      ensures crashed ==> old(budget) < |entries.Keys| + 2
    {
      if budget == 0 { return true; }
      budget, partial := budget - 1, Some(Tar([], true));
      var rest := entries.Keys;
      while rest != {}
        invariant rest <= source.value.Keys && partial.Some?
        invariant WrittenSoFar(partial.value.members, source.value, rest)
        invariant budget == old(budget) - 1 - |entries.Keys| + |rest|
        decreases rest
      {
        if budget == 0 { return true; }
        var name :| name in rest;
        var content := source.value[name].content;
        budget := budget - 1;
        WriteOne(partial.value.members, source.value, rest, name);
        partial := Some(Tar(partial.value.members + [Member(name, true, |content|, Some(content))], true));
        rest := rest - {name};
      }
      if budget == 0 { return true; }
      budget, partial := budget - 1, Some(Tar(partial.value.members, false));
      return false;
    }

    /** Rename the verified partial archive, then write the evidence. */
    method Publish(entries: Inventory) returns (crashed: bool)
      requires Valid() && evidence.None? && partial.Some? && Matches(partial.value, entries)
      requires AllRegular(original) && entries == InventoryOf(original)
      modifies `partial, `archive, `evidence, `budget
      ensures Valid() && (!crashed ==> Vouched(OnDisk()))
      ensures !crashed ==> budget == old(budget) - 3
      ensures crashed ==> old(budget) < 3
    {
      if budget == 0 { return true; }
      budget, archive, partial := budget - 1, partial, None;
      if budget == 0 { return true; }
      budget, evidence := budget - 1, Some(Torn);
      if budget == 0 { return true; }
      budget, evidence := budget - 1, Some(Report(relative, entries, TarSha256(archive.value), true));
      return false;
    }

    /** Nothing stands in the way of building the archive. */
    ghost predicate Archivable(spaceSuffices: bool)
      reads this
    {
      archive.None? && partial.None? && AllRegular(original) && original != map[] && spaceSuffices
    }

    /** The branch without evidence: build, verify, publish, then vouch. */
    method CreateArchive(spaceSuffices: bool) returns (stop: Option<Ending>)
      requires Valid() && evidence.None?
      modifies `partial, `archive, `evidence, `budget
      ensures Valid() && (stop.Some? ==> stop.value == Crashed || stop.value == Refused)
      ensures stop.None? ==> Vouched(OnDisk()) && budget == old(budget) - |original.Keys| - 5
      // refused before anything is written, or for the name of a file, or done, or dead
      ensures !old(Archivable(spaceSuffices)) ==> stop == Some(Refused) && OnDisk() == old(OnDisk())
      ensures old(Archivable(spaceSuffices)) && SafeNames(original) ==> stop != Some(Refused)
      ensures old(Archivable(spaceSuffices)) && !SafeNames(original) ==> stop.Some? && evidence.None?
      ensures stop == Some(Crashed) ==> old(budget) < |original.Keys| + 5
    {
      if archive.Some? {
        return Some(Refused); // archive without evidence requires review
      }
      var entries := TakeInventory(false);
      if entries.None? || !spaceSuffices {
        return Some(Refused);
      }
      if partial.Some? {
        return Some(Refused); // a crashed partial is left for review
      }
      var crashed := WriteTar(entries.value);
      if crashed {
        return Some(Crashed);
      }
      VerifiesIff(partial.value, original);
      var verified := VerifyArchive(partial.value, entries.value);
      if !verified {
        return Some(Refused);
      }
      var again := TakeInventory(false);
      if again != entries {
        assert false; // the source did not change meanwhile
        return Some(Refused);
      }
      var died := Publish(entries.value);
      return if died then Some(Crashed) else None;
    }

    /** The checks on evidence left by an earlier run. */
    method CheckEvidence() returns (ok: bool)
      requires Valid() && evidence.Some?
      ensures ok <==> evidence.value.Report?
    {
      if evidence.value.Torn? {
        return false;
      }
      if
        || evidence.value.source != relative || archive.None?
        || TarSha256(archive.value) != evidence.value.archiveSha256
      {
        return false;
      }
      return evidence.value.restoreVerified;
    }

    /** Unlinking the source, one file after another, then the directory. */
    method UnlinkAll(names: set<string>) returns (crashed: bool)
      requires Valid() && Vouched(OnDisk()) && source.Some? && names == source.value.Keys
      modifies `source, `budget
      ensures Valid()
      ensures !crashed ==> source.None?
      ensures old(budget) > |names| ==> !crashed
    {
      var rest := names;
      while rest != {}
        invariant Valid() && source.Some?
        invariant rest == source.value.Keys && rest <= names && |rest| <= |names|
        invariant budget - |rest| == old(budget) - |names|
        decreases rest
      {
        if budget == 0 { return true; }
        var name :| name in rest;
        ShrinkingIsSafe(original, relative, OnDisk(), Some(source.value - {name}));
        budget, source := budget - 1, Some(source.value - {name});
        assert |rest - {name}| == |rest| - 1;
        rest := rest - {name};
      }
      if budget == 0 { return true; }
      ShrinkingIsSafe(original, relative, OnDisk(), None);
      budget, source := budget - 1, None;
      return false;
    }

    /** Pruning: verify the archive again, check the source against it, unlink. */
    method Prune() returns (stop: Option<Ending>)
      requires Valid() && Vouched(OnDisk()) && source.Some?
      modifies `source, `budget
      ensures Valid()
      ensures stop.None? ==> source.None?
      ensures stop.Some? ==> stop.value == Crashed
      ensures old(budget) > |old(source).value| ==> stop.None?
    {
      var entries := evidence.value.files;
      var verified := VerifyArchive(archive.value, entries);
      if !verified {
        assert false; // a vouched archive still matches
        return Some(Refused);
      }
      var current := TakeInventory(true);
      if current.None? || exists n :: n in current.value && (n !in entries || entries[n] != current.value[n]) {
        assert false; // what is left of the source is still what was archived
        return Some(Refused);
      }
      assert |source.value.Keys| == |source.value|;
      var crashed := UnlinkAll(current.value.Keys);
      return if crashed then Some(Crashed) else None;
    }

    /** `archive_partition`, killed after `crashAfter` disk changes. */
    method ArchivePartition(prune: bool, spaceSuffices: bool, crashAfter: nat) returns (ending: Ending)
      requires Valid()
      modifies this
      // whatever happens and wherever it stops, nothing is lost
      ensures Valid()
      // a crash before the evidence is complete leaves the source intact
      ensures !(Vouched(OnDisk())) ==> source == Some(original)
      // complete evidence and its archive are never touched again
      ensures old(Vouched(OnDisk())) ==> archive == old(archive) && evidence == old(evidence)
      // a prune cut short is completed by running again
      ensures old(Vouched(OnDisk()) && prune && source.Some? && crashAfter > |source.value|) ==>
        ending == Finished(true) && source.None?
      // only a finished prune reports the source gone
      ensures ending.Finished? ==> ending.sourcePruned == source.None?
      ensures !prune ==> source == old(source)
      ensures old(source.None?) ==> source.None?
      // without evidence nothing is written when something stands in the way, space among it
      ensures old(evidence.None? && !Archivable(spaceSuffices)) ==> ending == Refused && OnDisk() == old(OnDisk())
      ensures old(evidence == Some(Torn)) ==> ending == Refused && OnDisk() == old(OnDisk())
      // and otherwise the archive is built, vouched for, holds every file, and is pruned if asked
      ensures old(evidence.None? && Archivable(spaceSuffices)) && SafeNames(original)
              && crashAfter > 2 * |original.Keys| + 5 ==>
        && ending == Finished(prune) && Vouched(OnDisk()) && archive.Some?
        && forall n :: n in original ==> Holds(archive.value, n, original[n].content)
      ensures old(evidence.None? && Archivable(spaceSuffices)) && !SafeNames(original) ==>
        !ending.Finished? && source == Some(original)
      // a run on an archived partition that is not to be pruned changes nothing
      ensures old(Vouched(OnDisk())) && !prune ==> ending == Finished(source.None?) && OnDisk() == old(OnDisk())
      ensures old(Vouched(OnDisk()) && source.None?) ==> ending == Finished(true)
    {
      budget := crashAfter;
      if evidence.Some? {
        var ok := CheckEvidence();
        if !ok {
          return Refused;
        }
      } else {
        var stop := CreateArchive(spaceSuffices);
        if stop.Some? {
          return stop.value;
        }
      }
      if prune && source.Some? {
        var stop := Prune();
        if stop.Some? {
          return stop.value;
        }
      }
      if AllRegular(original) && archive.Some? && Matches(archive.value, InventoryOf(original)) {
        MatchingArchiveHoldsEverything(archive.value, original);
      }
      return Finished(source.None?);
    }
  }

  /** One run of the script on the partition. */
  datatype Run = Run(prune: bool, spaceSuffices: bool, crashAfter: nat)

  /** Over every sequence of runs, crashes and refusals, every original file survives. */
  method RunMany(relative: string, files: Directory, runs: seq<Run>) returns (p: Partition)
    ensures fresh(p) && p.Valid()
    ensures forall name :: name in files ==> Survives(p.OnDisk(), name, files[name])
  {
    p := new Partition(relative, files);
    for i := 0 to |runs|
      invariant fresh(p) && p.original == files && p.relative == relative && p.Valid()
    {
      var ending := p.ArchivePartition(runs[i].prune, runs[i].spaceSuffices, runs[i].crashAfter);
    }
    forall name | name in files ensures Survives(p.OnDisk(), name, files[name]) {
      NothingIsLost(files, relative, p.OnDisk(), name);
    }
  }
}

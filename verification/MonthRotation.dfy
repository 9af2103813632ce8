/** Rotating one complete month to a backup volume, with a crash possible before every
    change to the disks (src/data/binance_archive_rotation.py). */
module MonthRotation {

  type Bytes = seq<nat>

  /** An injective digest of a file. */
  datatype Hash = Sha256(of: Bytes)

  /** Relative path to content. */
  type Volume = map<string, Bytes>

  datatype Entry = Entry(path: string, sha256: Hash)

  datatype Ending = Crashed | Refused | Finished(sourcePruned: bool)

  const EXPECTED_FILES := 48

  /** Every original file is in the source or in the backup, with its bytes. */
  ghost predicate Safe(original: Volume, data: Volume, backup: Volume) {
    forall p :: p in original ==> (p in data && data[p] == original[p]) || (p in backup && backup[p] == original[p])
  }

  ghost predicate BackedUp(entries: seq<Entry>, backup: Volume) {
    forall i :: 0 <= i < |entries| ==> entries[i].path in backup && Sha256(backup[entries[i].path]) == entries[i].sha256
  }

  ghost predicate Subset(a: Volume, b: Volume) {
    forall p :: p in a ==> p in b && a[p] == b[p]
  }

  class Rotation {
    var data: Volume          // the source root
    var backup: Volume        // backup_root/period
    var parts: Volume         // half-copied .part files on the backup volume
    var manifest: bool
    var pruneEvidence: bool
    var budget: nat           // disk changes left before the crash
    ghost const original: Volume

    ghost predicate Valid()
      reads this
    {
      Subset(data, original) && Safe(original, data, backup)
    }

    /** The backup volume may already hold anything. */
    constructor (data: Volume, backup: Volume, parts: Volume)
      ensures Valid() && original == data && this.data == data && this.backup == backup
    {
      this.data, this.backup, this.parts := data, backup, parts;
      this.original := data;
      manifest, pruneEvidence, budget := false, false, 0;
    }

    /** The backup already holds the file, or can be given it. */
    ghost predicate Copyable(e: Entry)
      reads `data, `backup, `parts
    {
      if e.path in backup then Sha256(backup[e.path]) == e.sha256
      else e.path !in parts && e.path in data && Sha256(data[e.path]) == e.sha256
    }

    ghost predicate AllCopyable(entries: seq<Entry>)
      reads `data, `backup, `parts
    {
      forall i :: 0 <= i < |entries| ==> Copyable(entries[i])
    }

    /** `_copy_verified`. A leftover .part makes the exclusive create fail, and the cleanup
        then removes it. */
    method CopyVerified(e: Entry) returns (stop: bool, crashed: bool)
      modifies `backup, `parts, `budget
      ensures Subset(old(backup), backup)
      ensures backup != old(backup) ==> e.path !in old(backup) && backup == old(backup)[e.path := e.sha256.of]
      ensures !stop ==> e.path in backup && Sha256(backup[e.path]) == e.sha256
      ensures crashed ==> stop && old(budget) < 3
      ensures !crashed ==> (stop <==> !old(Copyable(e)))
      ensures e.path in old(backup) ==> !crashed && budget == old(budget) && parts == old(parts)
      // the .part file: none unless the run dies, then empty, and then with the source's bytes
      ensures e.path !in old(backup) && !crashed ==> parts == old(parts) - {e.path}
      ensures !stop && e.path !in old(backup) ==> budget == old(budget) - 3
      ensures crashed ==> budget == 0 && backup == old(backup)
      ensures crashed && old(budget) == 0 ==> parts == old(parts)
      ensures crashed && old(budget) == 1 ==> parts == old(parts)[e.path := []]
      ensures crashed && old(budget) == 2 ==>
        e.path in data && Sha256(data[e.path]) == e.sha256 && parts == old(parts)[e.path := data[e.path]]
      ensures stop && !crashed && e.path !in old(backup) ==>
        budget == if e.path in old(parts) || e.path !in data then old(budget) - 1 else old(budget) - 2
    {
      if e.path in backup {
        return Sha256(backup[e.path]) != e.sha256, false;
      }
      if budget == 0 { return true, true; }
      budget := budget - 1;
      if e.path in parts || e.path !in data {
        parts := parts - {e.path};
        return true, false;
      }
      parts := parts[e.path := []];
      if budget == 0 { return true, true; }
      budget, parts := budget - 1, parts[e.path := data[e.path]];
      if Sha256(parts[e.path]) != e.sha256 {
        parts := parts - {e.path};
        return true, false;
      }
      if budget == 0 { return true, true; }
      budget := budget - 1;
      backup := backup[e.path := parts[e.path]];
      parts := parts - {e.path};
      return false, false;
    }

    method CopyAll(entries: seq<Entry>) returns (stop: bool, crashed: bool)
      requires Valid()
      requires forall i, j :: 0 <= i < j < |entries| ==> entries[i].path != entries[j].path
      modifies `backup, `parts, `budget
      ensures Valid() && Subset(old(backup), backup)
      ensures !stop ==> BackedUp(entries, backup)
      ensures crashed ==> stop && old(budget) < 3 * |entries|
      ensures !crashed ==> (stop <==> !old(AllCopyable(entries)))
      ensures !stop ==> budget >= old(budget) - 3 * |entries|
    {
      for i := 0 to |entries|
        invariant Valid() && Subset(old(backup), backup)
        invariant BackedUp(entries[..i], backup)
        invariant budget >= old(budget) - 3 * i
        invariant forall j :: 0 <= j < i ==> old(Copyable(entries[j]))
        invariant forall j :: i <= j < |entries| ==> Copyable(entries[j]) == old(Copyable(entries[j]))
      {
        ghost var before := backup;
        stop, crashed := CopyVerified(entries[i]);
        assert Subset(before, backup);
        if stop {
          return stop, crashed;
        }
        assert forall j :: i < j < |entries| ==> (entries[j].path in backup <==> entries[j].path in before);
        assert forall j :: 0 <= j < i ==> entries[..i][j] == entries[j];
      }
      return false, false;
    }

    /** The second look at every backup file, before the manifest is written. */
    method AllBackedUp(entries: seq<Entry>) returns (ok: bool)
      ensures ok <==> BackedUp(entries, backup)
    {
      for i := 0 to |entries|
        invariant BackedUp(entries[..i], backup)
      {
        if entries[i].path !in backup || Sha256(backup[entries[i].path]) != entries[i].sha256 {
          return false;
        }
      }
      assert entries[..|entries|] == entries;
      return true;
    }

    method UnlinkAll(entries: seq<Entry>) returns (crashed: bool)
      requires Valid() && BackedUp(entries, backup)
      requires forall i :: 0 <= i < |entries| ==>
        entries[i].path in original && entries[i].sha256 == Sha256(original[entries[i].path])
      requires forall i :: 0 <= i < |entries| ==> entries[i].path in data
      requires forall i, j :: 0 <= i < j < |entries| ==> entries[i].path != entries[j].path
      modifies `data, `budget
      ensures Valid() && Subset(data, old(data))
      ensures forall p :: p in old(data) && p !in data ==> exists i :: 0 <= i < |entries| && entries[i].path == p
      ensures !crashed ==> forall i :: 0 <= i < |entries| ==> entries[i].path !in data
      ensures !crashed ==> budget == old(budget) - |entries|
      ensures crashed ==> old(budget) < |entries|
    {
      for i := 0 to |entries|
        invariant Valid() && Subset(data, old(data))
        invariant forall j :: i <= j < |entries| ==> entries[j].path in data
        invariant forall j :: 0 <= j < i ==> entries[j].path !in data
        invariant forall p :: p in old(data) && p !in data ==> exists j :: 0 <= j < i && entries[j].path == p
        invariant budget == old(budget) - i
      {
        if budget == 0 { return true; }
        budget, data := budget - 1, data - {entries[i].path};
      }
      return false;
    }

    /** Copy, verify, write the manifest, and only then prune. */
    method CopyAndPrune(entries: seq<Entry>, paths: seq<string>, prune: bool) returns (ending: Ending)
      requires Valid() && !manifest && |entries| == |paths|
      requires forall i :: 0 <= i < |paths| ==>
        paths[i] in data && paths[i] in original && entries[i] == Entry(paths[i], Sha256(original[paths[i]]))
      requires forall i, j :: 0 <= i < j < |paths| ==> paths[i] != paths[j]
      modifies this
      ensures Valid()
      ensures data != old(data) ==>
        && prune && manifest
        && forall i :: 0 <= i < |paths| ==> paths[i] in backup && backup[paths[i]] == original[paths[i]]
      ensures Subset(data, old(data))
      ensures forall p :: p in old(data) && p !in data ==> p in paths
      ensures Subset(old(backup), backup)
      ensures ending == Finished(true) ==> forall i :: 0 <= i < |paths| ==> paths[i] !in data
      ensures ending.Finished? ==> ending == Finished(prune) && manifest && BackedUp(entries, backup)
      ensures ending.Finished? && prune ==> pruneEvidence
      ensures old(AllCopyable(entries)) ==> ending != Refused
      ensures !old(AllCopyable(entries)) ==> !ending.Finished? && data == old(data) && !manifest
      ensures ending == Crashed ==> old(budget) < 4 * |entries| + 2
    {
      var stop, crashed := CopyAll(entries);
      if stop {
        return if crashed then Crashed else Refused;
      }
      var qualified := AllBackedUp(entries);
      if !qualified {
        assert false; // every copy was compared when it was made
        return Refused;
      }
      if budget == 0 { return Crashed; }
      budget, manifest := budget - 1, true;
      if prune {
        assert forall i :: 0 <= i < |paths| ==> entries[i].path == paths[i];
        crashed := UnlinkAll(entries);
        if crashed || budget == 0 {
          return Crashed;
        }
        budget, pruneEvidence := budget - 1, true;
        return Finished(true);
      }
      return Finished(false);
    }

    /** What the backup volume holds under these names is what the source holds, and no copy of
        another file has been left half-way. */
    ghost predicate NothingInTheWay(paths: seq<string>)
      requires forall i :: 0 <= i < |paths| ==> paths[i] in data
      reads `data, `backup, `parts
    {
      forall i :: 0 <= i < |paths| ==>
        if paths[i] in backup then backup[paths[i]] == data[paths[i]] else paths[i] !in parts
    }

    /** `rotate_binance_archive_month` for the paths discovered in the source, killed after
        `crashAfter` disk changes. */
    method Rotate(paths: seq<string>, identitiesComplete: bool, spaceSuffices: bool, execute: bool, prune: bool,
                  crashAfter: nat)
      returns (ending: Ending)
      requires Valid()
      requires forall i :: 0 <= i < |paths| ==> paths[i] in data
      requires forall i, j :: 0 <= i < j < |paths| ==> paths[i] != paths[j]
      modifies this
      // whatever happens and wherever it stops, nothing is lost
      ensures Valid()
      // a file leaves the source only once every file of the month is in the backup, byte for byte
      ensures data != old(data) ==>
        prune && execute && |paths| == EXPECTED_FILES && manifest &&
        forall i :: 0 <= i < |paths| ==> paths[i] in backup && backup[paths[i]] == original[paths[i]]
      ensures Subset(data, old(data))
      ensures forall p :: p in old(data) && p !in data ==> p in paths
      // existing backup files are never overwritten
      ensures Subset(old(backup), backup)
      ensures ending == Finished(true) ==> forall i :: 0 <= i < |paths| ==> paths[i] !in data
      // an incomplete month, a dry run and a short volume change nothing
      ensures !identitiesComplete || |paths| != 48 || (execute && !spaceSuffices) ==>
        ending == Refused && data == old(data) && backup == old(backup) && parts == old(parts)
      ensures identitiesComplete && |paths| == 48 && !execute ==>
        ending == Finished(false) && data == old(data) && backup == old(backup) && parts == old(parts)
      // otherwise a run that is not cut short backs up every file and prunes if asked, unless
      // the backup volume holds something else under one of the names
      ensures identitiesComplete && |paths| == 48 && execute && spaceSuffices && old(NothingInTheWay(paths))
              && crashAfter >= 4 * 48 + 2 ==>
        && ending == Finished(prune) && manifest && (prune ==> pruneEvidence)
        && forall i :: 0 <= i < |paths| ==> paths[i] in backup && backup[paths[i]] == original[paths[i]]
      ensures execute && !old(NothingInTheWay(paths)) ==> !ending.Finished? && data == old(data)
    {
      budget := crashAfter;
      manifest := false;
      if !identitiesComplete || |paths| != EXPECTED_FILES {
        return Refused;
      }
      var entries := seq(|paths|, i requires 0 <= i < |paths| && paths[i] in data reads this =>
        Entry(paths[i], Sha256(data[paths[i]])));
      if !execute {
        return Finished(false);
      }
      if !spaceSuffices {
        return Refused;
      }
      assert AllCopyable(entries) <==> NothingInTheWay(paths) by {
        assert forall i :: 0 <= i < |paths| ==> entries[i] == Entry(paths[i], Sha256(data[paths[i]]));
        if !NothingInTheWay(paths) {
          var i :| && 0 <= i < |paths|
                   && !(if paths[i] in backup then backup[paths[i]] == data[paths[i]] else paths[i] !in parts);
          assert !Copyable(entries[i]);
        }
      }
      ending := CopyAndPrune(entries, paths, prune);
    }
  }
}

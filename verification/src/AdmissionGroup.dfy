/** The running history group of cold admission (crates/uste-graph/src/state_disk.rs:3745-3840, 4000-4130). */
module AdmissionGroup {
  import opened Base
  import opened Records
  import opened Restore
  import opened Families
  import opened DiskLoad
  import opened Admission

  /** The versions of one record, numbered from one, each legal after the one before. */
  predicate GroupGood(scope: nat, id: RecordRef, versions: seq<Record>) {
    && (forall k :: 0 <= k < |versions| ==> versions[k].id == id && versions[k].version == k + 1)
    && (versions != [] ==> RecordHistoryAccepted(scope, versions))
  }

  lemma {:induction false} GroupGrows(scope: nat, id: RecordRef, versions: seq<Record>, r: Record)
    requires GroupGood(scope, id, versions)
    ensures GroupGood(scope, id, versions + [r])
       <==> && r.id == id && r.version == |versions| + 1
            && (if versions == [] then FirstAccepted(scope, r)
               else SuccessorAccepted(scope, versions[|versions| - 1], r))
  {
    hide FirstAccepted, SuccessorAccepted;
    var all, n := versions + [r], |versions|;
    assert all[n] == r && (forall k :: 0 <= k < n ==> all[k] == versions[k]);
    if n > 0 && GroupGood(scope, id, all) { assert SuccessorAccepted(scope, all[n - 1], all[n]); }
    if n > 0 && SuccessorAccepted(scope, versions[n - 1], r) {
      forall k | 0 < k < n
        ensures SuccessorAccepted(scope, all[k - 1], all[k])
      {
        assert SuccessorAccepted(scope, versions[k - 1], versions[k]);
      }
    }
  }

  /** A refused version refuses every longer history that starts the same way. */
  lemma {:induction false} GroupPrefix(scope: nat, id: RecordRef, versions: seq<Record>, k: nat)
    requires GroupGood(scope, id, versions) && k <= |versions|
    ensures GroupGood(scope, id, versions[..k])
  {
    hide FirstAccepted, SuccessorAccepted;
    var front := versions[..k];
    forall i | 0 < i < |front|
      ensures SuccessorAccepted(scope, front[i - 1], front[i])
    {
      assert SuccessorAccepted(scope, versions[i - 1], versions[i]);
    }
  }

  class HistoryAdmissionGroup {
    const id: RecordRef
    const scope: nat
    var versions: nat
    var previous: Option<Record>
    /** Everything observed so far. */
    ghost var seen: seq<Record>

    constructor (scope_: nat, id_: RecordRef)
      ensures Valid() && id == id_ && scope == scope_ && seen == []
    {
      scope, id, versions, previous, seen := scope_, id_, 0, None, [];
    }

    ghost predicate Valid()
      reads this
    {
      && versions == |seen| && previous == (if seen == [] then None else Some(seen[|seen| - 1]))
      && GroupGood(scope, id, seen)
    }

    /** `observe`: accepts exactly the versions that keep the whole group good. */
    method Observe(r: Record) returns (accepted: bool)
      requires Valid()
      modifies this
      ensures accepted <==> GroupGood(scope, id, old(seen) + [r])
      ensures accepted ==> Valid() && seen == old(seen) + [r]
      ensures !accepted ==> unchanged(this)
    {
      hide FirstAccepted, SuccessorAccepted;
      GroupGrows(scope, id, seen, r);
      if r.id != id || r.version != versions + 1 { return false; }
      if previous.Some? {
        if !SuccessorAccepted(scope, previous.value, r) { return false; }
      } else if !FirstAccepted(scope, r) { return false; }
      versions, previous, seen := versions + 1, Some(r), seen + [r];
      accepted := true;
    }
  }

  /** Streaming a whole history through one group decides exactly whether the history is good. */
  method AdmitHistory(scope: nat, id: RecordRef, versions: seq<Record>) returns (accepted: bool)
    ensures accepted <==> GroupGood(scope, id, versions)
  {
    hide RecordHistoryAccepted;
    var group := new HistoryAdmissionGroup(scope, id);
    for k := 0 to |versions|
      invariant fresh(group) && group.Valid() && group.id == id && group.scope == scope && group.seen == versions[..k]
    {
      assert versions[..k] + [versions[k]] == versions[..k + 1];
      var more := group.Observe(versions[k]);
      if !more {
        if GroupGood(scope, id, versions) { GroupPrefix(scope, id, versions, k + 1); }
        return false;
      }
    }
    assert versions[..|versions|] == versions;
    accepted := true;
  }

  /** With rising revisions inside the root's, the streamed checks are those of a full restore. */
  lemma {:induction false} GroupIsHistory(scope: nat, revision: nat, id: RecordRef, versions: seq<Record>)
    requires versions != []
    requires forall k :: 0 <= k < |versions| ==> versions[k].ModifiedRevision() <= revision
    requires forall k :: 0 < k < |versions| ==> versions[k - 1].ModifiedRevision() < versions[k].ModifiedRevision()
    ensures GroupGood(scope, id, versions) <==> HistoryAccepted(scope, revision, id, versions)
  {
    hide RecordHistoryAccepted;
    if HistoryAccepted(scope, revision, id, versions) {
      forall k | 0 <= k < |versions|
        ensures versions[k].id == id && versions[k].version == k + 1
      {
        assert VersionAccepted(id, versions, k, revision);
      }
    }
  }

  // One stored group, from its first version to its finish

  /** The requirements visited right after the version at `index` has been observed. */
  predicate RequirementsMet(root: Root, versions: seq<Record>, index: nat)
    requires index < |versions|
  {
    if index > 0 then AllFoundAt(root, SuccessorRequirements(versions[index]))
    else FirstRequirements(versions[0]).Some? && AllFoundAt(root, FirstRequirements(versions[0]).value)
  }

  /** `finish_history_admission_group`: the last version is the current
      record, and what that refers to is current too. */
  predicate Finished(root: Root, id: RecordRef, last: Record) {
    StoredRecord(root, id) == Ok(Some(last)) && AllFoundNow(root, CurrentRequirements(last, root.revision))
  }

  /** Admission of a group is the streamed decision, the requirements of each version, and the finish. */
  lemma {:induction false} GroupAdmittedMeaning(root: Root, record: nat)
    ensures var id, versions := RecordRef(root.scope, record), StoredVersions(root, record);
      GroupAdmitted(root, record)
      <==> && versions != [] && GroupGood(root.scope, id, versions)
           && (forall k :: 0 <= k < |versions| ==> RequirementsMet(root, versions, k))
           && Finished(root, id, versions[|versions| - 1])
  {
    hide StoredVersions, FirstAccepted, SuccessorAccepted, AllFoundAt, AllFoundNow, FirstRequirements,
         SuccessorRequirements, CurrentRequirements, StoredRecord;
    var versions := StoredVersions(root, record);
    if versions != [] && (forall k :: 0 <= k < |versions| ==> RequirementsMet(root, versions, k)) {
      assert RequirementsMet(root, versions, 0);
      forall k | 0 < k < |versions|
        ensures AllFoundAt(root, SuccessorRequirements(versions[k]))
      {
        assert RequirementsMet(root, versions, k);
      }
    }
  }

  /** Visits the requirements in order, looking each up as of its revision. */
  method VisitHistorical(root: Root, requirements: seq<Requirement>) returns (met: bool)
    ensures met <==> AllFoundAt(root, requirements)
  {
    hide FoundAt;
    for k := 0 to |requirements|
      invariant forall i :: 0 <= i < k ==> FoundAt(root, requirements[i])
    {
      if !FoundAt(root, requirements[k]) { return false; }
    }
    met := true;
  }

  /** Visits the requirements in order, looking each up among the current records. */
  method VisitCurrent(root: Root, requirements: seq<Requirement>) returns (met: bool)
    ensures met <==> AllFoundNow(root, requirements)
  {
    hide FoundNow;
    for k := 0 to |requirements|
      invariant forall i :: 0 <= i < k ==> FoundNow(root, requirements[i])
    {
      if !FoundNow(root, requirements[k]) { return false; }
    }
    met := true;
  }

  method VisitVersion(root: Root, ghost versions: seq<Record>, ghost index: nat, r: Record, first: bool)
      returns (met: bool)
    requires index < |versions| && versions[index] == r && (first <==> index == 0)
    ensures met <==> RequirementsMet(root, versions, index)
  {
    hide AllFoundAt, FirstRequirements, SuccessorRequirements;
    if first {
      var requirements := FirstRequirements(r);
      if requirements.None? { return false; }
      met := VisitHistorical(root, requirements.value);
    } else {
      met := VisitHistorical(root, SuccessorRequirements(r));
    }
  }

  /** Streams the versions stored under one record through a group: each is observed and its requirements visited,
      then the group is finished. The group is accepted exactly when it is admitted. */
  method AdmitGroup(root: Root, record: nat) returns (accepted: bool)
    requires AllShaped(root)
    ensures accepted <==> GroupAdmitted(root, record)
  {
    hide StoredVersions, GroupAdmitted, GroupGood, RequirementsMet, Finished, AllShaped, FirstAccepted,
         SuccessorAccepted;
    hide StoredRecord, AllFoundNow, CurrentRequirements, ScannedRevisions, Increasing;
    ghost var versions := StoredVersions(root, record);
    var id := RecordRef(root.scope, record);
    GroupAdmittedMeaning(root, record);
    assert StrictOrder(Earlier);
    var found := InOrder(ScannedRevisions(root.entries, record), Earlier);
    StoredRevisions(root, record, found);
    var group := new HistoryAdmissionGroup(root.scope, id);
    for k := 0 to |found|
      invariant fresh(group) && group.Valid() && group.id == id && group.scope == root.scope
        && group.seen == versions[..k]
      invariant forall i :: 0 <= i < k ==> RequirementsMet(root, versions, i)
    {
      StoredVersionAt(root, record, k);
      var r := root.entries[VersionKey(record, found[k])].value;
      assert versions[..k] + [r] == versions[..k + 1];
      var observed := group.Observe(r);
      if !observed {
        if GroupGood(root.scope, id, versions) { GroupPrefix(root.scope, id, versions, k + 1); }
        return false;
      }
      var met := VisitVersion(root, versions, k, r, group.versions == 1);
      if !met { return false; }
    }
    assert versions[..|versions|] == versions;
    if group.previous.None? { return false; }
    accepted := Finish(root, id, group.previous.value);
  }

  method Finish(root: Root, id: RecordRef, last: Record) returns (ok: bool)
    ensures ok <==> Finished(root, id, last)
  {
    hide AllFoundNow, CurrentRequirements;
    if StoredRecord(root, id) != Ok(Some(last)) { return false; }
    ok := VisitCurrent(root, CurrentRequirements(last, root.revision));
  }

  lemma StoredRevisions(root: Root, record: nat, found: seq<nat>)
    requires Enumerates(found, ScannedRevisions(root.entries, record), Earlier)
    ensures found == SortedRevisions(ScannedRevisions(root.entries, record))
      && |found| == |StoredVersions(root, record)|
  {
    hide ScannedRevisions;
    EnumerationUnique(found, SortedRevisions(ScannedRevisions(root.entries, record)),
      ScannedRevisions(root.entries, record), Earlier);
  }
}

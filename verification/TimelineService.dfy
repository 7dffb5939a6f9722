/** The timeline service: the other writer of the timeline table. */
module TimelineServices {
  import opened Options
  import opened AttendanceModel
  import opened RegisterDatabase

  class TimelineService {
    const db: Database

    constructor (db: Database)
      ensures this.db == db
    {
      this.db := db;
    }

    method CreateEntry(env: Env, childId: Id, caller: Id, kind: EntryType, content: Content,
                       at: Option<int>, opts: TimelineOpts, entryId: Id) returns (r: Result<Entry, Error>)
      requires db.Valid()
      modifies db`timeline
      ensures Answers(r, CreateEntryCall(old(db.Contents()), env, childId, caller, kind, content, at, opts, entryId),
                      old(db.Contents()), db.Contents())
      ensures db.Valid()
      ensures r.Ok? ==> Lookup(db.timeline, entryId) == Some(r.value)
    {
      hide Sound;
      ghost var was := db.Contents();
      CallKeepsSound(was, Op.CreateEntry(env, childId, caller, kind, content, at, opts, entryId));

      if Reserved(kind) { return Err(ReservedEntryType); }
      if !MetadataAccepted(kind, content.metadata) { return Err(InvalidMetadata); }
      if caller !in env.staff { return Err(StaffNotFound); }
      if childId !in env.children { return Err(ChildNotFound); }
      if !opts.isAdmin && opts.isMentor {
        if !MentorMayWrite(env, caller, childId) { return Err(MentorScopeViolated); }
      }
      var entryTime := if at.Some? then at.value else env.now;
      if TooFarAhead(env, entryTime) { return Err(InvalidTimestamp); }
      if entryId in db.timeline { return Err(DuplicateKey); }
      var entry := Entry(childId, kind, content, Some(env.staff[caller]), entryTime, env.now, None);
      db.timeline := db.timeline[entryId := entry];
      assert db.Contents() == CreateEntryCall(was, env, childId, caller, kind, content, at, opts, entryId).value;
      r := Ok(entry);
    }

    method UpdateEntry(env: Env, entryId: Id, caller: Id, patch: EntryPatch, opts: TimelineOpts)
      returns (r: Result<Entry, Error>)
      requires db.Valid()
      modifies db`timeline
      ensures Answers(r, UpdateEntryCall(old(db.Contents()), env, entryId, caller, patch, opts),
                      old(db.Contents()), db.Contents())
      ensures db.Valid()
      ensures r.Ok? ==> Lookup(db.timeline, entryId) == Some(r.value)
    {
      hide Sound;
      ghost var was := db.Contents();
      CallKeepsSound(was, Op.UpdateEntry(env, entryId, caller, patch, opts));

      var refusal := CheckWriter(env, entryId, caller, opts);
      if refusal.Some? { return Err(refusal.value); }
      var entry := db.timeline[entryId];
      if patch.entryTime.Set? && TooFarAhead(env, patch.entryTime.value) { return Err(InvalidTimestamp); }
      if patch.metadata.Set? && !MetadataAccepted(entry.entryType, patch.metadata.value) {
        return Err(InvalidMetadata);
      }
      entry := PatchedEntry(entry, patch);
      db.timeline := db.timeline[entryId := entry];
      assert db.Contents() == UpdateEntryCall(was, env, entryId, caller, patch, opts).value;
      r := Ok(entry);
    }

    method DeleteEntry(env: Env, entryId: Id, caller: Id, opts: TimelineOpts) returns (r: Result<(), Error>)
      requires db.Valid()
      modifies db`timeline
      ensures Answers(r, DeleteEntryCall(old(db.Contents()), env, entryId, caller, opts),
                      old(db.Contents()), db.Contents())
      ensures db.Valid()
    {
      hide Sound;
      ghost var was := db.Contents();
      CallKeepsSound(was, Op.DeleteEntry(env, entryId, caller, opts));

      var refusal := CheckWriter(env, entryId, caller, opts);
      if refusal.Some? { return Err(refusal.value); }
      db.timeline := db.timeline - {entryId};
      assert db.Contents() == DeleteEntryCall(was, env, entryId, caller, opts).value;
      r := Ok(());
    }

    /** Who may touch an entry: its author, or an admin; a mentor also needs
        the child's current group. */
    method CheckWriter(env: Env, entryId: Id, caller: Id, opts: TimelineOpts) returns (refusal: Option<Error>)
      ensures refusal == EntryRefusal(db.Contents(), env, entryId, caller, opts)
    {
      if entryId !in db.timeline { return Some(EntryNotFound); }
      var entry := db.timeline[entryId];
      if !opts.isAdmin {
        if caller !in env.staff { return Some(StaffNotFound); }
        if entry.recordedBy != Some(env.staff[caller]) { return Some(NotAuthor); }
        if opts.isMentor {
          if entry.childId !in env.children { return Some(ChildNotFound); }
          if !MentorMayWrite(env, caller, entry.childId) { return Some(MentorScopeViolated); }
        }
      }
      refusal := None;
    }
  }
}

/** How closely the timeline mirrors the attendance events: exactly while only
    the attendance service writes, up to missing or re-timed rows otherwise. */
module TimelineMirror {
  import opened Options
  import opened CivilCalendar
  import opened AttendanceModel

  predicate OneMirror(timeline: map<Id, Entry>) {
    forall j, k | j in timeline && k in timeline && timeline[j].sourceEventId.Some? ::
      timeline[j].sourceEventId == timeline[k].sourceEventId ==> j == k
  }

  /** The entry shows the event's child, type and original author. */
  predicate Shows(x: Entry, e: Event) {
    x.childId == e.childId && x.entryType == MirrorType(e.eventType) && x.recordedBy == e.recordedBy
  }

  predicate EntrySound(events: map<Id, Event>, x: Entry) {
    match x.sourceEventId
    case None => !Reserved(x.entryType)
    case Some(id) => id in events && events[id].Live() && Shows(x, events[id])
  }

  /** At most one mirror per event, each of a live event it agrees with; every
      check-in or check-out entry is such a mirror. */
  predicate MirrorSound(t: Tables) {
    OneMirror(t.timeline) && forall k :: k in t.timeline ==> EntrySound(t.events, t.timeline[k])
  }

  predicate ExactAt(t: Tables, k: Id, id: Id) {
    Mirrors(t.timeline, k, id) && Lookup(t.events, id).Some?
    && t.timeline[k].entryTime == t.events[id].recordedAt
  }

  /** Every live event has its mirror, at its own time. */
  ghost predicate MirrorComplete(t: Tables) {
    forall id :: id in t.events && t.events[id].Live() ==> exists k :: ExactAt(t, k, id)
  }

  // ── One call ────────────────────────────────────────────────────────────

  lemma CreateKeepsMirror(t: Tables, after: Tables, id: Id, k: Id, e: Event, now: int)
    requires MirrorSound(t) && id !in t.events && k !in t.timeline && e.Live()
    requires after.events == t.events[id := e]
    requires after.timeline == t.timeline[k := MirrorEntry(id, e, now)]
    ensures MirrorSound(after)
    ensures MirrorComplete(t) ==> MirrorComplete(after)
  {
    if MirrorComplete(t) {
      forall x | x in after.events && after.events[x].Live() ensures exists j :: ExactAt(after, j, x) {
        if x == id {
          assert ExactAt(after, k, x);
        } else {
          var j :| ExactAt(t, j, x);
          assert ExactAt(after, j, x);
        }
      }
    }
  }

  lemma DeleteKeepsMirror(t: Tables, after: Tables, id: Id)
    requires MirrorSound(t) && id in t.events
    requires id in after.events && after.events == t.events[id := after.events[id]] && !after.events[id].Live()
    requires after.timeline == WithoutMirror(t.timeline, id)
    ensures MirrorSound(after) && !HasMirror(after.timeline, id)
    ensures MirrorComplete(t) ==> MirrorComplete(after)
  {
    if MirrorComplete(t) {
      forall x | x in after.events && after.events[x].Live() ensures exists j :: ExactAt(after, j, x) {
        var j :| ExactAt(t, j, x);
        assert ExactAt(after, j, x);
      }
    }
  }

  /** The entry a correction leaves for an old one, wherever it stays. */
  lemma RealignedEntry(timeline: map<Id, Entry>, id: Id, was: Event, e: Event, k: Id, now: int, j: Id)
    requires j in Realigned(timeline, id, was, e, k, now)
    requires was.eventType == e.eventType || !HasMirror(timeline, id) || k !in timeline
    ensures var x := Realigned(timeline, id, was, e, k, now)[j];
      || (j in timeline && !Mirrors(timeline, j, id) && x == timeline[j])
      || (j == k && x == MirrorEntry(id, e, now) && was.eventType != e.eventType && HasMirror(timeline, id))
      || (was.eventType == e.eventType && Mirrors(timeline, j, id)
          && x == timeline[j].(childId := x.childId, entryTime := x.entryTime)
          && ((x.childId == e.childId && x.entryTime == e.recordedAt)
              || (x == timeline[j] && was.childId == e.childId && was.recordedAt == e.recordedAt)))
  {
    hide MirrorEntry;
  }

  lemma PatchKeepsSound(t: Tables, after: Tables, id: Id, k: Id, now: int)
    requires MirrorSound(t) && LiveEvent(t, id).Some?
    requires id in after.events && after.events == t.events[id := after.events[id]]
    requires after.events[id].Live() && after.events[id].recordedBy == t.events[id].recordedBy
    requires after.events[id].eventType == t.events[id].eventType || !HasMirror(t.timeline, id) || k !in t.timeline
    requires after.timeline == Realigned(t.timeline, id, t.events[id], after.events[id], k, now)
    ensures MirrorSound(after)
  {
    hide Realigned, HasMirror;
    var was, e := t.events[id], after.events[id];
    forall j | j in after.timeline ensures EntrySound(after.events, after.timeline[j]) {
      RealignedEntry(t.timeline, id, was, e, k, now, j);
      if j in t.timeline { assert EntrySound(t.events, t.timeline[j]); }
    }
    forall i, j | i in after.timeline && j in after.timeline && after.timeline[i].sourceEventId.Some?
      ensures after.timeline[i].sourceEventId == after.timeline[j].sourceEventId ==> i == j
    {
      RealignedEntry(t.timeline, id, was, e, k, now, i);
      RealignedEntry(t.timeline, id, was, e, k, now, j);
    }
  }

  lemma PatchKeepsComplete(t: Tables, after: Tables, id: Id, k: Id, now: int)
    requires MirrorSound(t) && MirrorComplete(t) && LiveEvent(t, id).Some?
    requires id in after.events && after.events == t.events[id := after.events[id]]
    requires after.events[id].eventType == t.events[id].eventType || !HasMirror(t.timeline, id) || k !in t.timeline
    requires after.timeline == Realigned(t.timeline, id, t.events[id], after.events[id], k, now)
    ensures MirrorComplete(after)
  {
    hide MirrorSound;
    var was, e := t.events[id], after.events[id];
    forall x | x in after.events && after.events[x].Live() ensures exists j :: ExactAt(after, j, x) {
      var j :| ExactAt(t, j, x);
      if x == id && was.eventType != e.eventType {
        assert ExactAt(after, k, x);
      } else {
        assert ExactAt(after, j, x);
      }
    }
  }

  lemma PatchKeepsMirror(t: Tables, after: Tables, id: Id, k: Id, now: int)
    requires MirrorSound(t) && LiveEvent(t, id).Some?
    requires id in after.events && after.events == t.events[id := after.events[id]]
    requires after.events[id].Live() && after.events[id].recordedBy == t.events[id].recordedBy
    requires after.events[id].eventType == t.events[id].eventType || !HasMirror(t.timeline, id) || k !in t.timeline
    requires after.timeline == Realigned(t.timeline, id, t.events[id], after.events[id], k, now)
    ensures MirrorSound(after)
    ensures MirrorComplete(t) ==> MirrorComplete(after)
  {
    hide MirrorSound, MirrorComplete, Realigned, HasMirror, LiveEvent;
    PatchKeepsSound(t, after, id, k, now);
    if MirrorComplete(t) { PatchKeepsComplete(t, after, id, k, now); }
  }

  /** A staff entry, or a new content of one, is no one's mirror that it was not. */
  lemma EntryKeepsMirror(t: Tables, after: Tables, k: Id, x: Entry)
    requires MirrorSound(t) && after.events == t.events && after.timeline == t.timeline[k := x]
    requires EntrySound(t.events, x)
    requires x.sourceEventId.Some? ==> k in t.timeline && x.sourceEventId == t.timeline[k].sourceEventId
    ensures MirrorSound(after)
    ensures MirrorComplete(t) && k !in t.timeline ==> MirrorComplete(after)
  {
    hide EntrySound;
    if MirrorComplete(t) && k !in t.timeline {
      forall e | e in after.events && after.events[e].Live() ensures exists j :: ExactAt(after, j, e) {
        var j :| ExactAt(t, j, e);
        assert ExactAt(after, j, e);
      }
    }
  }

  lemma DropKeepsMirror(t: Tables, after: Tables, k: Id)
    requires MirrorSound(t) && after.events == t.events && after.timeline == t.timeline - {k}
    ensures MirrorSound(after)
  {
  }

  lemma TimelineKeepsMirror(t: Tables, op: Op)
    requires MirrorSound(t) && (op.CreateEntry? || op.UpdateEntry? || op.DeleteEntry?)
    ensures MirrorSound(Step(t, op))
    ensures MirrorComplete(t) && op.CreateEntry? ==> MirrorComplete(Step(t, op))
  {
    hide MetadataAccepted, MentorMayWrite, TooFarAhead, MirrorComplete, OneMirror, Shows,
      CheckInCall, CheckOutCall, PatchCall, DeleteCall, SetDailyStatusCall;
    match Call(t, op)
    case Err(_) =>
    case Ok(after) =>
      if op.DeleteEntry? {
        DropKeepsMirror(t, after, op.entryId);
      } else {
        if op.UpdateEntry? { assert EntrySound(t.events, t.timeline[op.entryId]); }
        PatchedShows(t, after, op);
        EntryKeepsMirror(t, after, op.entryId, after.timeline[op.entryId]);
      }
  }

  lemma PatchedShows(t: Tables, after: Tables, op: Op)
    requires op.CreateEntry? || op.UpdateEntry?
    requires Call(t, op) == Ok(after) && MirrorSound(t)
    ensures op.entryId in after.timeline && EntrySound(t.events, after.timeline[op.entryId])
  {
    hide MetadataAccepted, MentorMayWrite, TooFarAhead, OneMirror,
      CheckInCall, CheckOutCall, PatchCall, DeleteCall, SetDailyStatusCall;
    if op.UpdateEntry? { assert EntrySound(t.events, t.timeline[op.entryId]); }
  }

  lemma RecordKeepsMirror(t: Tables, op: Op)
    requires MirrorSound(t) && (op.RecordCheckIn? || op.RecordCheckOut?)
    ensures MirrorSound(Step(t, op))
    ensures MirrorComplete(t) ==> MirrorComplete(Step(t, op))
  {
    hide MirrorSound, MirrorComplete, Lookup, TooFarAhead, Settle, MirrorEntry, LocalIsoDate,
      PatchCall, DeleteCall, SetDailyStatusCall, CreateEntryCall, UpdateEntryCall, DeleteEntryCall;
    match Call(t, op)
    case Err(_) =>
    case Ok(after) => CreateKeepsMirror(t, after, op.eventId, op.entryId, after.events[op.eventId], op.env.now);
  }

  lemma CorrectionKeepsMirror(t: Tables, op: Op)
    requires MirrorSound(t) && (op.PatchEvent? || op.DeleteEvent? || op.SetDailyStatus?)
    ensures MirrorSound(Step(t, op))
    ensures MirrorComplete(t) ==> MirrorComplete(Step(t, op))
  {
    hide MirrorSound, MirrorComplete, Lookup, TooFarAhead, SettleAll, Realigned, WithoutMirror, HasMirror, LocalIsoDate,
      CheckInCall, CheckOutCall, CreateEntryCall, UpdateEntryCall, DeleteEntryCall;
    match Call(t, op)
    case Err(_) =>
    case Ok(after) =>
      match op
      case PatchEvent(env, id, _, _, _, k) => PatchKeepsMirror(t, after, id, k, env.now);
      case DeleteEvent(_, id, _) => DeleteKeepsMirror(t, after, id);
      case SetDailyStatus(_, _, _, _, _) => SameKeepsMirror(t, after);
  }

  lemma StepKeepsMirror(t: Tables, op: Op)
    requires MirrorSound(t)
    ensures MirrorSound(Step(t, op))
    ensures MirrorComplete(t) && !op.UpdateEntry? && !op.DeleteEntry? ==> MirrorComplete(Step(t, op))
  {
    hide Step, MirrorSound, MirrorComplete;
    if op.CreateEntry? || op.UpdateEntry? || op.DeleteEntry? {
      TimelineKeepsMirror(t, op);
    } else if op.RecordCheckIn? || op.RecordCheckOut? {
      RecordKeepsMirror(t, op);
    } else {
      CorrectionKeepsMirror(t, op);
    }
  }

  lemma SameKeepsMirror(t: Tables, after: Tables)
    requires MirrorSound(t) && after.events == t.events && after.timeline == t.timeline
    ensures MirrorSound(after) && (MirrorComplete(t) ==> MirrorComplete(after))
  {
    if MirrorComplete(t) {
      forall x | x in after.events && after.events[x].Live() ensures exists j :: ExactAt(after, j, x) {
        var j :| ExactAt(t, j, x);
        assert ExactAt(after, j, x);
      }
    }
  }

  // ── Every run ───────────────────────────────────────────────────────────

  /** In every run, timeline edits included, the mirror is sound. */
  lemma {:induction false} MirrorsStaySound(ops: seq<Op>)
    ensures MirrorSound(Run(ops))
  {
    hide Step;
    if ops != [] {
      MirrorsStaySound(ops[..|ops| - 1]);
      StepKeepsMirror(Run(ops[..|ops| - 1]), ops[|ops| - 1]);
    }
  }

  predicate NoTimelineEdit(ops: seq<Op>) {
    forall op :: op in ops ==> !op.UpdateEntry? && !op.DeleteEntry?
  }

  lemma {:induction false} MirrorsStayComplete(ops: seq<Op>)
    requires NoTimelineEdit(ops)
    ensures MirrorSound(Run(ops)) && MirrorComplete(Run(ops))
  {
    hide Step;
    if ops != [] {
      MirrorsStayComplete(ops[..|ops| - 1]);
      StepKeepsMirror(Run(ops[..|ops| - 1]), ops[|ops| - 1]);
    }
  }

  /** While nobody edits or deletes timeline rows, a live event has exactly one
      mirror, agreeing on child, type, time and original author, and a deleted
      event has none. */
  lemma ExactlyOneMirror(ops: seq<Op>, id: Id)
    requires NoTimelineEdit(ops) && id in Run(ops).events
    ensures var t := Run(ops); var e := t.events[id];
      if e.Live() then
        exists k :: Mirrors(t.timeline, k, id) && Shows(t.timeline[k], e) && t.timeline[k].entryTime == e.recordedAt
          && forall j :: Mirrors(t.timeline, j, id) ==> j == k
      else !HasMirror(t.timeline, id)
  {
    hide Run;
    MirrorsStayComplete(ops);
    var t := Run(ops);
    if t.events[id].Live() {
      var k :| ExactAt(t, k, id);
      assert EntrySound(t.events, t.timeline[k]);
    }
  }
}

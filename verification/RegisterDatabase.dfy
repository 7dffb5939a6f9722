/** The register's tables as mutable state, with the statements the relational
    repositories run on them, and the append-only audit service. */
module RegisterDatabase {
  import opened Options
  import opened AttendanceModel
  import opened AuditReplay
  import opened TimelineMirror

  /** The log replays to the events, and the timeline mirrors them soundly. */
  predicate Sound(t: Tables) { Replay(t.audit) == Some(TrailOf(t)) && MirrorSound(t) }

  lemma CallKeepsSound(t: Tables, op: Op)
    requires Sound(t)
    ensures OneMirror(t.timeline) && forall k :: k in t.timeline ==> EntrySound(t.events, t.timeline[k])
    ensures Call(t, op).Ok? ==> Sound(Call(t, op).value)
  {
    hide Call, TrailOf, Replay;
    StepKeepsReplay(t, op);
    StepKeepsMirror(t, op);
  }

  lemma EmptyIsSound()
    ensures Sound(EMPTY)
  {
    assert TrailOf(EMPTY) == Trail(map[], {});
  }

  class Database {
    var events: map<Id, Event>
    var timeline: map<Id, Entry>
    var statuses: map<Bucket, DailyStatus>
    var audit: seq<AuditEntry>

    function Contents(): Tables
      reads this
    {
      Tables(events, timeline, statuses, audit)
    }

    ghost predicate Valid()
      reads this
    {
      Sound(Contents())
    }

    constructor ()
      ensures Valid() && Contents() == EMPTY
    {
      events, timeline, statuses, audit := map[], map[], map[], [];
      EmptyIsSound();
    }

    /** `INSERT ... ON CONFLICT (child_id, date) DO UPDATE`. */
    method UpsertStatus(b: Bucket, row: DailyStatus)
      modifies this`statuses
      ensures statuses == old(statuses)[b := row]
    {
      statuses := statuses[b := row];
    }

    /** `UPDATE ... SET status = 'present' ... WHERE status IN ('absent', 'late')`,
        and the row as it then is. */
    method UpdatePresentIfAbsentOrLate(b: Bucket, setBy: Id, now: int)
      returns (updated: bool, current: Option<DailyStatus>)
      modifies this`statuses
      ensures updated <==> b in old(statuses) && old(statuses)[b].status in {Absent, Late}
      ensures current == Lookup(statuses, b)
      ensures statuses == if b !in old(statuses) then old(statuses)
                          else old(statuses)[b := Settle(Some(old(statuses)[b]), true, setBy, now).value]
    {
      updated := b in statuses && (statuses[b].status.Absent? || statuses[b].status.Late?);
      if updated {
        statuses := statuses[b := statuses[b].(status := Present, setBy := setBy, updatedAt := now)];
      }
      assert b in statuses ==> statuses == statuses[b := statuses[b]];
      current := Lookup(statuses, b);
    }

    /** `findBySourceEventId`. */
    method FindBySourceEventId(eventId: Id) returns (found: Option<Id>)
      ensures found.Some? <==> HasMirror(timeline, eventId)
      ensures found.Some? ==> Mirrors(timeline, found.value, eventId)
    {
      if k :| k in timeline && Mirrors(timeline, k, eventId) {
        found := Some(k);
      } else {
        found := None;
      }
    }
  }

  class AuditService {
    const db: Database

    constructor (db: Database)
      ensures this.db == db
    {
      this.db := db;
    }

    /** Appends one row and touches nothing else. */
    method Record(entry: AuditEntry)
      modifies db`audit
      ensures db.audit == old(db.audit) + [entry]
    {
      db.audit := db.audit + [entry];
    }
  }

  /** A call's answer and the tables it leaves match what the call should do:
      the new tables on success, the old ones and the error on a throw. */
  predicate Answers<T(==)>(r: Result<T, Error>, expected: Result<Tables, Error>, was: Tables, now: Tables) {
    match expected
    case Ok(after) => r.Ok? && now == after
    case Err(e) => r == Err(e) && now == was
  }
}

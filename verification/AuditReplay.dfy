/** The audit trail of attendance events is a complete history: folding it
    rebuilds the live events, and each row chains onto the one before. */
module AuditReplay {
  import opened Options
  import opened AttendanceModel
  import opened CivilCalendar

  /** What the log has established: the live events and the deleted ids. */
  datatype Trail = Trail(live: map<Id, Event>, gone: set<Id>)

  /** One audit row applied to a trail; None when it does not fit. */
  function Follow(tr: Trail, a: AuditEntry): Option<Trail> {
    match a
    case StatusAudit(_, _, _, _, _, _, _) => Some(tr)
    case EventAudit(id, action, _, _, before, after, _) =>
      match (action, before, after)
      case (Create, None, Some(e)) =>
        if id in tr.live || id in tr.gone then None else Some(tr.(live := tr.live[id := e]))
      case (Update, Some(was), Some(e)) =>
        if Lookup(tr.live, id) != Some(was) then None else Some(tr.(live := tr.live[id := e]))
      case (Delete, Some(was), None) =>
        if Lookup(tr.live, id) != Some(was) then None else Some(Trail(tr.live - {id}, tr.gone + {id}))
      case _ => None
  }

  function Replay(log: seq<AuditEntry>): Option<Trail> {
    if log == [] then Some(Trail(map[], {}))
    else
      match Replay(log[..|log| - 1])
      case None => None
      case Some(tr) => Follow(tr, log[|log| - 1])
  }

  function LiveEvents(events: map<Id, Event>): map<Id, Event> {
    map id | id in events && events[id].Live() :: events[id]
  }

  function TrailOf(t: Tables): Trail {
    Trail(LiveEvents(t.events), t.events.Keys - LiveEvents(t.events).Keys)
  }

  lemma ReplaySnoc(log: seq<AuditEntry>, a: AuditEntry)
    requires Replay(log).Some?
    ensures Replay(log + [a]) == Follow(Replay(log).value, a)
  {
    assert (log + [a])[..|log|] == log;
  }

  lemma ReplayCreate(t: Tables, after: Tables, a: AuditEntry, id: Id, e: Event)
    requires Replay(t.audit) == Some(TrailOf(t))
    requires id !in t.events && e.Live()
    requires a.EventAudit? && a.eventId == id && a.action == Create && a.before == None && a.after == Some(e)
    requires after.events == t.events[id := e] && after.audit == t.audit + [a]
    ensures Replay(after.audit) == Some(TrailOf(after))
  {
    ReplaySnoc(t.audit, a);
    assert LiveEvents(after.events) == LiveEvents(t.events)[id := e];
    assert after.events.Keys == t.events.Keys + {id};
    assert LiveEvents(after.events).Keys == LiveEvents(t.events).Keys + {id};
    assert TrailOf(after).gone == TrailOf(t).gone;
  }

  lemma ReplayUpdate(t: Tables, after: Tables, a: AuditEntry, id: Id, e: Event)
    requires Replay(t.audit) == Some(TrailOf(t))
    requires LiveEvent(t, id).Some? && e.Live()
    requires a.EventAudit? && a.eventId == id && a.action == Update
    requires a.before == LiveEvent(t, id) && a.after == Some(e)
    requires after.events == t.events[id := e] && after.audit == t.audit + [a]
    ensures Replay(after.audit) == Some(TrailOf(after))
  {
    ReplaySnoc(t.audit, a);
    assert LiveEvents(after.events) == LiveEvents(t.events)[id := e];
    assert after.events.Keys == t.events.Keys + {id};
    assert LiveEvents(after.events).Keys == LiveEvents(t.events).Keys + {id};
    assert TrailOf(after).gone == TrailOf(t).gone;
  }

  lemma ReplayDelete(t: Tables, after: Tables, a: AuditEntry, id: Id, e: Event)
    requires Replay(t.audit) == Some(TrailOf(t))
    requires LiveEvent(t, id).Some? && !e.Live()
    requires a.EventAudit? && a.eventId == id && a.action == Delete
    requires a.before == LiveEvent(t, id) && a.after == None
    requires after.events == t.events[id := e] && after.audit == t.audit + [a]
    ensures Replay(after.audit) == Some(TrailOf(after))
  {
    ReplaySnoc(t.audit, a);
    assert LiveEvents(after.events) == LiveEvents(t.events) - {id};
    assert TrailOf(after).gone == TrailOf(t).gone + {id};
  }

  lemma StepKeepsReplay(t: Tables, op: Op)
    requires Replay(t.audit) == Some(TrailOf(t))
    ensures Replay(Step(t, op).audit) == Some(TrailOf(Step(t, op)))
  {
    hide Replay, TrailOf, Settle, SettleAll, Realigned, WithoutMirror, HasMirror, MirrorEntry, LocalIsoDate,
      EntryRefusal;
    match Call(t, op)
    case Err(_) =>
    case Ok(after) =>
      match op
      case RecordCheckIn(_, _, _, _, _, id, _) =>
        ReplayCreate(t, after, after.audit[|t.audit|], id, after.events[id]);
      case RecordCheckOut(_, _, _, _, _, id, _) =>
        ReplayCreate(t, after, after.audit[|t.audit|], id, after.events[id]);
      case PatchEvent(_, id, _, _, _, _) =>
        ReplayUpdate(t, after, after.audit[|t.audit|], id, after.events[id]);
      case DeleteEvent(_, id, _) =>
        ReplayDelete(t, after, after.audit[|t.audit|], id, after.events[id]);
      case SetDailyStatus(_, _, _, _, _) =>
        ReplayStatus(t, after, after.audit[|t.audit|]);
      case _ =>
        ReplaySame(t, after);
  }

  lemma ReplayStatus(t: Tables, after: Tables, a: AuditEntry)
    requires Replay(t.audit) == Some(TrailOf(t))
    requires a.StatusAudit? && after.events == t.events && after.audit == t.audit + [a]
    ensures Replay(after.audit) == Some(TrailOf(after))
  {
    ReplaySnoc(t.audit, a);
  }

  lemma ReplaySame(t: Tables, after: Tables)
    requires Replay(t.audit) == Some(TrailOf(t))
    requires after.events == t.events && after.audit == t.audit
    ensures Replay(after.audit) == Some(TrailOf(after))
  {
  }

  /** Folding the log of any run rebuilds its events table: the live rows with
      their contents, and the ids of the soft-deleted ones. */
  lemma {:induction false} ReplayRebuildsEvents(ops: seq<Op>)
    ensures Replay(Run(ops).audit) == Some(TrailOf(Run(ops)))
  {
    if ops == [] {
      assert TrailOf(EMPTY) == Trail(map[], {});
    } else {
      hide Step;
      ReplayRebuildsEvents(ops[..|ops| - 1]);
      StepKeepsReplay(Run(ops[..|ops| - 1]), ops[|ops| - 1]);
    }
  }

  // ── What a replayable log looks like, row by row ────────────────────────

  predicate About(a: AuditEntry, id: Id) { a.EventAudit? && a.eventId == id }

  predicate Mentioned(log: seq<AuditEntry>, id: Id) { exists a :: a in log && About(a, id) }

  /** The after-image in the last row about an event. */
  function LastAfter(log: seq<AuditEntry>, id: Id): Option<Event> {
    if log == [] then None
    else if About(log[|log| - 1], id) then log[|log| - 1].after
    else LastAfter(log[..|log| - 1], id)
  }

  /** The first row about an event creates it; each later one starts from the
      preceding after-image, so nothing follows a delete. */
  predicate Chained(prefix: seq<AuditEntry>, a: AuditEntry) {
    a.EventAudit? ==>
      && (a.action.Create? <==> !Mentioned(prefix, a.eventId))
      && (a.action.Create? <==> a.before.None?)
      && (a.action.Delete? <==> a.after.None?)
      && a.before == LastAfter(prefix, a.eventId)
  }

  predicate ChainedLog(log: seq<AuditEntry>) {
    forall i :: 0 <= i < |log| ==> Chained(log[..i], log[i])
  }

  /** The trail holds, for every event, what the log's rows about it say last. */
  ghost predicate Knows(log: seq<AuditEntry>, tr: Trail) {
    forall id ::
      && Lookup(tr.live, id) == LastAfter(log, id)
      && (Mentioned(log, id) <==> id in tr.live || id in tr.gone)
      && !(id in tr.live && id in tr.gone)
  }

  /** The fold succeeds exactly on chained logs, and then its live events are
      the last after-images. */
  lemma {:induction false} ReplayMeaning(log: seq<AuditEntry>)
    ensures Replay(log).Some? <==> ChainedLog(log)
    ensures Replay(log).Some? ==> Knows(log, Replay(log).value)
  {
    if log != [] {
      var prefix, a := log[..|log| - 1], log[|log| - 1];
      ReplayMeaning(prefix);
      ChainedSnoc(prefix, a);
      assert log == prefix + [a];
      if Replay(prefix).Some? {
        FollowMeaning(prefix, a, Replay(prefix).value);
      }
    }
  }

  lemma ChainedSnoc(prefix: seq<AuditEntry>, a: AuditEntry)
    ensures ChainedLog(prefix + [a]) <==> ChainedLog(prefix) && Chained(prefix, a)
    ensures forall id :: Mentioned(prefix + [a], id) <==> Mentioned(prefix, id) || About(a, id)
  {
    hide Chained;
    var log := prefix + [a];
    assert log[..|prefix|] == prefix && log[|prefix|] == a;
    assert forall i :: 0 <= i < |prefix| ==> log[..i] == prefix[..i] && log[i] == prefix[i];
    if ChainedLog(log) {
      assert Chained(log[..|prefix|], log[|prefix|]);
    }
  }

  lemma FollowMeaning(prefix: seq<AuditEntry>, a: AuditEntry, tr: Trail)
    requires Knows(prefix, tr)
    ensures Follow(tr, a).Some? <==> Chained(prefix, a)
    ensures Follow(tr, a).Some? ==> Knows(prefix + [a], Follow(tr, a).value)
  {
    hide Mentioned, LastAfter;
    ChainedSnoc(prefix, a);
    LastAfterSnoc(prefix, a);
  }

  lemma LastAfterSnoc(prefix: seq<AuditEntry>, a: AuditEntry)
    ensures forall id ::
      LastAfter(prefix + [a], id) == if About(a, id) then a.after else LastAfter(prefix, id)
  {
    assert (prefix + [a])[..|prefix|] == prefix;
  }

  /** In every run the log is chained and its last after-images are exactly the
      rows of the events table that are still live. */
  lemma AuditTrailIsExact(ops: seq<Op>)
    ensures ChainedLog(Run(ops).audit)
    ensures forall id :: LastAfter(Run(ops).audit, id) == LiveEvent(Run(ops), id)
    ensures forall id :: Mentioned(Run(ops).audit, id) <==> id in Run(ops).events
  {
    ReplayRebuildsEvents(ops);
    ReplayMeaning(Run(ops).audit);
  }
}

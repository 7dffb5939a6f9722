/** The WebSocket gateway between awaits: what each segment of a handshake, a
    disconnect, a timer and a revocation does to the sockets and the jti index. */
module GatewaySockets {
  import opened Options

  type SocketId = string
  type Jti = string

  const SOCKET_TTL_CAP_MS: int := 24 * 60 * 60 * 1000

  /** A verified access token: its id, empty when it has none, and its expiry
      in seconds, None when missing or not finite. */
  datatype Token = Token(jti: Jti, exp: Option<int>)

  /** Where a handshake stands: at one of its awaits, or over. `live` in
      Finished tells whether the socket was still connected when indexed. */
  datatype Stage =
    | Verifying
    | CheckingBlocklist(token: Token)
    | Subscribing(token: Token)
    | Finished(token: Token, at: int, live: bool)
    | Rejected

  /** `jti` is what the handshake stashed, `timer` the pending timer's due time. */
  datatype Socket = Socket(connected: bool, stage: Stage, jti: Jti, timer: Option<int>)

  datatype State = State(sockets: map<SocketId, Socket>, index: map<Jti, set<SocketId>>, clock: int)

  const EMPTY: State := State(map[], map[], 0)

  // ── Pieces ──────────────────────────────────────────────────────────────

  function Indexed(index: map<Jti, set<SocketId>>, s: SocketId, jti: Jti): map<Jti, set<SocketId>> {
    index[jti := (if jti in index then index[jti] else {}) + {s}]
  }

  function Unindexed(index: map<Jti, set<SocketId>>, s: SocketId, jti: Jti): map<Jti, set<SocketId>> {
    if jti !in index then index
    else if index[jti] - {s} == {} then index - {jti}
    else index[jti := index[jti] - {s}]
  }

  /** Disconnecting runs `handleDisconnect` at once, and a second time not at all. */
  function Disconnected(st: State, s: SocketId): State
    requires s in st.sockets
  {
    var k := st.sockets[s];
    if !k.connected then st
    else st.(sockets := st.sockets[s := k.(connected := false, timer := None)],
             index := if k.jti != "" then Unindexed(st.index, s, k.jti) else st.index)
  }

  function Rejection(st: State, s: SocketId): State
    requires s in st.sockets
  {
    Disconnected(st.(sockets := st.sockets[s := st.sockets[s].(stage := Rejected)]), s)
  }

  /** When the expiry timer goes off: at the token's end, a day at most. */
  function ExpiryDue(token: Token, now: int): int
    requires token.exp.Some?
  {
    var left := token.exp.value * 1000 - now;
    now + if left <= SOCKET_TTL_CAP_MS then left else SOCKET_TTL_CAP_MS
  }

  function Scheduled(st: State, s: SocketId, token: Token): State
    requires s in st.sockets
  {
    if token.exp.None? || token.exp.value * 1000 - st.clock <= 0 then Disconnected(st, s)
    else st.(sockets := st.sockets[s := st.sockets[s].(timer := Some(ExpiryDue(token, st.clock)))])
  }

  function Stashed(k: Socket, token: Token): Socket { k.(jti := token.jti, stage := Subscribing(token)) }

  /** The last segment: schedule the expiry, then index, whether or not the
      socket is still connected by then. */
  function Completed(st: State, s: SocketId, token: Token): State
    requires s in st.sockets
  {
    var scheduled := Scheduled(st, s, token);
    var k := scheduled.sockets[s];
    scheduled.(sockets := scheduled.sockets[s := k.(stage := Finished(token, st.clock, k.connected))],
               index := if token.jti != "" then Indexed(scheduled.index, s, token.jti) else scheduled.index)
  }

  function SocketsByJti(st: State, jti: Jti): set<SocketId> { if jti in st.index then st.index[jti] else {} }

  /** All sockets under a jti disconnected. */
  function Revoked(st: State, jti: Jti): State {
    if jti !in st.index then st
    else
      var hit := st.index[jti];
      var left := set s | s in hit && !(s in st.sockets && st.sockets[s].connected);
      State(
        map s | s in st.sockets ::
          if s in hit && st.sockets[s].connected
          then st.sockets[s].(connected := false, timer := None) else st.sockets[s],
        if left == {} then st.index - {jti} else st.index[jti := left],
        st.clock)
  }

  // ── Steps ───────────────────────────────────────────────────────────────

  datatype BlocklistAnswer = Clear | Blocked | Failed

  datatype Event =
    | Connect(s: SocketId, hasToken: bool)
    | Verified(s: SocketId, token: Option<Token>)
    | BlocklistReplied(s: SocketId, answer: BlocklistAnswer)
    | Subscribed(s: SocketId, ok: bool)
    | Drop(s: SocketId)
    | TimerFires(s: SocketId)
    | Revoke(jti: Jti)
    | Elapse(ms: nat)

  predicate Enabled(st: State, e: Event) {
    match e
    case Connect(s, _) => s !in st.sockets
    case Verified(s, _) => s in st.sockets && st.sockets[s].stage.Verifying?
    case BlocklistReplied(s, _) => s in st.sockets && st.sockets[s].stage.CheckingBlocklist?
    case Subscribed(s, _) => s in st.sockets && st.sockets[s].stage.Subscribing?
    case Drop(s) => s in st.sockets
    case TimerFires(s) => s in st.sockets && st.sockets[s].timer.Some? && st.sockets[s].timer.value <= st.clock
    case Revoke(_) => true
    case Elapse(_) => true
  }

  function Next(st: State, e: Event): State
    requires Enabled(st, e)
  {
    match e
    case Connect(s, hasToken) =>
      var st' := st.(sockets := st.sockets[s := Socket(true, Verifying, "", None)]);
      if hasToken then st' else Rejection(st', s)
    case Verified(s, token) =>
      if token.None? then Rejection(st, s)
      else if token.value.jti != "" then
        st.(sockets := st.sockets[s := st.sockets[s].(stage := CheckingBlocklist(token.value))])
      else st.(sockets := st.sockets[s := Stashed(st.sockets[s], token.value)])
    case BlocklistReplied(s, answer) =>
      if !answer.Clear? then Rejection(st, s)
      else st.(sockets := st.sockets[s := Stashed(st.sockets[s], st.sockets[s].stage.token)])
    case Subscribed(s, ok) =>
      if ok then Completed(st, s, st.sockets[s].stage.token) else Rejection(st, s)
    case Drop(s) => Disconnected(st, s)
    case TimerFires(s) => Disconnected(st.(sockets := st.sockets[s := st.sockets[s].(timer := None)]), s)
    case Revoke(jti) => Revoked(st, jti)
    case Elapse(ms) => st.(clock := st.clock + ms)
  }

  function RunFrom(st: State, events: seq<Event>): State {
    if events == [] then st
    else
      var before := RunFrom(st, events[..|events| - 1]);
      var e := events[|events| - 1];
      if Enabled(before, e) then Next(before, e) else before
  }

  function Run(events: seq<Event>): State { RunFrom(EMPTY, events) }

  // ── The invariant ───────────────────────────────────────────────────────

  predicate Belongs(k: Socket, jti: Jti) {
    k.stage.Finished? && k.stage.token.jti == jti && jti != "" && (k.connected || !k.stage.live)
  }

  /** Exactly the sockets that finished under the jti, less those that were
      connected then and are not any more; and no set is empty. */
  ghost predicate IndexExact(st: State) {
    && (forall jti :: jti in st.index ==> jti != "" && st.index[jti] != {} && st.index[jti] <= st.sockets.Keys)
    && (forall s, jti :: s in st.sockets ==> (s in SocketsByJti(st, jti) <==> Belongs(st.sockets[s], jti)))
  }

  predicate SocketSound(st: State, k: Socket) {
    match k.stage
    case Finished(token, at, live) =>
      && k.jti == token.jti && at <= st.clock
      && (k.connected ==> live && token.exp.Some? && k.timer == Some(ExpiryDue(token, at)))
    case Subscribing(token) => k.jti == token.jti && k.timer.None?
    case Rejected => !k.connected
    case _ => k.jti == "" && k.timer.None?
  }

  ghost predicate Valid(st: State) {
    IndexExact(st) && forall s :: s in st.sockets ==> SocketSound(st, st.sockets[s])
  }

  lemma DisconnectKeepsValid(st: State, s: SocketId)
    requires Valid(st) && s in st.sockets
    ensures Valid(Disconnected(st, s))
  {
    var after := Disconnected(st, s);
    assert SocketSound(st, st.sockets[s]);
    forall x, jti | x in after.sockets
      ensures x in SocketsByJti(after, jti) <==> Belongs(after.sockets[x], jti)
    {
      assert x in SocketsByJti(st, jti) <==> Belongs(st.sockets[x], jti);
      assert s in SocketsByJti(st, jti) <==> Belongs(st.sockets[s], jti);
    }
  }

  /** Changing a socket's record but not its place in the index. */
  lemma RecordKeepsValid(st: State, s: SocketId, k: Socket)
    requires Valid(st) && s in st.sockets && SocketSound(st, k)
    requires forall jti :: Belongs(k, jti) <==> Belongs(st.sockets[s], jti)
    ensures Valid(st.(sockets := st.sockets[s := k]))
  {
    hide SocketSound, Belongs;
    var after := st.(sockets := st.sockets[s := k]);
    forall x, jti | x in after.sockets
      ensures x in SocketsByJti(after, jti) <==> Belongs(after.sockets[x], jti)
    {
      assert x in SocketsByJti(st, jti) <==> Belongs(st.sockets[x], jti);
    }
    SoundElsewhere(st, after);
  }

  /** Soundness of a record depends on nothing but the clock. */
  lemma SoundElsewhere(st: State, after: State)
    requires after.clock >= st.clock
    ensures forall k :: SocketSound(st, k) ==> SocketSound(after, k)
  {
  }

  lemma RejectKeepsValid(st: State, s: SocketId)
    requires Valid(st) && s in st.sockets && !st.sockets[s].stage.Finished?
    ensures Valid(Rejection(st, s))
  {
    var out := Disconnected(st, s);
    DisconnectKeepsValid(st, s);
    var k := out.sockets[s].(stage := Rejected);
    assert Rejection(st, s) == out.(sockets := out.sockets[s := k]);
    RecordKeepsValid(out, s, k);
  }

  /** A handshake completes to one new record, indexed under its jti if any. */
  lemma CompletedIs(st: State, s: SocketId, token: Token)
    requires Valid(st) && s in st.sockets && st.sockets[s].stage == Subscribing(token)
    ensures var after := Completed(st, s, token);
      && after.clock == st.clock && s in after.sockets && after.sockets == st.sockets[s := after.sockets[s]]
      && SocketSound(after, after.sockets[s])
      && after.index == if token.jti != "" then Indexed(st.index, s, token.jti) else st.index
    ensures var k := Completed(st, s, token).sockets[s]; k.stage == Finished(token, st.clock, k.connected)
  {
    assert SocketSound(st, st.sockets[s]);
    assert s in SocketsByJti(st, token.jti) <==> Belongs(st.sockets[s], token.jti);
    UnindexedAbsent(st.index, s, token.jti);
  }

  lemma CompleteKeepsValid(st: State, s: SocketId, token: Token)
    requires Valid(st) && s in st.sockets && st.sockets[s].stage == Subscribing(token)
    ensures Valid(Completed(st, s, token))
  {
    hide SocketSound, Completed;
    var after := Completed(st, s, token);
    CompletedIs(st, s, token);
    SoundElsewhere(st, after);
    forall x, jti | x in after.sockets
      ensures x in SocketsByJti(after, jti) <==> Belongs(after.sockets[x], jti)
    {
      assert x in SocketsByJti(st, jti) <==> Belongs(st.sockets[x], jti);
      assert s in SocketsByJti(st, jti) <==> Belongs(st.sockets[s], jti);
    }
  }

  /** Unindexing a socket that is not there changes nothing. */
  lemma UnindexedAbsent(index: map<Jti, set<SocketId>>, s: SocketId, jti: Jti)
    requires jti in index ==> index[jti] != {} && s !in index[jti]
    ensures Unindexed(index, s, jti) == index
  {
    if jti in index { assert index[jti] - {s} == index[jti]; }
  }

  lemma RevokeKeepsValid(st: State, jti: Jti)
    requires Valid(st)
    ensures Valid(Revoked(st, jti))
  {
    var after := Revoked(st, jti);
    forall x, j | x in after.sockets
      ensures x in SocketsByJti(after, j) <==> Belongs(after.sockets[x], j)
      ensures SocketSound(after, after.sockets[x])
    {
      assert SocketSound(st, st.sockets[x]);
      assert x in SocketsByJti(st, j) <==> Belongs(st.sockets[x], j);
      assert x in SocketsByJti(st, jti) <==> Belongs(st.sockets[x], jti);
    }
  }

  lemma ConnectKeepsValid(st: State, s: SocketId)
    requires Valid(st) && s !in st.sockets
    ensures Valid(st.(sockets := st.sockets[s := Socket(true, Verifying, "", None)]))
  {
    var after := st.(sockets := st.sockets[s := Socket(true, Verifying, "", None)]);
    forall x, jti | x in after.sockets
      ensures x in SocketsByJti(after, jti) <==> Belongs(after.sockets[x], jti)
    {
      if x != s { assert x in SocketsByJti(st, jti) <==> Belongs(st.sockets[x], jti); }
    }
  }

  lemma StepKeepsValid(st: State, e: Event)
    requires Valid(st) && Enabled(st, e)
    ensures Valid(Next(st, e))
  {
    hide IndexExact, Disconnected, Rejection, Completed, Revoked;
    if !e.Connect? && !e.Revoke? && !e.Elapse? { assert SocketSound(st, st.sockets[e.s]); }
    match e
    case Connect(s, hasToken) =>
      ConnectKeepsValid(st, s);
      if !hasToken { RejectKeepsValid(st.(sockets := st.sockets[s := Socket(true, Verifying, "", None)]), s); }
    case Verified(s, token) =>
      if token.None? { RejectKeepsValid(st, s); } else { RecordKeepsValid(st, s, Next(st, e).sockets[s]); }
    case BlocklistReplied(s, answer) =>
      if !answer.Clear? { RejectKeepsValid(st, s); } else { RecordKeepsValid(st, s, Next(st, e).sockets[s]); }
    case Subscribed(s, ok) =>
      if ok { CompleteKeepsValid(st, s, st.sockets[s].stage.token); } else { RejectKeepsValid(st, s); }
    case Drop(s) => DisconnectKeepsValid(st, s);
    case TimerFires(s) => TimerKeepsValid(st, s);
    case Revoke(jti) => RevokeKeepsValid(st, jti);
    case Elapse(ms) => ElapseKeepsValid(st, Next(st, e));
  }

  lemma TimerKeepsValid(st: State, s: SocketId)
    requires Valid(st) && s in st.sockets
    ensures Valid(Disconnected(st.(sockets := st.sockets[s := st.sockets[s].(timer := None)]), s))
  {
    var fired := st.(sockets := st.sockets[s := st.sockets[s].(timer := None)]);
    DisconnectKeepsValid(st, s);
    if !st.sockets[s].connected {
      RecordKeepsValid(st, s, fired.sockets[s]);
    } else {
      assert Disconnected(fired, s) == Disconnected(st, s);
    }
  }

  lemma ElapseKeepsValid(st: State, after: State)
    requires Valid(st) && after.clock >= st.clock && after == st.(clock := after.clock)
    ensures Valid(after)
  {
    SoundElsewhere(st, after);
    forall x, jti | x in after.sockets
      ensures x in SocketsByJti(after, jti) <==> Belongs(after.sockets[x], jti)
    {
      assert x in SocketsByJti(st, jti) <==> Belongs(st.sockets[x], jti);
    }
  }

  // ── Every interleaving ──────────────────────────────────────────────────

  lemma {:induction false} RunsAreValid(events: seq<Event>)
    ensures Valid(Run(events))
  {
    hide Valid, Next, Enabled;
    if events == [] {
      EmptyIsValid();
    } else {
      var before, e := Run(events[..|events| - 1]), events[|events| - 1];
      RunsAreValid(events[..|events| - 1]);
      if Enabled(before, e) { StepKeepsValid(before, e); }
    }
  }

  lemma EmptyIsValid()
    ensures Valid(EMPTY)
  {
  }

  /** Every live socket that finished its handshake is indexed under exactly
      its own jti, and has a timer due no later than its token's expiry or a
      day after the handshake. */
  lemma LiveSocketIsIndexedAndTimed(events: seq<Event>, s: SocketId)
    requires var st := Run(events); s in st.sockets && st.sockets[s].connected && st.sockets[s].stage.Finished?
    ensures var st := Run(events); var k := st.sockets[s];
      forall jti :: s in SocketsByJti(st, jti) <==> jti == k.stage.token.jti && jti != ""
    ensures var k := Run(events).sockets[s];
      && k.timer.Some? && k.stage.token.exp.Some?
      && k.timer.value == (if k.stage.token.exp.value * 1000 <= k.stage.at + SOCKET_TTL_CAP_MS
                           then k.stage.token.exp.value * 1000 else k.stage.at + SOCKET_TTL_CAP_MS)
  {
    hide Run, SocketsByJti;
    RunsAreValid(events);
    assert SocketSound(Run(events), Run(events).sockets[s]);
  }

  // ── When the index holds only live sockets ──────────────────────────────

  ghost predicate OnlyLive(st: State) {
    forall s, jti :: s in st.sockets && s in SocketsByJti(st, jti) ==> st.sockets[s].connected
  }

  /** The guard that fails: a subscription that ends on a socket that has gone,
      or whose token has no expiry or has run out by then. */
  predicate IndexesGone(st: State, e: Event)
    requires Enabled(st, e)
    ensures IndexesGone(st, e) ==> e.Subscribed?
  {
    e.Subscribed? && e.ok
    && var k := st.sockets[e.s];
       var token := k.stage.token;
       token.jti != "" && !(k.connected && token.exp.Some? && token.exp.value * 1000 > st.clock)
  }

  /** Every socket that finished with a jti was connected when indexed. */
  predicate FinishedLive(st: State) {
    forall s :: s in st.sockets ==> IndexedLive(st.sockets[s])
  }

  predicate IndexedLive(k: Socket) { k.stage.Finished? && k.stage.token.jti != "" ==> k.stage.live }

  lemma OnlyLiveIsFinishedLive(st: State)
    requires Valid(st)
    ensures OnlyLive(st) <==> FinishedLive(st)
  {
    hide SocketsByJti;
    assert forall s :: s in st.sockets ==> SocketSound(st, st.sockets[s]);
    if OnlyLive(st) {
      forall s | s in st.sockets && st.sockets[s].stage.Finished? && st.sockets[s].stage.token.jti != ""
        ensures st.sockets[s].stage.live
      {
        var jti := st.sockets[s].stage.token.jti;
        assert s in SocketsByJti(st, jti) <==> Belongs(st.sockets[s], jti);
      }
    }
  }

  /** A socket's stage changes only in its own handshake; a finished one's never. */
  lemma IndexedLiveAfter(st: State, e: Event, s: SocketId)
    requires Enabled(st, e) && s in Next(st, e).sockets
    ensures IndexedLive(Next(st, e).sockets[s]) <==>
      (s in st.sockets ==> IndexedLive(st.sockets[s])) && !(IndexesGone(st, e) && e.s == s)
  {
    hide Unindexed, Indexed, ExpiryDue;
  }

  lemma FinishedLiveAfter(st: State, e: Event)
    requires Enabled(st, e)
    ensures FinishedLive(Next(st, e)) <==> FinishedLive(st) && !IndexesGone(st, e)
  {
    hide Next, IndexedLive, Enabled, IndexesGone;
    var after := Next(st, e);
    SocketsStay(st, e);
    forall s | s in after.sockets
      ensures IndexedLive(after.sockets[s]) <==>
        (s in st.sockets ==> IndexedLive(st.sockets[s])) && !(IndexesGone(st, e) && e.s == s)
    {
      IndexedLiveAfter(st, e, s);
    }
  }

  lemma SocketsStay(st: State, e: Event)
    requires Enabled(st, e)
    ensures st.sockets.Keys <= Next(st, e).sockets.Keys
    ensures IndexesGone(st, e) ==> e.s in st.sockets
  {
    hide Unindexed, Indexed, ExpiryDue;
  }

  /** One step from a state where only live sockets are indexed keeps that if
      and only if it is not the guarded one; once broken it stays broken. */
  lemma OnlyLiveAfter(st: State, e: Event)
    requires Valid(st) && Enabled(st, e)
    ensures OnlyLive(Next(st, e)) <==> OnlyLive(st) && !IndexesGone(st, e)
  {
    hide Valid, Next, Enabled, OnlyLive, FinishedLive, IndexesGone;
    StepKeepsValid(st, e);
    OnlyLiveIsFinishedLive(st);
    OnlyLiveIsFinishedLive(Next(st, e));
    FinishedLiveAfter(st, e);
  }

  /** No step of a run completes a handshake on a socket that is gone. */
  predicate NeverIndexesGone(events: seq<Event>) {
    events == [] ||
    (var before, e := Run(events[..|events| - 1]), events[|events| - 1];
     NeverIndexesGone(events[..|events| - 1]) && (Enabled(before, e) ==> !IndexesGone(before, e)))
  }

  /** After a run the index holds only live sockets if and only if no
      subscription of the run ended on a socket that had gone or whose token
      had no expiry or had run out. */
  lemma {:induction false} OnlyLiveExactlyWhen(events: seq<Event>)
    ensures OnlyLive(Run(events)) <==> NeverIndexesGone(events)
  {
    hide Valid, Next, Enabled, OnlyLive, IndexesGone;
    if events == [] {
      EmptyIsValid();
      EmptyIsOnlyLive();
    } else {
      var before, e := Run(events[..|events| - 1]), events[|events| - 1];
      OnlyLiveExactlyWhen(events[..|events| - 1]);
      RunsAreValid(events[..|events| - 1]);
      if Enabled(before, e) { OnlyLiveAfter(before, e); }
    }
  }

  lemma EmptyIsOnlyLive()
    ensures OnlyLive(EMPTY)
  {
  }

  /** A handshake up to its subscription. */
  function Handshake(s: SocketId, token: Token): seq<Event> {
    [Connect(s, true), Verified(s, Some(token)), BlocklistReplied(s, Clear)]
  }

  lemma RunSnoc(events: seq<Event>, e: Event)
    ensures Run(events + [e]) == if Enabled(Run(events), e) then Next(Run(events), e) else Run(events)
  {
    assert (events + [e])[..|events|] == events;
  }

  lemma HandshakeSubscribes(s: SocketId, token: Token)
    requires token.jti != ""
    ensures Run(Handshake(s, token)) == State(map[s := Socket(true, Subscribing(token), token.jti, None)], map[], 0)
  {
    var es := Handshake(s, token);
    RunSnoc([], es[0]);
    RunSnoc([es[0]], es[1]);
    RunSnoc([es[0], es[1]], es[2]);
    assert [] + [es[0]] == [es[0]] && [es[0]] + [es[1]] == [es[0], es[1]] && [es[0], es[1]] + [es[2]] == es;
  }

  /** A client that leaves during its subscription stays in the index. */
  lemma DropWhileSubscribing(s: SocketId, token: Token)
    requires token.jti != ""
    ensures var st := Run(Handshake(s, token) + [Drop(s)] + [Subscribed(s, true)]);
      s in SocketsByJti(st, token.jti) && s in st.sockets && !st.sockets[s].connected
  {
    hide Run, Handshake;
    HandshakeSubscribes(s, token);
    RunSnoc(Handshake(s, token), Drop(s));
    RunSnoc(Handshake(s, token) + [Drop(s)], Subscribed(s, true));
  }

  /** So does one that is still there, but whose token runs out meanwhile. */
  lemma ExpiryWhileSubscribing(s: SocketId, token: Token, ms: nat)
    requires token.jti != "" && token.exp.Some? && token.exp.value * 1000 <= ms
    ensures var st := Run(Handshake(s, token) + [Elapse(ms)] + [Subscribed(s, true)]);
      s in SocketsByJti(st, token.jti) && s in st.sockets && !st.sockets[s].connected
  {
    hide Run, Handshake;
    HandshakeSubscribes(s, token);
    RunSnoc(Handshake(s, token), Elapse(ms));
    RunSnoc(Handshake(s, token) + [Elapse(ms)], Subscribed(s, true));
  }

  /** Revoking leaves no live finished socket with that jti, and touches no
      socket with another. */
  lemma RevokeDisconnectsAll(st: State, jti: Jti, s: SocketId)
    requires Valid(st) && s in st.sockets && st.sockets[s].stage.Finished?
    ensures s in Revoked(st, jti).sockets
    ensures st.sockets[s].stage.token.jti == jti && jti != "" ==> !Revoked(st, jti).sockets[s].connected
    ensures st.sockets[s].stage.token.jti != jti ==> Revoked(st, jti).sockets[s] == st.sockets[s]
  {
    assert s in SocketsByJti(st, jti) <==> Belongs(st.sockets[s], jti);
  }

  // ── What escapes a revocation ───────────────────────────────────────────

  predicate LiveUnder(k: Socket, jti: Jti) { k.connected && k.stage.Finished? && k.stage.token.jti == jti }

  /** A handshake with the jti that is past its blocklist lookup. */
  predicate PastLookup(k: Socket, jti: Jti) { k.stage.Subscribing? && k.stage.token.jti == jti }

  /** Neither live under the jti nor about to be. */
  predicate Caught(k: Socket, jti: Jti) { !LiveUnder(k, jti) && !PastLookup(k, jti) }

  /** The blocklist knows the jti: no lookup of it comes back clear. */
  predicate Blocks(st: State, e: Event, jti: Jti) {
    e.BlocklistReplied? && Enabled(st, e) && st.sockets[e.s].stage.token.jti == jti ==> !e.answer.Clear?
  }

  /** The blocklist knows the jti throughout a run. */
  predicate BlocksThroughout(st: State, events: seq<Event>, jti: Jti) {
    events == [] ||
    (BlocksThroughout(st, events[..|events| - 1], jti)
     && Blocks(RunFrom(st, events[..|events| - 1]), events[|events| - 1], jti))
  }

  lemma StaysCaught(st: State, e: Event, s: SocketId, jti: Jti)
    requires jti != "" && Enabled(st, e) && s in Next(st, e).sockets && Blocks(st, e, jti)
    requires s in st.sockets ==> Caught(st.sockets[s], jti)
    ensures Caught(Next(st, e).sockets[s], jti)
  {
    hide Unindexed, Indexed, ExpiryDue;
  }

  lemma {:induction false} StaysCaughtInRuns(st: State, events: seq<Event>, s: SocketId, jti: Jti)
    requires jti != "" && BlocksThroughout(st, events, jti)
    requires s in st.sockets ==> Caught(st.sockets[s], jti)
    ensures s in RunFrom(st, events).sockets ==> Caught(RunFrom(st, events).sockets[s], jti)
  {
    hide Next, Caught, Blocks, Enabled;
    if events != [] {
      var before, e := RunFrom(st, events[..|events| - 1]), events[|events| - 1];
      StaysCaughtInRuns(st, events[..|events| - 1], s, jti);
      if Enabled(before, e) && s in Next(before, e).sockets {
        StaysCaught(before, e, s, jti);
      }
    }
  }

  /** What is gone stays gone. */
  lemma {:induction false} GoneStaysGone(st: State, events: seq<Event>, s: SocketId)
    requires s in st.sockets && !st.sockets[s].connected
    ensures s in RunFrom(st, events).sockets && !RunFrom(st, events).sockets[s].connected
  {
    hide Next, Enabled;
    if events != [] {
      var before, e := RunFrom(st, events[..|events| - 1]), events[|events| - 1];
      GoneStaysGone(st, events[..|events| - 1], s);
      if Enabled(before, e) { GoneAfter(before, e, s); }
    }
  }

  lemma GoneAfter(st: State, e: Event, s: SocketId)
    requires Enabled(st, e) && s in st.sockets && !st.sockets[s].connected
    ensures s in Next(st, e).sockets && !Next(st, e).sockets[s].connected
  {
    hide Unindexed, Indexed, ExpiryDue;
  }

  /** A socket live under a jti at any moment after its revocation finished its
      handshake after the revocation. */
  lemma EscapesFinishLater(events: seq<Event>, jti: Jti, after: seq<Event>, s: SocketId)
    requires var end := RunFrom(Next(Run(events), Revoke(jti)), after);
      jti != "" && s in end.sockets && LiveUnder(end.sockets[s], jti)
    ensures s !in Run(events).sockets || !Run(events).sockets[s].stage.Finished?
  {
    hide Run, Next;
    var st := Run(events);
    RunsAreValid(events);
    RevokedIs(st, jti);
    if s in st.sockets && st.sockets[s].stage.Finished? {
      RevokeDisconnectsAll(st, jti, s);
      FinishedStays(Next(st, Revoke(jti)), after, s);
      if st.sockets[s].stage.token.jti == jti { GoneStaysGone(Next(st, Revoke(jti)), after, s); }
    }
  }

  lemma {:induction false} FinishedStays(st: State, events: seq<Event>, s: SocketId)
    requires s in st.sockets && st.sockets[s].stage.Finished?
    ensures s in RunFrom(st, events).sockets && RunFrom(st, events).sockets[s].stage == st.sockets[s].stage
  {
    hide Next, Enabled;
    if events != [] {
      var before, e := RunFrom(st, events[..|events| - 1]), events[|events| - 1];
      FinishedStays(st, events[..|events| - 1], s);
      if Enabled(before, e) { FinishedAfter(before, e, s); }
    }
  }

  lemma FinishedAfter(st: State, e: Event, s: SocketId)
    requires Enabled(st, e) && s in st.sockets && st.sockets[s].stage.Finished?
    ensures s in Next(st, e).sockets && Next(st, e).sockets[s].stage == st.sockets[s].stage
  {
    hide Unindexed, Indexed, ExpiryDue;
  }

  /** Once a jti is on the blocklist and its revocation has been handled, a
      socket is live under it at the end of any run only if at the revocation
      its handshake was between the lookup and the end of its subscription. */
  lemma OnlyPastLookupEscapes(events: seq<Event>, jti: Jti, after: seq<Event>, s: SocketId)
    requires var revoked := Next(Run(events), Revoke(jti));
      jti != "" && BlocksThroughout(revoked, after, jti) && s in RunFrom(revoked, after).sockets
      && LiveUnder(RunFrom(revoked, after).sockets[s], jti)
    ensures s in Run(events).sockets && PastLookup(Run(events).sockets[s], jti)
  {
    hide Run, Next;
    var st := Run(events);
    var revoked := Next(st, Revoke(jti));
    RunsAreValid(events);
    RevokedIs(st, jti);
    if s !in st.sockets || !PastLookup(st.sockets[s], jti) {
      if s in st.sockets && st.sockets[s].stage.Finished? { RevokeDisconnectsAll(st, jti, s); }
      RevokedKeepsStage(st, jti, s);
      StaysCaughtInRuns(revoked, after, s, jti);
    }
  }

  lemma RevokedIs(st: State, jti: Jti)
    ensures Next(st, Revoke(jti)) == Revoked(st, jti)
  {
  }

  lemma RevokedKeepsStage(st: State, jti: Jti, s: SocketId)
    ensures s in Revoked(st, jti).sockets <==> s in st.sockets
    ensures s in st.sockets ==> Revoked(st, jti).sockets[s].stage == st.sockets[s].stage
  {
  }

  /** And such a one does escape: it finishes after the revocation and stays
      connected. */
  lemma PastLookupEscapes(s: SocketId, token: Token)
    requires token.jti != "" && token.exp.Some? && token.exp.value > 0
    ensures var st := Run(Handshake(s, token) + [Revoke(token.jti)] + [Subscribed(s, true)]);
      s in st.sockets && LiveUnder(st.sockets[s], token.jti)
  {
    hide Run, Handshake;
    HandshakeSubscribes(s, token);
    RunSnoc(Handshake(s, token), Revoke(token.jti));
    RunSnoc(Handshake(s, token) + [Revoke(token.jti)], Subscribed(s, true));
  }

  // ── What each step does to a socket ─────────────────────────────────────

  const A_DAY: int := 86_400_000

  /** A timer due at the earlier of two times. */
  predicate TimedBy(timer: Option<int>, a: int, b: int) {
    timer.Some? && timer.value <= a && timer.value <= b && timer.value in {a, b}
  }

  predicate TurnedAway(k: Socket) { k.stage == Rejected && !k.connected }

  /** The handshake, step by step: who is turned away, who goes on, and when a
      finished socket is cut off. */
  lemma HandshakeOutcome(st: State, e: Event)
    requires Enabled(st, e) && (e.Connect? || e.Verified? || e.BlocklistReplied? || e.Subscribed?)
    ensures e.s in Next(st, e).sockets
    ensures var k := Next(st, e).sockets[e.s];
      match e
      case Connect(_, hasToken) => if hasToken then k == Socket(true, Verifying, "", None) else TurnedAway(k)
      case Verified(s, None) => TurnedAway(k)
      case Verified(s, Some(token)) =>
        && k.connected == st.sockets[s].connected
        && k.stage == if token.jti == "" then Subscribing(token) else CheckingBlocklist(token)
      case BlocklistReplied(s, answer) =>
        if answer == Clear
        then k.stage == Subscribing(st.sockets[s].stage.token) && k.connected == st.sockets[s].connected
        else TurnedAway(k)
      case Subscribed(s, ok) =>
        var token := st.sockets[s].stage.token;
        if !ok then TurnedAway(k)
        else
          && k.stage == Finished(token, st.clock, k.connected)
          && (k.connected <==> st.sockets[s].connected && token.exp.Some? && token.exp.value * 1000 > st.clock)
          && (k.connected ==> TimedBy(k.timer, token.exp.value * 1000, st.clock + A_DAY))
      case _ => true
  {
    hide Unindexed, Indexed;
  }

  /** A drop or a fired timer cuts its socket off and nothing more of it. */
  lemma CutOffOutcome(st: State, e: Event)
    requires Enabled(st, e) && (e.Drop? || e.TimerFires?)
    ensures e.s in Next(st, e).sockets
    ensures var k := Next(st, e).sockets[e.s];
      && !k.connected && k.stage == st.sockets[e.s].stage && k.jti == st.sockets[e.s].jti
      && (st.sockets[e.s].connected ==> k.timer == None)
  {
    hide Unindexed, Indexed;
  }

  /** Steps of one socket leave all others alone, and only time moves the clock. */
  lemma OthersUntouched(st: State, e: Event, x: SocketId)
    requires Enabled(st, e) && x in st.sockets && !e.Revoke?
    ensures x in Next(st, e).sockets
    ensures e.Elapse? || e.s != x ==> Next(st, e).sockets[x] == st.sockets[x]
    ensures Next(st, e).clock == st.clock + if e.Elapse? then e.ms else 0
  {
    hide Unindexed, Indexed;
  }

  /** A revocation cuts off, of the sockets indexed under the jti, those connected,
      and changes no other. */
  lemma RevokeOutcome(st: State, jti: Jti, s: SocketId)
    requires Valid(st) && s in st.sockets
    ensures s in Next(st, Revoke(jti)).sockets
    ensures var k, was := Next(st, Revoke(jti)).sockets[s], st.sockets[s];
      if was.connected && was.stage.Finished? && was.stage.token.jti == jti && jti != ""
      then k == was.(connected := false, timer := None) else k == was
  {
    assert s in SocketsByJti(st, jti) <==> Belongs(st.sockets[s], jti);
    assert SocketSound(st, st.sockets[s]);
  }

  /** No live socket is cut off by its timer before its token's end or a day after
      its handshake, whichever comes first. */
  lemma TimerIsNotEarly(st: State, s: SocketId)
    requires Valid(st) && Enabled(st, TimerFires(s)) && st.sockets[s].connected && st.sockets[s].stage.Finished?
    ensures var k := st.sockets[s];
      k.stage.token.exp.Some?
      && (st.clock >= k.stage.token.exp.value * 1000 || st.clock >= k.stage.at + A_DAY)
  {
    assert SocketSound(st, st.sockets[s]);
  }
}

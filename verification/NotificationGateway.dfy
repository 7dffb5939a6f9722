/** The gateway's code: a map of sets, per-socket data and timers, updated in place. */
module NotificationGateways {
  import opened Options
  import opened GatewaySockets

  class NotificationGateway {
    var sockets: map<SocketId, Socket>
    var socketsByJti: map<Jti, set<SocketId>>
    var now: int

    function Contents(): State
      reads this
    {
      State(sockets, socketsByJti, now)
    }

    constructor ()
      ensures Contents() == EMPTY
    {
      sockets, socketsByJti, now := map[], map[], 0;
    }

    // ── handleConnection, segment by segment ──────────────────────────────

    /** A new client, up to the token verification. */
    method Accept(s: SocketId, hasToken: bool)
      requires s !in sockets
      modifies this`sockets, this`socketsByJti
      ensures Contents() == Next(old(Contents()), Connect(s, hasToken))
    {
      sockets := sockets[s := Socket(true, Verifying, "", None)];
      if !hasToken { RejectAndDisconnect(s); }
    }

    /** The verified token, up to the blocklist lookup or the subscription. */
    method OnVerified(s: SocketId, token: Option<Token>)
      requires s in sockets && sockets[s].stage.Verifying?
      modifies this`sockets, this`socketsByJti
      ensures Contents() == Next(old(Contents()), Verified(s, token))
    {
      if token.None? { RejectAndDisconnect(s); return; }
      if token.value.jti != "" {
        sockets := sockets[s := sockets[s].(stage := CheckingBlocklist(token.value))];
      } else {
        Stash(s, token.value);
      }
    }

    /** The blocklist's answer, up to the subscription. */
    method OnBlocklistReply(s: SocketId, answer: BlocklistAnswer)
      requires s in sockets && sockets[s].stage.CheckingBlocklist?
      modifies this`sockets, this`socketsByJti
      ensures Contents() == Next(old(Contents()), BlocklistReplied(s, answer))
    {
      if answer != Clear { RejectAndDisconnect(s); return; }
      Stash(s, sockets[s].stage.token);
    }

    /** Past the subscription: timer first, then the index. */
    method OnSubscribed(s: SocketId, ok: bool)
      requires s in sockets && sockets[s].stage.Subscribing?
      modifies this`sockets, this`socketsByJti
      ensures Contents() == Next(old(Contents()), Subscribed(s, ok))
    {
      if !ok { RejectAndDisconnect(s); return; }
      var token := sockets[s].stage.token;
      ScheduleExpiryDisconnect(s, token);
      sockets := sockets[s := sockets[s].(stage := Finished(token, now, sockets[s].connected))];
      if token.jti != "" { IndexSocketByJti(s, token.jti); }
    }

    method Stash(s: SocketId, token: Token)
      requires s in sockets
      modifies this`sockets
      ensures sockets == old(sockets)[s := Stashed(old(sockets)[s], token)]
    {
      sockets := sockets[s := sockets[s].(jti := token.jti, stage := Subscribing(token))];
    }

    // ── Disconnects ───────────────────────────────────────────────────────

    /** `client.disconnect(true)`: `handleDisconnect` runs at once, and only the
        first time. */
    method Disconnect(s: SocketId)
      requires s in sockets
      modifies this`sockets, this`socketsByJti
      ensures Contents() == Disconnected(old(Contents()), s)
    {
      if !sockets[s].connected { return; }
      sockets := sockets[s := sockets[s].(connected := false)];
      HandleDisconnect(s);
    }

    method HandleDisconnect(s: SocketId)
      requires s in sockets
      modifies this`sockets, this`socketsByJti
      ensures sockets == old(sockets)[s := old(sockets)[s].(timer := None)]
      ensures socketsByJti ==
        if old(sockets)[s].jti != "" then Unindexed(old(socketsByJti), s, old(sockets)[s].jti) else old(socketsByJti)
    {
      sockets := sockets[s := sockets[s].(timer := None)];
      if sockets[s].jti != "" { UnindexSocketByJti(s, sockets[s].jti); }
    }

    method RejectAndDisconnect(s: SocketId)
      requires s in sockets
      modifies this`sockets, this`socketsByJti
      ensures Contents() == Rejection(old(Contents()), s)
    {
      sockets := sockets[s := sockets[s].(stage := Rejected)];
      Disconnect(s);
    }

    method ScheduleExpiryDisconnect(s: SocketId, token: Token)
      requires s in sockets
      modifies this`sockets, this`socketsByJti
      ensures Contents() == Scheduled(old(Contents()), s, token)
    {
      if token.exp.None? { Disconnect(s); return; }
      var msUntilExpiry := token.exp.value * 1000 - now;
      if msUntilExpiry <= 0 { Disconnect(s); return; }
      var delay := if msUntilExpiry <= SOCKET_TTL_CAP_MS then msUntilExpiry else SOCKET_TTL_CAP_MS;
      sockets := sockets[s := sockets[s].(timer := Some(now + delay))];
    }

    /** The expiry timer's callback. */
    method OnTimer(s: SocketId)
      requires s in sockets && sockets[s].timer.Some? && sockets[s].timer.value <= now
      modifies this`sockets, this`socketsByJti
      ensures Contents() == Next(old(Contents()), TimerFires(s))
    {
      sockets := sockets[s := sockets[s].(timer := None)];
      Disconnect(s);
    }

    // ── The jti index ─────────────────────────────────────────────────────

    method IndexSocketByJti(s: SocketId, jti: Jti)
      modifies this`socketsByJti
      ensures socketsByJti == Indexed(old(socketsByJti), s, jti)
    {
      var found := if jti in socketsByJti then socketsByJti[jti] else {};
      socketsByJti := socketsByJti[jti := found + {s}];
    }

    method UnindexSocketByJti(s: SocketId, jti: Jti)
      modifies this`socketsByJti
      ensures socketsByJti == Unindexed(old(socketsByJti), s, jti)
    {
      if jti !in socketsByJti { return; }
      var rest := socketsByJti[jti] - {s};
      socketsByJti := socketsByJti[jti := rest];
      if rest == {} {
        socketsByJti := socketsByJti - {jti};
      }
      assert rest == {} ==> socketsByJti == old(socketsByJti) - {jti};
    }

    /** A snapshot: later changes of the index do not reach it. */
    method GetSocketsByJti(jti: Jti) returns (snapshot: set<SocketId>)
      ensures snapshot == SocketsByJti(Contents(), jti)
    {
      snapshot := if jti in socketsByJti then socketsByJti[jti] else {};
    }

    /** Disconnects every socket of the snapshot, one by one, while each
        disconnect shrinks the indexed set; returns the snapshot's size. */
    method RevokeJti(jti: Jti) returns (disconnected: nat)
      requires Valid(Contents())
      modifies this`sockets, this`socketsByJti
      ensures Contents() == Next(old(Contents()), Revoke(jti))
      ensures disconnected == |SocketsByJti(old(Contents()), jti)|
      ensures Valid(Contents())
    {
      hide Valid, RevokedPart, Revoked, Disconnected, SocketsByJti;
      ghost var was := Contents();
      var snapshot := GetSocketsByJti(jti);
      disconnected := |snapshot|;
      var todo := snapshot;
      ghost var done: set<SocketId> := {};
      RevokedNone(was, jti);
      while todo != {}
        invariant done !! todo && done + todo == snapshot
        invariant Contents() == RevokedPart(was, jti, done)
        decreases |todo|
      {
        var socket :| socket in todo;
        RevokedOneMore(was, jti, done, socket);
        Disconnect(socket);
        todo, done := todo - {socket}, done + {socket};
      }
      assert done == snapshot;
      RevokedWhole(was, jti);
      RevokeKeepsValid(was, jti);
    }
  }

  ghost function Connected(st: State, part: set<SocketId>): set<SocketId> {
    set s | s in part && s in st.sockets && st.sockets[s].connected
  }

  function Gone(k: Socket): Socket { k.(connected := false, timer := None) }

  ghost function SocketsWithout(st: State, part: set<SocketId>): map<SocketId, Socket> {
    map s | s in st.sockets :: if s in part && st.sockets[s].connected then Gone(st.sockets[s]) else st.sockets[s]
  }

  /** An index with a jti's set replaced, or dropped when nothing is left. */
  function IndexWith(index: map<Jti, set<SocketId>>, jti: Jti, left: set<SocketId>): map<Jti, set<SocketId>> {
    if left == {} then index - {jti} else index[jti := left]
  }

  /** The state once some of the sockets under a jti are disconnected. */
  ghost function RevokedPart(st: State, jti: Jti, part: set<SocketId>): State {
    State(SocketsWithout(st, part), IndexWith(st.index, jti, SocketsByJti(st, jti) - Connected(st, part)), st.clock)
  }

  lemma RevokedNone(st: State, jti: Jti)
    requires Valid(st)
    ensures RevokedPart(st, jti, {}) == st
  {
    var nobody: set<SocketId> := {};
    assert Connected(st, nobody) == nobody;
    assert SocketsByJti(st, jti) - nobody == SocketsByJti(st, jti);
    assert SocketsWithout(st, nobody) == st.sockets;
  }

  lemma OneSocketLess(st: State, part: set<SocketId>, s: SocketId)
    requires s in st.sockets && s !in part
    ensures s in SocketsWithout(st, part) && SocketsWithout(st, part)[s] == st.sockets[s]
    ensures var were := SocketsWithout(st, part);
      SocketsWithout(st, part + {s}) == if st.sockets[s].connected then were[s := Gone(st.sockets[s])] else were
    ensures Connected(st, part + {s}) == Connected(st, part) + if st.sockets[s].connected then {s} else {}
    ensures s !in Connected(st, part)
  {
  }

  lemma OneIndexedLess(index: map<Jti, set<SocketId>>, jti: Jti, left: set<SocketId>, s: SocketId)
    requires s in left
    ensures Unindexed(IndexWith(index, jti, left), s, jti) == IndexWith(index, jti, left - {s})
  {
    assert index[jti := left] - {jti} == index - {jti};
  }

  lemma RevokedOneMore(st: State, jti: Jti, part: set<SocketId>, s: SocketId)
    requires Valid(st) && part <= SocketsByJti(st, jti) && s in SocketsByJti(st, jti) - part
    ensures s in RevokedPart(st, jti, part).sockets
    ensures Disconnected(RevokedPart(st, jti, part), s) == RevokedPart(st, jti, part + {s})
  {
    hide Connected, SocketsWithout, IndexWith, Unindexed;
    InItsSet(st, jti, s);
    OneSocketLess(st, part, s);
    var here, gone := SocketsByJti(st, jti), Connected(st, part);
    if st.sockets[s].connected {
      OneIndexedLess(st.index, jti, here - gone, s);
      assert here - (gone + {s}) == here - gone - {s};
    } else {
      assert gone + {} == gone;
    }
  }

  lemma InItsSet(st: State, jti: Jti, s: SocketId)
    requires Valid(st) && s in SocketsByJti(st, jti)
    ensures s in st.sockets && jti in st.index && jti != "" && st.sockets[s].jti == jti
  {
    assert s in SocketsByJti(st, jti) <==> Belongs(st.sockets[s], jti);
    assert SocketSound(st, st.sockets[s]);
  }

  lemma RevokedWhole(st: State, jti: Jti)
    requires Valid(st)
    ensures RevokedPart(st, jti, SocketsByJti(st, jti)) == Revoked(st, jti)
  {
    var part := SocketsByJti(st, jti);
    if jti in st.index {
      assert part - Connected(st, part) == set s | s in part && !(s in st.sockets && st.sockets[s].connected);
    } else {
      RevokedNone(st, jti);
    }
  }
}

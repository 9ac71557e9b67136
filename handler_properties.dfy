/**
 * What the `POST /webhook` handler guarantees on every path, stated about its
 * specification `Webhook.Respond` (and its parts), which `Webhook.HandlePost`
 * is proved to implement.
 */
module HandlerProperties {
  import opened Wrappers
  import opened JsValues
  import opened SessionStore
  import opened Server
  import opened Webhook

  /** The forced second call is due: the free reply came back, is not a SNAP, and the threshold is reached. */
  predicate ForcedCallDue(turnCount: nat, rt: Runtime, w: World)
  {
    w.freeReply.Ok? && ParseSnapResponse(w.freeReply.value, rt).None? && turnCount >= FORCE_SNAP_TURN
  }

  /** The receipt steps: what finishing the receipt promises, and which calls it makes. */
  lemma ReceiptSteps(to: Phone, name: Json, snap: Snap, w: World)
    ensures var (events, delivered) := DeliverReceipt(to, name, snap, w);
      && (delivered <==> w.receipt.Ok? && w.upload.Ok? && Truthy(w.upload.value) && w.imageSend.Ok?)
      && (delivered ==> events[2] == SendImage(to, w.upload.value.value, RECEIPT_CAPTION))
      && (forall k :: 0 <= k < |events| ==> !events[k].Backend?)
      && (forall k :: 0 <= k < |events| && events[k].SendImage? ==>
            w.upload == Ok(Some(events[k].mediaId)) && Truthy(w.upload.value))
      && (forall k :: 0 <= k < |events| && events[k].Upload? ==> events[|events| - 1] == Unlink(events[k].path))
  {
  }

  /** After the backend calls: the same, with the plain reply sent when there is no SNAP. */
  lemma FinishSteps(to: Phone, name: Json, reply: string, snap: Option<Snap>, w: World)
    ensures var (events, ending) := Finish(to, name, reply, snap, w);
      && (ending.Terminated? <==> snap.Some? && DeliverReceipt(to, name, snap.value, w).1)
      && (ending.Continued? <==> snap.None? && w.replySend.Ok?)
      && (ending.Continued? ==> ending.reply == reply && events == [SendText(to, reply)])
      && (forall k :: 0 <= k < |events| ==> !events[k].Backend?)
      && (forall k :: 0 <= k < |events| && events[k].SendImage? ==>
            w.upload == Ok(Some(events[k].mediaId)) && Truthy(w.upload.value))
      && (forall k :: 0 <= k < |events| && events[k].Upload? ==> events[|events| - 1] == Unlink(events[k].path))
  {
    if snap.Some? {
      ReceiptSteps(to, name, snap.value, w);
    }
  }

  /** The backend calls: one or two events, all of them calls of the backend. */
  lemma AskedSteps(history: seq<Turn>, turnCount: nat, name: Json, rt: Runtime, w: World)
    ensures var asked := AskBackend(history, turnCount, name, rt, w).0;
      && |asked| == (if ForcedCallDue(turnCount, rt, w) then 2 else 1)
      && asked[0] == Backend(history, turnCount, name, false)
      && (|asked| == 2 ==> asked[1] == Backend(history, turnCount, name, true))
  {
  }

  /**
   * The backend is called at most twice: first in free mode with the history
   * and turn count, then in forced mode, with the same arguments, exactly when
   * the free reply does not parse as a SNAP and the turn count is at least 4.
   */
  lemma BackendCalledAtMostTwice(to: Phone, name: Json, history: seq<Turn>, turnCount: nat, rt: Runtime, w: World)
    ensures var events := Converse(to, name, history, turnCount, rt, w).0;
      && |events| >= 1 && events[0] == Backend(history, turnCount, name, false)
      && (forall k :: 0 <= k < |events| && events[k].Backend? ==> k <= 1)
      && ((|events| >= 2 && events[1].Backend?) <==> ForcedCallDue(turnCount, rt, w))
      && (|events| >= 2 && events[1].Backend? ==> events[1] == Backend(history, turnCount, name, true))
  {
    var (asked, reply) := AskBackend(history, turnCount, name, rt, w);
    AskedSteps(history, turnCount, name, rt, w);
    if reply.Ok? {
      var (text, snap) := reply.value;
      FinishSteps(to, name, text, snap, w);
      var rest := Finish(to, name, text, snap, w).0;
      assert Converse(to, name, history, turnCount, rt, w).0 == asked + rest;
    }
  }

  /** The reply the handler holds after the backend calls: the forced one when it was due, the free one otherwise. */
  lemma HeldReply(history: seq<Turn>, turnCount: nat, name: Json, rt: Runtime, w: World)
    ensures var reply := AskBackend(history, turnCount, name, rt, w).1;
      && (reply.Ok? <==> w.freeReply.Ok? && (ForcedCallDue(turnCount, rt, w) ==> w.forcedReply.Ok?))
      && (reply.Ok? ==> reply.value.0 == (if ForcedCallDue(turnCount, rt, w) then w.forcedReply.value else w.freeReply.value))
      && (reply.Ok? ==> reply.value.1 == ParseSnapResponse(reply.value.0, rt))
  {
  }

  /**
   * The conversation is finalised exactly when the held reply is a SNAP, the
   * receipt was rendered, the upload returned a truthy id and the image was
   * sent by that id.
   */
  lemma TerminatesOnlyAfterDelivery(to: Phone, name: Json, history: seq<Turn>, turnCount: nat, rt: Runtime, w: World)
    ensures var (events, ending) := Converse(to, name, history, turnCount, rt, w);
      var reply := AskBackend(history, turnCount, name, rt, w).1;
      && (ending.Terminated? <==>
            reply.Ok? && reply.value.1.Some? && w.receipt.Ok? && w.upload.Ok? && Truthy(w.upload.value) && w.imageSend.Ok?)
      && (ending.Terminated? ==>
            exists k :: 0 <= k < |events| && events[k] == SendImage(to, w.upload.value.value, RECEIPT_CAPTION))
      && (forall k :: 0 <= k < |events| && events[k].SendImage? ==>
            w.upload == Ok(Some(events[k].mediaId)) && Truthy(w.upload.value))
  {
    var (asked, reply) := AskBackend(history, turnCount, name, rt, w);
    AskedSteps(history, turnCount, name, rt, w);
    if reply.Ok? {
      var (text, snap) := reply.value;
      FinishSteps(to, name, text, snap, w);
      var rest := Finish(to, name, text, snap, w).0;
      var events := asked + rest;
      assert Converse(to, name, history, turnCount, rt, w).0 == events;
      if snap.Some? {
        ReceiptSteps(to, name, snap.value, w);
        if DeliverReceipt(to, name, snap.value, w).1 {
          assert events[|asked| + 2] == rest[2];
        }
      }
    }
  }

  /**
   * The rendered receipt file is removed whenever an upload was attempted,
   * whether the upload or the send then throws: the removal is the last call.
   */
  lemma ReceiptFileAlwaysRemoved(to: Phone, name: Json, history: seq<Turn>, turnCount: nat, rt: Runtime, w: World)
    ensures var events := Converse(to, name, history, turnCount, rt, w).0;
      forall k :: 0 <= k < |events| && events[k].Upload? ==> events[|events| - 1] == Unlink(events[k].path)
  {
    var (asked, reply) := AskBackend(history, turnCount, name, rt, w);
    AskedSteps(history, turnCount, name, rt, w);
    if reply.Ok? {
      var (text, snap) := reply.value;
      FinishSteps(to, name, text, snap, w);
      var rest := Finish(to, name, text, snap, w).0;
      var events := asked + rest;
      assert Converse(to, name, history, turnCount, rt, w).0 == events;
      assert events[|events| - 1] == rest[|rest| - 1];
    }
  }

  /** The history a message from `m.from` is answered with: the stored one plus the new user turn. */
  function WithUserTurn(sessions: map<Phone, seq<Turn>>, m: Incoming): seq<Turn>
  {
    HistoryOf(sessions, m.from) + [Turn(User, m.text)]
  }

  /**
   * Every actionable message is counted first. When the new count exceeds a
   * finite limit, only the quota notice is sent: no history is stored and the
   * backend is not called. The handler's promise rejects if that notice fails.
   */
  lemma QuotaExceededStoresNothing(sessions: map<Phone, seq<Turn>>, counts: map<Phone, nat>, m: Incoming,
                                   limit: Option<int>, rt: Runtime, w: World)
    requires limit.Some? && CountOf(counts, m.from) + 1 > limit.value
    ensures var r := Accept(sessions, counts, m, limit, rt, w);
      && r.counts == counts[m.from := CountOf(counts, m.from) + 1]
      && r.sessions == sessions
      && r.trace == [SendText(m.from, QUOTA_NOTICE)]
      && (forall k :: 0 <= k < |r.trace| ==> !r.trace[k].Backend?)
      && (r.ack == Acknowledged <==> w.quotaSend.Ok?)
  {
  }

  /**
   * Every actionable message is counted before the quota is checked, whatever
   * happens next (`AcceptKeepsOthers`: no other sender's count moves).
   */
  lemma CountedBeforeQuotaCheck(sessions: map<Phone, seq<Turn>>, counts: map<Phone, nat>, m: Incoming,
                                limit: Option<int>, rt: Runtime, w: World)
    ensures var r := Accept(sessions, counts, m, limit, rt, w);
      m.from in r.counts && r.counts[m.from] == CountOf(counts, m.from) + 1
  {
  }

  /**
   * Within the quota (always, when the limit is not finite) the backend is
   * first called with the stored history plus the new user turn, and the
   * delivery is acknowledged whatever fails afterwards.
   */
  lemma WithinQuotaConverses(sessions: map<Phone, seq<Turn>>, counts: map<Phone, nat>, m: Incoming,
                             limit: Option<int>, rt: Runtime, w: World)
    requires limit.None? || CountOf(counts, m.from) + 1 <= limit.value
    ensures var r := Accept(sessions, counts, m, limit, rt, w);
      var history := WithUserTurn(sessions, m);
      && r.ack == Acknowledged
      && |r.trace| >= 1 && r.trace[0] == Backend(history, UserTurns(history), m.name, false)
  {
    var history := WithUserTurn(sessions, m);
    BackendCalledAtMostTwice(m.from, m.name, history, UserTurns(history), rt, w);
    AcceptOfConverse(sessions, counts, m, limit, rt, w);
    var c := Converse(m.from, m.name, history, UserTurns(history), rt, w);
    assert Accept(sessions, counts, m, limit, rt, w).trace[0] == c.0[0];
  }

  /**
   * Within the quota, the sender's session ends in one of three ways: removed
   * when the conversation is finalised; the user turn plus the reply, sent
   * before it is stored, when it continues; the user turn alone, after the
   * fallback notice, when a call threw.
   */
  lemma SessionAfterMessage(sessions: map<Phone, seq<Turn>>, counts: map<Phone, nat>, m: Incoming,
                            limit: Option<int>, rt: Runtime, w: World)
    requires limit.None? || CountOf(counts, m.from) + 1 <= limit.value
    ensures var r := Accept(sessions, counts, m, limit, rt, w);
      var history := WithUserTurn(sessions, m);
      var (events, ending) := Converse(m.from, m.name, history, UserTurns(history), rt, w);
      && (ending.Terminated? ==> m.from !in r.sessions && r.trace == events)
      && (ending.Continued? ==>
            && r.sessions[m.from] == history + [Turn(Assistant, ending.reply)]
            && r.trace == events && r.trace[|r.trace| - 1] == SendText(m.from, ending.reply)
            && ParseSnapResponse(ending.reply, rt).None?)
      && (ending.Failed? ==>
            && r.sessions[m.from] == history
            && r.trace == events + [SendText(m.from, FALLBACK_NOTICE)])
  {
    var history := WithUserTurn(sessions, m);
    AcceptOfConverse(sessions, counts, m, limit, rt, w);
    ContinuedEndsWithReply(m.from, m.name, history, UserTurns(history), rt, w);
  }

  /** A conversation that continues ends by sending its reply, which is not a SNAP. */
  lemma ContinuedEndsWithReply(to: Phone, name: Json, history: seq<Turn>, turnCount: nat, rt: Runtime, w: World)
    ensures var c := Converse(to, name, history, turnCount, rt, w);
      c.1.Continued? ==> |c.0| > 0 && c.0[|c.0| - 1] == SendText(to, c.1.reply) && ParseSnapResponse(c.1.reply, rt).None?
  {
    var (asked, reply) := AskBackend(history, turnCount, name, rt, w);
    HeldReply(history, turnCount, name, rt, w);
    if reply.Ok? {
      var (text, snap) := reply.value;
      ConverseOfParts(to, name, history, turnCount, rt, w, asked, text, snap);
      FinishSteps(to, name, text, snap, w);
    }
  }

  /**
   * The escalation count: a message that does not finalise the conversation
   * adds exactly one user turn, whether it continued or failed.
   */
  lemma UserTurnsGrowByOne(sessions: map<Phone, seq<Turn>>, counts: map<Phone, nat>, m: Incoming,
                           limit: Option<int>, rt: Runtime, w: World)
    requires limit.None? || CountOf(counts, m.from) + 1 <= limit.value
    ensures var r := Accept(sessions, counts, m, limit, rt, w);
      m.from in r.sessions ==> UserTurns(r.sessions[m.from]) == UserTurns(HistoryOf(sessions, m.from)) + 1
  {
    var history := WithUserTurn(sessions, m);
    SessionAfterMessage(sessions, counts, m, limit, rt, w);
    UserTurnsAppend(HistoryOf(sessions, m.from), Turn(User, m.text));
    var ending := Converse(m.from, m.name, history, UserTurns(history), rt, w).1;
    if ending.Continued? {
      UserTurnsAppend(history, Turn(Assistant, ending.reply));
    }
  }

  /** Settling the sender's session leaves every other session as it was. */
  lemma SettleKeepsOthers(sessions: map<Phone, seq<Turn>>, from: Phone, history: seq<Turn>, ending: Ending, q: Phone)
    requires q != from
    ensures var s := Settle(sessions, from, history, ending);
      (q in s <==> q in sessions) && HistoryOf(s, q) == HistoryOf(sessions, q)
  {
  }

  /** An actionable message from `m.from` changes nothing stored for any other sender. */
  lemma AcceptKeepsOthers(sessions: map<Phone, seq<Turn>>, counts: map<Phone, nat>, m: Incoming,
                          limit: Option<int>, rt: Runtime, w: World, q: Phone)
    requires q != m.from
    ensures var r := Accept(sessions, counts, m, limit, rt, w);
      && (q in r.sessions <==> q in sessions)
      && HistoryOf(r.sessions, q) == HistoryOf(sessions, q)
      && CountOf(r.counts, q) == CountOf(counts, q)
  {
    var history := WithUserTurn(sessions, m);
    var ending := Converse(m.from, m.name, history, UserTurns(history), rt, w).1;
    SettleKeepsOthers(sessions, m.from, history, ending, q);
  }

  /** A message changes neither the session nor the count of any other sender. */
  lemma OtherSendersUntouched(sessions: map<Phone, seq<Turn>>, counts: map<Phone, nat>, payload: Json,
                              limit: Option<int>, rt: Runtime, w: World, q: Phone)
    requires ParseIncomingMessage(payload).Ok? && ParseIncomingMessage(payload).value.Some? ==>
             ParseIncomingMessage(payload).value.value.from != q
    ensures var r := Respond(sessions, counts, payload, limit, rt, w);
      && (q in r.sessions <==> q in sessions)
      && HistoryOf(r.sessions, q) == HistoryOf(sessions, q)
      && CountOf(r.counts, q) == CountOf(counts, q)
  {
    var parsed := ParseIncomingMessage(payload);
    if parsed.Ok? && parsed.value.Some? {
      AcceptKeepsOthers(sessions, counts, parsed.value.value, limit, rt, w, q);
    }
  }

  /** A payload without an actionable text message changes nothing and makes no call. */
  lemma NoMessageNoAction(sessions: map<Phone, seq<Turn>>, counts: map<Phone, nat>, payload: Json,
                          limit: Option<int>, rt: Runtime, w: World)
    requires ParseIncomingMessage(payload) == Ok(None)
    ensures Respond(sessions, counts, payload, limit, rt, w) == Exchange(Acknowledged, [], sessions, counts)
  {
  }

  /** The try block does not look at the outcome of removing the receipt file or of the fallback notice. */
  lemma ConverseIgnoresCleanup(to: Phone, name: Json, history: seq<Turn>, turnCount: nat, rt: Runtime, w: World,
                               unlink: Result<()>, fallback: Result<()>)
    ensures var w' := w.(unlink := unlink, fallbackSend := fallback);
      Converse(to, name, history, turnCount, rt, w) == Converse(to, name, history, turnCount, rt, w')
  {
    var w' := w.(unlink := unlink, fallbackSend := fallback);
    assert AskBackend(history, turnCount, name, rt, w) == AskBackend(history, turnCount, name, rt, w');
    var reply := AskBackend(history, turnCount, name, rt, w).1;
    if reply.Ok? {
      var (text, snap) := reply.value;
      if snap.Some? {
        assert DeliverReceipt(to, name, snap.value, w) == DeliverReceipt(to, name, snap.value, w');
      }
      assert Finish(to, name, text, snap, w) == Finish(to, name, text, snap, w');
    }
  }

  /** The same for a whole actionable message. */
  lemma AcceptIgnoresCleanup(sessions: map<Phone, seq<Turn>>, counts: map<Phone, nat>, m: Incoming,
                             limit: Option<int>, rt: Runtime, w: World, unlink: Result<()>, fallback: Result<()>)
    ensures Accept(sessions, counts, m, limit, rt, w)
         == Accept(sessions, counts, m, limit, rt, w.(unlink := unlink, fallbackSend := fallback))
  {
    var history := WithUserTurn(sessions, m);
    ConverseIgnoresCleanup(m.from, m.name, history, UserTurns(history), rt, w, unlink, fallback);
  }

  /**
   * Neither the outcome of removing the receipt file nor that of sending the
   * fallback notice changes anything: both are only logged.
   */
  lemma CleanupAndFallbackOnlyLogged(sessions: map<Phone, seq<Turn>>, counts: map<Phone, nat>, payload: Json,
                                     limit: Option<int>, rt: Runtime, w: World, unlink: Result<()>, fallback: Result<()>)
    ensures Respond(sessions, counts, payload, limit, rt, w)
         == Respond(sessions, counts, payload, limit, rt, w.(unlink := unlink, fallbackSend := fallback))
  {
    var parsed := ParseIncomingMessage(payload);
    if parsed.Ok? && parsed.value.Some? {
      AcceptIgnoresCleanup(sessions, counts, parsed.value.value, limit, rt, w, unlink, fallback);
    }
  }

  // ---------------------------------------------------------------------
  // Several deliveries in a row
  // ---------------------------------------------------------------------

  /** The store after handling `inputs` (payload and world of each delivery) in order. */
  function Run(sessions: map<Phone, seq<Turn>>, counts: map<Phone, nat>, inputs: seq<(Json, World)>,
               limit: Option<int>, rt: Runtime): (map<Phone, seq<Turn>>, map<Phone, nat>)
    decreases |inputs|
  {
    if inputs == [] then (sessions, counts)
    else
      var r := Respond(sessions, counts, inputs[0].0, limit, rt, inputs[0].1);
      Run(r.sessions, r.counts, inputs[1..], limit, rt)
  }

  /**
   * Once a sender's count has reached a finite limit, every later message from
   * that sender only gets the quota notice: across any sequence of deliveries,
   * from anyone, the sender's history stays as it was and the count stays at
   * or above the limit (there is no reset other than `ResetRequestCount`).
   */
  lemma {:induction false} QuotaIsSticky(sessions: map<Phone, seq<Turn>>, counts: map<Phone, nat>,
                                         inputs: seq<(Json, World)>, limit: Option<int>, rt: Runtime, p: Phone)
    requires limit.Some? && CountOf(counts, p) >= limit.value
    ensures var (sessions', counts') := Run(sessions, counts, inputs, limit, rt);
      && CountOf(counts', p) >= limit.value
      && (p in sessions' <==> p in sessions)
      && HistoryOf(sessions', p) == HistoryOf(sessions, p)
    decreases |inputs|
  {
    if inputs != [] {
      var (payload, w) := inputs[0];
      var r := Respond(sessions, counts, payload, limit, rt, w);
      var parsed := ParseIncomingMessage(payload);
      if parsed.Ok? && parsed.value.Some? && parsed.value.value.from == p {
        QuotaExceededStoresNothing(sessions, counts, parsed.value.value, limit, rt, w);
      } else {
        OtherSendersUntouched(sessions, counts, payload, limit, rt, w, p);
      }
      QuotaIsSticky(r.sessions, r.counts, inputs[1..], limit, rt, p);
    }
  }

  // ---------------------------------------------------------------------
  // Walk-throughs
  // ---------------------------------------------------------------------

  /** The try block, from the backend calls' result and the receipt steps' result. */
  lemma ConverseOfParts(to: Phone, name: Json, history: seq<Turn>, turnCount: nat, rt: Runtime, w: World,
                        asked: seq<Event>, text: string, snap: Option<Snap>)
    requires AskBackend(history, turnCount, name, rt, w) == (asked, Ok((text, snap)))
    ensures var (rest, ending) := Finish(to, name, text, snap, w);
      Converse(to, name, history, turnCount, rt, w) == (asked + rest, ending)
  {
  }

  /** An accepted message within the quota is acknowledged and answered. */
  lemma AcceptOfAnswer(sessions: map<Phone, seq<Turn>>, counts: map<Phone, nat>, m: Incoming,
                       limit: Option<int>, rt: Runtime, w: World)
    requires limit.None? || CountOf(counts, m.from) + 1 <= limit.value
    ensures var r := Accept(sessions, counts, m, limit, rt, w);
      var a := Answer(sessions, m, rt, w);
      r.ack == Acknowledged && r.trace == a.0 && r.sessions == a.1
  {
  }

  /** The answer, from what the try block did. */
  lemma AnswerOfConverse(sessions: map<Phone, seq<Turn>>, m: Incoming, rt: Runtime, w: World)
    ensures var history := WithUserTurn(sessions, m);
      var c := Converse(m.from, m.name, history, UserTurns(history), rt, w);
      var a := Answer(sessions, m, rt, w);
      && a.0 == (if c.1.Failed? then c.0 + [SendText(m.from, FALLBACK_NOTICE)] else c.0)
      && a.1 == Settle(sessions, m.from, history, c.1)
  {
  }

  /** An accepted message within the quota, from what its try block did. */
  lemma AcceptOfConverse(sessions: map<Phone, seq<Turn>>, counts: map<Phone, nat>, m: Incoming,
                         limit: Option<int>, rt: Runtime, w: World)
    requires limit.None? || CountOf(counts, m.from) + 1 <= limit.value
    ensures var history := WithUserTurn(sessions, m);
      var c := Converse(m.from, m.name, history, UserTurns(history), rt, w);
      var r := Accept(sessions, counts, m, limit, rt, w);
      && r.ack == Acknowledged
      && r.trace == (if c.1.Failed? then c.0 + [SendText(m.from, FALLBACK_NOTICE)] else c.0)
      && r.sessions == Settle(sessions, m.from, history, c.1)
  {
    AcceptOfAnswer(sessions, counts, m, limit, rt, w);
    AnswerOfConverse(sessions, m, rt, w);
  }

  /**
   * A first message from a new user, answered with plain narration: one free
   * call with the one user turn, the narration sent back, and the history
   * holding the user turn and the reply. (`Server.WhatsAppProfileName` gives
   * the message of a platform payload.)
   */
  lemma FirstMessageGetsNarration(sessions: map<Phone, seq<Turn>>, counts: map<Phone, nat>, m: Incoming,
                                  narration: string, limit: Option<int>, rt: Runtime, w: World)
    requires m.from !in sessions && m.from !in counts
    requires limit.None? || limit.value >= 1
    requires forall k :: 0 <= k < |narration| ==> narration[k] != '{'
    requires w.freeReply == Ok(narration) && w.replySend.Ok?
    ensures var r := Accept(sessions, counts, m, limit, rt, w);
      var turn := Turn(User, m.text);
      && r.ack == Acknowledged
      && r.trace == [Backend([turn], 1, m.name, false), SendText(m.from, narration)]
      && r.sessions == sessions[m.from := [turn, Turn(Assistant, narration)]]
      && CountOf(r.counts, m.from) == 1
  {
    var turn := Turn(User, m.text);
    assert WithUserTurn(sessions, m) == [turn];
    assert UserTurns([turn]) == 1 by { UserTurnsAppend([], turn); }
    NarrationIsNotSnap(narration, rt);
    ConverseContinues(m.from, m.name, [turn], 1, narration, rt, w);
    AcceptOfConverse(sessions, counts, m, limit, rt, w);
    CountedBeforeQuotaCheck(sessions, counts, m, limit, rt, w);
    assert CountOf(counts, m.from) == 0;
    assert [turn] + [Turn(Assistant, narration)] == [turn, Turn(Assistant, narration)];
  }

  /** A payload carrying an actionable message is handled as that message. */
  lemma RespondToMessage(sessions: map<Phone, seq<Turn>>, counts: map<Phone, nat>, payload: Json, m: Incoming,
                         limit: Option<int>, rt: Runtime, w: World)
    requires ParseIncomingMessage(payload) == Ok(Some(m))
    ensures Respond(sessions, counts, payload, limit, rt, w) == Accept(sessions, counts, m, limit, rt, w)
  {
  }

  /** The try block with a single free call whose reply is not a SNAP and is sent. */
  lemma ConverseContinues(to: Phone, name: Json, history: seq<Turn>, turnCount: nat, reply: string, rt: Runtime, w: World)
    requires turnCount < FORCE_SNAP_TURN
    requires w.freeReply == Ok(reply) && ParseSnapResponse(reply, rt).None? && w.replySend.Ok?
    ensures Converse(to, name, history, turnCount, rt, w)
         == ([Backend(history, turnCount, name, false), SendText(to, reply)], Continued(reply))
  {
    var free := Backend(history, turnCount, name, false);
    assert AskBackend(history, turnCount, name, rt, w) == ([free], Ok((reply, None)));
    ConverseOfParts(to, name, history, turnCount, rt, w, [free], reply, None);
    assert [free] + [SendText(to, reply)] == [free, SendText(to, reply)];
  }

  /**
   * The fourth user turn: the free reply is not a SNAP, so the forced call is
   * made; its SNAP is rendered, uploaded, sent and removed, and the session
   * is cleared. (`ScoreOfEightySeven` gives the SNAP of the forced reply.)
   */
  lemma ForcedSnapAtFourthTurn(sessions: map<Phone, seq<Turn>>, counts: map<Phone, nat>, m: Incoming,
                               narration: string, forced: string, snap: Snap,
                               path: string, mediaId: string, limit: Option<int>, rt: Runtime, w: World)
    requires UserTurns(HistoryOf(sessions, m.from)) == 3
    requires limit.None? || CountOf(counts, m.from) + 1 <= limit.value
    requires ParseSnapResponse(narration, rt).None? && ParseSnapResponse(forced, rt) == Some(snap)
    requires w.freeReply == Ok(narration) && w.forcedReply == Ok(forced)
    requires w.receipt == Ok(path) && w.upload == Ok(Some(JString(mediaId))) && mediaId != "" && w.imageSend.Ok?
    ensures var r := Accept(sessions, counts, m, limit, rt, w);
      var history := WithUserTurn(sessions, m);
      && r.ack == Acknowledged
      && r.trace == [Backend(history, 4, m.name, false), Backend(history, 4, m.name, true),
                     Render(m.name, snap), Upload(path, RECEIPT_MIME),
                     SendImage(m.from, JString(mediaId), RECEIPT_CAPTION), Unlink(path)]
      && r.sessions == sessions - {m.from}
  {
    var history := WithUserTurn(sessions, m);
    assert UserTurns(history) == 4 by { UserTurnsAppend(HistoryOf(sessions, m.from), Turn(User, m.text)); }
    ConverseForcedSnap(m.from, m.name, history, narration, forced, snap, path, mediaId, rt, w);
    AcceptOfConverse(sessions, counts, m, limit, rt, w);
  }

  /** The try block of the fourth turn. */
  lemma ConverseForcedSnap(to: Phone, name: Json, history: seq<Turn>, narration: string, forced: string, snap: Snap,
                           path: string, mediaId: string, rt: Runtime, w: World)
    requires ParseSnapResponse(narration, rt).None? && ParseSnapResponse(forced, rt) == Some(snap)
    requires w.freeReply == Ok(narration) && w.forcedReply == Ok(forced)
    requires w.receipt == Ok(path) && w.upload == Ok(Some(JString(mediaId))) && mediaId != "" && w.imageSend.Ok?
    ensures Converse(to, name, history, 4, rt, w)
         == ([Backend(history, 4, name, false), Backend(history, 4, name, true),
              Render(name, snap), Upload(path, RECEIPT_MIME),
              SendImage(to, JString(mediaId), RECEIPT_CAPTION), Unlink(path)], Terminated)
  {
    var asked := [Backend(history, 4, name, false), Backend(history, 4, name, true)];
    AskForced(history, 4, name, rt, w, narration, forced);
    ReceiptDelivered(to, name, forced, snap, w, path, JString(mediaId));
    ConverseOfParts(to, name, history, 4, rt, w, asked, forced, Some(snap));
    var delivered := [Render(name, snap), Upload(path, RECEIPT_MIME), SendImage(to, JString(mediaId), RECEIPT_CAPTION), Unlink(path)];
    assert asked + delivered == [asked[0], asked[1], delivered[0], delivered[1], delivered[2], delivered[3]];
  }

  /** Both backend calls made, the second one answering. */
  lemma AskForced(history: seq<Turn>, turnCount: nat, name: Json, rt: Runtime, w: World, first: string, second: string)
    requires turnCount >= FORCE_SNAP_TURN
    requires w.freeReply == Ok(first) && ParseSnapResponse(first, rt).None? && w.forcedReply == Ok(second)
    ensures AskBackend(history, turnCount, name, rt, w)
         == ([Backend(history, turnCount, name, false), Backend(history, turnCount, name, true)],
             Ok((second, ParseSnapResponse(second, rt))))
  {
  }

  /** A SNAP whose receipt is rendered, uploaded with a truthy id and sent finalises the conversation. */
  lemma ReceiptDelivered(to: Phone, name: Json, reply: string, snap: Snap, w: World, path: string, id: Json)
    requires w.receipt == Ok(path) && w.upload == Ok(Some(id)) && Truthy(Some(id)) && w.imageSend.Ok?
    ensures Finish(to, name, reply, Some(snap), w)
         == ([Render(name, snap), Upload(path, RECEIPT_MIME), SendImage(to, id, RECEIPT_CAPTION), Unlink(path)], Terminated)
  {
  }

  /** The reply object of the walk-through. */
  function SnapObject(score: string, summary: string, realityCheck: string): Json
  {
    JObject(map["Status" := JString("SNAP"), "DoomScore" := JString(score),
                "Summary" := JString(summary), "RealityCheck" := JString(realityCheck)])
  }

  /** Its fields as the parser reads them. */
  lemma SnapObjectFields(score: string, summary: string, realityCheck: string, rt: Runtime)
    ensures var parsed := SnapObject(score, summary, realityCheck);
      && IsSnapStatus(parsed)
      && Get(parsed, "DoomScore") == Some(JString(score))
      && ToNumber(Get(parsed, "DoomScore"), rt) == Ok(rt.stringToNumber(score))
      && Get(parsed, "Summary") == Some(JString(summary))
      && Get(parsed, "RealityCheck") == Some(JString(realityCheck))
      && TextField(parsed, "Summary", rt) == Ok(summary)
      && TextField(parsed, "RealityCheck", rt) == Ok(realityCheck)
      && !SnapFieldsThrow(parsed)
  {
    var fields := SnapObject(score, summary, realityCheck).fields;
    assert "Status" in fields && fields["Status"] == JString("SNAP");
    assert "DoomScore" in fields && fields["DoomScore"] == JString(score);
    assert "Summary" in fields && fields["Summary"] == JString(summary);
    assert "RealityCheck" in fields && fields["RealityCheck"] == JString(realityCheck);
  }

  /** A reply that is one brace-delimited block is itself the candidate. */
  lemma WholeBlockIsCandidate(forced: string)
    requires |forced| >= 2 && forced[0] == '{' && forced[|forced| - 1] == '}'
    ensures SnapCandidate(forced) == Some(forced)
  {
    var none: string := [];
    assert none + forced + none == forced;
    CandidateSkipsNoise(none, forced, none);
  }

  /** A forced reply carrying `DoomScore` "87" parses to a SNAP scored 87. */
  lemma ScoreOfEightySeven(forced: string, summary: string, realityCheck: string, rt: Runtime)
    requires |forced| >= 2 && forced[0] == '{' && forced[|forced| - 1] == '}'
    requires rt.jsonParse(forced) == Some(SnapObject("87", summary, realityCheck))
    requires rt.stringToNumber("87") == Some(87.0)
    ensures ParseSnapResponse(forced, rt) == Some(Snap(87.0, summary, realityCheck))
  {
    WholeBlockIsCandidate(forced);
    SnapObjectFields("87", summary, realityCheck, rt);
    SnapOfCandidate(forced, forced, SnapObject("87", summary, realityCheck), rt);
  }

  /**
   * A forced reply whose `Summary` is an object with its own `toString` key
   * makes `String` throw inside the parser's `try`, so no SNAP is produced.
   */
  lemma OwnToStringGivesNoSnap(forced: string, fields: map<string, Json>, rt: Runtime)
    requires |forced| >= 2 && forced[0] == '{' && forced[|forced| - 1] == '}'
    requires rt.jsonParse(forced) == Some(JObject(fields))
    requires "Status" in fields && fields["Status"] == JString("SNAP")
    requires "Summary" in fields && fields["Summary"].JObject? && "toString" in fields["Summary"].fields
    ensures ParseSnapResponse(forced, rt) == None
  {
    WholeBlockIsCandidate(forced);
    assert IsSnapStatus(JObject(fields)) && ConversionThrowsAt(JObject(fields), "Summary");
    SnapOfCandidate(forced, forced, JObject(fields), rt);
  }

  /** A forced reply whose `DoomScore` overflows to Infinity (say `1e999`) is scored 0. */
  lemma InfiniteScoreIsZero(forced: string, fields: map<string, Json>, rt: Runtime)
    requires |forced| >= 2 && forced[0] == '{' && forced[|forced| - 1] == '}'
    requires rt.jsonParse(forced) == Some(JObject(fields))
    requires "Status" in fields && fields["Status"] == JString("SNAP")
    requires "DoomScore" in fields && fields["DoomScore"] == JInfinity(false)
    requires "Summary" !in fields && "RealityCheck" !in fields
    ensures ParseSnapResponse(forced, rt) == Some(Snap(0.0, "", ""))
  {
    WholeBlockIsCandidate(forced);
    assert IsSnapStatus(JObject(fields)) && !SnapFieldsThrow(JObject(fields));
    SnapOfCandidate(forced, forced, JObject(fields), rt);
  }

  /**
   * An upload that yields no media id is a failure: the file is still removed,
   * the fallback notice is sent and the user turn stays stored, so the next
   * message from the same user is answered with that history. This holds at
   * every turn, whichever backend call (free or forced) produced the SNAP.
   */
  lemma UploadWithoutIdKeepsHistory(sessions: map<Phone, seq<Turn>>, counts: map<Phone, nat>, m: Incoming,
                                    reply: string, snap: Snap, path: string, limit: Option<int>, rt: Runtime, w: World)
    requires limit.None? || CountOf(counts, m.from) + 1 <= limit.value
    requires var history := WithUserTurn(sessions, m);
      AskBackend(history, UserTurns(history), m.name, rt, w).1 == Ok((reply, Some(snap)))
    requires w.receipt == Ok(path) && w.upload.Ok? && !Truthy(w.upload.value)
    ensures var r := Accept(sessions, counts, m, limit, rt, w);
      var history := WithUserTurn(sessions, m);
      && r.ack == Acknowledged
      && r.trace == AskBackend(history, UserTurns(history), m.name, rt, w).0
                    + [Render(m.name, snap), Upload(path, RECEIPT_MIME), Unlink(path), SendText(m.from, FALLBACK_NOTICE)]
      && r.sessions == sessions[m.from := history]
      && HistoryOf(r.sessions, m.from) == history
  {
    var history := WithUserTurn(sessions, m);
    ConverseUploadWithoutId(m.from, m.name, history, UserTurns(history), reply, snap, path, rt, w);
    AcceptOfConverse(sessions, counts, m, limit, rt, w);
    assert Settle(sessions, m.from, history, Failed) == sessions[m.from := history];
  }

  /** The try block when the upload yields no media id. */
  lemma ConverseUploadWithoutId(to: Phone, name: Json, history: seq<Turn>, turnCount: nat, reply: string, snap: Snap,
                                path: string, rt: Runtime, w: World)
    requires AskBackend(history, turnCount, name, rt, w).1 == Ok((reply, Some(snap)))
    requires w.receipt == Ok(path) && w.upload.Ok? && !Truthy(w.upload.value)
    ensures Converse(to, name, history, turnCount, rt, w)
        == (AskBackend(history, turnCount, name, rt, w).0 + [Render(name, snap), Upload(path, RECEIPT_MIME), Unlink(path)], Failed)
  {
    var asked := AskBackend(history, turnCount, name, rt, w).0;
    assert Finish(to, name, reply, Some(snap), w) == ([Render(name, snap), Upload(path, RECEIPT_MIME), Unlink(path)], Failed);
    ConverseOfParts(to, name, history, turnCount, rt, w, asked, reply, Some(snap));
  }
}

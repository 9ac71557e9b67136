/**
 * The `POST /webhook` handler of `server.js`, one delivery at a time.
 *
 * Every collaborator the handler awaits (the chat backend, the WhatsApp
 * send/upload calls, the receipt renderer, the file removal) is given by a
 * `World`: what each call site resolves with or whether it throws. Each call
 * site runs at most once per delivery, so a `World` covers every behaviour
 * of the collaborators. The calls made are recorded, in order, as a trace.
 *
 * `Respond` is the specification: the acknowledgement, the trace and the new
 * store. `HandlePost` performs the same steps on a `SessionManager` and is
 * proved to agree with it; the lemmas state what every path does.
 */
module Webhook {
  import opened Wrappers
  import opened JsValues
  import opened SessionStore
  import opened Server

  /** The sender key: the raw `message.from` value (None is `undefined`). */
  type Phone = Option<Json>

  /** From this many user turns on, a reply that is not a SNAP triggers the forced call. */
  const FORCE_SNAP_TURN: nat := 4

  const QUOTA_NOTICE: string := "You have reached the 10 message limit for now. Try again later."
  const FALLBACK_NOTICE: string := "The Spiral is catching its breath. Try again in a moment."
  const RECEIPT_CAPTION: string := "Your doom receipt is ready. Share it on Instagram."
  const RECEIPT_MIME: string := "image/png"

  /** One awaited call of the handler, with its arguments. */
  datatype Event =
    | Backend(history: seq<Turn>, turnCount: nat, userName: Json, forceSnap: bool)
    | SendText(to: Phone, body: string)
    | Render(userName: Json, snap: Snap)
    | Upload(path: string, mimeType: string)
    | SendImage(to: Phone, mediaId: Json, caption: string)
    | Unlink(path: string)

  /** What each call site resolves with (`Err`: it throws). */
  datatype World = World(
    quotaSend: Result<()>,
    freeReply: Result<string>,
    forcedReply: Result<string>,
    receipt: Result<string>,         // the rendered file's path
    upload: Result<Option<Json>>,    // the media id, None for undefined
    imageSend: Result<()>,
    unlink: Result<()>,
    replySend: Result<()>,
    fallbackSend: Result<()>)

  /** `Acknowledged`: the handler answers 200. `Unacknowledged`: its promise rejects before answering. */
  datatype Ack = Acknowledged | Unacknowledged

  /** How the try block ended: the session finalised, the conversation continued with a reply, or a throw. */
  datatype Ending = Terminated | Continued(reply: string) | Failed

  datatype Exchange = Exchange(ack: Ack, trace: seq<Event>, sessions: map<Phone, seq<Turn>>, counts: map<Phone, nat>)

  /**
   * The quota check; `limit` is `maxRequestsPerUser`, None when it is not
   * finite (an unparsable `MAX_REQUESTS_PER_USER` gives NaN), which disables the check.
   */
  predicate OverQuota(count: nat, limit: Option<int>)
  {
    limit.Some? && count > limit.value
  }

  /**
   * The receipt steps: render, then upload and send by id inside a try whose
   * finally removes the file; a falsy media id throws. The flag says whether
   * every step succeeded. A failed removal is only logged, so it is not consulted.
   */
  function DeliverReceipt(to: Phone, name: Json, snap: Snap, w: World): (seq<Event>, bool)
  {
    var render := Render(name, snap);
    match w.receipt
    case Err => ([render], false)
    case Ok(path) =>
      var upload := Upload(path, RECEIPT_MIME);
      match w.upload
      case Err => ([render, upload, Unlink(path)], false)
      case Ok(id) =>
        if !Truthy(id) then ([render, upload, Unlink(path)], false)
        else ([render, upload, SendImage(to, id.value, RECEIPT_CAPTION), Unlink(path)], w.imageSend.Ok?)
  }

  /** After the backend calls: terminate with a receipt, or send the reply and keep it. */
  function Finish(to: Phone, name: Json, reply: string, snap: Option<Snap>, w: World): (seq<Event>, Ending)
  {
    if snap.Some? then
      var (events, ok) := DeliverReceipt(to, name, snap.value, w);
      (events, if ok then Terminated else Failed)
    else
      ([SendText(to, reply)], if w.replySend.Ok? then Continued(reply) else Failed)
  }

  /**
   * The backend calls: a free call, and a forced call when its reply is not a
   * SNAP and the turn threshold is reached. Yields the final reply and its
   * parse, or `Err` when a call threw.
   */
  function AskBackend(history: seq<Turn>, turnCount: nat, name: Json, rt: Runtime, w: World)
    : (seq<Event>, Result<(string, Option<Snap>)>)
  {
    var free := Backend(history, turnCount, name, false);
    match w.freeReply
    case Err => ([free], Err)
    case Ok(first) =>
      var snap := ParseSnapResponse(first, rt);
      if snap.None? && turnCount >= FORCE_SNAP_TURN then
        var forced := Backend(history, turnCount, name, true);
        match w.forcedReply
        case Err => ([free, forced], Err)
        case Ok(second) => ([free, forced], Ok((second, ParseSnapResponse(second, rt))))
      else ([free], Ok((first, snap)))
  }

  /** The try block of the handler, after the user turn has been stored. */
  function Converse(to: Phone, name: Json, history: seq<Turn>, turnCount: nat, rt: Runtime, w: World): (seq<Event>, Ending)
  {
    var (asked, reply) := AskBackend(history, turnCount, name, rt, w);
    match reply
    case Err => (asked, Failed)
    case Ok((text, snap)) =>
      var (events, ending) := Finish(to, name, text, snap, w);
      (asked + events, ending)
  }

  /** The store after the try block ended as `ending`, the user turn `history` having been stored. */
  function Settle(sessions: map<Phone, seq<Turn>>, from: Phone, history: seq<Turn>, ending: Ending): map<Phone, seq<Turn>>
  {
    match ending
    case Terminated => sessions - {from}
    case Continued(reply) => sessions[from := history + [Turn(Assistant, reply)]]
    case Failed => sessions[from := history]
  }

  /**
   * The try/catch after the quota check: store the user turn, converse, and
   * send the fallback notice when a call threw. Yields the calls made and
   * the new sessions.
   */
  function Answer(sessions: map<Phone, seq<Turn>>, m: Incoming, rt: Runtime, w: World): (seq<Event>, map<Phone, seq<Turn>>)
  {
    var history := HistoryOf(sessions, m.from) + [Turn(User, m.text)];
    var (events, ending) := Converse(m.from, m.name, history, UserTurns(history), rt, w);
    (if ending.Failed? then events + [SendText(m.from, FALLBACK_NOTICE)] else events,
     Settle(sessions, m.from, history, ending))
  }

  /** An actionable message: count it, check the quota, then answer it. */
  function Accept(sessions: map<Phone, seq<Turn>>, counts: map<Phone, nat>, m: Incoming,
                  limit: Option<int>, rt: Runtime, w: World): Exchange
  {
    var count := CountOf(counts, m.from) + 1;
    var counts' := counts[m.from := count];
    if OverQuota(count, limit) then
      Exchange(if w.quotaSend.Ok? then Acknowledged else Unacknowledged,
               [SendText(m.from, QUOTA_NOTICE)], sessions, counts')
    else
      var answer := Answer(sessions, m, rt, w);
      Exchange(Acknowledged, answer.0, answer.1, counts')
  }

  /** The whole handler on the abstract store. */
  function Respond(sessions: map<Phone, seq<Turn>>, counts: map<Phone, nat>, payload: Json,
                   limit: Option<int>, rt: Runtime, w: World): Exchange
  {
    match ParseIncomingMessage(payload)
    case Err => Exchange(Unacknowledged, [], sessions, counts)
    case Ok(None) => Exchange(Acknowledged, [], sessions, counts)
    case Ok(Some(m)) => Accept(sessions, counts, m, limit, rt, w)
  }

  /** The two `createDramaResponse` calls and their parses, reading the stored history each time. */
  method CallBackend(store: SessionManager<Phone>, from: Phone, name: Json, turnCount: nat, rt: Runtime, w: World)
    returns (trace: seq<Event>, reply: Result<(string, Option<Snap>)>)
    requires from in store.sessions
    modifies store
    ensures (trace, reply) == AskBackend(old(store.sessions)[from], turnCount, name, rt, w)
    ensures store.sessions == old(store.sessions) && store.requestCounts == old(store.requestCounts)
  {
    var history := store.GetHistory(from);
    trace := [Backend(history, turnCount, name, false)];
    if w.freeReply.Err? {
      return trace, Err;
    }
    var responseText := w.freeReply.value;
    var snap := ParseSnapResponse(responseText, rt);
    if snap.None? && turnCount >= FORCE_SNAP_TURN {
      history := store.GetHistory(from);
      trace := [trace[0], Backend(history, turnCount, name, true)];
      if w.forcedReply.Err? {
        return trace, Err;
      }
      responseText := w.forcedReply.value;
      snap := ParseSnapResponse(responseText, rt);
    }
    reply := Ok((responseText, snap));
  }

  /** Render, upload and send the receipt; the file is removed whether or not upload or send throws. */
  method SendReceipt(from: Phone, name: Json, snap: Snap, w: World) returns (trace: seq<Event>, delivered: bool)
    ensures (trace, delivered) == DeliverReceipt(from, name, snap, w)
  {
    if w.receipt.Err? {
      return [Render(name, snap)], false;
    }
    var filePath := w.receipt.value;
    // try { upload; send } finally { unlink }; a failed removal is only logged
    if w.upload.Err? || !Truthy(w.upload.value) {
      trace := [Render(name, snap), Upload(filePath, RECEIPT_MIME), Unlink(filePath)];
      delivered := false;
    } else {
      var mediaId := w.upload.value.value;
      trace := [Render(name, snap), Upload(filePath, RECEIPT_MIME), SendImage(from, mediaId, RECEIPT_CAPTION), Unlink(filePath)];
      delivered := w.imageSend.Ok?;
    }
  }

  /** The try/catch of the handler, once the user turn is stored. */
  method RunConversation(store: SessionManager<Phone>, from: Phone, name: Json, turnCount: nat, rt: Runtime, w: World)
    returns (trace: seq<Event>, ending: Ending)
    requires from in store.sessions
    modifies store
    ensures (trace, ending) == Converse(from, name, old(store.sessions)[from], turnCount, rt, w)
    ensures store.sessions == Settle(old(store.sessions), from, old(store.sessions)[from], ending)
    ensures store.requestCounts == old(store.requestCounts)
  {
    var reply;
    trace, reply := CallBackend(store, from, name, turnCount, rt, w);
    if reply.Err? {
      return trace, Failed;
    }
    var (responseText, snap) := reply.value;
    if snap.Some? {
      var receiptTrace, delivered := SendReceipt(from, name, snap.value, w);
      trace := trace + receiptTrace;
      if delivered {
        store.ClearHistory(from);
        ending := Terminated;
      } else {
        ending := Failed;
      }
    } else {
      trace := trace + [SendText(from, responseText)];
      if w.replySend.Err? {
        ending := Failed;
      } else {
        store.AppendAssistantMessage(from, responseText);
        ending := Continued(responseText);
      }
    }
  }

  /** An actionable message: quota check, user turn, conversation, fallback. */
  method HandleMessage(store: SessionManager<Phone>, m: Incoming, limit: Option<int>, rt: Runtime, w: World)
    returns (ack: Ack, trace: seq<Event>)
    modifies store
    ensures Exchange(ack, trace, store.sessions, store.requestCounts)
         == Accept(old(store.sessions), old(store.requestCounts), m, limit, rt, w)
  {
    var requestCount := store.IncrementRequestCount(m.from);
    if limit.Some? && requestCount > limit.value {
      trace := [SendText(m.from, QUOTA_NOTICE)];
      ack := if w.quotaSend.Ok? then Acknowledged else Unacknowledged;
      return;
    }

    ghost var history := HistoryOf(old(store.sessions), m.from) + [Turn(User, m.text)];
    store.AppendUserMessage(m.from, m.text);
    var turnCount := store.CountUserTurns(m.from);
    assert store.sessions[m.from] == history && turnCount == UserTurns(history);
    var ending;
    trace, ending := RunConversation(store, m.from, m.name, turnCount, rt, w);
    assert store.sessions == Settle(old(store.sessions), m.from, history, ending);
    if ending.Failed? {
      trace := trace + [SendText(m.from, FALLBACK_NOTICE)];  // a failed fallback send is only logged
    }
    assert (trace, store.sessions) == Answer(old(store.sessions), m, rt, w);
    ack := Acknowledged;
  }

  /** The handler, performing its steps on the store in the order the source does. */
  method HandlePost(store: SessionManager<Phone>, payload: Json, limit: Option<int>, rt: Runtime, w: World)
    returns (ack: Ack, trace: seq<Event>)
    modifies store
    ensures Exchange(ack, trace, store.sessions, store.requestCounts)
         == Respond(old(store.sessions), old(store.requestCounts), payload, limit, rt, w)
  {
    var incoming := ParseIncomingMessage(payload);
    if incoming.Err? {
      return Unacknowledged, [];
    }
    if incoming.value.None? {
      return Acknowledged, [];
    }
    ack, trace := HandleMessage(store, incoming.value.value, limit, rt, w);
  }
}

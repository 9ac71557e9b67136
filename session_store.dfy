/**
 * The per-user session store: conversation histories and request counters,
 * both kept in mutable maps keyed by the sender (a phone number on WhatsApp;
 * the key type is left generic because a JavaScript `Map` accepts any key).
 */
module SessionStore {

  datatype Role = User | Assistant

  /** One `{ role, content }` entry of a transcript. */
  datatype Turn = Turn(role: Role, content: string)

  /** The history stored for `p`, or the empty history a read would create. */
  function HistoryOf<K>(sessions: map<K, seq<Turn>>, p: K): seq<Turn>
  {
    if p in sessions then sessions[p] else []
  }

  /** `requestCounts.get(p) || 0`: the stored count, 0 when absent. */
  function CountOf<K>(counts: map<K, nat>, p: K): nat
  {
    if p in counts then counts[p] else 0
  }

  /** `history.filter((entry) => entry.role === "user")`. */
  function UserEntries(h: seq<Turn>): (r: seq<Turn>)
    ensures |r| <= |h|
    ensures forall k :: 0 <= k < |r| ==> r[k].role == User
  {
    if h == [] then [] else (if h[0].role == User then [h[0]] else []) + UserEntries(h[1..])
  }

  /** The number of user turns, as `countUserTurns` computes it. */
  function UserTurns(h: seq<Turn>): nat
  {
    |UserEntries(h)|
  }

  /** The positions of the user turns in a history: the reference for counting them. */
  ghost function UserPositions(h: seq<Turn>): set<nat>
  {
    set k: nat | k < |h| && h[k].role == User
  }

  lemma {:induction false} UserEntriesAppend(h: seq<Turn>, t: Turn)
    ensures UserEntries(h + [t]) == UserEntries(h) + (if t.role == User then [t] else [])
  {
    if h != [] {
      assert (h + [t])[1..] == h[1..] + [t];
      UserEntriesAppend(h[1..], t);
    } else {
      assert [t][1..] == [];
    }
  }

  /** Appending a user turn adds one to the count; appending an assistant turn adds nothing. */
  lemma UserTurnsAppend(h: seq<Turn>, t: Turn)
    ensures UserTurns(h + [t]) == UserTurns(h) + (if t.role == User then 1 else 0)
  {
    UserEntriesAppend(h, t);
  }

  /** `countUserTurns` is exactly the number of positions holding a user turn. */
  lemma {:induction false} UserTurnsCountsPositions(h: seq<Turn>)
    ensures UserTurns(h) == |UserPositions(h)|
    decreases |h|
  {
    if h == [] {
      assert UserPositions(h) == {};
    } else {
      var init, t := h[..|h| - 1], h[|h| - 1];
      assert h == init + [t];
      UserTurnsCountsPositions(init);
      UserTurnsAppend(init, t);
      var extra: set<nat> := if t.role == User then {|init|} else {};
      assert UserPositions(h) == UserPositions(init) + extra;
      assert |init| !in UserPositions(init);
    }
  }

  /** The store of `services/sessionManager.js`. */
  class SessionManager<K(==)> {
    var sessions: map<K, seq<Turn>>
    var requestCounts: map<K, nat>

    constructor ()
      ensures sessions == map[] && requestCounts == map[]
    {
      sessions := map[];
      requestCounts := map[];
    }

    /** Returns `phone`'s history, first storing an empty one if there is none. */
    method GetHistory(phone: K) returns (history: seq<Turn>)
      modifies this
      ensures history == HistoryOf(old(sessions), phone)
      ensures phone in sessions && sessions == old(sessions)[phone := history]
      ensures requestCounts == old(requestCounts)
    {
      if phone !in sessions {
        sessions := sessions[phone := []];
      }
      history := sessions[phone];
    }

    /** Pushes a user turn onto `phone`'s history. */
    method AppendUserMessage(phone: K, content: string)
      modifies this
      ensures sessions == old(sessions)[phone := HistoryOf(old(sessions), phone) + [Turn(User, content)]]
      ensures requestCounts == old(requestCounts)
    {
      var history := GetHistory(phone);
      sessions := sessions[phone := history + [Turn(User, content)]];
    }

    /** Pushes an assistant turn onto `phone`'s history. */
    method AppendAssistantMessage(phone: K, content: string)
      modifies this
      ensures sessions == old(sessions)[phone := HistoryOf(old(sessions), phone) + [Turn(Assistant, content)]]
      ensures requestCounts == old(requestCounts)
    {
      var history := GetHistory(phone);
      sessions := sessions[phone := history + [Turn(Assistant, content)]];
    }

    /** Counts the user turns of `phone`'s history (creating an empty one if there is none). */
    method CountUserTurns(phone: K) returns (n: nat)
      modifies this
      ensures n == UserTurns(HistoryOf(old(sessions), phone))
      ensures n == |UserPositions(HistoryOf(old(sessions), phone))|
      ensures sessions == old(sessions)[phone := HistoryOf(old(sessions), phone)]
      ensures requestCounts == old(requestCounts)
    {
      var history := GetHistory(phone);
      n := |UserEntries(history)|;
      UserTurnsCountsPositions(history);
    }

    /** Stores and returns the previous count plus one, an absent count being 0. */
    method IncrementRequestCount(phone: K) returns (next: nat)
      modifies this
      ensures next == CountOf(old(requestCounts), phone) + 1
      ensures requestCounts == old(requestCounts)[phone := next]
      ensures sessions == old(sessions)
    {
      var current := if phone in requestCounts then requestCounts[phone] else 0;
      next := current + 1;
      requestCounts := requestCounts[phone := next];
    }

    /** The stored count, 0 when absent; changes nothing. */
    method GetRequestCount(phone: K) returns (n: nat)
      ensures n == CountOf(requestCounts, phone)
      ensures phone !in requestCounts ==> n == 0
    {
      n := if phone in requestCounts then requestCounts[phone] else 0;
    }

    /** Forgets `phone`'s count, so that it reads as 0 again. */
    method ResetRequestCount(phone: K)
      modifies this
      ensures requestCounts == old(requestCounts) - {phone}
      ensures CountOf(requestCounts, phone) == 0
      ensures sessions == old(sessions)
    {
      requestCounts := requestCounts - {phone};
    }

    /** Removes `phone`'s session entirely; its next read starts from an empty history. */
    method ClearHistory(phone: K)
      modifies this
      ensures sessions == old(sessions) - {phone}
      ensures phone !in sessions && HistoryOf(sessions, phone) == []
      ensures requestCounts == old(requestCounts)
    {
      sessions := sessions - {phone};
    }
  }
}

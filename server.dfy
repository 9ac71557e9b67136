/**
 * The pure decisions of `server.js`: extracting an actionable text message
 * from a webhook payload, recognising the backend's SNAP termination payload,
 * and answering the webhook verification handshake.
 */
module Server {
  import opened Wrappers
  import opened JsValues

  // ---------------------------------------------------------------------
  // parseIncomingMessage
  // ---------------------------------------------------------------------

  /** What a text message yields: the raw `from` value, the trimmed text, the display name. */
  datatype Incoming = Incoming(from: Option<Json>, text: string, name: Json)

  const DEFAULT_NAME: string := "Friend"

  /** `payload?.entry?.[0]?.changes?.[0]?.value`. */
  function ValueOf(payload: Json): Option<Json>
  {
    Prop(First(Prop(First(Prop(Some(payload), "entry")), "changes")), "value")
  }

  /** `value?.messages?.[0]`. */
  function MessageOf(payload: Json): Option<Json>
  {
    First(Prop(ValueOf(payload), "messages"))
  }

  /** `message?.text?.body`. */
  function BodyOf(payload: Json): Option<Json>
  {
    Prop(Prop(MessageOf(payload), "text"), "body")
  }

  /** `value?.contacts?.[0]?.profile?.name`. */
  function ProfileNameOf(payload: Json): Option<Json>
  {
    Prop(Prop(First(Prop(ValueOf(payload), "contacts")), "profile"), "name")
  }

  /** The message exists and its `type` is exactly the string "text". */
  predicate IsTextMessage(payload: Json)
  {
    Truthy(MessageOf(payload)) && Get(MessageOf(payload).value, "type") == Some(JString("text"))
  }

  /**
   * `parseIncomingMessage(payload)`: `Ok(None)` is its `null`, `Err` the
   * TypeError that `body?.trim()` throws when the body is neither nullish nor a string.
   */
  function ParseIncomingMessage(payload: Json): (r: Result<Option<Incoming>>)
    ensures r.Ok? && r.value.Some? ==> r.value.value.text != [] && Trim(r.value.value.text) == r.value.value.text
    ensures r.Ok? && r.value.Some? ==> Truthy(Some(r.value.value.name))
  {
    if !IsTextMessage(payload) then Ok(None)
    else
      match BodyOf(payload)
      case None => Ok(None)
      case Some(JNull) => Ok(None)
      case Some(JString(s)) =>
        var text := Trim(s);
        if text == "" then Ok(None)
        else
          TrimIdempotent(s);
          var name := ProfileNameOf(payload);
          Ok(Some(Incoming(Get(MessageOf(payload).value, "from"), text,
                           if Truthy(name) then name.value else JString(DEFAULT_NAME))))
      case Some(_) => Err
  }

  /**
   * The three outcomes of `parseIncomingMessage`, stated on the payload:
   * a message is actionable exactly when the first message is a "text" message
   * whose body is a string that is not blank once trimmed; a non-string,
   * non-null body makes the call throw; everything else is no message.
   */
  lemma {:induction false} ParseIncomingOutcomes(payload: Json)
    ensures ParseIncomingMessage(payload).Err? <==>
      IsTextMessage(payload) && BodyOf(payload).Some? && !BodyOf(payload).value.JNull? && !BodyOf(payload).value.JString?
    ensures ParseIncomingMessage(payload) == Ok(None) <==>
      !IsTextMessage(payload) || BodyOf(payload).None? || BodyOf(payload) == Some(JNull)
      || (BodyOf(payload).value.JString? && Trim(BodyOf(payload).value.s) == "")
    ensures ParseIncomingMessage(payload).Ok? && ParseIncomingMessage(payload).value.Some? ==>
      var m := ParseIncomingMessage(payload).value.value;
      && m.from == Get(MessageOf(payload).value, "from")
      && m.text == Trim(BodyOf(payload).value.s)
      && m.name == (if Truthy(ProfileNameOf(payload)) then ProfileNameOf(payload).value else JString(DEFAULT_NAME))
  {
  }

  /** A text message of the platform's documented shape. */
  function WhatsAppMessage(from: Json, body: string): Json
  {
    JObject(map["from" := from, "type" := JString("text"), "text" := JObject(map["body" := JString(body)])])
  }

  /** The `value` of a platform payload holding one text message. */
  function WhatsAppValue(from: Json, body: string, contacts: seq<Json>): Json
  {
    JObject(map["messages" := JArray([WhatsAppMessage(from, body)]), "contacts" := JArray(contacts)])
  }

  /** A payload of the platform's documented shape. */
  function WhatsAppPayload(from: Json, body: string, contacts: seq<Json>): Json
  {
    JObject(map["entry" := JArray([JObject(map["changes" := JArray([JObject(map["value" := WhatsAppValue(from, body, contacts)])])])])])
  }

  lemma WhatsAppValueOf(from: Json, body: string, contacts: seq<Json>)
    ensures ValueOf(WhatsAppPayload(from, body, contacts)) == Some(WhatsAppValue(from, body, contacts))
  {
    var change := JObject(map["value" := WhatsAppValue(from, body, contacts)]);
    var entry := JObject(map["changes" := JArray([change])]);
    assert Prop(Some(WhatsAppPayload(from, body, contacts)), "entry") == Some(JArray([entry]));
    assert First(Some(JArray([entry]))) == Some(entry);
    assert Prop(Some(entry), "changes") == Some(JArray([change]));
    assert First(Some(JArray([change]))) == Some(change);
  }

  lemma WhatsAppMessageOf(from: Json, body: string, contacts: seq<Json>)
    ensures MessageOf(WhatsAppPayload(from, body, contacts)) == Some(WhatsAppMessage(from, body))
    ensures IsTextMessage(WhatsAppPayload(from, body, contacts))
    ensures BodyOf(WhatsAppPayload(from, body, contacts)) == Some(JString(body))
    ensures Get(WhatsAppMessage(from, body), "from") == Some(from)
  {
    WhatsAppValueOf(from, body, contacts);
    var value := WhatsAppValue(from, body, contacts);
    assert Prop(Some(value), "messages") == Some(JArray([WhatsAppMessage(from, body)]));
    assert Get(WhatsAppMessage(from, body), "type") == Some(JString("text"));
    assert Prop(Some(WhatsAppMessage(from, body)), "text") == Some(JObject(map["body" := JString(body)]));
  }

  /**
   * A platform-shaped text message with a non-blank body is actionable: it
   * yields the sender, the trimmed body, and the profile name, or "Friend"
   * when there is no contact, no profile name, or an empty one.
   */
  lemma WhatsAppTextIsActionable(from: Json, body: string, contacts: seq<Json>)
    requires Trim(body) != ""
    ensures var name := ProfileNameOf(WhatsAppPayload(from, body, contacts));
      ParseIncomingMessage(WhatsAppPayload(from, body, contacts))
        == Ok(Some(Incoming(Some(from), Trim(body), if Truthy(name) then name.value else JString(DEFAULT_NAME))))
  {
    WhatsAppMessageOf(from, body, contacts);
  }

  /** The contacts of a platform payload are where its display name is looked up. */
  lemma ContactName(from: Json, body: string, contacts: seq<Json>)
    ensures ProfileNameOf(WhatsAppPayload(from, body, contacts)) == Prop(Prop(First(Some(JArray(contacts))), "profile"), "name")
  {
    WhatsAppValueOf(from, body, contacts);
    assert Prop(Some(WhatsAppValue(from, body, contacts)), "contacts") == Some(JArray(contacts));
  }

  /** The display name of a platform payload is the contact's profile name when it is non-empty. */
  lemma WhatsAppProfileName(from: Json, body: string, name: string)
    requires Trim(body) != ""
    ensures var contact := JObject(map["profile" := JObject(map["name" := JString(name)])]);
      ParseIncomingMessage(WhatsAppPayload(from, body, [contact]))
        == Ok(Some(Incoming(Some(from), Trim(body), JString(if name == "" then DEFAULT_NAME else name))))
  {
    var contact := JObject(map["profile" := JObject(map["name" := JString(name)])]);
    WhatsAppTextIsActionable(from, body, [contact]);
    ProfileNameOfContact(from, body, name);
  }

  lemma ProfileNameOfContact(from: Json, body: string, name: string)
    ensures var contact := JObject(map["profile" := JObject(map["name" := JString(name)])]);
      && ProfileNameOf(WhatsAppPayload(from, body, [contact])) == Some(JString(name))
      && (Truthy(Some(JString(name))) <==> name != "")
  {
    var contact := JObject(map["profile" := JObject(map["name" := JString(name)])]);
    ContactName(from, body, [contact]);
    NameOfContact(name);
  }

  lemma NameOfContact(name: string)
    ensures var contact := JObject(map["profile" := JObject(map["name" := JString(name)])]);
      Prop(Prop(First(Some(JArray([contact]))), "profile"), "name") == Some(JString(name))
  {
    var profile := JObject(map["name" := JString(name)]);
    var contact := JObject(map["profile" := profile]);
    assert First(Some(JArray([contact]))) == Some(contact);
    assert Prop(Some(contact), "profile") == Some(profile);
  }

  /** Without a contact the display name is "Friend". */
  lemma WhatsAppNoContactName(from: Json, body: string)
    requires Trim(body) != ""
    ensures ParseIncomingMessage(WhatsAppPayload(from, body, []))
        == Ok(Some(Incoming(Some(from), Trim(body), JString(DEFAULT_NAME))))
  {
    WhatsAppTextIsActionable(from, body, []);
    NoContactNoName(from, body);
  }

  lemma NoContactNoName(from: Json, body: string)
    ensures ProfileNameOf(WhatsAppPayload(from, body, [])) == None
  {
    ContactName(from, body, []);
    assert First(Some(JArray([]))) == None;
  }

  // ---------------------------------------------------------------------
  // parseSnapResponse
  // ---------------------------------------------------------------------

  /** The validated termination payload. */
  datatype Snap = Snap(doomScore: real, summary: string, realityCheck: string)

  /** `s[i..j+1]` is a match of the pattern `\{[\s\S]*\}`: it opens with `{` and closes with `}`. */
  predicate IsBraceMatch(s: string, i: int, j: int)
  {
    0 <= i < j < |s| && s[i] == '{' && s[j] == '}'
  }

  function FirstIndexOf(s: string, c: char): (r: Option<nat>)
    ensures r.Some? ==> r.value < |s| && s[r.value] == c
    ensures r.Some? ==> forall k :: 0 <= k < r.value ==> s[k] != c
    ensures r.None? ==> forall k :: 0 <= k < |s| ==> s[k] != c
  {
    if s == [] then None
    else if s[0] == c then Some(0)
    else match FirstIndexOf(s[1..], c)
      case None => None
      case Some(k) => Some(k + 1)
  }

  function LastIndexOf(s: string, c: char): (r: Option<nat>)
    ensures r.Some? ==> r.value < |s| && s[r.value] == c
    ensures r.Some? ==> forall k :: r.value < k < |s| ==> s[k] != c
    ensures r.None? ==> forall k :: 0 <= k < |s| ==> s[k] != c
  {
    if s == [] then None
    else if s[|s| - 1] == c then Some(|s| - 1)
    else LastIndexOf(s[..|s| - 1], c)
  }

  /**
   * The bounds of `s.match(/\{[\s\S]*\}/)`: the leftmost match, and at that
   * start the longest one, since `[\s\S]*` is greedy. It thus runs from the
   * first `{` to the last `}` and is not a balanced-brace scan.
   */
  function GreedyBraceMatch(s: string): (r: Option<(nat, nat)>)
    ensures r.Some? ==> IsBraceMatch(s, r.value.0, r.value.1)
    ensures r.Some? ==> forall i, j :: IsBraceMatch(s, i, j) ==> r.value.0 <= i && j <= r.value.1
    ensures r.None? <==> forall i, j :: !IsBraceMatch(s, i, j)
  {
    match (FirstIndexOf(s, '{'), LastIndexOf(s, '}'))
    case (Some(i), Some(j)) => if i < j then assert IsBraceMatch(s, i, j); Some((i, j)) else None
    case _ => None
  }

  /** `s.match(/\{[\s\S]*\}/)?.[0]`: the matched text. */
  function MatchedText(s: string): Option<string>
  {
    match GreedyBraceMatch(s)
    case None => None
    case Some((i, j)) => Some(s[i..j + 1])
  }

  /** The matched text runs from a `{` to a `}`, and exists exactly when some `{` precedes some `}`. */
  lemma MatchedTextIsBraced(s: string)
    ensures var r := MatchedText(s);
      && (r.Some? ==> |r.value| >= 2 && r.value[0] == '{' && r.value[|r.value| - 1] == '}')
      && (r.None? <==> forall i, j :: !IsBraceMatch(s, i, j))
  {
    if GreedyBraceMatch(s).Some? {
      var (i, j) := GreedyBraceMatch(s).value;
      assert s[i..j + 1][0] == s[i] && s[i..j + 1][j - i] == s[j];
    }
  }

  /** The text `JSON.parse` is given: the greedy match inside the trimmed reply. */
  function SnapCandidate(text: string): Option<string>
  {
    MatchedText(Trim(text))
  }

  /** `Number.isFinite(d) ? Math.min(Math.max(d, 0), 100) : 0`, with None for a non-finite `d`. */
  function ClampScore(d: Option<real>): (r: real)
    ensures 0.0 <= r <= 100.0
    ensures d.None? ==> r == 0.0
    ensures d.Some? && d.value > 100.0 ==> r == 100.0
    ensures d.Some? && d.value < 0.0 ==> r == 0.0
    ensures d.Some? && 0.0 <= d.value <= 100.0 ==> r == d.value
  {
    if d.Some? then
      var atLeastZero := if d.value > 0.0 then d.value else 0.0;
      if atLeastZero < 100.0 then atLeastZero else 100.0
    else 0.0
  }

  /** `String(parsed[key] || "")`; `Err` is the TypeError `String` throws. */
  function TextField(parsed: Json, key: string, rt: Runtime): (r: Result<string>)
    ensures !Truthy(Get(parsed, key)) ==> r == Ok("")
    ensures Get(parsed, key).Some? && Get(parsed, key).value.JString? ==> r == Ok(Get(parsed, key).value.s)
    ensures r.Err? <==> ConversionThrowsAt(parsed, key)
  {
    var f := Get(parsed, key);
    if Truthy(f) then ToJsString(f.value, rt) else Ok("")
  }

  /** Converting the field `key` of `parsed` throws. */
  predicate ConversionThrowsAt(parsed: Json, key: string)
  {
    Get(parsed, key).Some? && ConversionThrows(Get(parsed, key).value)
  }

  /** One of the three conversions the parser makes throws, which its `catch` turns into `null`. */
  predicate SnapFieldsThrow(parsed: Json)
  {
    ConversionThrowsAt(parsed, "DoomScore") || ConversionThrowsAt(parsed, "Summary") || ConversionThrowsAt(parsed, "RealityCheck")
  }

  /** The parsed value carries `Status` exactly equal to the string "SNAP". */
  predicate IsSnapStatus(parsed: Json)
  {
    Get(parsed, "Status") == Some(JString("SNAP"))
  }

  /** `parseSnapResponse(text)`: total, `None` where the source returns `null` (including its caught exceptions). */
  function ParseSnapResponse(text: string, rt: Runtime): (r: Option<Snap>)
    ensures Trim(text) == "" ==> r.None?
    ensures SnapCandidate(text).None? ==> r.None?
    ensures r.Some? <==>
      SnapCandidate(text).Some? && rt.jsonParse(SnapCandidate(text).value).Some?
      && IsSnapStatus(rt.jsonParse(SnapCandidate(text).value).value)
      && !SnapFieldsThrow(rt.jsonParse(SnapCandidate(text).value).value)
    ensures r.Some? ==> 0.0 <= r.value.doomScore <= 100.0
  {
    var trimmed := Trim(text);
    if trimmed == "" then None
    else
      match SnapCandidate(text)
      case None => None
      case Some(candidate) =>
        match rt.jsonParse(candidate)
        case None => None
        case Some(parsed) =>
          if !IsSnapStatus(parsed) then None
          else
            match (ToNumber(Get(parsed, "DoomScore"), rt), TextField(parsed, "Summary", rt), TextField(parsed, "RealityCheck", rt))
            case (Ok(score), Ok(summary), Ok(realityCheck)) => Some(Snap(ClampScore(score), summary, realityCheck))
            case _ => None
  }

  /**
   * The fields of an accepted payload: the score is the clamped numeric
   * coercion of `DoomScore`, and a falsy `Summary` or `RealityCheck` becomes "".
   */
  lemma SnapFields(text: string, rt: Runtime)
    requires ParseSnapResponse(text, rt).Some?
    ensures var parsed := rt.jsonParse(SnapCandidate(text).value).value;
      var snap := ParseSnapResponse(text, rt).value;
      && snap.doomScore == ClampScore(ToNumber(Get(parsed, "DoomScore"), rt).value)
      && (!Truthy(Get(parsed, "Summary")) ==> snap.summary == "")
      && (!Truthy(Get(parsed, "RealityCheck")) ==> snap.realityCheck == "")
      && (forall s :: Get(parsed, "Summary") == Some(JString(s)) ==> snap.summary == s)
      && (forall s :: Get(parsed, "RealityCheck") == Some(JString(s)) ==> snap.realityCheck == s)
  {
  }

  /**
   * For a reply whose candidate parses to a SNAP object, a `DoomScore` above
   * 100 reads as 100, below 0 as 0, a string that does not coerce to a finite
   * number as 0, and a missing one as 0.
   */
  lemma SnapScoreClamped(text: string, rt: Runtime, fields: map<string, Json>)
    requires SnapCandidate(text).Some? && rt.jsonParse(SnapCandidate(text).value) == Some(JObject(fields))
    requires "Status" in fields && fields["Status"] == JString("SNAP")
    ensures ParseSnapResponse(text, rt).Some? <==> !SnapFieldsThrow(JObject(fields))
    ensures ParseSnapResponse(text, rt).Some? && "DoomScore" in fields && fields["DoomScore"].JNumber? ==>
      ParseSnapResponse(text, rt).value.doomScore == (if fields["DoomScore"].n > 100.0 then 100.0
                                                      else if fields["DoomScore"].n < 0.0 then 0.0
                                                      else fields["DoomScore"].n)
    ensures ParseSnapResponse(text, rt).Some? && "DoomScore" in fields && fields["DoomScore"].JInfinity? ==>
      ParseSnapResponse(text, rt).value.doomScore == 0.0
    ensures ParseSnapResponse(text, rt).Some? && "DoomScore" in fields && fields["DoomScore"].JString?
            && rt.stringToNumber(fields["DoomScore"].s).None? ==>
      ParseSnapResponse(text, rt).value.doomScore == 0.0
    ensures ParseSnapResponse(text, rt).Some? && "DoomScore" !in fields ==> ParseSnapResponse(text, rt).value.doomScore == 0.0
  {
    assert Get(JObject(fields), "Status") == Some(JString("SNAP"));
  }

  /** Whitespace never holds a brace. */
  lemma BracesAreNotWhitespace()
    ensures !IsJsWhitespace('{') && !IsJsWhitespace('}')
  {
  }

  /** A brace match survives cutting off a prefix without `{` and a suffix without `}`, shifted by the cut. */
  lemma MatchInSlice(s: string, a: nat, b: nat, i: int, j: int)
    requires a <= b <= |s|
    requires forall k :: 0 <= k < a ==> s[k] != '{'
    requires forall k :: b <= k < |s| ==> s[k] != '}'
    requires IsBraceMatch(s, i, j)
    ensures a <= i && j < b && IsBraceMatch(s[a..b], i - a, j - a)
  {
    assert s[a..b][i - a] == s[i] && s[a..b][j - a] == s[j];
  }

  /** A brace match in a slice is one in the whole string. */
  lemma MatchOfSlice(s: string, a: nat, b: nat, i: int, j: int)
    requires a <= b <= |s|
    requires IsBraceMatch(s[a..b], i, j)
    ensures IsBraceMatch(s, i + a, j + a)
  {
    assert s[a..b][i] == s[i + a] && s[a..b][j] == s[j + a];
  }

  /** Cutting off a prefix without `{` and a suffix without `}` shifts the greedy match by the cut. */
  lemma ShiftedGreedyMatch(s: string, a: nat, b: nat, i: nat, j: nat)
    requires a <= b <= |s|
    requires forall k :: 0 <= k < a ==> s[k] != '{'
    requires forall k :: b <= k < |s| ==> s[k] != '}'
    requires GreedyBraceMatch(s) == Some((i, j))
    ensures a <= i && j < b && GreedyBraceMatch(s[a..b]) == Some((i - a, j - a))
  {
    MatchInSlice(s, a, b, i, j);
    var (i', j') := GreedyBraceMatch(s[a..b]).value;
    MatchOfSlice(s, a, b, i', j');
  }

  /** ... and such a cut never creates a match. */
  lemma NoMatchInSlice(s: string, a: nat, b: nat)
    requires a <= b <= |s|
    requires GreedyBraceMatch(s).None?
    ensures GreedyBraceMatch(s[a..b]).None?
  {
    if GreedyBraceMatch(s[a..b]).Some? {
      var (i, j) := GreedyBraceMatch(s[a..b]).value;
      MatchOfSlice(s, a, b, i, j);
    }
  }

  /** The same cut leaves the matched text as it was. */
  lemma MatchedTextOfSlice(s: string, a: nat, b: nat)
    requires a <= b <= |s|
    requires forall k :: 0 <= k < a ==> s[k] != '{'
    requires forall k :: b <= k < |s| ==> s[k] != '}'
    ensures MatchedText(s[a..b]) == MatchedText(s)
  {
    if GreedyBraceMatch(s).None? {
      NoMatchInSlice(s, a, b);
    } else {
      var i, j := GreedyBraceMatch(s).value.0, GreedyBraceMatch(s).value.1;
      ShiftedGreedyMatch(s, a, b, i, j);
      ShiftedMatchedText(s, a, b, i, j);
      MatchedTextOfMatch(s, i, j);
    }
  }

  /** The text the shifted match picks out of the slice. */
  lemma ShiftedMatchedText(s: string, a: nat, b: nat, i: nat, j: nat)
    requires a <= i < j < b <= |s|
    requires GreedyBraceMatch(s[a..b]) == Some((i - a, j - a))
    ensures MatchedText(s[a..b]) == Some(s[i..j + 1])
  {
    MatchedTextOfMatch(s[a..b], i - a, j - a);
    SliceOfSlice(s, a, b, i, j);
  }

  /** The matched text of a match found at `i` and `j`. */
  lemma MatchedTextOfMatch(s: string, i: nat, j: nat)
    requires GreedyBraceMatch(s) == Some((i, j))
    ensures j < |s| && MatchedText(s) == Some(s[i..j + 1])
  {
  }

  /** A slice of a slice is a slice of the whole string. */
  lemma SliceOfSlice(s: string, a: nat, b: nat, x: nat, y: nat)
    requires a <= x <= y < b <= |s|
    ensures s[a..b][x - a..y - a + 1] == s[x..y + 1]
  {
    var inner, outer := s[a..b][x - a..y - a + 1], s[x..y + 1];
    forall k | 0 <= k < |inner| ensures inner[k] == outer[k] {
    }
  }

  /**
   * Trimming never changes the candidate: the match in the trimmed reply is
   * the match in the reply itself, since trim drops only whitespace.
   */
  lemma CandidateIgnoresTrim(text: string)
    ensures SnapCandidate(text) == MatchedText(text)
  {
    var a, b := TrimSlice(text);
    BracesAreNotWhitespace();
    assert forall k :: 0 <= k < a ==> text[k] != '{';
    assert forall k :: b <= k < |text| ==> text[k] != '}';
    MatchedTextOfSlice(text, a, b);
  }

  /** A reply without any `{`, such as plain narration, is never a SNAP. */
  lemma NarrationIsNotSnap(text: string, rt: Runtime)
    requires forall k :: 0 <= k < |text| ==> text[k] != '{'
    ensures ParseSnapResponse(text, rt).None?
  {
    CandidateIgnoresTrim(text);
    assert forall i, j :: !IsBraceMatch(text, i, j);
  }

  /**
   * A candidate that `JSON.parse` turns into a value with status "SNAP" yields
   * that value's fields, unless converting one of them throws.
   */
  lemma SnapOfCandidate(text: string, candidate: string, parsed: Json, rt: Runtime)
    requires SnapCandidate(text) == Some(candidate) && rt.jsonParse(candidate) == Some(parsed)
    requires IsSnapStatus(parsed)
    ensures ParseSnapResponse(text, rt)
         == if SnapFieldsThrow(parsed) then None
            else Some(Snap(ClampScore(ToNumber(Get(parsed, "DoomScore"), rt).value),
                           TextField(parsed, "Summary", rt).value, TextField(parsed, "RealityCheck", rt).value))
  {
    assert MatchedText("") == None;
  }

  /**
   * Noise around the JSON is tolerated: with no `{` before it and no `}` after
   * it, a brace-delimited block is exactly the candidate handed to `JSON.parse`.
   */
  lemma CandidateSkipsNoise(before: string, block: string, after: string)
    requires |block| >= 2 && block[0] == '{' && block[|block| - 1] == '}'
    requires forall k :: 0 <= k < |before| ==> before[k] != '{'
    requires forall k :: 0 <= k < |after| ==> after[k] != '}'
    ensures SnapCandidate(before + block + after) == Some(block)
  {
    var s := before + block + after;
    var i, j := |before|, |before| + |block| - 1;
    assert IsBraceMatch(s, i, j);
    CandidateIgnoresTrim(s);
    var (i', j') := GreedyBraceMatch(s).value;
    assert s[i'] == '{' && s[j'] == '}';
    assert i' == i && j' == j;
    assert s[i..j + 1] == block;
  }

  // ---------------------------------------------------------------------
  // GET /webhook verification
  // ---------------------------------------------------------------------

  /** A query parameter as the query parser gives it: absent, a string, or an array/object. */
  datatype QueryValue = Missing | Text(s: string) | Structured

  datatype Verdict = Challenge200(body: QueryValue) | Forbidden403

  /** `token === process.env.WHATSAPP_VERIFY_TOKEN`, with None for an unset variable. */
  predicate StrictEqualsEnv(token: QueryValue, configured: Option<string>)
  {
    match token
    case Missing => configured.None?
    case Text(s) => configured == Some(s)
    case Structured => false
  }

  /** The handshake as written: echo the challenge iff the mode is "subscribe" and the token strictly equals the configured one. */
  function VerifyWebhook(mode: QueryValue, token: QueryValue, challenge: QueryValue, configured: Option<string>): (r: Verdict)
    ensures r.Challenge200? ==> r.body == challenge && mode == Text("subscribe")
    ensures r.Challenge200? <==> mode == Text("subscribe") && StrictEqualsEnv(token, configured)
  {
    if mode == Text("subscribe") && StrictEqualsEnv(token, configured) then Challenge200(challenge) else Forbidden403
  }

  /** With the verify token unset, a subscription request carrying no token is accepted. */
  lemma UnsetTokenAcceptsMissingToken(challenge: QueryValue)
    ensures VerifyWebhook(Text("subscribe"), Missing, challenge, None) == Challenge200(challenge)
  {
  }

  /** The handshake as evidently intended: a configured token must be presented. */
  function VerifyWebhookStrict(mode: QueryValue, token: QueryValue, challenge: QueryValue, configured: Option<string>): (r: Verdict)
    ensures r.Challenge200? ==> r.body == challenge && mode == Text("subscribe")
    ensures r.Challenge200? ==> configured.Some? && token == Text(configured.value)
  {
    if configured.Some? && mode == Text("subscribe") && token == Text(configured.value) then Challenge200(challenge) else Forbidden403
  }

  /** Whenever the token is configured the two handshakes answer alike. */
  lemma StrictAgreesWhenConfigured(mode: QueryValue, token: QueryValue, challenge: QueryValue, configured: Option<string>)
    requires configured.Some?
    ensures VerifyWebhookStrict(mode, token, challenge, configured) == VerifyWebhook(mode, token, challenge, configured)
  {
  }
}

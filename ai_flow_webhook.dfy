/**
 * The voicemail webhook behind the telephony platform (ab/ai-flow-webhook.py).
 *
 * The platform posts call events; the handler keeps one record per session id
 * in a map, updates it according to the event type and answers with at most one
 * action (`speak` or `audio`). Each notification the handler would send is
 * recorded in a ghost log instead of going over the network.
 *
 * `Step` is the transition of one event as a function of the old map;
 * `FlowHandler.HandleEvent` performs it in place on the map and the log, and
 * `Run` folds `Step` over a sequence of events for the lemmas about whole calls.
 */
module AiFlowWebhook {
  import opened Wrappers
  import opened PyStr

  const Greeting := "Hallo, hier ist der Anrufbeantworter von YuzuHub. Wir sind gerade nicht erreichbar. Bitte hinterlasse eine Nachricht nach dem Signalton, und wir melden uns bei dir."
  const Thanks := "Danke für deine Nachricht. Wir melden uns so bald wie möglich. Tschüss!"
  const Reprompt := "Hallo? Wenn du eine Nachricht hinterlassen möchtest, sprich einfach los."
  const UnknownCaller := "unbekannt"
  const NoMessageLine := "  (keine Nachricht hinterlassen)"
  const GreetingTimeout := 30
  const RepromptTimeout := 15

  // ---------------------------------------------------------------------------
  // Data model
  // ---------------------------------------------------------------------------

  /** The `session` object of an event, after JSON decoding; every field may be missing. */
  datatype EventSession = EventSession(id: Option<string>, fromPhoneNumber: Option<string>)

  /** A decoded event; every field may be missing. */
  datatype Event = Event(eventType: Option<string>, session: Option<EventSession>, text: Option<string>)

  /**
   * One entry of the session map. `beeped` is None when the key is absent
   * (records created lazily by `user_speak` or `user_input_timeout`);
   * `thanked` is false while the key is absent, since only `True` is ever written.
   */
  datatype Session = Session(caller: string, messages: seq<string>, beeped: Option<bool>, thanked: bool)

  type Sessions = map<string, Session>

  /** The reply to the platform. */
  datatype Action =
    | Speak(sessionId: string, text: string, timeout: Option<int>)
    | Audio(sessionId: string, audio: string)

  /** A notification the handler sends: for whom and what was collected. */
  datatype Notification = Notification(sessionId: string, caller: string, messages: seq<string>)

  /** The effect of one event: the new map, the notification sent (if any) and the reply (if any). */
  datatype StepResult = StepResult(sessions: Sessions, notified: Option<Notification>, reply: Option<Action>)

  // ---------------------------------------------------------------------------
  // Reading the event, with the handler's defaults
  // ---------------------------------------------------------------------------

  function EventType(e: Event): string {
    e.eventType.GetOr("")
  }

  function SessionId(e: Event): string {
    if e.session.Some? then e.session.value.id.GetOr("") else ""
  }

  function CallerOf(e: Event): string {
    if e.session.Some? then e.session.value.fromPhoneNumber.GetOr(UnknownCaller) else UnknownCaller
  }

  function RawText(e: Event): string {
    e.text.GetOr("")
  }

  /** The record `session_start` stores. */
  function StartedSession(caller: string): Session {
    Session(caller, [], Some(false), false)
  }

  /** The record created when another event names an unknown id. */
  function LazySession(): Session {
    Session(UnknownCaller, [], None, false)
  }

  /** The record for `sid`, or the one lazy creation would make (also what `pop(sid, {})` reads as). */
  function Current(sessions: Sessions, sid: string): Session {
    if sid in sessions then sessions[sid] else LazySession()
  }

  /** Python truthiness of `data.get("beeped")`. */
  predicate Beeped(s: Session) {
    s.beeped == Some(true)
  }

  /** The beep is played only when the clip was loaded and is non-empty. */
  predicate BeepAvailable(beep: Option<string>) {
    beep.Some? && beep.value != ""
  }

  /** The other entries of the map are as they were. */
  ghost predicate OthersUnchanged(before: Sessions, after: Sessions, sid: string) {
    forall k :: k != sid ==> (k in after <==> k in before) && (k in before ==> after[k] == before[k])
  }

  // ---------------------------------------------------------------------------
  // The transition for each event type
  // ---------------------------------------------------------------------------

  /** `session_start`: overwrite the entry with a fresh record, greet and wait 30 seconds. */
  function OnSessionStart(sessions: Sessions, sid: string, caller: string): (r: StepResult)
    ensures r.sessions.Keys == sessions.Keys + {sid}
    ensures OthersUnchanged(sessions, r.sessions, sid)
    ensures r.sessions[sid].caller == caller && r.sessions[sid].messages == []
    ensures r.sessions[sid].beeped == Some(false) && !r.sessions[sid].thanked
    ensures r.notified == None
    ensures r.reply == Some(Speak(sid, Greeting, Some(GreetingTimeout)))
  {
    StepResult(sessions[sid := StartedSession(caller)], None, Some(Speak(sid, Greeting, Some(GreetingTimeout))))
  }

  /** `user_speak`: create the entry if missing; append the trimmed text when it is not empty; no reply. */
  function OnUserSpeak(sessions: Sessions, sid: string, rawText: string): (r: StepResult)
    ensures r.sessions.Keys == sessions.Keys + {sid}
    ensures OthersUnchanged(sessions, r.sessions, sid)
    ensures var before, after := Current(sessions, sid), r.sessions[sid];
      && after.caller == before.caller && after.beeped == before.beeped && after.thanked == before.thanked
      && after.messages == before.messages + (if Strip(rawText) == "" then [] else [Strip(rawText)])
    ensures r.notified == None && r.reply == None
  {
    var text := Strip(rawText);
    var data := Current(sessions, sid);
    var data' := if text != "" then data.(messages := data.messages + [text]) else data;
    StepResult(sessions[sid := data'], None, None)
  }

  /**
   * `user_input_timeout`: create the entry if missing; with messages and no
   * thank-you yet, mark it thanked, notify and thank; with no messages, re-prompt
   * with a 15-second timeout; otherwise nothing.
   */
  function OnInputTimeout(sessions: Sessions, sid: string): (r: StepResult)
    ensures r.sessions.Keys == sessions.Keys + {sid}
    ensures OthersUnchanged(sessions, r.sessions, sid)
    ensures var before := Current(sessions, sid);
      r.notified.Some? <==> before.messages != [] && !before.thanked
    ensures var before := Current(sessions, sid);
      before.messages != [] && !before.thanked ==>
        && r.sessions[sid] == before.(thanked := true)
        && r.notified == Some(Notification(sid, before.caller, before.messages))
        && r.reply == Some(Speak(sid, Thanks, None))
    ensures var before := Current(sessions, sid);
      before.messages == [] ==>
        r.sessions[sid] == before && r.reply == Some(Speak(sid, Reprompt, Some(RepromptTimeout)))
    ensures var before := Current(sessions, sid);
      before.messages != [] && before.thanked ==> r.sessions[sid] == before && r.reply == None
  {
    var data := Current(sessions, sid);
    var created := sessions[sid := data];
    if data.messages != [] && !data.thanked then
      StepResult(created[sid := data.(thanked := true)], Some(Notification(sid, data.caller, data.messages)),
                 Some(Speak(sid, Thanks, None)))
    else if data.messages == [] then
      StepResult(created, None, Some(Speak(sid, Reprompt, Some(RepromptTimeout))))
    else
      StepResult(created, None, None)
  }

  /**
   * `session_end`: remove the entry; notify with what it held (or the defaults
   * when there was none) unless it was thanked; no reply.
   */
  function OnSessionEnd(sessions: Sessions, sid: string): (r: StepResult)
    ensures r.sessions.Keys == sessions.Keys - {sid}
    ensures forall k :: k in r.sessions ==> r.sessions[k] == sessions[k]
    ensures r.notified.Some? <==> !(sid in sessions && sessions[sid].thanked)
    ensures r.notified.Some? ==>
      r.notified.value == Notification(sid, Current(sessions, sid).caller, Current(sessions, sid).messages)
    ensures r.reply == None
  {
    var data := Current(sessions, sid);
    StepResult(sessions - {sid}, if !data.thanked then Some(Notification(sid, data.caller, data.messages)) else None, None)
  }

  /**
   * `assistant_speech_ended`: play the beep unless the entry says it was played,
   * and mark the entry. An unknown id is looked up as a throw-away empty record,
   * so the map is not changed and the beep is played again next time.
   */
  function OnSpeechEnded(sessions: Sessions, sid: string, beep: Option<string>): (r: StepResult)
    ensures r.notified == None
    ensures r.reply.Some? <==> BeepAvailable(beep) && !(sid in sessions && Beeped(sessions[sid]))
    ensures r.reply.Some? ==> r.reply == Some(Audio(sid, beep.value))
    ensures r.sessions.Keys == sessions.Keys
    ensures OthersUnchanged(sessions, r.sessions, sid)
    ensures sid in sessions ==>
      r.sessions[sid] == if r.reply.Some? then sessions[sid].(beeped := Some(true)) else sessions[sid]
  {
    var data := Current(sessions, sid);
    if !Beeped(data) && BeepAvailable(beep) then
      StepResult(if sid in sessions then sessions[sid := data.(beeped := Some(true))] else sessions,
                 None, Some(Audio(sid, beep.value)))
    else
      StepResult(sessions, None, None)
  }

  /** `FlowHandler.handle_event` as a function of the map before the event. */
  function Step(sessions: Sessions, e: Event, beep: Option<string>): (r: StepResult)
    ensures OthersUnchanged(sessions, r.sessions, SessionId(e))
    ensures r.notified.Some? ==> r.notified.value.sessionId == SessionId(e)
    ensures r.reply.Some? ==> r.reply.value.sessionId == SessionId(e)
    ensures EventType(e) !in {"session_start", "user_speak", "user_input_timeout", "session_end", "assistant_speech_ended"}
      ==> r == StepResult(sessions, None, None)
  {
    var sid := SessionId(e);
    match EventType(e)
    case "session_start" => OnSessionStart(sessions, sid, CallerOf(e))
    case "user_speak" => OnUserSpeak(sessions, sid, RawText(e))
    case "user_input_timeout" => OnInputTimeout(sessions, sid)
    case "session_end" => OnSessionEnd(sessions, sid)
    case "assistant_speak" => StepResult(sessions, None, None)
    case "assistant_speech_ended" => OnSpeechEnded(sessions, sid, beep)
    case _ => StepResult(sessions, None, None)
  }

  // ---------------------------------------------------------------------------
  // The notification text (notify_clawdbot)
  // ---------------------------------------------------------------------------

  function Bullets(messages: seq<string>): (r: seq<string>)
    ensures |r| == |messages|
    ensures forall i :: 0 <= i < |r| ==> r[i] == "  > " + messages[i]
  {
    if messages == [] then [] else ["  > " + messages[0]] + Bullets(messages[1..])
  }

  /** Each message as `  > m` on its own line, or the "no message left" line when there is none. */
  function MessageBody(messages: seq<string>): string {
    if messages != [] then Join(Bullets(messages), "\n") else NoMessageLine
  }

  /**
   * The text sent to the notification sink; `time` is the wall clock as `%H:%M`.
   * It is the header lines and then the message lines, joined by newlines.
   */
  function NotificationText(caller: string, time: string, messages: seq<string>): (text: string)
    ensures text == Join(NotificationLineList(caller, time, messages), "\n")
  {
    var h := HeaderLines(caller, time);
    var body := if messages == [] then [NoMessageLine] else Bullets(messages);
    HeaderJoin(caller, time);
    JoinAppend(h, body, "\n");
    assert Join(body, "\n") == MessageBody(messages);
    "📞 Anruf auf dem AB\n" + "Von: " + caller + "\n" + "Zeit: " + time + "\n" + "Nachricht:\n" + MessageBody(messages)
  }

  /** The header lines of the notification text. */
  function HeaderLines(caller: string, time: string): seq<string> {
    ["📞 Anruf auf dem AB", "Von: " + caller, "Zeit: " + time, "Nachricht:"]
  }

  lemma HeaderJoin(caller: string, time: string)
    ensures Join(HeaderLines(caller, time), "\n") + "\n" ==
      "📞 Anruf auf dem AB\n" + "Von: " + caller + "\n" + "Zeit: " + time + "\n" + "Nachricht:\n"
  {
    var h := HeaderLines(caller, time);
    assert h[1..][1..][1..] == [h[3]];
    assert Join(h[1..][1..], "\n") == h[2] + "\n" + h[3];
    assert Join(h, "\n") == h[0] + "\n" + (h[1] + "\n" + (h[2] + "\n" + h[3]));
  }

  lemma BodyLinesWithoutNewline(messages: seq<string>)
    requires forall i :: 0 <= i < |messages| ==> '\n' !in messages[i]
    ensures forall k :: 0 <= k < |Bullets(messages)| ==> '\n' !in Bullets(messages)[k]
  {
    forall k | 0 <= k < |Bullets(messages)| ensures '\n' !in Bullets(messages)[k] {
      assert Bullets(messages)[k] == "  > " + messages[k];
    }
  }

  /** The lines of the notification text: the header, then one bullet per message or the "no message" line. */
  function NotificationLineList(caller: string, time: string, messages: seq<string>): seq<string> {
    HeaderLines(caller, time) + (if messages == [] then [NoMessageLine] else Bullets(messages))
  }

  lemma NotificationLinesWithoutNewline(caller: string, time: string, messages: seq<string>)
    requires '\n' !in caller && '\n' !in time
    requires forall i :: 0 <= i < |messages| ==> '\n' !in messages[i]
    ensures forall k :: 0 <= k < |NotificationLineList(caller, time, messages)| ==>
      '\n' !in NotificationLineList(caller, time, messages)[k]
  {
    var h := HeaderLines(caller, time);
    var body := if messages == [] then [NoMessageLine] else Bullets(messages);
    var lines := h + body;
    BodyLinesWithoutNewline(messages);
    assert forall k :: 0 <= k < |h| ==> '\n' !in h[k];
    forall k | 0 <= k < |lines| ensures '\n' !in lines[k] {
      if k < |h| { assert lines[k] == h[k]; } else { assert lines[k] == body[k - |h|]; }
    }
  }

  /**
   * Read line by line, the notification text is the four header lines followed
   * by one bullet per message in order, or by the single "no message" line.
   */
  lemma NotificationLines(caller: string, time: string, messages: seq<string>)
    requires '\n' !in caller && '\n' !in time
    requires forall i :: 0 <= i < |messages| ==> '\n' !in messages[i]
    ensures Split(NotificationText(caller, time, messages), "\n") == NotificationLineList(caller, time, messages)
  {
    NotificationLinesWithoutNewline(caller, time, messages);
    SplitJoin(NotificationLineList(caller, time, messages), '\n');
  }

  // ---------------------------------------------------------------------------
  // The HTTP boundary (do_POST)
  // ---------------------------------------------------------------------------

  /** With a secret configured, the `X-API-TOKEN` header (default "") must equal it; an empty secret disables the check. */
  predicate Authorized(secret: string, token: Option<string>)
    ensures Authorized(secret, token) <==> secret == "" || token == Some(secret)
  {
    secret == "" || token.GetOr("") == secret
  }

  /**
   * The response status: 401 before anything else, then 400 when `decoded` is
   * false, that is when `json.loads` raised `JSONDecodeError`, then 200 with an
   * action and 204 without.
   */
  function ResponseStatus(authorized: bool, decoded: bool, hasAction: bool): (code: int)
    ensures code == 401 <==> !authorized
    ensures code == 400 <==> authorized && !decoded
    ensures code == 200 <==> authorized && decoded && hasAction
    ensures code == 204 <==> authorized && decoded && !hasAction
  {
    if !authorized then 401 else if !decoded then 400 else if hasAction then 200 else 204
  }

  // ---------------------------------------------------------------------------
  // The handler with its mutable map and the ghost notification log
  // ---------------------------------------------------------------------------

  class FlowHandler {
    var sessions: Sessions
    /** Every notification sent so far, in order. */
    ghost var notifications: seq<Notification>
    /** The beep clip read at start-up (None when the file is missing). */
    const beepAudio: Option<string>

    constructor (beep: Option<string>)
      ensures sessions == map[] && notifications == [] && beepAudio == beep
    {
      sessions := map[];
      notifications := [];
      beepAudio := beep;
    }

    /** Sending a notification: modelled as appending it to the log. */
    ghost method NotifyClawdbot(sid: string, caller: string, messages: seq<string>)
      modifies this`notifications
      ensures notifications == old(notifications) + [Notification(sid, caller, messages)]
    {
      notifications := notifications + [Notification(sid, caller, messages)];
    }

    /** The map and the log now hold what `r` says: its map, and its notification appended to the old log. */
    ghost predicate Took(r: StepResult, oldLog: seq<Notification>)
      reads this
    {
      sessions == r.sessions && notifications == oldLog + NotifiedList(r)
    }

    method SessionStart(sid: string, caller: string) returns (action: Option<Action>)
      modifies this`sessions
      ensures var r := OnSessionStart(old(sessions), sid, caller); Took(r, notifications) && action == r.reply
    {
      sessions := sessions[sid := Session(caller, [], Some(false), false)];
      action := Some(Speak(sid, Greeting, Some(GreetingTimeout)));
    }

    method UserSpeak(sid: string, rawText: string) returns (action: Option<Action>)
      modifies this`sessions
      ensures var r := OnUserSpeak(old(sessions), sid, rawText); Took(r, notifications) && action == r.reply
    {
      var text := Strip(rawText);
      if sid !in sessions {
        sessions := sessions[sid := Session(UnknownCaller, [], None, false)];
      }
      if text != "" {
        sessions := sessions[sid := sessions[sid].(messages := sessions[sid].messages + [text])];
      }
      action := None;
    }

    method InputTimeout(sid: string) returns (action: Option<Action>)
      modifies this`sessions, this`notifications
      ensures var r := OnInputTimeout(old(sessions), sid); Took(r, old(notifications)) && action == r.reply
    {
      if sid !in sessions {
        sessions := sessions[sid := Session(UnknownCaller, [], None, false)];
      }
      var data := sessions[sid];
      if data.messages != [] && !data.thanked {
        sessions := sessions[sid := sessions[sid].(thanked := true)];
        NotifyClawdbot(sid, data.caller, data.messages);
        action := Some(Speak(sid, Thanks, None));
      } else if data.messages == [] {
        action := Some(Speak(sid, Reprompt, Some(RepromptTimeout)));
      } else {
        action := None;
      }
    }

    method SessionEnd(sid: string) returns (action: Option<Action>)
      modifies this`sessions, this`notifications
      ensures var r := OnSessionEnd(old(sessions), sid); Took(r, old(notifications)) && action == r.reply
    {
      var data := if sid in sessions then sessions[sid] else LazySession();
      sessions := sessions - {sid};
      if !data.thanked {
        NotifyClawdbot(sid, data.caller, data.messages);
      }
      action := None;
    }

    method SpeechEnded(sid: string) returns (action: Option<Action>)
      modifies this`sessions
      ensures var r := OnSpeechEnded(old(sessions), sid, beepAudio); Took(r, notifications) && action == r.reply
    {
      var data := if sid in sessions then sessions[sid] else LazySession();
      if !Beeped(data) && BeepAvailable(beepAudio) {
        if sid in sessions {
          sessions := sessions[sid := data.(beeped := Some(true))];
        }
        action := Some(Audio(sid, beepAudio.value));
      } else {
        action := None;
      }
    }

    /** `handle_event`: update the map in place, log the notification, return the action. */
    method HandleEvent(e: Event) returns (action: Option<Action>)
      modifies this`sessions, this`notifications
      ensures var r := Step(old(sessions), e, beepAudio); Took(r, old(notifications)) && action == r.reply
    {
      var eventType := EventType(e);
      var sid := SessionId(e);
      if eventType == "session_start" {
        action := SessionStart(sid, CallerOf(e));
      } else if eventType == "user_speak" {
        action := UserSpeak(sid, RawText(e));
      } else if eventType == "user_input_timeout" {
        action := InputTimeout(sid);
      } else if eventType == "session_end" {
        action := SessionEnd(sid);
      } else if eventType == "assistant_speech_ended" {
        action := SpeechEnded(sid);
      } else {
        action := None;
      }
    }

    /**
     * `do_POST`: check the token, then the body, then handle the event and
     * answer 200 with the action or 204 without one. `body` is None when
     * `json.loads` raised `JSONDecodeError`. A rejected request changes nothing.
     */
    method HandlePost(secret: string, token: Option<string>, body: Option<Event>) returns (status: int, action: Option<Action>)
      modifies this`sessions, this`notifications
      ensures status == ResponseStatus(Authorized(secret, token), body.Some?, action.Some?)
      ensures !(Authorized(secret, token) && body.Some?) ==>
        action == None && sessions == old(sessions) && notifications == old(notifications)
      ensures Authorized(secret, token) && body.Some? ==>
        var r := Step(old(sessions), body.value, beepAudio); Took(r, old(notifications)) && action == r.reply
    {
      if !Authorized(secret, token) {
        return 401, None;
      }
      if body.None? {
        return 400, None;
      }
      action := HandleEvent(body.value);
      status := if action.Some? then 200 else 204;
    }
  }

  // ---------------------------------------------------------------------------
  // Sequences of events
  // ---------------------------------------------------------------------------

  datatype RunResult = RunResult(sessions: Sessions, log: seq<Notification>, replies: seq<Option<Action>>)

  function NotifiedList(r: StepResult): seq<Notification> {
    if r.notified.Some? then [r.notified.value] else []
  }

  /** Events handled one after the other by `step`: the final map, the notifications in order and each event's reply. */
  function RunWith(step: (Sessions, Event) -> StepResult, sessions: Sessions, events: seq<Event>): (r: RunResult)
    ensures |r.replies| == |events|
    decreases |events|
  {
    if events == [] then RunResult(sessions, [], [])
    else
      var s := step(sessions, events[0]);
      var rest := RunWith(step, s.sessions, events[1..]);
      RunResult(rest.sessions, NotifiedList(s) + rest.log, [s.reply] + rest.replies)
  }

  lemma {:induction false} RunWithAppend(step: (Sessions, Event) -> StepResult, sessions: Sessions, a: seq<Event>, b: seq<Event>)
    ensures var ra := RunWith(step, sessions, a); var rb := RunWith(step, ra.sessions, b);
      RunWith(step, sessions, a + b) == RunResult(rb.sessions, ra.log + rb.log, ra.replies + rb.replies)
    decreases |a|
  {
    if a == [] {
      assert a + b == b;
    } else {
      var s := step(sessions, a[0]);
      assert (a + b)[0] == a[0] && (a + b)[1..] == a[1..] + b;
      RunWithAppend(step, s.sessions, a[1..], b);
      var ra, rab := RunWith(step, s.sessions, a[1..]), RunWith(step, s.sessions, a[1..] + b);
      assert RunWith(step, sessions, a) == RunResult(ra.sessions, NotifiedList(s) + ra.log, [s.reply] + ra.replies);
      assert RunWith(step, sessions, a + b) == RunResult(rab.sessions, NotifiedList(s) + rab.log, [s.reply] + rab.replies);
    }
  }

  function StepWith(beep: Option<string>): (Sessions, Event) -> StepResult {
    (s: Sessions, e: Event) => Step(s, e, beep)
  }

  function Run(sessions: Sessions, events: seq<Event>, beep: Option<string>): (r: RunResult)
    ensures |r.replies| == |events|
  {
    RunWith(StepWith(beep), sessions, events)
  }

  lemma RunUnfold(sessions: Sessions, events: seq<Event>, beep: Option<string>)
    requires events != []
    ensures var s := Step(sessions, events[0], beep); var rest := Run(s.sessions, events[1..], beep);
      Run(sessions, events, beep) == RunResult(rest.sessions, NotifiedList(s) + rest.log, [s.reply] + rest.replies)
  {
  }

  lemma RunAppend(sessions: Sessions, a: seq<Event>, b: seq<Event>, beep: Option<string>)
    ensures var ra := Run(sessions, a, beep); var rb := Run(ra.sessions, b, beep);
      Run(sessions, a + b, beep) == RunResult(rb.sessions, ra.log + rb.log, ra.replies + rb.replies)
  {
    RunWithAppend(StepWith(beep), sessions, a, b);
  }

  /** The number of notifications logged for session `sid`. */
  function NotificationsFor(log: seq<Notification>, sid: string): nat {
    if log == [] then 0 else (if log[0].sessionId == sid then 1 else 0) + NotificationsFor(log[1..], sid)
  }

  lemma {:induction false} NotificationsForAppend(a: seq<Notification>, b: seq<Notification>, sid: string)
    ensures NotificationsFor(a + b, sid) == NotificationsFor(a, sid) + NotificationsFor(b, sid)
  {
    if a == [] {
      assert a + b == b;
    } else {
      assert (a + b)[0] == a[0] && (a + b)[1..] == a[1..] + b;
      NotificationsForAppend(a[1..], b, sid);
    }
  }

  /** The number of `audio` replies sent for session `sid`. */
  function AudioRepliesFor(replies: seq<Option<Action>>, sid: string): nat {
    if replies == [] then 0
    else
      var here := if replies[0].Some? && replies[0].value.Audio? && replies[0].value.sessionId == sid then 1 else 0;
      here + AudioRepliesFor(replies[1..], sid)
  }

  /** The event starts or ends the call `sid`. */
  predicate StartsOrEnds(e: Event, sid: string) {
    SessionId(e) == sid && EventType(e) in {"session_start", "session_end"}
  }

  /** 1 when the map holds a thanked record for `sid`, else 0. */
  function ThankedCount(sessions: Sessions, sid: string): nat {
    if sid in sessions && sessions[sid].thanked then 1 else 0
  }

  /** 1 when the map holds a record for `sid` whose beep was played, else 0. */
  function BeepedCount(sessions: Sessions, sid: string): nat {
    if sid in sessions && Beeped(sessions[sid]) then 1 else 0
  }

  /**
   * Events for other sessions never touch the record of `sid`, never notify for
   * it and never reply for it.
   */
  lemma {:induction false} SessionIsolation(sessions: Sessions, events: seq<Event>, beep: Option<string>, sid: string)
    requires forall i :: 0 <= i < |events| ==> SessionId(events[i]) != sid
    ensures var r := Run(sessions, events, beep);
      && (sid in r.sessions <==> sid in sessions)
      && (sid in sessions ==> r.sessions[sid] == sessions[sid])
      && NotificationsFor(r.log, sid) == 0
      && forall i :: 0 <= i < |r.replies| && r.replies[i].Some? ==> r.replies[i].value.sessionId != sid
    decreases |events|
  {
    if events != [] {
      var s := Step(sessions, events[0], beep);
      RunUnfold(sessions, events, beep);
      SessionIsolation(s.sessions, events[1..], beep, sid);
      var rest := Run(s.sessions, events[1..], beep);
      NotificationsForAppend(NotifiedList(s), rest.log, sid);
      var r := Run(sessions, events, beep);
      forall i | 0 <= i < |r.replies| && r.replies[i].Some? ensures r.replies[i].value.sessionId != sid {
        if i > 0 { assert r.replies[i] == rest.replies[i - 1]; }
      }
    }
  }

  /** One event that neither starts nor ends `sid` notifies for it exactly when it turns its record thanked. */
  lemma StepThanked(sessions: Sessions, e: Event, beep: Option<string>, sid: string)
    requires !StartsOrEnds(e, sid)
    ensures var s := Step(sessions, e, beep);
      NotificationsFor(NotifiedList(s), sid) + ThankedCount(sessions, sid) == ThankedCount(s.sessions, sid)
  {
  }

  /**
   * Between the start and the end of a call, the notifications for it are
   * exactly the change of its `thanked` flag: at most one, and none once it
   * is set.
   */
  lemma {:induction false} ThankedTracksNotifications(sessions: Sessions, events: seq<Event>, beep: Option<string>, sid: string)
    requires forall i :: 0 <= i < |events| ==> !StartsOrEnds(events[i], sid)
    ensures var r := Run(sessions, events, beep);
      NotificationsFor(r.log, sid) + ThankedCount(sessions, sid) == ThankedCount(r.sessions, sid)
    decreases |events|
  {
    if events != [] {
      var s := Step(sessions, events[0], beep);
      RunUnfold(sessions, events, beep);
      StepThanked(sessions, events[0], beep, sid);
      ThankedTracksNotifications(s.sessions, events[1..], beep, sid);
      NotificationsForAppend(NotifiedList(s), Run(s.sessions, events[1..], beep).log, sid);
    }
  }

  /**
   * A call that begins with `session_start`, ends with `session_end` and has
   * neither in between sends exactly one notification for that session,
   * whatever the events in between and their order.
   */
  lemma ExactlyOneNotificationPerCall(sessions: Sessions, start: Event, events: seq<Event>, end: Event,
                                      beep: Option<string>, sid: string)
    requires EventType(start) == "session_start" && SessionId(start) == sid
    requires EventType(end) == "session_end" && SessionId(end) == sid
    requires forall i :: 0 <= i < |events| ==> !StartsOrEnds(events[i], sid)
    ensures NotificationsFor(Run(sessions, [start] + events + [end], beep).log, sid) == 1
  {
    var s0 := Step(sessions, start, beep);
    var mid := Run(s0.sessions, events, beep);
    StartLogsNothing(sessions, start, beep, sid);
    ThankedTracksNotifications(s0.sessions, events, beep, sid);
    EndNotifiesUnlessThanked(mid.sessions, end, beep, sid);
    RunAppend(sessions, [start], events, beep);
    var opening := Run(sessions, [start] + events, beep);
    assert opening.sessions == mid.sessions && opening.log == mid.log;
    RunAppend(sessions, [start] + events, [end], beep);
    var last := Run(mid.sessions, [end], beep);
    assert Run(sessions, [start] + events + [end], beep).log == mid.log + last.log;
    NotificationsForAppend(mid.log, last.log, sid);
  }

  /** A `session_start` logs nothing and leaves a record not yet thanked. */
  lemma StartLogsNothing(sessions: Sessions, start: Event, beep: Option<string>, sid: string)
    requires EventType(start) == "session_start" && SessionId(start) == sid
    ensures var s0 := Step(sessions, start, beep);
      Run(sessions, [start], beep) == RunResult(s0.sessions, [], [s0.reply]) && ThankedCount(s0.sessions, sid) == 0
  {
    var s0 := Step(sessions, start, beep);
    RunUnfold(sessions, [start], beep);
    assert Run(s0.sessions, [], beep).log == [];
  }

  /** A `session_end` notifies once for a record not yet thanked, and not at all for one already thanked. */
  lemma EndNotifiesUnlessThanked(sessions: Sessions, end: Event, beep: Option<string>, sid: string)
    requires EventType(end) == "session_end" && SessionId(end) == sid
    ensures NotificationsFor(Run(sessions, [end], beep).log, sid) + ThankedCount(sessions, sid) == 1
  {
    var s1 := Step(sessions, end, beep);
    var last := Run(sessions, [end], beep);
    RunUnfold(sessions, [end], beep);
    assert Run(s1.sessions, [], beep).log == [];
    assert last.log == NotifiedList(s1);
    if s1.notified.Some? { assert last.log[1..] == []; }
  }

  /** Spelled out for the shortest interesting call: a timeout with messages, then the end. */
  lemma TimeoutThenEndNotifiesOnce(sessions: Sessions, timeout: Event, end: Event, beep: Option<string>, sid: string)
    requires sid in sessions && sessions[sid].messages != [] && !sessions[sid].thanked
    requires EventType(timeout) == "user_input_timeout" && SessionId(timeout) == sid
    requires EventType(end) == "session_end" && SessionId(end) == sid
    ensures Run(sessions, [timeout, end], beep).log == [Notification(sid, sessions[sid].caller, sessions[sid].messages)]
  {
    var s := Step(sessions, timeout, beep);
    assert [timeout, end][1..] == [end];
    RunUnfold(sessions, [timeout, end], beep);
    RunUnfold(s.sessions, [end], beep);
  }

  /** As written, a repeated `session_end` notifies again, since the id is gone after the first. */
  lemma DuplicateEndNotifiesAgain(sessions: Sessions, end: Event, beep: Option<string>, sid: string)
    requires EventType(end) == "session_end" && SessionId(end) == sid
    requires !(sid in sessions && sessions[sid].thanked)
    ensures NotificationsFor(Run(sessions, [end, end], beep).log, sid) == 2
  {
    var s := Step(sessions, end, beep);
    assert [end, end][1..] == [end];
    RunUnfold(sessions, [end, end], beep);
    RunUnfold(s.sessions, [end], beep);
    var s2 := Step(s.sessions, end, beep);
    assert Run(s2.sessions, [], beep).log == [];
    var log := Run(sessions, [end, end], beep).log;
    assert log == [s.notified.value, s2.notified.value];
    assert log[1..] == [s2.notified.value];
    assert s.notified.value.sessionId == sid && s2.notified.value.sessionId == sid;
    assert NotificationsFor(log[1..], sid) == 1;
    assert NotificationsFor(log, sid) == 2;
  }

  /** One event that neither starts nor ends the known call `sid` plays its beep exactly when it marks it beeped. */
  lemma StepBeeped(sessions: Sessions, e: Event, beep: Option<string>, sid: string)
    requires sid in sessions && !StartsOrEnds(e, sid)
    ensures var s := Step(sessions, e, beep);
      && sid in s.sessions
      && AudioRepliesFor([s.reply], sid) + BeepedCount(sessions, sid) == BeepedCount(s.sessions, sid)
  {
  }

  /** For a known session, the beep is played at most once until the call starts or ends again. */
  lemma {:induction false} BeepAtMostOnce(sessions: Sessions, events: seq<Event>, beep: Option<string>, sid: string)
    requires sid in sessions
    requires forall i :: 0 <= i < |events| ==> !StartsOrEnds(events[i], sid)
    ensures var r := Run(sessions, events, beep);
      && sid in r.sessions
      && AudioRepliesFor(r.replies, sid) + BeepedCount(sessions, sid) == BeepedCount(r.sessions, sid)
    decreases |events|
  {
    if events != [] {
      var s := Step(sessions, events[0], beep);
      RunUnfold(sessions, events, beep);
      StepBeeped(sessions, events[0], beep, sid);
      BeepAtMostOnce(s.sessions, events[1..], beep, sid);
      var r := Run(sessions, events, beep);
      assert r.replies == [s.reply] + Run(s.sessions, events[1..], beep).replies;
    }
  }

  /** As written, an id with no record gets the beep on every `assistant_speech_ended`. */
  lemma UnknownSessionBeepsEachTime(sessions: Sessions, ended: Event, beep: Option<string>, sid: string)
    requires EventType(ended) == "assistant_speech_ended" && SessionId(ended) == sid
    requires sid !in sessions && BeepAvailable(beep)
    ensures Run(sessions, [ended, ended], beep).replies == [Some(Audio(sid, beep.value)), Some(Audio(sid, beep.value))]
  {
    assert [ended, ended][1..] == [ended];
    RunUnfold(sessions, [ended, ended], beep);
    RunUnfold(Step(sessions, ended, beep).sessions, [ended], beep);
  }

  /** `user_speak` events for `sid` carrying the given texts. */
  function Utterances(sid: string, texts: seq<string>): (r: seq<Event>)
    ensures |r| == |texts|
    ensures forall i :: 0 <= i < |r| ==> EventType(r[i]) == "user_speak" && SessionId(r[i]) == sid && RawText(r[i]) == texts[i]
  {
    if texts == [] then []
    else [Event(Some("user_speak"), Some(EventSession(Some(sid), None)), Some(texts[0]))] + Utterances(sid, texts[1..])
  }

  /** Handling the first of several utterances is the `user_speak` transition; the rest follow from its map. */
  lemma UtterancesUnfold(sessions: Sessions, sid: string, texts: seq<string>, beep: Option<string>)
    requires texts != []
    ensures var s := OnUserSpeak(sessions, sid, texts[0]); var rest := Run(s.sessions, Utterances(sid, texts[1..]), beep);
      Run(sessions, Utterances(sid, texts), beep) == RunResult(rest.sessions, rest.log, [None] + rest.replies)
  {
    var evs := Utterances(sid, texts);
    assert evs[1..] == Utterances(sid, texts[1..]);
    RunUnfold(sessions, evs, beep);
  }

  /** The trimmed texts that are not blank, in order. */
  function Kept(texts: seq<string>): seq<string> {
    if texts == [] then []
    else (if Strip(texts[0]) == "" then [] else [Strip(texts[0])]) + Kept(texts[1..])
  }

  /**
   * Utterances are collected in the order spoken, blank ones skipped, after
   * whatever the record already held; the caller and flags do not change and
   * nothing is replied or notified.
   */
  lemma UtterancesKeepOrder(sessions: Sessions, sid: string, texts: seq<string>, beep: Option<string>)
    ensures var r := Run(sessions, Utterances(sid, texts), beep);
      && (sid in r.sessions <==> sid in sessions || texts != [])
      && Current(r.sessions, sid) == Current(sessions, sid).(messages := Current(sessions, sid).messages + Kept(texts))
      && r.log == []
      && forall i :: 0 <= i < |r.replies| ==> r.replies[i] == None
  {
    UtterancesCollect(sessions, sid, texts, beep);
    UtterancesSilent(sessions, sid, texts, beep);
  }

  lemma {:induction false} UtterancesCollect(sessions: Sessions, sid: string, texts: seq<string>, beep: Option<string>)
    ensures var r := Run(sessions, Utterances(sid, texts), beep);
      && (sid in r.sessions <==> sid in sessions || texts != [])
      && Current(r.sessions, sid) == Current(sessions, sid).(messages := Current(sessions, sid).messages + Kept(texts))
    decreases |texts|
  {
    if texts == [] {
      assert Kept(texts) == [];
    } else {
      var next := OnUserSpeak(sessions, sid, texts[0]).sessions;
      var rest := Run(next, Utterances(sid, texts[1..]), beep);
      UtterancesUnfold(sessions, sid, texts, beep);
      assert Run(sessions, Utterances(sid, texts), beep).sessions == rest.sessions;
      UtterancesCollect(next, sid, texts[1..], beep);
      SpeakAppends(sessions, sid, texts[0]);
      KeptCons(texts);
      CollectCompose(sessions, next, rest.sessions, sid, Kept([texts[0]]), Kept(texts[1..]));
    }
  }

  /** Two rounds of appending to the caller's record are one round appending both. */
  lemma CollectCompose(s0: Sessions, s1: Sessions, s2: Sessions, sid: string, k1: seq<string>, k2: seq<string>)
    requires Current(s1, sid) == Current(s0, sid).(messages := Current(s0, sid).messages + k1)
    requires Current(s2, sid) == Current(s1, sid).(messages := Current(s1, sid).messages + k2)
    ensures Current(s2, sid) == Current(s0, sid).(messages := Current(s0, sid).messages + (k1 + k2))
  {
    assert Current(s0, sid).messages + k1 + k2 == Current(s0, sid).messages + (k1 + k2);
  }

  /** One utterance adds its kept text to the caller's record. */
  lemma SpeakAppends(sessions: Sessions, sid: string, text: string)
    ensures var next := OnUserSpeak(sessions, sid, text).sessions;
      sid in next && Current(next, sid) == Current(sessions, sid).(messages := Current(sessions, sid).messages + Kept([text]))
  {
    assert [text][1..] == [];
  }

  lemma KeptCons(texts: seq<string>)
    requires texts != []
    ensures Kept(texts) == Kept([texts[0]]) + Kept(texts[1..])
  {
    var t := texts[0];
    var k := if Strip(t) == "" then [] else [Strip(t)];
    assert [t][1..] == [];
    assert Kept([t]) == k + Kept([]);
    assert Kept([t]) == k;
    assert Kept(texts) == k + Kept(texts[1..]);
  }

  lemma {:induction false} UtterancesSilent(sessions: Sessions, sid: string, texts: seq<string>, beep: Option<string>)
    ensures var r := Run(sessions, Utterances(sid, texts), beep);
      r.log == [] && forall i :: 0 <= i < |r.replies| ==> r.replies[i] == None
    decreases |texts|
  {
    if texts != [] {
      var s := OnUserSpeak(sessions, sid, texts[0]);
      UtterancesUnfold(sessions, sid, texts, beep);
      UtterancesSilent(s.sessions, sid, texts[1..], beep);
      var rest := Run(s.sessions, Utterances(sid, texts[1..]), beep);
      var r := Run(sessions, Utterances(sid, texts), beep);
      assert r.log == rest.log && r.replies == [None] + rest.replies;
      forall i | 0 <= i < |r.replies| ensures r.replies[i] == None {
        if i > 0 { assert r.replies[i] == rest.replies[i - 1]; }
      }
    }
  }
}

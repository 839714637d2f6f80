/**
 * One run of the Bluesky auto-poster (bluesky/bsky-autoposter.py), started by
 * cron: outside the quiet hours and with credentials, it takes the next
 * approved post from the dashboard, applies the one-standalone-post-per-day
 * limit on the saved state, publishes and reports. The clock's hour and date,
 * the env file's lines, the dashboard's answer, the saved state and the
 * publishing result are parameters.
 */
module BskyAutoposter {
  import opened Wrappers
  import opened PyStr
  import EnvFile

  const ProfilePostUrl := "https://bsky.app/profile/chadd-yuzu.bsky.social/post/"
  const QuoteLimit := 200
  const StandalonePerDay := 1

  /**
   * No posting from 23:00 to 08:00 (Berlin time, as the clock is read): for a
   * clock hour, the nine consecutive hours that start at 23:00.
   */
  predicate IsQuietHours(hour: int)
    ensures 0 <= hour < 24 ==> (IsQuietHours(hour) <==> (hour + 1) % 24 < 9)
  {
    hour >= 23 || hour < 8
  }

  /** The saved state; `posts_today` counts standalone posts on `last_post_date`. */
  datatype PosterState = PosterState(lastPostDate: Option<string>, postsToday: int)

  /** The state used when no state file exists. */
  const DefaultState := PosterState(None, 0)

  /** The next approved post as the dashboard API returns it; `replyAuthor` is `reply_to.author_handle`. */
  datatype QueuedPost = QueuedPost(id: string, text: string, postType: Option<string>, replyAuthor: Option<string>)

  /** A post whose type (default "post") is "reply". */
  predicate IsReply(post: QueuedPost) {
    post.postType.GetOr("post") == "reply"
  }

  /** On a new day the counter starts again from zero; on the same day the state is kept. */
  function ResetForDay(state: PosterState, today: string): (r: PosterState)
    ensures r.lastPostDate == Some(today)
    ensures state.lastPostDate == Some(today) ==> r == state
    ensures state.lastPostDate != Some(today) ==> r.postsToday == 0
  {
    if state.lastPostDate != Some(today) then PosterState(Some(today), 0) else state
  }

  /** Resetting twice on the same day is resetting once. */
  lemma ResetIdempotent(state: PosterState, today: string)
    ensures ResetForDay(ResetForDay(state, today), today) == ResetForDay(state, today)
  {
  }

  /** A standalone post is held back once the day's standalone post was made; replies never are. */
  predicate LimitReached(post: QueuedPost, state: PosterState)
    ensures IsReply(post) ==> !LimitReached(post, state)
    ensures !IsReply(post) ==> (LimitReached(post, state) <==> state.postsToday >= 1)
  {
    !IsReply(post) && state.postsToday >= StandalonePerDay
  }

  /** The state saved after publishing: one more standalone post, or unchanged for a reply. */
  function AfterPublish(state: PosterState, post: QueuedPost): PosterState {
    if IsReply(post) then state else state.(postsToday := state.postsToday + 1)
  }

  /** The opening of the notification: what was posted, and for a reply to whom (default "?"). */
  function Lead(post: QueuedPost): string {
    if IsReply(post) then "↩ Reply gepostet auf @" + post.replyAuthor.GetOr("?") + ":\n\n"
    else "📤 Bluesky Post veröffentlicht:\n\n"
  }

  /** The record key of a post URI: its last '/'-separated segment. */
  function RecordKey(uri: string): (rkey: string)
    ensures '/' !in rkey
    ensures |rkey| <= |uri| && uri[|uri| - |rkey|..] == rkey
    ensures |rkey| < |uri| ==> uri[|uri| - |rkey| - 1] == '/'
  {
    AfterLast(uri, '/')
  }

  /** `s` ends with `p`. */
  predicate EndsWith(s: string, p: string) {
    |p| <= |s| && s[|s| - |p|..] == p
  }

  /** The lead and the text's first 200 characters in quotes. */
  function QuotedPart(post: QueuedPost): string {
    Lead(post) + "\"" + Take(post.text, QuoteLimit) + "\""
  }

  /** The link to the post, when the URI has a record key. */
  function LinkPart(uri: string): string {
    if RecordKey(uri) != "" then "\n\n" + ProfilePostUrl + RecordKey(uri) else ""
  }

  lemma ConcatEnds(a: string, b: string)
    ensures StartsWith(a + b, a) && EndsWith(a + b, b)
  {
    assert (a + b)[..|a|] == a;
    assert (a + b)[|a + b| - |b|..] == b;
  }

  /**
   * `notify_stefan`'s message. It quotes a prefix of at most 200 characters of
   * the text, and it ends with the post's link exactly when the URI's last
   * segment is non-empty; otherwise it ends with the closing quote.
   */
  function NotifyMessage(post: QueuedPost, uri: string): (msg: string)
    ensures var q := Take(post.text, QuoteLimit);
      && StartsWith(msg, Lead(post) + "\"" + q + "\"")
      && |q| <= QuoteLimit && StartsWith(post.text, q)
      && (|post.text| <= QuoteLimit ==> q == post.text)
      && (RecordKey(uri) != "" ==> EndsWith(msg, "\n\n" + ProfilePostUrl + RecordKey(uri)))
      && (RecordKey(uri) == "" ==> msg == Lead(post) + "\"" + q + "\"")
  {
    ConcatEnds(QuotedPart(post), LinkPart(uri));
    QuotedPart(post) + LinkPart(uri)
  }

  /**
   * How a run ends. A published run records the `mark_posted` call sent to the
   * dashboard (the post's id and its URI), the state it saves and the message.
   */
  datatype Outcome =
    | Quiet
    | MissingCredentials
    | NothingApproved
    | LimitHit
    | PublishFailed
    | Published(marked: (string, string), saved: PosterState, message: string)

  /**
   * `main`. `saved` is the state file's content, `publish` the URI the
   * network returns (None when publishing raises).
   */
  method RunOnce(hour: int, env: EnvFile.Env, next: Option<QueuedPost>, saved: Option<PosterState>,
                 today: string, publish: Option<string>) returns (out: Outcome)
    ensures out == Quiet <==> IsQuietHours(hour)
    ensures out == MissingCredentials <==> !IsQuietHours(hour) && "BSKY_HANDLE" !in env
    ensures out == NothingApproved <==> !IsQuietHours(hour) && "BSKY_HANDLE" in env && next.None?
    ensures out == LimitHit <==>
      && !IsQuietHours(hour) && "BSKY_HANDLE" in env && next.Some?
      && LimitReached(next.value, ResetForDay(saved.GetOr(DefaultState), today))
    ensures out == PublishFailed <==>
      && !IsQuietHours(hour) && "BSKY_HANDLE" in env && next.Some?
      && !LimitReached(next.value, ResetForDay(saved.GetOr(DefaultState), today))
      && ("BSKY_PASS" !in env || publish.None?)
    ensures out.Published? ==>
      && next.Some? && "BSKY_PASS" in env && publish.Some?
      && out.marked == (next.value.id, publish.value)
      && out.saved.lastPostDate == Some(today)
      && out.saved.postsToday == ResetForDay(saved.GetOr(DefaultState), today).postsToday + (if IsReply(next.value) then 0 else 1)
      && out.message == NotifyMessage(next.value, publish.value)
  {
    if IsQuietHours(hour) {
      return Quiet;
    }
    if "BSKY_HANDLE" !in env {
      return MissingCredentials;
    }
    if next.None? {
      return NothingApproved;
    }
    var post := next.value;
    var state := if saved.Some? then saved.value else DefaultState;
    var isReply := post.postType.GetOr("post") == "reply";
    if state.lastPostDate != Some(today) {
      state := state.(postsToday := 0);
      state := state.(lastPostDate := Some(today));
    }
    if !isReply && state.postsToday >= StandalonePerDay {
      return LimitHit;
    }
    var uri := if "BSKY_PASS" in env then publish else None;
    if uri.None? {
      return PublishFailed;
    }
    if !isReply {
      state := state.(postsToday := state.postsToday + 1);
    }
    out := Published((post.id, uri.value), state, NotifyMessage(post, uri.value));
  }

  /**
   * Starting from a state the poster itself wrote (a non-negative counter),
   * a published standalone post is the day's only one: the state then saved
   * makes the next standalone post of the same day hit the limit, while a
   * reply still goes through.
   */
  lemma OneStandalonePerDay(state: PosterState, today: string, post: QueuedPost, later: QueuedPost)
    requires state.postsToday >= 0
    requires !IsReply(post) && !LimitReached(post, ResetForDay(state, today))
    ensures var s := AfterPublish(ResetForDay(state, today), post);
      && s.postsToday == StandalonePerDay
      && ResetForDay(s, today) == s
      && (LimitReached(later, ResetForDay(s, today)) <==> !IsReply(later))
  {
  }

  /** With no state file, the first post of the day is never held back. */
  lemma DefaultStateAllowsPost(today: string, post: QueuedPost)
    ensures ResetForDay(DefaultState, today) == PosterState(Some(today), 0)
    ensures !LimitReached(post, ResetForDay(DefaultState, today))
  {
  }

  /** A new day lifts the limit. */
  lemma NewDayLiftsLimit(state: PosterState, today: string, post: QueuedPost)
    requires state.lastPostDate != Some(today)
    ensures !LimitReached(post, ResetForDay(state, today))
  {
  }
}

/**
 * The post queue behind the Bluesky dashboard (bluesky/bsky-dashboard.py).
 *
 * The queue is a list of post records that the routes change in place: add
 * appends, approve/reject/edit/mark-posted change the first post with the
 * given id, delete keeps the others. The dashboard view counts and filters
 * the list, and the API hands out the oldest approved post. Ids, the clock and
 * the request fields are parameters; the file the queue lives in is left out.
 */
module BskyDashboard {
  import opened Wrappers
  import opened PyStr
  import opened KeySort
  import EnvFile

  const DefaultPin := "yuzu2026"
  const PinKey := "BSKY_DASHBOARD_PIN"

  /** A queued post. A missing `created_at` reads as "" where the code sorts by it. */
  datatype Post = Post(id: string, text: string, status: string, createdAt: Option<string>,
                       approvedAt: Option<string>, postedAt: Option<string>, postUri: Option<string>)

  /** The new record `add_post` appends. */
  function NewPost(id: string, text: string, now: string): Post {
    Post(id, text, "pending", Some(now), None, None, None)
  }

  function Approved(p: Post, now: string): Post {
    p.(status := "approved", approvedAt := Some(now))
  }

  function Rejected(p: Post): Post {
    p.(status := "rejected")
  }

  function Edited(p: Post, text: string): Post {
    p.(text := text)
  }

  /** `mark-posted` overwrites `post_uri` only with a non-empty one. */
  function MarkedPosted(p: Post, now: string, uri: Option<string>): Post {
    p.(status := "posted", postedAt := Some(now), postUri := if uri.Some? && uri.value != "" then uri else p.postUri)
  }

  /** The position of the first post with this id. */
  function FirstIndex(posts: seq<Post>, id: string): (r: Option<nat>)
    ensures r.Some? ==> r.value < |posts| && posts[r.value].id == id
    ensures r.Some? ==> forall j :: 0 <= j < r.value ==> posts[j].id != id
    ensures r.None? ==> forall j :: 0 <= j < |posts| ==> posts[j].id != id
  {
    if posts == [] then None
    else if posts[0].id == id then Some(0)
    else match FirstIndex(posts[1..], id)
      case None => None
      case Some(i) => Some(i + 1)
  }

  /**
   * The posts after changing the first one with this id by `update`: that post
   * becomes `update` of itself, every other post is as it was, and the length
   * is kept; an unknown id changes nothing.
   */
  function UpdateFirst(posts: seq<Post>, id: string, update: Post -> Post): (r: seq<Post>)
    ensures |r| == |posts|
    ensures forall k :: 0 <= k < |posts| && Some(k) != FirstIndex(posts, id) ==> r[k] == posts[k]
    ensures FirstIndex(posts, id).Some? ==> r[FirstIndex(posts, id).value] == update(posts[FirstIndex(posts, id).value])
    ensures (forall k :: 0 <= k < |posts| ==> posts[k].id != id) ==> r == posts
  {
    match FirstIndex(posts, id)
    case None => posts
    case Some(i) => posts[i := update(posts[i])]
  }

  /** The status of the last post with this id, or "pending" when there is none. */
  function LastStatus(posts: seq<Post>, id: string): string
    decreases |posts|
  {
    if posts == [] then "pending"
    else if posts[|posts| - 1].id == id then posts[|posts| - 1].status
    else LastStatus(posts[..|posts| - 1], id)
  }

  class PostQueue {
    var posts: seq<Post>

    constructor (posts: seq<Post>)
      ensures this.posts == posts
    {
      this.posts := posts;
    }

    /** `add_post`: a text that is blank once stripped is ignored; otherwise a pending post is appended. */
    method Add(text: string, newId: string, now: string) returns (added: bool)
      modifies this
      ensures added <==> Strip(text) != ""
      ensures !added ==> posts == old(posts)
      ensures added ==> posts == old(posts) + [NewPost(newId, Strip(text), now)]
    {
      var t := Strip(text);
      if t == "" {
        return false;
      }
      posts := posts + [NewPost(newId, t, now)];
      added := true;
    }

    /** Change the first post with this id by `update` and stop; report where it was. */
    method UpdateFirstMatch(id: string, update: Post -> Post) returns (found: Option<nat>)
      modifies this
      ensures found == FirstIndex(old(posts), id)
      ensures posts == UpdateFirst(old(posts), id, update)
    {
      found := None;
      var i := 0;
      while i < |posts|
        invariant 0 <= i <= |posts| && posts == old(posts)
        invariant forall j :: 0 <= j < i ==> posts[j].id != id
      {
        if posts[i].id == id {
          FirstIndexIs(posts, id, i);
          posts := posts[i := update(posts[i])];
          found := Some(i);
          break;
        }
        i := i + 1;
      }
    }

    /** `approve_post`. */
    method Approve(id: string, now: string)
      modifies this
      ensures posts == UpdateFirst(old(posts), id, p => Approved(p, now))
    {
      var _ := UpdateFirstMatch(id, p => Approved(p, now));
    }

    /** `reject_post`. */
    method Reject(id: string)
      modifies this
      ensures posts == UpdateFirst(old(posts), id, Rejected)
    {
      var _ := UpdateFirstMatch(id, Rejected);
    }

    /** `api_mark_posted`, after the token check. */
    method MarkPosted(id: string, now: string, uri: Option<string>)
      modifies this
      ensures posts == UpdateFirst(old(posts), id, p => MarkedPosted(p, now, uri))
    {
      var _ := UpdateFirstMatch(id, p => MarkedPosted(p, now, uri));
    }

    /**
     * `edit_post`: a blank text changes nothing (and names no tab); otherwise
     * the first post with this id gets the stripped text, and the tab shown
     * next is the status of the last post with this id, or "pending".
     */
    method Edit(id: string, text: string) returns (tab: Option<string>)
      modifies this
      ensures Strip(text) == "" ==> posts == old(posts) && tab == None
      ensures Strip(text) != "" ==>
        posts == UpdateFirst(old(posts), id, p => Edited(p, Strip(text))) && tab == Some(LastStatus(old(posts), id))
    {
      var t := Strip(text);
      if t == "" {
        return None;
      }
      ghost var before := posts;
      var _ := UpdateFirstMatch(id, p => Edited(p, t));
      UpdateFirstKeepsStatus(before, id, p => Edited(p, t));
      var last := "pending";
      for i := 0 to |posts|
        invariant last == LastStatus(posts[..i], id)
      {
        assert posts[..i + 1][..i] == posts[..i];
        if posts[i].id == id {
          last := posts[i].status;
        }
      }
      assert posts[..|posts|] == posts;
      tab := Some(last);
    }

    /** `delete_post`. */
    method Delete(id: string)
      modifies this
      ensures posts == Without(old(posts), id)
    {
      posts := Without(posts, id);
    }
  }

  lemma FirstIndexIs(posts: seq<Post>, id: string, i: nat)
    requires i < |posts| && posts[i].id == id
    requires forall j :: 0 <= j < i ==> posts[j].id != id
    ensures FirstIndex(posts, id) == Some(i)
  {
    var r := FirstIndex(posts, id);
    assert r.Some?;
  }

  /** Approving stamps the first post with this id, and only it, as approved at `now`. */
  lemma ApproveEffect(posts: seq<Post>, id: string, now: string)
    ensures var r := UpdateFirst(posts, id, p => Approved(p, now));
      && |r| == |posts|
      && (FirstIndex(posts, id).None? ==> r == posts)
      && forall k :: 0 <= k < |r| ==>
        if Some(k) == FirstIndex(posts, id)
        then r[k].status == "approved" && r[k].approvedAt == Some(now)
             && r[k].(status := posts[k].status, approvedAt := posts[k].approvedAt) == posts[k]
        else r[k] == posts[k]
  {
  }

  /** Rejecting changes the status of the first post with this id and nothing else, timestamps included. */
  lemma RejectEffect(posts: seq<Post>, id: string)
    ensures var r := UpdateFirst(posts, id, Rejected);
      && |r| == |posts|
      && forall k :: 0 <= k < |r| ==>
        if Some(k) == FirstIndex(posts, id)
        then r[k].status == "rejected" && r[k].(status := posts[k].status) == posts[k]
        else r[k] == posts[k]
  {
  }

  /** Marking as posted keeps an earlier `post_uri` unless a non-empty one is given. */
  lemma MarkPostedEffect(posts: seq<Post>, id: string, now: string, uri: Option<string>)
    requires FirstIndex(posts, id).Some?
    ensures var i := FirstIndex(posts, id).value; var r := UpdateFirst(posts, id, p => MarkedPosted(p, now, uri));
      && r[i].status == "posted" && r[i].postedAt == Some(now)
      && (r[i].postUri == posts[i].postUri <==> uri.None? || uri.value == "" || uri == posts[i].postUri)
      && r[i].(status := posts[i].status, postedAt := posts[i].postedAt, postUri := posts[i].postUri) == posts[i]
  {
  }

  /** An update that keeps the id and the status keeps the last status of every id. */
  lemma UpdateFirstKeepsStatus(posts: seq<Post>, id: string, update: Post -> Post)
    requires forall p :: update(p).id == p.id && update(p).status == p.status
    ensures forall x :: LastStatus(UpdateFirst(posts, id, update), x) == LastStatus(posts, x)
  {
    var r := UpdateFirst(posts, id, update);
    forall x ensures LastStatus(r, x) == LastStatus(posts, x) {
      SameIdsAndStatuses(r, posts, x);
    }
  }

  lemma {:induction false} SameIdsAndStatuses(a: seq<Post>, b: seq<Post>, x: string)
    requires |a| == |b| && forall k :: 0 <= k < |a| ==> a[k].id == b[k].id && a[k].status == b[k].status
    ensures LastStatus(a, x) == LastStatus(b, x)
    decreases |a|
  {
    if a != [] {
      SameIdsAndStatuses(a[..|a| - 1], b[..|b| - 1], x);
    }
  }

  /** The tab after an edit is the status of the only post with that id. */
  lemma EditTabOfUniqueId(posts: seq<Post>, id: string, i: nat)
    requires i < |posts| && posts[i].id == id
    requires forall k :: 0 <= k < |posts| && k != i ==> posts[k].id != id
    ensures LastStatus(posts, id) == posts[i].status
    decreases |posts|
  {
    if |posts| - 1 != i {
      EditTabOfUniqueId(posts[..|posts| - 1], id, i);
    }
  }

  /** An id no post has sends the edit to the "pending" tab. */
  lemma {:induction false} EditTabOfUnknownId(posts: seq<Post>, id: string)
    requires forall k :: 0 <= k < |posts| ==> posts[k].id != id
    ensures LastStatus(posts, id) == "pending"
    decreases |posts|
  {
    if posts != [] {
      EditTabOfUnknownId(posts[..|posts| - 1], id);
    }
  }

  // ---------------------------------------------------------------------------
  // Pure views of the queue
  // ---------------------------------------------------------------------------

  /** `delete_post`: exactly the posts whose id differs; the queue does not grow. */
  function Without(posts: seq<Post>, id: string): (r: seq<Post>)
    ensures forall p :: p in r <==> p in posts && p.id != id
    ensures |r| <= |posts|
  {
    if posts == [] then []
    else
      assert posts == [posts[0]] + posts[1..];
      (if posts[0].id != id then [posts[0]] else []) + Without(posts[1..], id)
  }

  lemma {:induction false} DeleteAppend(a: seq<Post>, b: seq<Post>, id: string)
    ensures Without(a + b, id) == Without(a, id) + Without(b, id)
  {
    if a != [] {
      assert (a + b)[1..] == a[1..] + b;
      DeleteAppend(a[1..], b, id);
    } else {
      assert a + b == b;
    }
  }

  /** Deleting an id nobody has leaves the queue as it was. */
  lemma {:induction false} DeleteUnknown(posts: seq<Post>, id: string)
    requires forall k :: 0 <= k < |posts| ==> posts[k].id != id
    ensures Without(posts, id) == posts
  {
    if posts != [] {
      DeleteUnknown(posts[1..], id);
    }
  }

  /** The posts with this status, in queue order. */
  function WithStatus(posts: seq<Post>, status: string): (r: seq<Post>)
    ensures forall p :: p in r <==> p in posts && p.status == status
    ensures |r| <= |posts|
  {
    if posts == [] then []
    else
      assert posts == [posts[0]] + posts[1..];
      (if posts[0].status == status then [posts[0]] else []) + WithStatus(posts[1..], status)
  }

  /** The number of posts with this status: the length of that tab's list. */
  function Count(posts: seq<Post>, status: string): (n: nat)
    ensures n == |WithStatus(posts, status)|
    ensures n <= |posts|
  {
    if posts == [] then 0 else (if posts[0].status == status then 1 else 0) + Count(posts[1..], status)
  }

  /** The four tab counts never add up to more posts than the queue holds. */
  lemma {:induction false} CountsBounded(posts: seq<Post>)
    ensures Count(posts, "pending") + Count(posts, "approved") + Count(posts, "posted") + Count(posts, "rejected") <= |posts|
  {
    if posts != [] { CountsBounded(posts[1..]); }
  }

  function CreatedKey(p: Post): string {
    p.createdAt.GetOr("")
  }

  /** The posts of one tab, newest first by `created_at`. */
  function TabView(posts: seq<Post>, tab: string): (r: seq<Post>)
    ensures multiset(r) == multiset(WithStatus(posts, tab))
    ensures forall p :: p in r <==> p in posts && p.status == tab
    ensures Sorted(r, CreatedKey, true)
  {
    var r := SortBy(WithStatus(posts, tab), CreatedKey, true);
    assert forall p :: p in r <==> p in multiset(r);
    r
  }

  /** `api_next_approved`: the head of the approved posts sorted by `created_at`, so one with the smallest `created_at`, or none. */
  function NextApproved(posts: seq<Post>): (r: Option<Post>)
    ensures r.None? <==> forall p :: p in posts ==> p.status != "approved"
    ensures r.Some? ==> r.value in posts && r.value.status == "approved"
    ensures r.Some? ==> forall q :: q in posts && q.status == "approved" ==> LexLe(CreatedKey(r.value), CreatedKey(q))
  {
    var approved := WithStatus(posts, "approved");
    var sorted := SortBy(approved, CreatedKey, false);
    if sorted == [] then
      assert forall p :: p in approved ==> p in multiset(sorted);
      None
    else
      SortedHeadIsLeast(approved, CreatedKey);
      assert sorted[0] in multiset(approved);
      assert sorted[0] in approved;
      assert forall q :: q in posts && q.status == "approved" ==> q in approved;
      Some(sorted[0])
  }

  /**
   * The PIN read from the lines of the env file: the value of the last line
   * that sets BSKY_DASHBOARD_PIN, or the built-in default when no line does.
   */
  function Pin(envLines: seq<string>): (pin: string)
    ensures (forall i :: 0 <= i < |envLines| ==> !EnvFile.Sets(EnvFile.ParseLine, envLines[i], PinKey)) ==> pin == DefaultPin
    ensures (exists i :: 0 <= i < |envLines| && EnvFile.Sets(EnvFile.ParseLine, envLines[i], PinKey)) ==>
              exists i :: 0 <= i < |envLines| && EnvFile.ParseLine(envLines[i]) == Some((PinKey, pin))
                          && forall j :: i < j < |envLines| ==> !EnvFile.Sets(EnvFile.ParseLine, envLines[j], PinKey)
  {
    var env := EnvFile.LoadEnv(envLines);
    EnvFile.KeySetByALine(EnvFile.ParseLine, envLines, PinKey);
    if PinKey in env then
      EnvFile.LastLineWins(EnvFile.ParseLine, envLines, PinKey);
      env[PinKey]
    else
      DefaultPin
  }

  /** The API token: the `X-Token` header when non-empty, else the `token` query argument. */
  function ApiToken(header: Option<string>, arg: Option<string>): Option<string> {
    if header.Some? && header.value != "" then header else arg
  }

  /**
   * The API routes answer 401 unless the token equals the PIN: the PIN in the
   * header is accepted whatever the argument; a missing or empty header defers
   * to the argument; with neither, the call is refused.
   */
  predicate ApiAuthorized(header: Option<string>, arg: Option<string>, pin: string)
    ensures pin != "" ==> (header == Some(pin) ==> ApiAuthorized(header, arg, pin))
    ensures (header.None? || header == Some("")) ==> (ApiAuthorized(header, arg, pin) <==> arg == Some(pin))
    ensures header.Some? && header.value != "" ==> (ApiAuthorized(header, arg, pin) <==> header.value == pin)
    ensures header.None? && arg.None? ==> !ApiAuthorized(header, arg, pin)
  {
    ApiToken(header, arg) == Some(pin)
  }
}

/**
 * The blog's state rules: when a post or splinter gets its publication and
 * update times, what a report must carry to be recorded, the caps on splinter
 * items, and like toggling with its notifications.
 */
module Blog {
  import opened Wrappers
  import opened Text

  /** A value of the application's `timestamp()` clock, passed in by the caller. */
  type Time = int

  // ---------------------------------------------------------------------------
  // Publication and update times
  // ---------------------------------------------------------------------------

  /** The columns of a post (or splinter) that publishing and editing change. */
  datatype PostState = PostState(isDraft: bool, publishedAt: Option<Time>, updatedAt: Option<Time>)

  /** A post that is visible (not a draft) records when it was published. */
  predicate PublishedDated(p: PostState) {
    !p.isDraft ==> p.publishedAt.Some?
  }

  /** `create_post` and `new_splinter`: a direct post is published now, a draft is not published. */
  function CreatePost(saveDraft: bool, now: Time): (p: PostState)
    ensures p.isDraft == saveDraft
    ensures p.publishedAt.Some? <==> !saveDraft
    ensures p.publishedAt.Some? ==> p.publishedAt.value == now
    ensures p.updatedAt.None?
    ensures PublishedDated(p)
  {
    PostState(saveDraft, if saveDraft then None else Some(now), None)
  }

  /** A first publication: the post was a draft and the edit does not keep it one. */
  predicate PublishesNow(p: PostState, saveDraft: bool) {
    p.isDraft && !saveDraft
  }

  /** The timestamp branches of `edit_post`. */
  function EditPost(p: PostState, saveDraft: bool, now: Time): (q: PostState)
    ensures q.isDraft == saveDraft
    ensures PublishedDated(p) ==> PublishedDated(q)
    ensures p.publishedAt.Some? ==> q.publishedAt == p.publishedAt
  {
    if PublishesNow(p, saveDraft) && p.publishedAt.None? then PostState(saveDraft, Some(now), p.updatedAt)
    else if PublishesNow(p, saveDraft) then PostState(saveDraft, p.publishedAt, Some(now))
    else if !p.isDraft && !saveDraft then PostState(saveDraft, p.publishedAt, Some(now))
    else PostState(saveDraft, p.publishedAt, p.updatedAt)
  }

  /**
   * The four transitions of an edit, each with what it leaves alone: the first
   * publication stamps `published_at`, a later edit of a visible post stamps
   * `updated_at`, and an edit that ends as a draft stamps neither.
   */
  lemma EditPostTransitions(p: PostState, saveDraft: bool, now: Time)
    ensures var q := EditPost(p, saveDraft, now);
      && (q.publishedAt != p.publishedAt <==> PublishesNow(p, saveDraft) && p.publishedAt.None?)
      && (q.publishedAt != p.publishedAt ==> q.publishedAt == Some(now))
      && (q.updatedAt == p.updatedAt || q.updatedAt == Some(now))
      && (!saveDraft && p.publishedAt.Some? ==> q.updatedAt == Some(now))
      && (saveDraft ==> q == p.(isDraft := true))
      && (!saveDraft && p.isDraft && p.publishedAt.None? ==> q.updatedAt == p.updatedAt)
  {
  }

  /** Publishing a draft and editing it later: the publication time survives, and the later edit is the update time. */
  lemma PublishThenEdit(saveDraftAt: Time, publishAt: Time, editAt: Time)
    ensures var published := EditPost(CreatePost(true, saveDraftAt), false, publishAt);
      && published == PostState(false, Some(publishAt), None)
      && EditPost(published, false, editAt) == PostState(false, Some(publishAt), Some(editAt))
  {
  }

  /**
   * The timestamp branch of `edit_splinter` as written: every edit that is not a
   * first publication stamps `updated_at`, and nothing ever stamps `published_at`.
   */
  function EditSplinterAsWritten(p: PostState, saveDraft: bool, now: Time): (q: PostState)
    ensures q.isDraft == saveDraft && q.publishedAt == p.publishedAt
    ensures !PublishesNow(p, saveDraft) ==> q.updatedAt == Some(now)
    ensures PublishesNow(p, saveDraft) ==> q.updatedAt == p.updatedAt
  {
    if !PublishesNow(p, saveDraft) then PostState(saveDraft, p.publishedAt, Some(now))
    else PostState(saveDraft, p.publishedAt, p.updatedAt)
  }

  /** A splinter saved as a draft and then published by an edit is visible with no publication time. */
  lemma SplinterPublishedUndated(saveDraftAt: Time, publishAt: Time)
    ensures var q := EditSplinterAsWritten(CreatePost(true, saveDraftAt), false, publishAt);
      !q.isDraft && q.publishedAt.None? && !PublishedDated(q)
  {
  }

  /**
   * `edit_splinter` as evidently intended: the same `updated_at` rule, and a first
   * publication without a publication time stamps `published_at` as `edit_post` does.
   */
  function EditSplinter(p: PostState, saveDraft: bool, now: Time): (q: PostState)
    ensures PublishedDated(p) ==> PublishedDated(q)
    ensures p.publishedAt.Some? ==> q.publishedAt == p.publishedAt
    ensures q.isDraft == saveDraft
    ensures q.updatedAt == EditSplinterAsWritten(p, saveDraft, now).updatedAt
    ensures q.publishedAt != p.publishedAt <==> PublishesNow(p, saveDraft) && p.publishedAt.None?
  {
    var q := EditSplinterAsWritten(p, saveDraft, now);
    if PublishesNow(p, saveDraft) && p.publishedAt.None? then q.(publishedAt := Some(now)) else q
  }

  /** On a first publication of a never-published draft the corrected splinter edit and the post edit agree. */
  lemma SplinterPublishesLikePost(p: PostState, now: Time)
    requires p.isDraft && p.publishedAt.None?
    ensures EditSplinter(p, false, now) == EditPost(p, false, now)
  {
  }

  // ---------------------------------------------------------------------------
  // Reports
  // ---------------------------------------------------------------------------

  const REASON_LIMIT := 200

  /** A form id read with `type=int`: absent when missing or not a number. */
  type FormId = Option<int>

  /** Python truthiness of such an id: `None` and `0` are false. */
  predicate Truthy(id: FormId) {
    id.Some? && id.value != 0
  }

  datatype Report = Report(reporter: int, postId: FormId, commentId: FormId, reason: string)

  /** A `flash` call: its message and its category ("message" when none is passed). */
  datatype Flash = Flash(message: string, category: string)

  datatype ReportOutcome =
    | Rejected(flash: Flash)
    | NotFound
    | Duplicate
    | Submitted(report: Report)

  /** The reason as stored: stripped of surrounding whitespace, then cut to 200 characters. */
  function ReportReason(raw: string): (r: string)
    ensures |r| <= REASON_LIMIT
    ensures StartsWith(Strip(raw), r)
    ensures |r| > 0 ==> !IsSpace(r[0])
    ensures r == "" <==> Strip(raw) == ""
  {
    var s := Strip(raw);
    assert |s| > 0 ==> s[0] == LStrip(raw)[0];
    Take(s, REASON_LIMIT)
  }

  /** Whether `reports` already holds one by this reporter for exactly these ids (`None` matching `None`). */
  predicate AlreadyReported(reports: seq<Report>, reporter: int, postId: FormId, commentId: FormId) {
    exists k :: 0 <= k < |reports| && reports[k].reporter == reporter
                && reports[k].postId == postId && reports[k].commentId == commentId
  }

  const MISSING_REPORT_TEXT := "Please select something to report, and give a reason."

  /** The rejection flash as written: two adjacent literals concatenate, so "error" ends the message. */
  function RejectionFlashAsWritten(): (f: Flash)
    ensures f.category != "error"
  {
    Flash(MISSING_REPORT_TEXT + "error", "message")
  }

  /** The rejection flash as evidently intended: the message with the "error" category. */
  function RejectionFlash(): (f: Flash)
    ensures f.category == "error" && f.message == MISSING_REPORT_TEXT
  {
    Flash(MISSING_REPORT_TEXT, "error")
  }

  /** The as-written flash shows the category word inside the message and files it under the default category. */
  lemma RejectionFlashShowsCategory()
    ensures RejectionFlashAsWritten().message != RejectionFlash().message
    ensures EndsWith(RejectionFlashAsWritten().message, "error")
  {
    var m := RejectionFlashAsWritten().message;
    assert |m| == |MISSING_REPORT_TEXT| + 5;
    assert m[|m| - 5..] == "error";
  }

  /**
   * The POST branch of `report`: reject a submission with no target or no reason,
   * 404 on a missing comment (when a comment id is given) or post, refuse a
   * duplicate, and otherwise record the report.
   */
  function SubmitReport(reports: seq<Report>, posts: set<int>, comments: set<int>,
                        reporter: int, postId: FormId, commentId: FormId, rawReason: string): (r: ReportOutcome)
    ensures r.Rejected? <==> !(Truthy(postId) || Truthy(commentId)) || Strip(rawReason) == ""
    ensures r.Rejected? ==> r.flash == RejectionFlash()
    ensures r.NotFound? <==>
              (!r.Rejected? && if Truthy(commentId) then commentId.value !in comments else postId.value !in posts)
    ensures r.Duplicate? ==> AlreadyReported(reports, reporter, postId, commentId)
    ensures r.Submitted? ==>
              && !AlreadyReported(reports, reporter, postId, commentId)
              && r.report == Report(reporter, postId, commentId, ReportReason(rawReason))
              && 0 < |r.report.reason| <= REASON_LIMIT
  {
    var reason := ReportReason(rawReason);
    if !(Truthy(postId) || Truthy(commentId)) || reason == "" then Rejected(RejectionFlash())
    else if Truthy(commentId) && commentId.value !in comments then NotFound
    else if !Truthy(commentId) && postId.value !in posts then NotFound
    else if AlreadyReported(reports, reporter, postId, commentId) then Duplicate
    else Submitted(Report(reporter, postId, commentId, reason))
  }

  /** The reports table after a submission. */
  function Recorded(reports: seq<Report>, out: ReportOutcome): (r: seq<Report>)
    ensures out.Submitted? ==> r == reports + [out.report]
    ensures !out.Submitted? ==> r == reports
  {
    if out.Submitted? then reports + [out.report] else reports
  }

  /** Submitting the same report twice records it once: the second submission is a duplicate. */
  lemma ReportTwiceIsDuplicate(reports: seq<Report>, posts: set<int>, comments: set<int>,
                               reporter: int, postId: FormId, commentId: FormId, rawReason: string)
    requires SubmitReport(reports, posts, comments, reporter, postId, commentId, rawReason).Submitted?
    ensures var after := Recorded(reports, SubmitReport(reports, posts, comments, reporter, postId, commentId, rawReason));
      SubmitReport(after, posts, comments, reporter, postId, commentId, rawReason).Duplicate?
  {
    var after := Recorded(reports, SubmitReport(reports, posts, comments, reporter, postId, commentId, rawReason));
    assert after[|reports|].reporter == reporter;
  }

  // ---------------------------------------------------------------------------
  // Splinter items
  // ---------------------------------------------------------------------------

  const QUOTE_LIMIT := 2000
  const LABEL_LIMIT := 32
  const SUMMARY_LIMIT := 280
  const DEFAULT_LABEL := "claim"

  /** The capped fields of one submitted item, each possibly absent. */
  datatype ItemInput = ItemInput(quoteText: Option<string>, labelText: Option<string>, summary: Option<string>)

  datatype SplinterItem = SplinterItem(quoteText: string, labelText: string, summary: string)

  /** `value or default`: an absent or empty field falls back to the default. */
  function OrDefault(value: Option<string>, fallback: string): (r: string)
    ensures value.Some? && value.value != "" ==> r == value.value
    ensures value.None? || value.value == "" ==> r == fallback
  {
    if value.Some? && value.value != "" then value.value else fallback
  }

  /** One row of `edit_splinter_items`. */
  function ItemOf(it: ItemInput): (r: SplinterItem)
    ensures |r.quoteText| <= QUOTE_LIMIT && |r.labelText| <= LABEL_LIMIT && |r.summary| <= SUMMARY_LIMIT
    ensures r.labelText != ""
    ensures (it.labelText.None? || it.labelText == Some("")) ==> r.labelText == DEFAULT_LABEL
    ensures it.quoteText.Some? ==> StartsWith(it.quoteText.value, r.quoteText)
    ensures it.labelText.Some? && it.labelText.value != "" ==> StartsWith(it.labelText.value, r.labelText)
    ensures it.summary.Some? ==> StartsWith(it.summary.value, r.summary)
  {
    SplinterItem(
      Take(OrDefault(it.quoteText, ""), QUOTE_LIMIT),
      Take(OrDefault(it.labelText, DEFAULT_LABEL), LABEL_LIMIT),
      Take(OrDefault(it.summary, ""), SUMMARY_LIMIT))
  }

  /** An item whose fields already fit is stored as submitted, and storing a stored item changes nothing. */
  lemma ItemWithinCapsKept(quote: string, labelText: string, summary: string)
    requires |quote| <= QUOTE_LIMIT && 0 < |labelText| <= LABEL_LIMIT && |summary| <= SUMMARY_LIMIT
    ensures ItemOf(ItemInput(Some(quote), Some(labelText), Some(summary))) == SplinterItem(quote, labelText, summary)
  {
  }

  /** Capping is idempotent: re-submitting a stored item stores the same item. */
  lemma ItemOfIdempotent(it: ItemInput)
    ensures var r := ItemOf(it);
      ItemOf(ItemInput(Some(r.quoteText), Some(r.labelText), Some(r.summary))) == r
  {
    var r := ItemOf(it);
    ItemWithinCapsKept(r.quoteText, r.labelText, r.summary);
  }

  /** The items of one request, in order. */
  function ItemsOf(items: seq<ItemInput>): (r: seq<SplinterItem>)
    ensures |r| == |items|
    ensures forall k :: 0 <= k < |items| ==> r[k] == ItemOf(items[k])
  {
    if |items| == 0 then [] else [ItemOf(items[0])] + ItemsOf(items[1..])
  }

  // ---------------------------------------------------------------------------
  // Likes
  // ---------------------------------------------------------------------------

  datatype Notice = Notice(recipient: int, actor: int, verb: string, targetType: string, targetId: int)

  /** The like rows, as (user, target) pairs, and the notifications issued so far. */
  datatype LikeStore = LikeStore(likes: set<(int, int)>, notices: seq<Notice>)

  /** The toggle shared by both routes: remove an existing like, or add one and notify when asked. */
  function Toggle(s: LikeStore, user: int, target: int, notify: bool, notice: Notice): (t: LikeStore)
    ensures (user, target) in t.likes <==> (user, target) !in s.likes
    ensures t.likes - {(user, target)} == s.likes - {(user, target)}
    ensures t.notices == if (user, target) !in s.likes && notify then s.notices + [notice] else s.notices
  {
    if (user, target) in s.likes then LikeStore(s.likes - {(user, target)}, s.notices)
    else LikeStore(s.likes + {(user, target)}, if notify then s.notices + [notice] else s.notices)
  }

  /**
   * `toggle_post_like`: `posts` maps a post id to its author's id; a missing post
   * is a 404. The author hears of a new like unless they liked their own post.
   */
  function TogglePostLike(s: LikeStore, posts: map<int, int>, user: int, postId: int): (t: Option<LikeStore>)
    ensures t.None? <==> postId !in posts
    ensures t.Some? ==> ((user, postId) in t.value.likes <==> (user, postId) !in s.likes)
    ensures t.Some? ==> t.value.likes - {(user, postId)} == s.likes - {(user, postId)}
    ensures t.Some? && (user, postId) !in s.likes && posts[postId] != user ==>
              t.value.notices == s.notices + [Notice(posts[postId], user, "liked your post", "post", postId)]
    ensures t.Some? && ((user, postId) in s.likes || posts[postId] == user) ==> t.value.notices == s.notices
  {
    if postId !in posts then None
    else Some(Toggle(s, user, postId, posts[postId] != user,
                     Notice(posts[postId], user, "liked your post", "post", postId)))
  }

  /**
   * `toggle_comment_like`: `comments` maps a comment id to its author's id, absent
   * when the comment has no author. Such a comment's like notifies no one.
   */
  function ToggleCommentLike(s: LikeStore, comments: map<int, Option<int>>, user: int, commentId: int): (t: Option<LikeStore>)
    ensures t.None? <==> commentId !in comments
    ensures t.Some? ==> ((user, commentId) in t.value.likes <==> (user, commentId) !in s.likes)
    ensures t.Some? ==> t.value.likes - {(user, commentId)} == s.likes - {(user, commentId)}
    ensures t.Some? && (user, commentId) !in s.likes && comments[commentId].Some? && comments[commentId].value != user ==>
              t.value.notices == s.notices + [Notice(comments[commentId].value, user, "liked your comment", "comment", commentId)]
    ensures t.Some? && ((user, commentId) in s.likes || comments[commentId] == None || comments[commentId] == Some(user)) ==>
              t.value.notices == s.notices
  {
    if commentId !in comments then None
    else
      var author := comments[commentId];
      Some(Toggle(s, user, commentId, author.Some? && author.value != user,
                  Notice(author.GetOr(0), user, "liked your comment", "comment", commentId)))
  }

  /** Liking and then unliking a post restores the like rows; at most the one notification remains. */
  lemma TogglePostLikeTwice(s: LikeStore, posts: map<int, int>, user: int, postId: int)
    requires postId in posts
    ensures var once := TogglePostLike(s, posts, user, postId).value;
      && TogglePostLike(once, posts, user, postId).value.likes == s.likes
      && |TogglePostLike(once, posts, user, postId).value.notices| <= |s.notices| + 1
  {
    var once := TogglePostLike(s, posts, user, postId).value;
    var twice := TogglePostLike(once, posts, user, postId).value;
    assert twice.likes == s.likes by {
      if (user, postId) in s.likes {
        assert once.likes == s.likes - {(user, postId)};
      } else {
        assert once.likes == s.likes + {(user, postId)};
      }
    }
  }

  /** The same for a comment. */
  lemma ToggleCommentLikeTwice(s: LikeStore, comments: map<int, Option<int>>, user: int, commentId: int)
    requires commentId in comments
    ensures var once := ToggleCommentLike(s, comments, user, commentId).value;
      && ToggleCommentLike(once, comments, user, commentId).value.likes == s.likes
      && |ToggleCommentLike(once, comments, user, commentId).value.notices| <= |s.notices| + 1
  {
    var once := ToggleCommentLike(s, comments, user, commentId).value;
    var twice := ToggleCommentLike(once, comments, user, commentId).value;
    assert twice.likes == s.likes by {
      if (user, commentId) in s.likes {
        assert once.likes == s.likes - {(user, commentId)};
      } else {
        assert once.likes == s.likes + {(user, commentId)};
      }
    }
  }
}

/**
 * The web application's account roles and the notification snippet: which
 * roles may moderate or contribute, the icon shown for a role, and the short
 * preview of the post or comment a notification is about.
 */
module Accounts {
  import opened Wrappers

  // ---------------------------------------------------------------------------
  // Roles
  // ---------------------------------------------------------------------------

  /** A user's `role` column; "user" is the default, any other text is possible. */
  type Role = string

  predicate IsAdmin(role: Role) {
    role == "admin"
  }

  predicate IsModerator(role: Role) {
    role == "moderator"
  }

  predicate IsBanned(role: Role) {
    role == "banned"
  }

  /** `is_authority`: membership in the authority roles. */
  predicate IsAuthority(role: Role) {
    role in ["admin", "moderator"]
  }

  /** `is_contributor`: membership in the contributing roles. */
  predicate IsContributor(role: Role) {
    role in ["contributor", "admin", "moderator"]
  }

  /** An authority is exactly an admin or a moderator, and every authority may contribute. */
  lemma AuthorityMeaning(role: Role)
    ensures IsAuthority(role) <==> IsAdmin(role) || IsModerator(role)
    ensures IsAuthority(role) ==> IsContributor(role)
  {
    if IsAuthority(role) {
      assert role == ["admin", "moderator"][0] || role == ["admin", "moderator"][1];
    }
  }

  /** The contributing roles are exactly contributor, admin and moderator. */
  lemma ContributorRoles(role: Role)
    ensures IsContributor(role) <==> role == "contributor" || IsAdmin(role) || IsModerator(role)
  {
    var roles := ["contributor", "admin", "moderator"];
    if IsContributor(role) {
      var k :| 0 <= k < |roles| && roles[k] == role;
    }
  }

  /** A banned user is neither an authority nor a contributor; neither is the default "user". */
  lemma BannedHasNoRights()
    ensures !IsAuthority("banned") && !IsContributor("banned")
    ensures !IsAuthority("user") && !IsContributor("user")
  {
    AuthorityMeaning("banned");
    ContributorRoles("banned");
    AuthorityMeaning("user");
    ContributorRoles("user");
  }

  const ADMIN_ICON := "\U{2B50}"
  const MODERATOR_ICON := "\U{1F6E1}\U{FE0F}"
  const CONTRIBUTOR_ICON := "\U{1F4DD}"
  const BANNED_ICON := "\U{1F6AB}"
  const DEFAULT_ICON := "\U{1F464}"

  /** `role_icon`. */
  function RoleIcon(role: Role): (icon: string)
    ensures role !in {"admin", "moderator", "contributor", "banned"} ==> icon == DEFAULT_ICON
  {
    match role
    case "admin" => ADMIN_ICON
    case "moderator" => MODERATOR_ICON
    case "contributor" => CONTRIBUTOR_ICON
    case "banned" => BANNED_ICON
    case _ => DEFAULT_ICON
  }

  /** The four named roles get four different icons, none of them the default one. */
  lemma RoleIconsDistinct(a: Role, b: Role)
    requires a in {"admin", "moderator", "contributor", "banned"}
    requires b in {"admin", "moderator", "contributor", "banned"}
    ensures RoleIcon(a) == RoleIcon(b) <==> a == b
    ensures RoleIcon(a) != DEFAULT_ICON
  {
    assert ADMIN_ICON[0] == '\U{2B50}';
    assert MODERATOR_ICON[0] == '\U{1F6E1}';
    assert CONTRIBUTOR_ICON[0] == '\U{1F4DD}';
    assert BANNED_ICON[0] == '\U{1F6AB}';
    assert DEFAULT_ICON[0] == '\U{1F464}';
  }

  // ---------------------------------------------------------------------------
  // Notification snippet
  // ---------------------------------------------------------------------------

  const SNIPPET_LIMIT := 100

  /** `(text[:100] + "...") if len(text) > 100 else text`. */
  function Shorten(text: string): (r: string)
    ensures |text| <= SNIPPET_LIMIT ==> r == text
    ensures |text| > SNIPPET_LIMIT ==> |r| == SNIPPET_LIMIT + 3 && r[..SNIPPET_LIMIT] == text[..SNIPPET_LIMIT]
                                       && r[SNIPPET_LIMIT..] == "..."
  {
    if |text| > SNIPPET_LIMIT then text[..SNIPPET_LIMIT] + "..." else text
  }

  /** A shortened text is never longer than the limit plus the ellipsis, and shortening twice changes nothing more. */
  lemma ShortenBounds(text: string)
    ensures |Shorten(text)| <= SNIPPET_LIMIT + 3
    ensures |text| > SNIPPET_LIMIT ==> |Shorten(text)| == SNIPPET_LIMIT + 3
    ensures Shorten(Shorten(text)) == Shorten(text)
  {
    if |text| > SNIPPET_LIMIT {
      var once := Shorten(text);
      assert once[..SNIPPET_LIMIT] == text[..SNIPPET_LIMIT];
      assert Shorten(once) == once[..SNIPPET_LIMIT] + "...";
    }
  }

  /** A stored post or comment: only its `content`, which may be null. */
  datatype Content = Content(content: Option<string>)

  /** A notification's target and the posts and comments it can resolve to. */
  datatype Notification = Notification(targetType: string, targetId: int)

  /** `snippet`: the shortened content of the target when it is a post or comment that exists, else empty. */
  function Snippet(n: Notification, posts: map<int, Content>, comments: map<int, Content>): (r: string)
    ensures n.targetType !in {"post", "comment"} ==> r == ""
    ensures n.targetType == "post" && n.targetId !in posts ==> r == ""
    ensures n.targetType == "comment" && n.targetId !in comments ==> r == ""
    ensures |r| <= SNIPPET_LIMIT + 3
  {
    var text :=
      if n.targetType == "post" && n.targetId in posts then posts[n.targetId].content.GetOr("")
      else if n.targetType == "comment" && n.targetId in comments then comments[n.targetId].content.GetOr("")
      else "";
    ShortenBounds(text);
    Shorten(text)
  }

  /** The snippet of an existing post starts with the post's content and adds "..." only when it is cut. */
  lemma SnippetOfPost(n: Notification, posts: map<int, Content>, comments: map<int, Content>, body: string)
    requires n.targetType == "post" && n.targetId in posts && posts[n.targetId].content == Some(body)
    ensures |body| <= SNIPPET_LIMIT ==> Snippet(n, posts, comments) == body
    ensures |body| > SNIPPET_LIMIT ==> Snippet(n, posts, comments) == body[..SNIPPET_LIMIT] + "..."
  {
  }
}

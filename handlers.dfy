/**
 * Converters from the storage layer's records to the records the HTTP API
 * serves. Identifiers and timestamps are opaque: the converters only copy
 * them. The database records carry exactly the fields the converters read.
 */
module Handlers {
  import opened Wrappers

  /** A `uuid.UUID`; the zero value is `uuid.Nil`. */
  type Uuid(==, 0)

  /** A `time.Time`; the zero value is the zero instant. */
  type Time(==, 0)

  /** `sql.NullString`: `str` is meaningful only when `valid` holds. */
  datatype NullString = NullString(str: string, valid: bool)

  datatype DbUser = DbUser(id: Uuid, name: string, createdAt: Time, updatedAt: Time, apiKey: string, email: string)

  datatype User = User(id: Uuid, name: string, createdAt: Time, updatedAt: Time, apiKey: string, email: string,
                       accessToken: string, refreshToken: string)

  datatype DbFeed = DbFeed(id: Uuid, name: string, createdAt: Time, updatedAt: Time, url: string, userId: Uuid)

  datatype Feed = Feed(id: Uuid, name: string, createdAt: Time, updatedAt: Time, url: string, userId: Uuid)

  datatype DbFeedFollow = DbFeedFollow(id: Uuid, createdAt: Time, updatedAt: Time, userId: Uuid, feedId: Uuid)

  datatype FeedFollow = FeedFollow(id: Uuid, createdAt: Time, updatedAt: Time, userId: Uuid, feedId: Uuid)

  datatype DbPost = DbPost(id: Uuid, title: string, description: NullString, publishedAt: Time, url: string,
                           feedId: Uuid, createdAt: Time, updatedAt: Time)

  /** `description` is `None` where the API record holds a nil pointer. */
  datatype Post = Post(id: Uuid, title: string, description: Option<string>, publishedAt: Time, url: string,
                       feedId: Uuid, createdAt: Time, updatedAt: Time)

  /**
   * Copies the stored user's fields and sets each token only when it is
   * non-empty; since an unset token is "", each token of the result is the
   * one passed in.
   */
  function ConvertUser(dbUser: DbUser, accessToken: string, refreshToken: string): (u: User)
    ensures u.id == dbUser.id && u.name == dbUser.name
    ensures u.createdAt == dbUser.createdAt && u.updatedAt == dbUser.updatedAt
    ensures u.apiKey == dbUser.apiKey && u.email == dbUser.email
    ensures u.accessToken == accessToken && u.refreshToken == refreshToken
  {
    var user := User(dbUser.id, dbUser.name, dbUser.createdAt, dbUser.updatedAt, dbUser.apiKey, dbUser.email, "", "");
    var user := if accessToken != "" then user.(accessToken := accessToken) else user;
    if refreshToken != "" then user.(refreshToken := refreshToken) else user
  }

  /** Copies every field of a stored feed. */
  function ConvertFeed(dbFeed: DbFeed): (f: Feed)
    ensures f.id == dbFeed.id && f.name == dbFeed.name
    ensures f.createdAt == dbFeed.createdAt && f.updatedAt == dbFeed.updatedAt
    ensures f.url == dbFeed.url && f.userId == dbFeed.userId
  {
    Feed(dbFeed.id, dbFeed.name, dbFeed.createdAt, dbFeed.updatedAt, dbFeed.url, dbFeed.userId)
  }

  /** Copies every field of a stored feed follow. */
  function ConvertFeedFollow(dbFeedFollow: DbFeedFollow): (ff: FeedFollow)
    ensures ff.id == dbFeedFollow.id
    ensures ff.createdAt == dbFeedFollow.createdAt && ff.updatedAt == dbFeedFollow.updatedAt
    ensures ff.userId == dbFeedFollow.userId && ff.feedId == dbFeedFollow.feedId
  {
    FeedFollow(dbFeedFollow.id, dbFeedFollow.createdAt, dbFeedFollow.updatedAt, dbFeedFollow.userId, dbFeedFollow.feedId)
  }

  /**
   * Copies every field of a stored post; the description is present exactly
   * when the stored one is valid, and then it is the stored text.
   */
  function ConvertPost(dbPost: DbPost): (p: Post)
    ensures p.id == dbPost.id && p.title == dbPost.title && p.url == dbPost.url && p.feedId == dbPost.feedId
    ensures p.publishedAt == dbPost.publishedAt && p.createdAt == dbPost.createdAt && p.updatedAt == dbPost.updatedAt
    ensures p.description.Some? <==> dbPost.description.valid
    ensures p.description.Some? ==> p.description.value == dbPost.description.str
  {
    var description := if dbPost.description.valid then Some(dbPost.description.str) else None;
    Post(dbPost.id, dbPost.title, description, dbPost.publishedAt, dbPost.url, dbPost.feedId,
         dbPost.createdAt, dbPost.updatedAt)
  }

  /** The user conversion is lossless: distinct stored users or tokens give distinct API users. */
  lemma ConvertUserInjective(a: DbUser, aAccess: string, aRefresh: string, b: DbUser, bAccess: string, bRefresh: string)
    ensures ConvertUser(a, aAccess, aRefresh) == ConvertUser(b, bAccess, bRefresh) <==>
            a == b && aAccess == bAccess && aRefresh == bRefresh
  {
  }

  /** The feed conversion is lossless. */
  lemma ConvertFeedInjective(a: DbFeed, b: DbFeed)
    ensures ConvertFeed(a) == ConvertFeed(b) <==> a == b
  {
  }

  /** The feed-follow conversion is lossless. */
  lemma ConvertFeedFollowInjective(a: DbFeedFollow, b: DbFeedFollow)
    ensures ConvertFeedFollow(a) == ConvertFeedFollow(b) <==> a == b
  {
  }

  /** The part of a stored post that is visible through the API: the text of an invalid description is not. */
  function Visible(dbPost: DbPost): DbPost
  {
    if dbPost.description.valid then dbPost else dbPost.(description := NullString("", false))
  }

  /**
   * Two stored posts convert to the same API post exactly when they agree on
   * everything but the text of an invalid description: that text is dropped,
   * even when it is non-empty.
   */
  lemma ConvertPostVisible(a: DbPost, b: DbPost)
    ensures ConvertPost(a) == ConvertPost(b) <==> Visible(a) == Visible(b)
  {
  }

  /** `make([]Feed, len(dbFeeds))`, then each slot filled from the stored feed at the same index. */
  method ConvertFeeds(dbFeeds: seq<DbFeed>) returns (feeds: array<Feed>)
    ensures fresh(feeds)
    ensures feeds.Length == |dbFeeds|
    ensures forall i :: 0 <= i < |dbFeeds| ==> feeds[i] == ConvertFeed(dbFeeds[i])
  {
    feeds := new Feed[|dbFeeds|];
    for i := 0 to |dbFeeds|
      invariant forall j :: 0 <= j < i ==> feeds[j] == ConvertFeed(dbFeeds[j])
    {
      feeds[i] := ConvertFeed(dbFeeds[i]);
    }
  }

  /** `make([]FeedFollow, len(dbFeedFollows))`, then filled index by index. */
  method ConvertFeedFollows(dbFeedFollows: seq<DbFeedFollow>) returns (feedFollows: array<FeedFollow>)
    ensures fresh(feedFollows)
    ensures feedFollows.Length == |dbFeedFollows|
    ensures forall i :: 0 <= i < |dbFeedFollows| ==> feedFollows[i] == ConvertFeedFollow(dbFeedFollows[i])
  {
    feedFollows := new FeedFollow[|dbFeedFollows|];
    for i := 0 to |dbFeedFollows|
      invariant forall j :: 0 <= j < i ==> feedFollows[j] == ConvertFeedFollow(dbFeedFollows[j])
    {
      feedFollows[i] := ConvertFeedFollow(dbFeedFollows[i]);
    }
  }

  /** `make([]Post, len(dbPosts))`, then filled index by index. */
  method ConvertPosts(dbPosts: seq<DbPost>) returns (posts: array<Post>)
    ensures fresh(posts)
    ensures posts.Length == |dbPosts|
    ensures forall i :: 0 <= i < |dbPosts| ==> posts[i] == ConvertPost(dbPosts[i])
  {
    posts := new Post[|dbPosts|];
    for i := 0 to |dbPosts|
      invariant forall j :: 0 <= j < i ==> posts[j] == ConvertPost(dbPosts[j])
    {
      posts[i] := ConvertPost(dbPosts[i]);
    }
  }
}

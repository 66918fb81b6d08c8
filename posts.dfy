/** The diary post store (backend/post/routes/posts.py): creation with image
    promotion and rollback, listing, by-date listing, detail, partial update
    and soft delete.

    The posts collection is a map from post id to post. Every route finds a
    post by its id together with the caller's user id, so a post owned by
    someone else is indistinguishable from a missing one. */
module Posts {
  import opened Common
  import opened Emoji
  import opened Settings
  import opened Images

  datatype PostStatus = Active | Deleted

  /** One image entry as create and update write it. */
  datatype ImageInfo = ImageInfo(
    filename: string,
    originalFilename: string,
    filePath: string,
    fileSize: nat,
    uploadDate: Timestamp)

  /** An element of a stored `images` list: a full record as create and
      update write it, a dictionary given by which of the five keys it holds
      (None for a missing key), a bare file name (older documents), or
      anything else. */
  datatype StoredImage =
    | Record(info: ImageInfo)
    | Dict(filename: Option<string>, originalFilename: Option<string>, filePath: Option<string>,
           fileSize: Option<nat>, uploadDate: Option<Timestamp>)
    | BareName(name: string)
    | Junk

  /** A stored `images` field: a list, no `images` key at all (the routes
      read it as the empty list, but a `$set` of any list adds the key), or
      a value that cannot be iterated (null or a number). */
  datatype ImageField = ImageList(items: seq<StoredImage>) | Missing | NotAList

  datatype Post = Post(
    postId: string,
    userId: int,
    content: string,
    status: PostStatus,
    emotion: Option<string>,
    emoji: Option<string>,
    images: ImageField,
    createdAt: Timestamp)

  /** os.path.join("uploads/images", name): an absolute name replaces the
      folder. */
  function PermanentPath(name: string): (path: string)
    ensures StartsWith(name, "/") ==> path == name
    ensures !StartsWith(name, "/") ==> path == "uploads/images/" + name
  {
    if |name| > 0 && name[0] == '/' then name else "uploads/images/" + name
  }

  // ---------------------------------------------------------------------
  // The caller's emoji category

  /** get_user_emoticon_category: the stored last category when it is one of
      the four, otherwise "shape". */
  function UserCategory(rec: Option<UserSettings>): (c: string)
    ensures c in CategoryNames
    ensures rec.Some? && rec.value.lastCategory.Some? && rec.value.lastCategory.value in CategoryNames ==>
              c == rec.value.lastCategory.value
    ensures !(rec.Some? && rec.value.lastCategory.Some? && rec.value.lastCategory.value in CategoryNames) ==>
              c == "shape"
  {
    if rec.Some? && rec.value.lastCategory.Some? && rec.value.lastCategory.value in CategoryNames
    then rec.value.lastCategory.value
    else "shape"
  }

  function SettingsOf(records: map<int, UserSettings>, userId: int): Option<UserSettings> {
    if userId in records then Some(records[userId]) else None
  }

  // ---------------------------------------------------------------------
  // Listing

  /** An image as the list responses show it; a missing upload date is
      shown as "" (None here). */
  datatype ShownImage = ShownImage(
    filename: string,
    originalFilename: string,
    filePath: string,
    fileSize: nat,
    uploadDate: Option<Timestamp>)

  /** One element of the list responses. */
  datatype PostRow = PostRow(
    id: string,
    content: string,
    status: PostStatus,
    emotion: string,
    emoji: string,
    createdAt: Timestamp,
    images: seq<ShownImage>)

  const DefaultEmoji := "\U{2B50}"

  /** How the listing shows one stored entry: every dictionary is shown,
      each missing key by its default; anything else is skipped. */
  function Shown(x: StoredImage): (r: Option<ShownImage>)
    ensures r.Some? <==> x.Record? || x.Dict?
    ensures x.Record? ==> r == Some(ShownImage(x.info.filename, x.info.originalFilename, x.info.filePath,
                                               x.info.fileSize, Some(x.info.uploadDate)))
    ensures x.Dict? ==> r == Some(ShownImage(x.filename.GetOr(""), x.originalFilename.GetOr(""),
                                             x.filePath.GetOr(""), x.fileSize.GetOr(0), x.uploadDate))
  {
    match x
    case Record(i) => Some(ShownImage(i.filename, i.originalFilename, i.filePath, i.fileSize, Some(i.uploadDate)))
    case Dict(f, o, p, z, d) => Some(ShownImage(f.GetOr(""), o.GetOr(""), p.GetOr(""), z.GetOr(0), d))
    case _ => None
  }

  /** The images of a stored list as the listing shows them, in order;
      entries that are not dictionaries are dropped. */
  function ListedImages(items: seq<StoredImage>): (r: seq<ShownImage>)
    ensures |r| <= |items|
    ensures forall y :: y in r <==> exists k :: 0 <= k < |items| && Shown(items[k]) == Some(y)
  {
    if items == [] then []
    else
      var rest := ListedImages(items[1..]);
      assert forall k :: 1 <= k < |items| ==> items[1..][k - 1] == items[k];
      assert forall y :: (exists k :: 0 <= k < |items| && Shown(items[k]) == Some(y)) <==>
                         Shown(items[0]) == Some(y) || exists k :: 0 <= k < |items[1..]| && Shown(items[1..][k]) == Some(y);
      if Shown(items[0]).Some? then [Shown(items[0]).value] + rest else rest
  }

  /** A field that is not a list gives no images. */
  function ListedField(f: ImageField): seq<ShownImage> {
    match f
    case ImageList(items) => ListedImages(items)
    case Missing => []
    case NotAList => []
  }

  /** A post as the list responses show it: a missing emotion reads as
      "neutral", a missing emoji as a star. */
  function RowOf(p: Post): (row: PostRow)
    ensures row.id == p.postId && row.createdAt == p.createdAt
    ensures row.emotion == p.emotion.GetOr("neutral") && row.emoji == p.emoji.GetOr(DefaultEmoji)
  {
    PostRow(p.postId, p.content, p.status, p.emotion.GetOr("neutral"), p.emoji.GetOr(DefaultEmoji),
            p.createdAt, ListedField(p.images))
  }

  /** The half-open creation-time window of a listing, if any. */
  datatype Window = AnyTime | Between(from: Timestamp, until: Timestamp)

  predicate InWindow(t: Timestamp, w: Window) {
    w.AnyTime? || (w.from <= t < w.until)
  }

  /** The filter of get_posts and get_posts_by_date. */
  predicate Listed(p: Post, userId: int, w: Window) {
    p.userId == userId && p.status != Deleted && InWindow(p.createdAt, w)
  }

  predicate SortedNewestFirst(rows: seq<PostRow>) {
    forall i, j :: 0 <= i < j < |rows| ==> rows[i].createdAt >= rows[j].createdAt
  }

  function RowIds(rows: seq<PostRow>): set<string> {
    set r | r in rows :: r.id
  }

  lemma RowIdsAfterInsert(rows: seq<PostRow>, row: PostRow)
    requires SortedNewestFirst(rows)
    requires |rows| == |RowIds(rows)| && row.id !in RowIds(rows)
    ensures RowIds(InsertNewestFirst(rows, row)) == RowIds(rows) + {row.id}
    ensures |InsertNewestFirst(rows, row)| == |RowIds(InsertNewestFirst(rows, row))|
  {
    var r := InsertNewestFirst(rows, row);
    assert RowIds(r) == RowIds(rows) + {row.id};
  }

  /** Where a row goes in a newest-first list: after every strictly newer row. */
  function InsertionPoint(rows: seq<PostRow>, row: PostRow): (k: nat)
    ensures k <= |rows|
    ensures forall i :: 0 <= i < k ==> rows[i].createdAt > row.createdAt
    ensures k < |rows| ==> rows[k].createdAt <= row.createdAt
  {
    if rows == [] || row.createdAt >= rows[0].createdAt then 0
    else 1 + InsertionPoint(rows[1..], row)
  }

  /** Inserting a row into a newest-first list keeps it newest-first. */
  function InsertNewestFirst(rows: seq<PostRow>, row: PostRow): (r: seq<PostRow>)
    requires SortedNewestFirst(rows)
    ensures SortedNewestFirst(r)
    ensures r == rows[..InsertionPoint(rows, row)] + [row] + rows[InsertionPoint(rows, row)..]
    ensures forall x :: x in r <==> x in rows || x == row
  {
    var k := InsertionPoint(rows, row);
    var r := rows[..k] + [row] + rows[k..];
    assert forall i :: 0 <= i < |r| ==> r[i] == if i < k then rows[i] else if i == k then row else rows[i - 1];
    assert rows == rows[..k] + rows[k..];
    r
  }

  /** Start of the last second of a day, relative to its midnight, in
      microseconds: the by-date window ends there. */
  const LastSecondOfDay := 86399 * 1000000

  /** The window get_posts_by_date queries for the day starting at dayStart. */
  function DayWindow(dayStart: Timestamp): (w: Window)
    ensures InWindow(dayStart, w)
    ensures !InWindow(dayStart + 86399 * 1000000, w) && InWindow(dayStart + 86399 * 1000000 - 1, w)
  {
    Between(dayStart, dayStart + LastSecondOfDay)
  }

  // ---------------------------------------------------------------------
  // Detail

  datatype PostDetail = PostDetail(
    id: string,
    content: string,
    status: PostStatus,
    createdAt: Timestamp,
    images: seq<ImageInfo>)

  /** The record a stored entry converts to when all five keys are read by
      subscript: a full record, or a dictionary that holds every key. */
  function FullInfo(x: StoredImage): (r: Option<ImageInfo>)
    ensures r.Some? <==> (x.Record? ||
                          (x.Dict? && x.filename.Some? && x.originalFilename.Some? && x.filePath.Some? &&
                           x.fileSize.Some? && x.uploadDate.Some?))
    ensures x.Record? ==> r == Some(x.info)
    ensures x.Dict? && r.Some? ==>
              r.value == ImageInfo(x.filename.value, x.originalFilename.value, x.filePath.value,
                                   x.fileSize.value, x.uploadDate.value)
  {
    match x
    case Record(info) => Some(info)
    case Dict(f, o, p, z, d) =>
      if f.Some? && o.Some? && p.Some? && z.Some? && d.Some?
      then Some(ImageInfo(f.value, o.value, p.value, z.value, d.value))
      else None
    case _ => None
  }

  /** The strict image conversion of get_post_detail: a field that cannot be
      iterated, a dictionary missing a key, or an entry that is not a
      dictionary fails. */
  function DetailImages(f: ImageField): (r: Option<seq<ImageInfo>>)
    ensures f.Missing? ==> r == Some([])
    ensures r.Some? <==> !f.NotAList? && forall i :: 0 <= i < |StoredItems(f)| ==> FullInfo(StoredItems(f)[i]).Some?
    ensures r.Some? ==> |r.value| == |StoredItems(f)| &&
                        forall i :: 0 <= i < |StoredItems(f)| ==> Some(r.value[i]) == FullInfo(StoredItems(f)[i])
  {
    match f
    case NotAList => None
    case Missing => Some([])
    case ImageList(items) =>
      assert StoredItems(f) == items;
      if forall i :: 0 <= i < |items| ==> FullInfo(items[i]).Some?
      then Some(seq(|items|, i requires 0 <= i < |items| => FullInfo(items[i]).value))
      else None
  }

  // ---------------------------------------------------------------------
  // Update

  /** PostUpdate with exclude_unset: None for every field the request does
      not set. */
  datatype PostUpdate = PostUpdate(
    content: Option<string>,
    status: Option<PostStatus>,
    emotion: Option<string>,
    images: Option<seq<string>>)

  /** The record a requested name gets when no stored entry matches it. */
  function FreshRecord(name: string, perm: map<string, nat>, now: Timestamp): ImageInfo {
    ImageInfo(name, name, PermanentPath(name), if name in perm then perm[name] else 0, now)
  }

  /** Whether update_post's scan stops at a stored entry for a name: an equal
      bare name, or a dictionary whose filename is that name. */
  predicate Matches(x: StoredImage, name: string) {
    match x
    case BareName(n) => n == name
    case Record(info) => info.filename == name
    case Dict(f, _, _, _, _) => f == Some(name)
    case Junk => false
  }

  /** What a matching entry contributes: a bare name becomes a synthesized
      record of size 0, a dictionary is reused as it is stored. */
  function Reused(x: StoredImage, name: string, now: Timestamp): StoredImage {
    if x.BareName? then Record(ImageInfo(name, name, PermanentPath(name), 0, now)) else x
  }

  /** The filename an entry carries, if any. */
  function EntryName(x: StoredImage): Option<string> {
    match x
    case BareName(n) => Some(n)
    case Record(info) => Some(info.filename)
    case Dict(f, _, _, _, _) => f
    case Junk => None
  }

  /** The entry the scan of update_post finds for a name. */
  function ExistingEntry(items: seq<StoredImage>, name: string, now: Timestamp): (r: Option<StoredImage>)
    ensures r.Some? ==> EntryName(r.value) == Some(name) && !r.value.BareName?
    ensures r.None? <==> forall k :: 0 <= k < |items| ==> !Matches(items[k], name)
  {
    if items == [] then None
    else if Matches(items[0], name) then Some(Reused(items[0], name, now))
    else
      assert forall k :: 1 <= k < |items| ==> items[1..][k - 1] == items[k];
      ExistingEntry(items[1..], name, now)
  }

  /** The entries stored in a field update_post can iterate. */
  function StoredItems(f: ImageField): seq<StoredImage> {
    match f
    case ImageList(items) => items
    case Missing => []
    case NotAList => []
  }

  /** The new images list of update_post, one entry per requested name. */
  function MatchImages(names: seq<string>, items: seq<StoredImage>, perm: map<string, nat>, now: Timestamp): (r: seq<StoredImage>)
    ensures |r| == |names|
    ensures forall j :: 0 <= j < |names| ==> EntryName(r[j]) == Some(names[j]) && !r[j].BareName?
  {
    seq(|names|, j requires 0 <= j < |names| =>
      match ExistingEntry(items, names[j], now)
      case Some(x) => x
      case None => Record(FreshRecord(names[j], perm, now)))
  }

  /** update_post scans the stored images once per requested name, so a
      stored field that cannot be iterated fails as soon as one name is
      requested. */
  predicate ImagesUnreadable(p: Post, u: PostUpdate) {
    u.images.Some? && u.images.value != [] && p.images.NotAList?
  }

  /** The document update_post writes, given the caller's category. */
  function Updated(p: Post, u: PostUpdate, category: string, perm: map<string, nat>, now: Timestamp): Post
    requires !ImagesUnreadable(p, u)
  {
    p.(content := u.content.GetOr(p.content),
       status := u.status.GetOr(p.status),
       emotion := if u.emotion.Some? then u.emotion else p.emotion,
       emoji := if u.emotion.Some? then Some(ResolveEmoji(u.emotion.value, category)) else p.emoji,
       images := if u.images.Some? then ImageList(MatchImages(u.images.value, StoredItems(p.images), perm, now))
                 else p.images)
  }

  function Records(infos: seq<ImageInfo>): (r: seq<StoredImage>)
    ensures |r| == |infos| && forall i :: 0 <= i < |infos| ==> r[i] == Record(infos[i])
  {
    seq(|infos|, i requires 0 <= i < |infos| => Record(infos[i]))
  }

  // ---------------------------------------------------------------------
  // Create

  predicate Distinct(s: seq<string>) {
    forall i, j :: 0 <= i < j < |s| ==> s[i] != s[j]
  }

  /** Every requested temporary name can be moved in turn: each is present
      and none is requested twice (a second move of one file fails). */
  predicate PromotionSucceeds(names: seq<string>, temp: map<string, nat>) {
    Distinct(names) && forall j :: 0 <= j < |names| ==> names[j] in temp
  }

  /** The images_info list create_post builds: one record per requested name,
      in request order. */
  function PromotedInfos(names: seq<string>, perms: seq<string>, temp: map<string, nat>, t: Timestamp): (r: seq<ImageInfo>)
    requires |perms| == |names| && forall j :: 0 <= j < |names| ==> names[j] in temp
    ensures |r| == |names|
    ensures forall j :: 0 <= j < |names| ==>
              r[j] == ImageInfo(perms[j], names[j], PermanentPath(perms[j]), temp[names[j]], t)
  {
    seq(|names|, j requires 0 <= j < |names| => ImageInfo(perms[j], names[j], PermanentPath(perms[j]), temp[names[j]], t))
  }

  function NameSet(s: seq<string>): set<string> {
    set j | 0 <= j < |s| :: s[j]
  }

  /** The visibility rule of detail, update and delete. */
  predicate Accessible(posts: map<string, Post>, postId: string, userId: int) {
    postId in posts && posts[postId].userId == userId && posts[postId].status != Deleted
  }

  /** Every post is stored under its own id. */
  predicate KeyedById(posts: map<string, Post>) {
    forall k :: k in posts ==> posts[k].postId == k
  }

  /** The ids of the posts a listing shows, among the given keys. */
  function ListedAmong(posts: map<string, Post>, keys: set<string>, userId: int, w: Window): set<string> {
    set k | k in keys && k in posts && Listed(posts[k], userId, w)
  }

  function ListedIds(posts: map<string, Post>, userId: int, w: Window): set<string> {
    ListedAmong(posts, posts.Keys, userId, w)
  }

  /** What the rows built so far satisfy once the keys in `done` are scanned. */
  predicate RowsFor(posts: map<string, Post>, done: set<string>, userId: int, w: Window, rows: seq<PostRow>) {
    SortedNewestFirst(rows) &&
    (forall r :: r in rows ==> r.id in posts && r == RowOf(posts[r.id])) &&
    RowIds(rows) == ListedAmong(posts, done, userId, w) &&
    |rows| == |RowIds(rows)|
  }

  /** One scanned key keeps RowsFor. */
  lemma ListStep(posts: map<string, Post>, done: set<string>, userId: int, w: Window, rows: seq<PostRow>, k: string)
    requires KeyedById(posts) && k in posts && k !in done
    requires RowsFor(posts, done, userId, w, rows)
    ensures Listed(posts[k], userId, w) ==>
              RowsFor(posts, done + {k}, userId, w, InsertNewestFirst(rows, RowOf(posts[k])))
    ensures !Listed(posts[k], userId, w) ==> RowsFor(posts, done + {k}, userId, w, rows)
  {
    if Listed(posts[k], userId, w) {
      var row := RowOf(posts[k]);
      assert row.id == k;
      RowIdsAfterInsert(rows, row);
      assert ListedAmong(posts, done + {k}, userId, w) == ListedAmong(posts, done, userId, w) + {k};
    } else {
      assert ListedAmong(posts, done + {k}, userId, w) == ListedAmong(posts, done, userId, w);
    }
  }

  /** The cursor loop of the listings: every listed post becomes a row,
      placed so that the rows stay newest first. */
  method ListRows(posts: map<string, Post>, userId: int, w: Window) returns (rows: seq<PostRow>)
    requires KeyedById(posts)
    ensures SortedNewestFirst(rows)
    ensures RowIds(rows) == ListedIds(posts, userId, w) && |rows| == |ListedIds(posts, userId, w)|
    ensures forall r :: r in rows ==> r.id in posts && r == RowOf(posts[r.id])
  {
    var remaining := posts.Keys;
    ghost var done: set<string> := {};
    rows := [];
    while remaining != {}
      invariant remaining + done == posts.Keys && remaining !! done
      invariant RowsFor(posts, done, userId, w, rows)
      decreases remaining
    {
      var k :| k in remaining;
      ListStep(posts, done, userId, w, rows, k);
      if Listed(posts[k], userId, w) {
        rows := InsertNewestFirst(rows, RowOf(posts[k]));
      }
      remaining := remaining - {k};
      done := done + {k};
    }
  }

  class PostStore {
    var posts: map<string, Post>

    ghost predicate Valid()
      reads this
    {
      KeyedById(posts)
    }

    constructor ()
      ensures Valid() && posts == map[]
    {
      posts := map[];
    }

    /** get_posts (and the query of get_posts_by_date): the caller's
        non-deleted posts in the window, newest first, one row each. */
    method List(userId: int, w: Window) returns (rows: seq<PostRow>)
      requires Valid()
      ensures SortedNewestFirst(rows)
      ensures RowIds(rows) == ListedIds(posts, userId, w) && |rows| == |ListedIds(posts, userId, w)|
      ensures forall r :: r in rows ==> r.id in posts && r == RowOf(posts[r.id])
    {
      rows := ListRows(posts, userId, w);
    }

    /** get_posts_by_date: 400 when the date does not parse (dayStart is
        None), otherwise the listing restricted to that day's window. */
    method ListByDate(userId: int, dayStart: Option<Timestamp>) returns (res: Result<seq<PostRow>>)
      requires Valid()
      ensures dayStart.None? ==> res == Err(HttpError(400, BadDateFormat))
      ensures dayStart.Some? ==>
                res.Ok? && SortedNewestFirst(res.value) &&
                RowIds(res.value) == ListedIds(posts, userId, DayWindow(dayStart.value)) &&
                |res.value| == |ListedIds(posts, userId, DayWindow(dayStart.value))|
      ensures res.Ok? ==> forall r :: r in res.value ==> r.id in posts && r == RowOf(posts[r.id])
    {
      if dayStart.None? {
        return Err(HttpError(400, BadDateFormat));
      }
      var rows := List(userId, DayWindow(dayStart.value));
      return Ok(rows);
    }

    /** get_post_detail. */
    method Detail(postId: string, userId: int) returns (res: Result<PostDetail>)
      ensures !Accessible(posts, postId, userId) ==> res == Err(HttpError(404, PostNotFound))
      ensures Accessible(posts, postId, userId) && DetailImages(posts[postId].images).None? ==>
                res == Err(HttpError(500, ImageMalformed))
      ensures Accessible(posts, postId, userId) && DetailImages(posts[postId].images).Some? ==>
                var p := posts[postId];
                res == Ok(PostDetail(p.postId, p.content, p.status, p.createdAt, DetailImages(p.images).value))
    {
      if postId !in posts || posts[postId].userId != userId {
        return Err(HttpError(404, PostNotFound));
      }
      var p := posts[postId];
      if p.status == Deleted {
        return Err(HttpError(404, PostNotFound));
      }
      if p.images.NotAList? {
        return Err(HttpError(500, ImageMalformed));
      }
      var items := StoredItems(p.images);
      var infos: seq<ImageInfo> := [];
      var i := 0;
      while i < |items|
        invariant 0 <= i <= |items|
        invariant |infos| == i && forall j :: 0 <= j < i ==> Some(infos[j]) == FullInfo(items[j])
      {
        var info: ImageInfo;
        match items[i] {
          case Record(r) =>
            info := r;
          case Dict(f, o, fp, z, d) =>
            if f.None? || o.None? || fp.None? || z.None? || d.None? {
              return Err(HttpError(500, ImageMalformed));
            }
            info := ImageInfo(f.value, o.value, fp.value, z.value, d.value);
          case BareName(_) =>
            return Err(HttpError(500, ImageMalformed));
          case Junk =>
            return Err(HttpError(500, ImageMalformed));
        }
        infos := infos + [info];
        i := i + 1;
      }
      var expected := DetailImages(p.images).value;
      assert |expected| == |infos| && forall j :: 0 <= j < |infos| ==> Some(expected[j]) == Some(infos[j]);
      assert expected == infos;
      return Ok(PostDetail(p.postId, p.content, p.status, p.createdAt, infos));
    }

    /** delete_post: a soft delete that changes only the status. */
    method Delete(postId: string, userId: int) returns (res: Result<string>)
      requires Valid()
      modifies this
      ensures Valid()
      ensures !Accessible(old(posts), postId, userId) ==>
                res == Err(HttpError(404, PostNotFound)) && posts == old(posts)
      ensures Accessible(old(posts), postId, userId) ==>
                res == Ok(postId) && posts == old(posts)[postId := old(posts)[postId].(status := Deleted)]
      ensures res.Ok? ==> !Accessible(posts, postId, userId)
    {
      if !Accessible(posts, postId, userId) {
        return Err(HttpError(404, PostNotFound));
      }
      posts := posts[postId := posts[postId].(status := Deleted)];
      return Ok(postId);
    }

    /** update_post. The write fails with 500 when it would change nothing. */
    method Update(storage: ImageStorage, settings: SettingsStore, postId: string, userId: int,
                  u: PostUpdate, now: Timestamp) returns (res: Result<string>)
      requires Valid()
      modifies this
      ensures Valid()
      ensures !Accessible(old(posts), postId, userId) ==>
                res == Err(HttpError(404, PostNotFound)) && posts == old(posts)
      ensures Accessible(old(posts), postId, userId) && ImagesUnreadable(old(posts)[postId], u) ==>
                res == Err(HttpError(500, PostUpdateError)) && posts == old(posts)
      ensures Accessible(old(posts), postId, userId) && !ImagesUnreadable(old(posts)[postId], u) ==>
                var q := Updated(old(posts)[postId], u, UserCategory(SettingsOf(settings.records, userId)), storage.perm, now);
                if q == old(posts)[postId] then res == Err(HttpError(500, PostUpdateFailed)) && posts == old(posts)
                else res == Ok(postId) && posts == old(posts)[postId := q]
    {
      if !Accessible(posts, postId, userId) {
        return Err(HttpError(404, PostNotFound));
      }
      var p := posts[postId];
      if ImagesUnreadable(p, u) {
        return Err(HttpError(500, PostUpdateError));
      }
      var category := UserCategory(SettingsOf(settings.records, userId));
      var images := p.images;
      if u.images.Some? {
        var entries := MatchRequested(u.images.value, StoredItems(p.images), storage, now);
        images := ImageList(entries);
      }
      var q := p.(content := u.content.GetOr(p.content),
                  status := u.status.GetOr(p.status),
                  emotion := if u.emotion.Some? then u.emotion else p.emotion,
                  emoji := if u.emotion.Some? then Some(ResolveEmoji(u.emotion.value, category)) else p.emoji,
                  images := images);
      assert q == Updated(p, u, category, storage.perm, now);
      if q == p {
        return Err(HttpError(500, PostUpdateFailed));
      }
      posts := posts[postId := q];
      return Ok(postId);
    }

    /** The matching loop of update_post: for each requested name, the first
        stored entry with that name, or a new record. */
    static method MatchRequested(names: seq<string>, items: seq<StoredImage>, storage: ImageStorage, now: Timestamp)
      returns (entries: seq<StoredImage>)
      ensures entries == MatchImages(names, items, storage.perm, now)
    {
      entries := [];
      for j := 0 to |names|
        invariant entries == MatchImages(names[..j], items, storage.perm, now)
      {
        var name := names[j];
        var found: Option<StoredImage> := None;
        var i := 0;
        while i < |items|
          invariant 0 <= i <= |items|
          invariant found.None? ==> ExistingEntry(items, name, now) == ExistingEntry(items[i..], name, now)
          invariant found.Some? ==> found == ExistingEntry(items, name, now)
        {
          assert items[i..] == [items[i]] + items[i + 1..];
          match items[i] {
            case BareName(n) =>
              if n == name {
                found := Some(Record(ImageInfo(name, name, PermanentPath(name), 0, now)));
                break;
              }
            case Record(info) =>
              if info.filename == name {
                found := Some(items[i]);
                break;
              }
            case Dict(f, _, _, _, _) =>
              if f == Some(name) {
                found := Some(items[i]);
                break;
              }
            case Junk =>
          }
          i := i + 1;
        }
        var entry := if found.Some? then found.value
                     else Record(ImageInfo(name, name, PermanentPath(name), storage.FileInfo(name).GetOr(0), now));
        assert names[..j + 1] == names[..j] + [name];
        entries := entries + [entry];
      }
      assert names[..|names|] == names;
    }

    /** create_post. `postId` is the fresh uuid, `permNames` the fresh
        names the mover gives each promoted file, and `inserted` whether
        the insert reported an id. */
    method Create(storage: ImageStorage, settings: SettingsStore, userId: int, postId: string,
                  content: string, status: PostStatus, emotion: string, imageNames: seq<string>,
                  createdAt: Option<Timestamp>, now: Timestamp, permNames: seq<string>, inserted: bool)
      returns (res: Result<string>)
      requires Valid() && postId !in posts
      requires |permNames| == |imageNames| && Distinct(permNames)
      requires forall j :: 0 <= j < |permNames| ==> permNames[j] !in storage.perm
      modifies this, storage
      ensures Valid()
      ensures res.Ok? <==> PromotionSucceeds(imageNames, old(storage.temp)) && inserted
      ensures res.Ok? ==>
                res.value == postId &&
                posts == old(posts)[postId := Post(postId, userId, content, status, Some(emotion),
                  Some(ResolveEmoji(emotion, UserCategory(SettingsOf(settings.records, userId)))),
                  ImageList(Records(PromotedInfos(imageNames, permNames, old(storage.temp), createdAt.GetOr(now)))),
                  createdAt.GetOr(now))]
      ensures res.Err? ==> posts == old(posts)
      ensures storage.temp == old(storage.temp) - NameSet(imageNames)
      ensures !PromotionSucceeds(imageNames, old(storage.temp)) ==>
                res == Err(HttpError(404, ImageMoveFailed)) &&
                old(storage.perm).Keys <= storage.perm.Keys <= old(storage.perm).Keys + NameSet(permNames)
      ensures PromotionSucceeds(imageNames, old(storage.temp)) && !inserted ==>
                res == Err(HttpError(500, StorageFailed)) && storage.perm == old(storage.perm)
      ensures res.Ok? ==> Promoted(old(storage.perm), storage.perm, imageNames, permNames, old(storage.temp))
    {
      var t := createdAt.GetOr(now);
      var promoted := PromoteAll(storage, imageNames, permNames, t);
      if promoted.Err? {
        return Err(promoted.error);
      }
      var category := UserCategory(SettingsOf(settings.records, userId));
      var post := Post(postId, userId, content, status, Some(emotion), Some(ResolveEmoji(emotion, category)),
                       ImageList(Records(promoted.value)), t);
      if !inserted {
        DropPermanent(storage, promoted.value, permNames, old(storage.perm));
        return Err(HttpError(500, StorageFailed));
      }
      posts := posts[postId := post];
      return Ok(postId);
    }
  }

  /** The permanent folder after promoting every requested name: the old
      files plus one new file per name, of the moved file's size. */
  ghost predicate Promoted(perm0: map<string, nat>, perm: map<string, nat>, names: seq<string>,
                           perms: seq<string>, temp0: map<string, nat>)
    requires |perms| == |names| && forall j :: 0 <= j < |names| ==> names[j] in temp0
  {
    perm.Keys == perm0.Keys + NameSet(perms) &&
    (forall j :: 0 <= j < |perms| ==> perm[perms[j]] == temp0[names[j]]) &&
    (forall k :: k in perm0 ==> perm[k] == perm0[k])
  }

  /** The promotion loop of create_post. On the first failed move every
      requested temporary name is deleted and the error propagates; files
      already moved stay in the permanent folder. */
  method PromoteAll(storage: ImageStorage, names: seq<string>, perms: seq<string>, t: Timestamp)
    returns (res: Result<seq<ImageInfo>>)
    requires |perms| == |names| && Distinct(perms)
    requires forall j :: 0 <= j < |perms| ==> perms[j] !in storage.perm
    modifies storage
    ensures res.Ok? <==> PromotionSucceeds(names, old(storage.temp))
    ensures storage.temp == old(storage.temp) - NameSet(names)
    ensures res.Ok? ==> res.value == PromotedInfos(names, perms, old(storage.temp), t) &&
                        Promoted(old(storage.perm), storage.perm, names, perms, old(storage.temp))
    ensures res.Err? ==> res.error == HttpError(404, ImageMoveFailed) &&
                         old(storage.perm).Keys <= storage.perm.Keys <= old(storage.perm).Keys + NameSet(perms)
  {
    ghost var temp0 := storage.temp;
    ghost var perm0 := storage.perm;
    var infos: seq<ImageInfo> := [];
    var i := 0;
    while i < |names|
      invariant 0 <= i <= |names|
      invariant PromotionSucceeds(names[..i], temp0)
      invariant storage.temp == temp0 - NameSet(names[..i])
      invariant Promoted(perm0, storage.perm, names[..i], perms[..i], temp0)
      invariant infos == PromotedInfos(names[..i], perms[..i], temp0, t)
    {
      assert perms[i] !in NameSet(perms[..i]);
      ghost var permBefore := storage.perm;
      var moved := storage.Promote(names[i], perms[i]);
      if moved.Err? {
        assert !PromotionSucceeds(names, temp0) by {
          if names[i] in temp0 {
            assert names[i] in NameSet(names[..i]);
          }
        }
        RollBackTemp(storage, names);
        NameSetPrefix(names, i);
        MapMinusMinus(temp0, NameSet(names[..i]), NameSet(names));
        assert NameSet(names[..i]) + NameSet(names) == NameSet(names);
        NameSetPrefix(perms, i);
        return Err(moved.error);
      }
      var size := storage.FileInfo(perms[i]).GetOr(0);
      infos := infos + [ImageInfo(perms[i], names[i], PermanentPath(perms[i]), size, t)];
      PromoteStep(perm0, permBefore, storage.perm, names, perms, temp0, i, t);
      i := i + 1;
    }
    assert names[..i] == names && perms[..i] == perms;
    return Ok(infos);
  }

  lemma NameSetPrefix(s: seq<string>, i: int)
    requires 0 <= i <= |s|
    ensures NameSet(s[..i]) <= NameSet(s)
  {
    forall x | x in NameSet(s[..i]) ensures x in NameSet(s) {
      var j :| 0 <= j < i && s[..i][j] == x;
      assert s[j] == x;
    }
  }

  lemma MapMinusMinus(m: map<string, nat>, a: set<string>, b: set<string>)
    ensures (m - a) - b == m - (a + b)
  {
    assert ((m - a) - b).Keys == (m - (a + b)).Keys;
  }

  lemma NameSetSnoc(s: seq<string>, i: int)
    requires 0 <= i < |s|
    ensures NameSet(s[..i + 1]) == NameSet(s[..i]) + {s[i]}
  {
    assert s[..i + 1] == s[..i] + [s[i]];
  }

  /** One successful move extends the promoted prefix by one file. */
  lemma PromoteStep(perm0: map<string, nat>, permBefore: map<string, nat>, permAfter: map<string, nat>,
                    names: seq<string>, perms: seq<string>, temp0: map<string, nat>, i: int, t: Timestamp)
    requires 0 <= i < |names| == |perms|
    requires forall j :: 0 <= j <= i ==> names[j] in temp0
    requires perms[i] !in permBefore
    requires Promoted(perm0, permBefore, names[..i], perms[..i], temp0)
    requires permAfter == permBefore[perms[i] := temp0[names[i]]]
    ensures Promoted(perm0, permAfter, names[..i + 1], perms[..i + 1], temp0)
    ensures (temp0 - NameSet(names[..i])) - {names[i]} == temp0 - NameSet(names[..i + 1])
    ensures PromotedInfos(names[..i + 1], perms[..i + 1], temp0, t) ==
              PromotedInfos(names[..i], perms[..i], temp0, t) +
              [ImageInfo(perms[i], names[i], PermanentPath(perms[i]), temp0[names[i]], t)]
  {
    NameSetSnoc(perms, i);
    NameSetSnoc(names, i);
    MapMinusMinus(temp0, NameSet(names[..i]), {names[i]});
    assert names[..i + 1] == names[..i] + [names[i]];
    assert perms[..i + 1] == perms[..i] + [perms[i]];
  }

  /** The clean-up after a failed move: a temporary delete for every
      requested name. */
  method RollBackTemp(storage: ImageStorage, names: seq<string>)
    modifies storage`temp
    ensures storage.temp == old(storage.temp) - NameSet(names)
  {
    for k := 0 to |names|
      invariant storage.temp == old(storage.temp) - NameSet(names[..k])
    {
      var _ := storage.DeleteTemp(names[k]);
      assert names[..k + 1] == names[..k] + [names[k]];
      assert NameSet(names[..k + 1]) == NameSet(names[..k]) + {names[k]};
    }
    assert names[..|names|] == names;
  }

  /** The clean-up after a failed insert: every promoted file is deleted,
      which restores the permanent folder. */
  method DropPermanent(storage: ImageStorage, infos: seq<ImageInfo>, perms: seq<string>, ghost perm0: map<string, nat>)
    requires |infos| == |perms| && forall j :: 0 <= j < |infos| ==> infos[j].filename == perms[j]
    requires storage.perm.Keys == perm0.Keys + NameSet(perms) && NameSet(perms) !! perm0.Keys
    requires forall k :: k in perm0 ==> storage.perm[k] == perm0[k]
    modifies storage`perm
    ensures storage.perm == perm0
  {
    ghost var permFull := storage.perm;
    for j := 0 to |infos|
      invariant storage.perm == permFull - NameSet(perms[..j])
    {
      var _ := storage.DeletePermanent(infos[j].filename);
      assert perms[..j + 1] == perms[..j] + [perms[j]];
      assert NameSet(perms[..j + 1]) == NameSet(perms[..j]) + {perms[j]};
    }
    assert perms[..|infos|] == perms;
    assert storage.perm.Keys == perm0.Keys;
  }

  // ---------------------------------------------------------------------
  // Properties

  /** An update writes only the fields it sets; setting the emotion also
      recomputes the emoji; setting the images rebuilds the list from the
      requested names; the id, owner and creation time never change. */
  lemma UpdatedFields(p: Post, u: PostUpdate, category: string, perm: map<string, nat>, now: Timestamp)
    requires !ImagesUnreadable(p, u)
    ensures var q := Updated(p, u, category, perm, now);
      q.postId == p.postId && q.userId == p.userId && q.createdAt == p.createdAt &&
      (u.content.None? ==> q.content == p.content) &&
      (u.status.None? ==> q.status == p.status) &&
      (u.emotion.None? ==> q.emotion == p.emotion && q.emoji == p.emoji) &&
      (u.emotion.Some? ==> q.emotion == u.emotion && q.emoji == Some(ResolveEmoji(u.emotion.value, category))) &&
      (u.images.None? ==> q.images == p.images) &&
      (u.images.Some? ==> q.images.ImageList? && |q.images.items| == |u.images.value| &&
                          forall j :: 0 <= j < |u.images.value| ==> EntryName(q.images.items[j]) == Some(u.images.value[j]))
  {
  }

  /** Setting the images to [] adds the key to a document that has none, so
      the update changes the document; on a document that already stores []
      the same update changes nothing. */
  lemma EmptyImagesAddMissingKey(p: Post, category: string, perm: map<string, nat>, now: Timestamp)
    ensures p.images.Missing? ==>
              Updated(p, PostUpdate(None, None, None, Some([])), category, perm, now) == p.(images := ImageList([])) &&
              Updated(p, PostUpdate(None, None, None, Some([])), category, perm, now) != p
    ensures p.images == ImageList([]) ==>
              Updated(p, PostUpdate(None, None, None, Some([])), category, perm, now) == p
  {
  }

  /** A requested name reuses the first stored entry that matches it: a
      dictionary as it is stored, even one missing keys, and a bare name as
      a synthesized record. */
  lemma {:induction false} MatchReusesRecord(items: seq<StoredImage>, k: int, name: string, now: Timestamp)
    requires 0 <= k < |items| && Matches(items[k], name)
    requires forall j :: 0 <= j < k ==> !Matches(items[j], name)
    ensures ExistingEntry(items, name, now) == Some(Reused(items[k], name, now))
  {
    if k > 0 {
      assert forall j :: 0 <= j < k - 1 ==> items[1..][j] == items[j + 1];
      MatchReusesRecord(items[1..], k - 1, name, now);
    }
  }

  /** A requested name with no stored entry gets a new record whose size
      comes from the permanent folder, or 0 when the file is not there. */
  lemma NewNameGetsFreshRecord(names: seq<string>, items: seq<StoredImage>, perm: map<string, nat>, now: Timestamp, j: int)
    requires 0 <= j < |names|
    requires forall k :: 0 <= k < |items| ==> !Matches(items[k], names[j])
    ensures MatchImages(names, items, perm, now)[j] ==
              Record(ImageInfo(names[j], names[j], PermanentPath(names[j]), if names[j] in perm then perm[names[j]] else 0, now))
  {
  }

  /** A listed row shows every stored dictionary, in order, when the list
      holds nothing else. */
  lemma {:induction false} ListedImagesInOrder(items: seq<StoredImage>)
    requires forall k :: 0 <= k < |items| ==> items[k].Record? || items[k].Dict?
    ensures |ListedImages(items)| == |items|
    ensures forall i :: 0 <= i < |items| ==> Some(ListedImages(items)[i]) == Shown(items[i])
  {
    if items != [] {
      ListedImagesInOrder(items[1..]);
      assert forall i :: 1 <= i < |items| ==> items[1..][i - 1] == items[i];
    }
  }

  /** A dictionary missing a key is listed with that key's default but makes
      the detail view fail. */
  lemma PartialDictListedButNotDetailed(f: string, t: Timestamp)
    ensures var x := Dict(Some(f), None, None, Some(3), Some(t));
      ListedImages([x]) == [ShownImage(f, "", "", 3, Some(t))] &&
      DetailImages(ImageList([x])).None?
  {
    var x := Dict(Some(f), None, None, Some(3), Some(t));
    assert [x][1..] == [];
  }
}

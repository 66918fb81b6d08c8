/** The user-settings record (backend/models/user_settings.py) and the store
    behind the settings routes (backend/routes/user_settings.py).

    The collection is a map from user id to that user's record: every route
    reads and writes the record by `user_id`, and the first record for an id
    is the one every later read and write sees. */
module Settings {
  import opened Common
  import opened Emoji

  /** One stored settings document. `id`, `lastCategory`, `createdAt` and
      `updatedAt` may be absent from a document; only `userId` is required. */
  datatype UserSettings = UserSettings(
    id: Option<int>,
    userId: int,
    emoticonEnabled: bool,
    voiceEnabled: bool,
    voiceVolume: int,
    categories: map<string, seq<string>>,
    lastCategory: Option<string>,
    createdAt: Option<Timestamp>,
    updatedAt: Option<Timestamp>)
  {
    /** The category a response reports: the model's default "shape" when the
        document has none. */
    function ShownCategory(): (c: string)
      ensures lastCategory.Some? ==> c == lastCategory.value
      ensures lastCategory.None? ==> c == "shape"
    {
      lastCategory.GetOr("shape")
    }
  }

  /** UserSettingsUpdate: every field optional; None means "leave unchanged". */
  datatype SettingsUpdate = SettingsUpdate(
    emoticonEnabled: Option<bool>,
    voiceEnabled: Option<bool>,
    voiceVolume: Option<int>,
    categories: Option<map<string, seq<string>>>,
    lastCategory: Option<string>)

  const EmptyUpdate := SettingsUpdate(None, None, None, None, None)

  /** UserSettings(user_id=u): the model's field defaults. */
  function ModelDefaults(userId: int): (r: UserSettings)
    ensures r.userId == userId && r.id.None? && r.createdAt.None? && r.updatedAt.None?
    ensures r.emoticonEnabled && r.voiceEnabled && r.voiceVolume == 50
    ensures r.categories == DefaultCatalog && r.lastCategory == Some("shape")
  {
    UserSettings(None, userId, true, true, 50, DefaultCatalog, Some("shape"), None, None)
  }

  /** The record get_user_settings inserts on first read. */
  function LazyDefault(id: int, userId: int, now: Timestamp): UserSettings {
    ModelDefaults(userId).(id := Some(id), createdAt := Some(now), updatedAt := Some(now))
  }

  /** update_user_settings on an existing record: the fields given in the
      request, plus the refreshed timestamp. */
  function Merge(r: UserSettings, u: SettingsUpdate, now: Timestamp): UserSettings {
    r.(emoticonEnabled := u.emoticonEnabled.GetOr(r.emoticonEnabled),
       voiceEnabled := u.voiceEnabled.GetOr(r.voiceEnabled),
       voiceVolume := u.voiceVolume.GetOr(r.voiceVolume),
       categories := u.categories.GetOr(r.categories),
       lastCategory := if u.lastCategory.Some? then u.lastCategory else r.lastCategory,
       updatedAt := Some(now))
  }

  /** update_user_settings with no record: given values or defaults. The
      categories are taken only when the given map is non-empty (Python
      truthiness), and the last selected category is never stored. */
  function CreateFromUpdate(id: int, userId: int, u: SettingsUpdate, now: Timestamp): UserSettings {
    UserSettings(
      Some(id), userId,
      u.emoticonEnabled.GetOr(true),
      u.voiceEnabled.GetOr(true),
      u.voiceVolume.GetOr(50),
      if u.categories.Some? && |u.categories.value| > 0 then u.categories.value else DefaultCatalog,
      None, Some(now), Some(now))
  }

  /** reset_user_settings: an upsert of the default flags, volume and
      catalog plus the timestamp. An upserted document has no id, no
      creation time and no last category. */
  function ResetRecord(prev: Option<UserSettings>, userId: int, now: Timestamp): UserSettings {
    match prev
    case Some(r) =>
      r.(emoticonEnabled := true, voiceEnabled := true, voiceVolume := 50,
         categories := DefaultCatalog, updatedAt := Some(now))
    case None =>
      UserSettings(None, userId, true, true, 50, DefaultCatalog, None, None, Some(now))
  }

  // ---------------------------------------------------------------------
  // Authentication

  /** get_current_user_id: the id the token carries, or 401. */
  function CurrentUserId(tokenUserId: Option<int>): (r: Result<int>)
    ensures r.Ok? <==> tokenUserId.Some?
    ensures r.Ok? ==> r.value == tokenUserId.value
    ensures r.Err? ==> r.error == HttpError(401, AuthFailed)
  {
    match tokenUserId
    case Some(u) => Ok(u)
    case None => Err(HttpError(401, AuthFailed))
  }

  // ---------------------------------------------------------------------
  // Category validation

  /** The body of PUT /emoticon-categories, in the order its keys arrive. */
  type CategoryRequest = seq<(string, seq<string>)>

  predicate DistinctKeys(req: CategoryRequest) {
    forall i, j :: 0 <= i < j < |req| ==> req[i].0 != req[j].0
  }

  predicate AcceptableEntry(entry: (string, seq<string>)) {
    entry.0 in CategoryNames && |entry.1| <= 5
  }

  /** The 400 raised by the first entry that fails validation, if any. */
  function CategoryProblem(req: CategoryRequest): (e: Option<HttpError>)
    ensures e.Some? ==> e.value.status == 400
  {
    if req == [] then None
    else if req[0].0 !in CategoryNames then Some(HttpError(400, UnknownCategory(req[0].0)))
    else if |req[0].1| > 5 then Some(HttpError(400, TooManyEmoticons(req[0].0)))
    else CategoryProblem(req[1..])
  }

  /** Validation passes exactly when every key is a known category with at
      most five emoticons; a failure names an offending key of the request. */
  lemma {:induction false} CategoryProblemIff(req: CategoryRequest)
    ensures CategoryProblem(req).None? <==> forall i :: 0 <= i < |req| ==> AcceptableEntry(req[i])
    ensures CategoryProblem(req).Some? ==>
              exists i :: 0 <= i < |req| && !AcceptableEntry(req[i]) &&
                (CategoryProblem(req).value.reason == UnknownCategory(req[i].0) ||
                 CategoryProblem(req).value.reason == TooManyEmoticons(req[i].0))
  {
    if req != [] && AcceptableEntry(req[0]) {
      CategoryProblemIff(req[1..]);
      if CategoryProblem(req).Some? {
        var i :| 0 <= i < |req[1..]| && !AcceptableEntry(req[1..][i]) &&
                 (CategoryProblem(req).value.reason == UnknownCategory(req[1..][i].0) ||
                  CategoryProblem(req).value.reason == TooManyEmoticons(req[1..][i].0));
        assert req[i + 1] == req[1..][i];
      } else {
        forall i | 0 <= i < |req| ensures AcceptableEntry(req[i]) {
          if i > 0 { assert req[i] == req[1..][i - 1]; }
        }
      }
    }
  }

  /** The validation loop of update_emoticon_categories. */
  method ValidateCategories(req: CategoryRequest) returns (problem: Option<HttpError>)
    ensures problem == CategoryProblem(req)
  {
    var i := 0;
    while i < |req|
      invariant 0 <= i <= |req|
      invariant CategoryProblem(req) == CategoryProblem(req[i..])
    {
      var (key, emoticons) := req[i];
      assert req[i..][0] == req[i] && req[i..][1..] == req[i + 1..];
      if key !in CategoryNames {
        return Some(HttpError(400, UnknownCategory(key)));
      }
      if |emoticons| > 5 {
        return Some(HttpError(400, TooManyEmoticons(key)));
      }
      i := i + 1;
    }
    return None;
  }

  /** The request body as the dictionary that gets stored. */
  function ToMap(req: CategoryRequest): (m: map<string, seq<string>>)
    requires DistinctKeys(req)
    ensures m.Keys == set i | 0 <= i < |req| :: req[i].0
    ensures forall i :: 0 <= i < |req| ==> m[req[i].0] == req[i].1
  {
    if req == [] then map[]
    else
      var rest := ToMap(req[1..]);
      assert forall i :: 1 <= i < |req| ==> req[1..][i - 1] == req[i];
      assert rest.Keys == set i | 1 <= i < |req| :: req[i].0;
      rest[req[0].0 := req[0].1]
  }

  /** The record update_emoticon_categories creates when there is none. */
  function CategoryRecord(id: int, userId: int, categories: map<string, seq<string>>, now: Timestamp): UserSettings {
    UserSettings(Some(id), userId, true, true, 50, categories, None, Some(now), Some(now))
  }

  // ---------------------------------------------------------------------
  // The store

  class SettingsStore {
    /** The user_settings collection, by user id. */
    var records: map<int, UserSettings>
    /** The next value of get_next_setting_id. */
    var nextId: int

    ghost predicate Valid()
      reads this
    {
      forall u :: u in records ==> records[u].userId == u
    }

    constructor ()
      ensures Valid() && records == map[]
    {
      records := map[];
      nextId := 1;
    }

    /** get_user_settings: an existing record is returned unchanged; with no
        record, the default one is inserted and returned. */
    method Get(userId: int, now: Timestamp) returns (r: UserSettings)
      requires Valid()
      modifies this
      ensures Valid() && r.userId == userId
      ensures userId in old(records) ==>
                r == old(records)[userId] && records == old(records) && nextId == old(nextId)
      ensures userId !in old(records) ==>
                r == LazyDefault(old(nextId), userId, now) &&
                records == old(records)[userId := r] && nextId == old(nextId) + 1
    {
      if userId in records {
        r := records[userId];
      } else {
        r := LazyDefault(nextId, userId, now);
        nextId := nextId + 1;
        records := records[userId := r];
      }
    }

    /** update_user_settings. */
    method Update(userId: int, u: SettingsUpdate, now: Timestamp) returns (r: UserSettings)
      requires Valid()
      modifies this
      ensures Valid() && r.userId == userId && records == old(records)[userId := r]
      ensures userId in old(records) ==> r == Merge(old(records)[userId], u, now) && nextId == old(nextId)
      ensures userId !in old(records) ==>
                r == CreateFromUpdate(old(nextId), userId, u, now) && nextId == old(nextId) + 1
    {
      if userId !in records {
        r := CreateFromUpdate(nextId, userId, u, now);
        nextId := nextId + 1;
      } else {
        r := Merge(records[userId], u, now);
      }
      records := records[userId := r];
    }

    /** update_emoticon_categories: validation first, then a whole-map
        replacement (or a new record). */
    method UpdateCategories(userId: int, req: CategoryRequest, now: Timestamp) returns (res: Result<UserSettings>)
      requires Valid() && DistinctKeys(req)
      modifies this
      ensures Valid()
      ensures CategoryProblem(req).Some? ==>
                res == Err(CategoryProblem(req).value) && records == old(records) && nextId == old(nextId)
      ensures CategoryProblem(req).None? && userId in old(records) ==>
                res == Ok(old(records)[userId].(categories := ToMap(req), updatedAt := Some(now))) &&
                records == old(records)[userId := res.value] && nextId == old(nextId)
      ensures CategoryProblem(req).None? && userId !in old(records) ==>
                res == Ok(CategoryRecord(old(nextId), userId, ToMap(req), now)) &&
                records == old(records)[userId := res.value] && nextId == old(nextId) + 1
    {
      var problem := ValidateCategories(req);
      if problem.Some? {
        return Err(problem.value);
      }
      var r;
      if userId !in records {
        r := CategoryRecord(nextId, userId, ToMap(req), now);
        nextId := nextId + 1;
      } else {
        r := records[userId].(categories := ToMap(req), updatedAt := Some(now));
      }
      records := records[userId := r];
      return Ok(r);
    }

    /** reset_user_settings. */
    method Reset(userId: int, now: Timestamp) returns (r: UserSettings)
      requires Valid()
      modifies this`records
      ensures Valid()
      ensures r == ResetRecord(if userId in old(records) then Some(old(records)[userId]) else None, userId, now)
      ensures records == old(records)[userId := r]
    {
      r := ResetRecord(if userId in records then Some(records[userId]) else None, userId, now);
      records := records[userId := r];
    }

    /** The default record register inserts for a new user. A record already
        stored for that id stays the one every route sees. */
    method InsertRegistrationDefaults(userId: int, now: Timestamp)
      requires Valid()
      modifies this`records
      ensures Valid()
      ensures userId in old(records) ==> records == old(records)
      ensures userId !in old(records) ==>
                records == old(records)[userId := ModelDefaults(userId).(createdAt := Some(now), updatedAt := Some(now))]
    {
      if userId !in records {
        records := records[userId := ModelDefaults(userId).(createdAt := Some(now), updatedAt := Some(now))];
      }
    }
  }

  // ---------------------------------------------------------------------
  // Properties

  /** The lazily created record is the model's default record apart from its
      id and timestamps. */
  lemma LazyDefaultIsModelDefault(id: int, userId: int, now: Timestamp)
    ensures var r := LazyDefault(id, userId, now);
      r.emoticonEnabled && r.voiceEnabled && r.voiceVolume == 50 &&
      r.categories == DefaultCatalog && r.ShownCategory() == "shape" &&
      r.id == Some(id) && r.createdAt == Some(now) && r.updatedAt == Some(now)
  {
  }

  /** Merging writes exactly the fields the request sets and refreshes the
      timestamp; identity, owner and creation time never change. */
  lemma MergeFields(r: UserSettings, u: SettingsUpdate, now: Timestamp)
    ensures var m := Merge(r, u, now);
      m.id == r.id && m.userId == r.userId && m.createdAt == r.createdAt && m.updatedAt == Some(now) &&
      (u.emoticonEnabled.None? ==> m.emoticonEnabled == r.emoticonEnabled) &&
      (u.emoticonEnabled.Some? ==> m.emoticonEnabled == u.emoticonEnabled.value) &&
      (u.voiceEnabled.None? ==> m.voiceEnabled == r.voiceEnabled) &&
      (u.voiceEnabled.Some? ==> m.voiceEnabled == u.voiceEnabled.value) &&
      (u.voiceVolume.None? ==> m.voiceVolume == r.voiceVolume) &&
      (u.voiceVolume.Some? ==> m.voiceVolume == u.voiceVolume.value) &&
      (u.categories.None? ==> m.categories == r.categories) &&
      (u.categories.Some? ==> m.categories == u.categories.value) &&
      (u.lastCategory.None? ==> m.lastCategory == r.lastCategory) &&
      (u.lastCategory.Some? ==> m.lastCategory == u.lastCategory)
  {
  }

  /** An update with no field set only refreshes the timestamp. */
  lemma EmptyUpdateOnlyTouchesTimestamp(r: UserSettings, now: Timestamp)
    ensures Merge(r, EmptyUpdate, now) == r.(updatedAt := Some(now))
  {
  }

  /** Applying the same update twice is the same as applying it once. */
  lemma MergeIdempotent(r: UserSettings, u: SettingsUpdate, t1: Timestamp, t2: Timestamp)
    ensures Merge(Merge(r, u, t1), u, t2) == Merge(r, u, t2)
  {
  }

  /** An empty categories map is stored as given on an existing record but
      replaced by the catalog when the update creates the record. */
  lemma EmptyCategoriesDiffer(r: UserSettings, id: int, userId: int, u: SettingsUpdate, now: Timestamp)
    requires u.categories == Some(map[])
    ensures Merge(r, u, now).categories == map[]
    ensures CreateFromUpdate(id, userId, u, now).categories == DefaultCatalog
    ensures CreateFromUpdate(id, userId, u, now).lastCategory.None?
  {
  }

  /** Reset keeps the last selected category and restores the defaults;
      resetting twice gives the record of the second reset alone. */
  lemma ResetProperties(prev: Option<UserSettings>, userId: int, t1: Timestamp, t2: Timestamp)
    requires prev.Some? ==> prev.value.userId == userId
    ensures var r := ResetRecord(prev, userId, t1);
      r.userId == userId && r.emoticonEnabled && r.voiceEnabled && r.voiceVolume == 50 &&
      r.categories == DefaultCatalog && r.updatedAt == Some(t1) &&
      r.lastCategory == (if prev.Some? then prev.value.lastCategory else None)
    ensures ResetRecord(Some(ResetRecord(prev, userId, t1)), userId, t2) == ResetRecord(prev, userId, t2)
  {
  }
}

/** The one-off emoticon migration (backend/migrate_emoticons.py): every
    stored settings document whose known categories still hold a plain emoji
    (a string that is not a URL) gets the five-URL table written over its
    whole emoticon_categories field. */
module Migration {
  import opened Common
  import opened Emoji

  /** NEW_EMOTICON_CATEGORIES: the first five URLs of each catalog list. */
  const NewEmoticonCategories: map<string, seq<string>> :=
    map["shape" := [ShapeNeutral, ShapeExcited, ShapeConfident, ShapeAngry, ShapeDetermined],
        "fruit" := [FruitNeutral, FruitHappy, FruitCalm, FruitLove, FruitExcited],
        "animal" := [AnimalNeutral, AnimalHappy, AnimalCalm, AnimalLove, AnimalExcited],
        "weather" := [WeatherNeutral, WeatherHappy, WeatherCalm, WeatherLove, WeatherExcited]]

  lemma HttpsIsHttp(s: string)
    requires StartsWith(s, "https://")
    ensures StartsWith(s, "http")
  {
    assert s[..4] == s[..8][..4];
  }

  /** The table has the four category keys, and each list is the first five
      entries of that category's catalog list, all of them URLs. */
  lemma NewTableShape(c: Category)
    ensures NewEmoticonCategories.Keys == CategoryNames
    ensures c.Name() in NewEmoticonCategories
    ensures NewEmoticonCategories[c.Name()] == CatalogList(c)[..5]
    ensures forall u :: u in NewEmoticonCategories[c.Name()] ==> StartsWith(u, "http")
  {
    forall u | u in NewEmoticonCategories[c.Name()] ensures StartsWith(u, "http") {
      assert StartsWith(u, "https://");
      HttpsIsHttp(u);
    }
  }

  // ---------------------------------------------------------------------
  // Stored documents, as the script sees them

  /** An element of a stored category list. */
  datatype Entry = Str(text: string) | NonString

  /** The value stored under a category key. */
  datatype CategoryValue = ListValue(items: seq<Entry>) | NonList

  /** The emoticon_categories field: absent (read as an empty dict), a dict
      (its items in order), or something else, on which .items() raises. */
  datatype CategoriesField = Missing | Dict(entries: seq<(string, CategoryValue)>) | Malformed

  datatype SettingsDoc = SettingsDoc(oid: int, userId: Option<int>, categories: CategoriesField,
                                     updatedAt: Option<Timestamp>)

  /** A plain emoji: a string entry that does not start with "http". */
  predicate NonUrlEntry(e: Entry) {
    e.Str? && !StartsWith(e.text, "http")
  }

  /** A non-empty list holding a plain emoji. */
  predicate ListNeedsUpdate(v: CategoryValue) {
    v.ListValue? && v.items != [] && exists j :: 0 <= j < |v.items| && NonUrlEntry(v.items[j])
  }

  /** needs_update: some key of the table maps to a list with a plain emoji;
      unknown keys, non-list values and non-string entries never count. */
  predicate EntriesNeedUpdate(entries: seq<(string, CategoryValue)>) {
    exists i :: 0 <= i < |entries| && entries[i].0 in CategoryNames && ListNeedsUpdate(entries[i].1)
  }

  predicate NeedsUpdate(d: SettingsDoc) {
    d.categories.Dict? && EntriesNeedUpdate(d.categories.entries)
  }

  /** The needs_update scan: an outer loop over the items and an inner loop
      over a known category's list, each left by break once a plain emoji is
      found. */
  method ScanNeedsUpdate(entries: seq<(string, CategoryValue)>) returns (needs: bool)
    ensures needs == EntriesNeedUpdate(entries)
  {
    needs := false;
    var i := 0;
    while i < |entries|
      invariant 0 <= i <= |entries|
      invariant !needs
      invariant forall k :: 0 <= k < i ==> !(entries[k].0 in CategoryNames && ListNeedsUpdate(entries[k].1))
    {
      var (category, value) := entries[i];
      if category in CategoryNames && value.ListValue? && value.items != [] {
        var j := 0;
        while j < |value.items|
          invariant 0 <= j <= |value.items|
          invariant !needs
          invariant forall m :: 0 <= m < j ==> !NonUrlEntry(value.items[m])
        {
          if NonUrlEntry(value.items[j]) {
            needs := true;
            break;
          }
          j := j + 1;
        }
        if needs {
          assert ListNeedsUpdate(entries[i].1);
          break;
        }
      }
      i := i + 1;
    }
  }

  /** A list of URLs as stored list entries. */
  function AsEntries(urls: seq<string>): (items: seq<Entry>)
    ensures |items| == |urls|
    ensures forall j :: 0 <= j < |items| ==> items[j] == Str(urls[j])
  {
    seq(|urls|, j requires 0 <= j < |urls| => Str(urls[j]))
  }

  /** The table as the dict items the update writes. */
  function NewEntries(): (entries: seq<(string, CategoryValue)>)
    ensures forall k :: 0 <= k < |entries| ==>
              (entries[k].0 in NewEmoticonCategories &&
               entries[k].1 == ListValue(AsEntries(NewEmoticonCategories[entries[k].0])))
  {
    var t := NewEmoticonCategories;
    [("shape", ListValue(AsEntries(t["shape"]))), ("fruit", ListValue(AsEntries(t["fruit"]))),
     ("animal", ListValue(AsEntries(t["animal"]))), ("weather", ListValue(AsEntries(t["weather"])))]
  }

  /** Every list of the table holds only URLs. */
  lemma NewTableUrls(name: string)
    requires name in NewEmoticonCategories
    ensures forall u :: u in NewEmoticonCategories[name] ==> StartsWith(u, "http")
  {
    var c := CategoryOrShape(name);
    NewTableShape(c);
  }

  /** After the rewrite, nothing needs an update any more. */
  lemma NewEntriesAreCurrent()
    ensures !EntriesNeedUpdate(NewEntries())
  {
    var entries := NewEntries();
    forall k | 0 <= k < |entries| ensures !ListNeedsUpdate(entries[k].1) {
      var list := NewEmoticonCategories[entries[k].0];
      NewTableUrls(entries[k].0);
      forall j | 0 <= j < |list| ensures !NonUrlEntry(AsEntries(list)[j]) {
        assert list[j] in list;
      }
    }
  }

  /** The update_one of a document that needs it: the whole categories field
      is replaced by the table and updated_at is refreshed; a document that
      does not need it is not written. */
  function Migrated(d: SettingsDoc, now: Timestamp): (m: SettingsDoc)
    ensures m.oid == d.oid && m.userId == d.userId
  {
    if NeedsUpdate(d) then d.(categories := Dict(NewEntries()), updatedAt := Some(now)) else d
  }

  /** A migrated document never needs another update; the write changes
      exactly the documents that needed it. */
  lemma MigratedIsCurrent(d: SettingsDoc, now: Timestamp)
    ensures !NeedsUpdate(Migrated(d, now))
    ensures NeedsUpdate(d) ==> Migrated(d, now) != d && Migrated(d, now).categories == Dict(NewEntries()) &&
                               Migrated(d, now).updatedAt == Some(now)
    ensures !NeedsUpdate(d) ==> Migrated(d, now) == d
  {
    NewEntriesAreCurrent();
  }

  /** The number of documents among ds that need an update. */
  function CountNeeding(ds: seq<SettingsDoc>): (n: nat)
    ensures n <= |ds|
  {
    if ds == [] then 0
    else CountNeeding(ds[..|ds| - 1]) + (if NeedsUpdate(ds[|ds| - 1]) then 1 else 0)
  }

  /** Counting one more document adds one exactly when it needs an update. */
  lemma CountNeedingStep(ds: seq<SettingsDoc>, i: nat)
    requires i < |ds|
    ensures CountNeeding(ds[..i + 1]) == CountNeeding(ds[..i]) + if NeedsUpdate(ds[i]) then 1 else 0
  {
    assert ds[..i + 1][..i] == ds[..i];
  }

  /** The index of the first document whose categories field makes .items()
      raise, or |ds|. */
  function FirstMalformed(ds: seq<SettingsDoc>): (k: nat)
    ensures k <= |ds|
    ensures k < |ds| ==> ds[k].categories.Malformed?
    ensures forall j :: 0 <= j < k ==> !ds[j].categories.Malformed?
  {
    if ds == [] then 0
    else if ds[0].categories.Malformed? then 0
    else FirstMalformed(ds[1..]) + 1
  }

  /** One document of the loop: scanned and, if it needs it, written with
      update_one; modified tells whether the write changed the document. */
  method MigrateOne(d: SettingsDoc, now: Timestamp) returns (written: SettingsDoc, modified: bool)
    requires !d.categories.Malformed?
    ensures written == Migrated(d, now)
    ensures modified <==> NeedsUpdate(d)
  {
    var needs := false;
    if d.categories.Dict? {
      needs := ScanNeedsUpdate(d.categories.entries);
    }
    written, modified := d, false;
    MigratedIsCurrent(d, now);
    if needs {
      written := Migrated(d, now);
      modified := written != d;
    }
  }

  /** The migration loop over the documents in cursor order: each document
      before the first malformed one is scanned and, if it needs it, written;
      the loop stops at a malformed one. clock[j] is the reading of the
      clock taken when document j is written. */
  method MigrateAll(ds: seq<SettingsDoc>, clock: seq<Timestamp>) returns (out: seq<SettingsDoc>, updatedCount: nat, aborted: bool)
    requires |clock| == |ds|
    ensures aborted <==> FirstMalformed(ds) < |ds|
    ensures |out| == |ds|
    ensures forall j :: 0 <= j < FirstMalformed(ds) ==> out[j] == Migrated(ds[j], clock[j])
    ensures forall j :: FirstMalformed(ds) <= j < |ds| ==> out[j] == ds[j]
    ensures updatedCount == CountNeeding(ds[..FirstMalformed(ds)])
  {
    var stop := FirstMalformed(ds);
    out := ds;
    updatedCount := 0;
    aborted := false;
    var i := 0;
    while i < |ds|
      invariant 0 <= i <= stop
      invariant |out| == |ds|
      invariant forall j :: 0 <= j < i ==> out[j] == Migrated(ds[j], clock[j])
      invariant forall j :: i <= j < |ds| ==> out[j] == ds[j]
      invariant updatedCount == CountNeeding(ds[..i])
    {
      var d := ds[i];
      if d.categories.Malformed? {
        aborted := true;
        break;
      }
      var written, modified := MigrateOne(d, clock[i]);
      CountNeedingStep(ds, i);
      out := out[i := written];
      if modified {
        updatedCount := updatedCount + 1;
      }
      i := i + 1;
    }
  }

  /** The user_settings collection in cursor order. */
  class SettingsCollection {
    var docs: seq<SettingsDoc>

    constructor (initial: seq<SettingsDoc>)
      ensures docs == initial
    {
      docs := initial;
    }

    /** migrate_emoticons: every document before the first malformed one
        (all of them when there is none) is migrated, the rest are left as
        they were, and the run is aborted at a malformed one. updated_count
        counts the writes that modified a document, which are exactly the
        documents that needed an update. clock[j] is the reading taken when
        document j is written. */
    method Migrate(clock: seq<Timestamp>) returns (updatedCount: nat, aborted: bool)
      requires |clock| == |docs|
      modifies this
      ensures aborted <==> FirstMalformed(old(docs)) < |old(docs)|
      ensures |docs| == |old(docs)|
      ensures forall j :: 0 <= j < FirstMalformed(old(docs)) ==> docs[j] == Migrated(old(docs)[j], clock[j])
      ensures forall j :: FirstMalformed(old(docs)) <= j < |docs| ==> docs[j] == old(docs)[j]
      ensures updatedCount == CountNeeding(old(docs)[..FirstMalformed(old(docs))])
      ensures updatedCount <= |old(docs)|
    {
      var out;
      out, updatedCount, aborted := MigrateAll(docs, clock);
      docs := out;
    }
  }
}

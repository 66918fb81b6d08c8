/** Emoji resolution (backend/post/routes/posts.py) and the default emoticon
    catalog of the settings model (backend/models/user_settings.py).

    Every emoji is a Firebase download URL; the model builds each from its
    storage folder, file stem and access token, keeping those three parts
    exactly as the source spells them (including the "wheather" folder and the
    doubled underscore of two animal stems). */
module Emoji {
  import opened Common

  /** EmotionType: the four emoji categories. */
  datatype Category = Shape | Fruit | Animal | Weather {
    function Name(): string {
      match this
      case Shape => "shape"
      case Fruit => "fruit"
      case Animal => "animal"
      case Weather => "weather"
    }
  }

  const CategoryNames: set<string> := {"shape", "fruit", "animal", "weather"}

  /** The category a stored or requested name denotes, if any. */
  function ParseCategory(s: string): (r: Option<Category>)
    ensures r.Some? <==> s in CategoryNames
    ensures r.Some? ==> r.value.Name() == s
  {
    if s == "shape" then Some(Shape)
    else if s == "fruit" then Some(Fruit)
    else if s == "animal" then Some(Animal)
    else if s == "weather" then Some(Weather)
    else None
  }

  /** The category enumeration has exactly four members, and names and
      members correspond one to one. */
  lemma CategoryNamesExact(c: Category)
    ensures c.Name() in CategoryNames && ParseCategory(c.Name()) == Some(c)
    ensures forall s :: s in CategoryNames ==> exists d: Category :: d.Name() == s
  {
    assert Shape.Name() == "shape" && Fruit.Name() == "fruit";
    assert Animal.Name() == "animal" && Weather.Name() == "weather";
  }

  /** The twelve emotion labels every category table knows. */
  const EmotionLabels: set<string> :=
    {"angry", "anxious", "calm", "confident", "confused", "determined",
     "excited", "happy", "love", "neutral", "sad", "touched"}

  /** Bucket path of the Firebase storage the emoji images live in. */
  const FirebaseBucket := "firebasestorage.googleapis.com/v0/b/diary-3bbf7.firebasestorage.app/o/"

  function EmojiUrl(folder: string, stem: string, token: string): (url: string)
    ensures StartsWith(url, "https://")
  {
    var rest := FirebaseBucket + folder + "%2F" + stem + "-removebg-preview.png?alt=media&token=" + token;
    StartsWithConcat("https://", rest, "https://");
    "https://" + rest
  }

  const ShapeNeutral := EmojiUrl("shape", "neutral_shape", "02e85132-3a83-4257-8c1e-d2e478c7fcf5")
  const ShapeExcited := EmojiUrl("shape", "excited_shape", "85fadfb8-7006-44d0-a39d-b3fd6070bb96")
  const ShapeConfident := EmojiUrl("shape", "confident_shape", "8ab02bc8-8569-42ff-b78d-b9527f15d0af")
  const ShapeAngry := EmojiUrl("shape", "angry_shape", "92a25f79-4c1d-4b5d-9e5c-2f469e56cefa")
  const ShapeDetermined := EmojiUrl("shape", "determined_shape", "69eb4cf0-ab61-4f5e-add3-b2148dc2a108")
  const ShapeHappy := EmojiUrl("shape", "happy_shape", "5a8aa9dd-6ea5-4132-95af-385340846076")
  const ShapeCalm := EmojiUrl("shape", "calm_shape", "cdc2fa85-10b7-46f6-881c-dd874c38b3ea")
  const ShapeLove := EmojiUrl("shape", "love_shape", "1a7ec74f-4297-42a4-aeb8-97aee1e9ff6c")
  const ShapeSad := EmojiUrl("shape", "sad_shape", "acbc7284-1126-4428-a3b2-f8b6e7932b98")
  const ShapeTouched := EmojiUrl("shape", "touched_shape", "bbb50a1c-90d6-43fd-be40-4be4f51bc1d0")
  const ShapeAnxious := EmojiUrl("shape", "anxious_shape", "7859ebac-cd9d-43a3-a42c-aec651d37e6e")
  const ShapeConfused := EmojiUrl("shape", "confused_shape", "4794d127-9b61-4c68-86de-8478c4da8fb9")
  const FruitNeutral := EmojiUrl("fruit", "neutral_fruit", "9bdea06c-13e6-4c59-b961-1424422a3c39")
  const FruitHappy := EmojiUrl("fruit", "happy_fruit", "d10a503b-fee7-4bc2-b141-fd4b33dae1f1")
  const FruitCalm := EmojiUrl("fruit", "calm_fruit", "839efcad-0022-4cc9-ac38-90175d9026d2")
  const FruitLove := EmojiUrl("fruit", "love_fruit", "ba7857c6-5afd-48e0-addd-7b3f54583c15")
  const FruitExcited := EmojiUrl("fruit", "excited_fruit", "0284bce2-aa88-4766-97fb-5d5d2248cf31")
  const FruitAngry := EmojiUrl("fruit", "angry_fruit", "679778b9-5a1b-469a-8e86-b01585cb1ee2")
  const FruitConfident := EmojiUrl("fruit", "confident_fruit", "6edcc903-8d78-4dd9-bcdd-1c6b26645044")
  const FruitDetermined := EmojiUrl("fruit", "determined_fruit", "ed288879-86c4-4d6d-946e-477f2aafc3ce")
  const FruitSad := EmojiUrl("fruit", "sad_fruit", "e9e0b0f7-6590-4209-a7d1-26377eb33c05")
  const FruitTouched := EmojiUrl("fruit", "touched_fruit", "c69dee6d-7d53-4af7-a884-2f751aecbe42")
  const FruitAnxious := EmojiUrl("fruit", "anxious_fruit", "be8f8279-2b08-47bf-9856-c39daf5eac40")
  const FruitConfused := EmojiUrl("fruit", "confused_fruit", "7adfcf22-af7a-4eb1-a225-34875b6540cf")
  const AnimalNeutral := EmojiUrl("animal", "neutral_animal", "f884e38d-5d8c-4d4a-bb62-a47a198d384f")
  const AnimalHappy := EmojiUrl("animal", "happy_animal", "66ff8e2d-d941-4fd7-9d7f-9766db03cbd5")
  const AnimalCalm := EmojiUrl("animal", "calm_animal", "afd7bf65-5150-40e3-8b95-cd956dff113d")
  const AnimalLove := EmojiUrl("animal", "love_animal", "e0e2ccbd-b59a-4d09-968a-562208f90be1")
  const AnimalExcited := EmojiUrl("animal", "excited_animal", "48442937-5504-4392-88a9-039aef405f14")
  const AnimalAngry := EmojiUrl("animal", "angry_animal", "9bde31db-8801-4af0-9368-e6ce4a35fbac")
  const AnimalConfident := EmojiUrl("animal", "confident__animal", "2983b323-a2a6-40aa-9b6c-a381d944dd27")
  const AnimalDetermined := EmojiUrl("animal", "determined_animal", "abf05981-4ab3-49b3-ba37-096ab8c22478")
  const AnimalSad := EmojiUrl("animal", "sad_animal", "04c99bd8-8ad4-43de-91cd-3b7354780677")
  const AnimalTouched := EmojiUrl("animal", "touched_animal", "629be9ec-be17-407f-beb0-6b67f09b7036")
  const AnimalAnxious := EmojiUrl("animal", "anxious_animal", "bd25e31d-629b-4e79-b95e-019f8c76dac2")
  const AnimalConfused := EmojiUrl("animal", "confused__animal", "74192a1e-86a7-4eb6-b690-154984c427dc")
  const WeatherNeutral := EmojiUrl("wheather", "neutral_weather", "57ad1adf-baa6-4b79-96f5-066a4ec3358f")
  const WeatherHappy := EmojiUrl("wheather", "happy_weather", "fd77e998-6f47-459a-bd1c-458e309fed41")
  const WeatherCalm := EmojiUrl("wheather", "calm_weather", "7703fd25-fe2b-4750-a415-5f86c4e7b058")
  const WeatherLove := EmojiUrl("wheather", "love_weather", "2451105b-ab3e-482d-bf9f-12f0a6a69a53")
  const WeatherExcited := EmojiUrl("wheather", "excited_weather", "5de71f38-1178-4e3c-887e-af07547caba9")
  const WeatherAngry := EmojiUrl("wheather", "angry_weather", "2f4c6212-697d-49b7-9d5e-ae1f2b1fa84e")
  const WeatherConfident := EmojiUrl("wheather", "confident_weather", "ea30d002-312b-4ae5-ad85-933bbc009dc6")
  const WeatherDetermined := EmojiUrl("wheather", "determined_weather", "0eb8fb3d-22dd-4b4f-8e12-7d830f32be6d")
  const WeatherSad := EmojiUrl("wheather", "sad_weather", "aa972b9a-8952-4dc7-abe7-692ec7be0d16")
  const WeatherTouched := EmojiUrl("wheather", "touched_weather", "5e224042-72ae-45a4-891a-8e6abdb5285c")
  const WeatherAnxious := EmojiUrl("wheather", "anxious_weather", "fc718a17-8d8e-4ed1-a78a-891fa9a149d0")
  const WeatherConfused := EmojiUrl("wheather", "confused_weather", "afdfb6bf-2c69-4ef2-97a1-2e5aa67e6fdb")
  /** posts.py spells this token with one character fewer than the catalog does. */
  const ShapeConfidentInResolver := EmojiUrl("shape", "confident_shape", "8ab02c8-8569-42ff-b78d-b9527f15d0af")

  /** The emotion labels of get_emotion_emoji_url's tables. */
  datatype Emotion =
    | Angry
    | Anxious
    | Calm
    | Confident
    | Confused
    | Determined
    | Excited
    | Happy
    | Love
    | Neutral
    | Sad
    | Touched
  {
    function Label(): string {
      match this
      case Angry => "angry"
      case Anxious => "anxious"
      case Calm => "calm"
      case Confident => "confident"
      case Confused => "confused"
      case Determined => "determined"
      case Excited => "excited"
      case Happy => "happy"
      case Love => "love"
      case Neutral => "neutral"
      case Sad => "sad"
      case Touched => "touched"
    }
  }

  /** The emotion a label denotes, if it is one of the twelve. */
  function ParseEmotion(s: string): (r: Option<Emotion>)
    ensures r.Some? <==> s in EmotionLabels
    ensures r.Some? ==> r.value.Label() == s
  {
    if s == "angry" then Some(Angry)
    else if s == "anxious" then Some(Anxious)
    else if s == "calm" then Some(Calm)
    else if s == "confident" then Some(Confident)
    else if s == "confused" then Some(Confused)
    else if s == "determined" then Some(Determined)
    else if s == "excited" then Some(Excited)
    else if s == "happy" then Some(Happy)
    else if s == "love" then Some(Love)
    else if s == "neutral" then Some(Neutral)
    else if s == "sad" then Some(Sad)
    else if s == "touched" then Some(Touched)
    else None
  }

  /** One entry of the per-category tables of get_emotion_emoji_url. */
  function ResolverUrl(c: Category, e: Emotion): (url: string)
    ensures StartsWith(url, "https://")
  {
    match c
    case Shape => (
      match e
      case Angry => ShapeAngry
      case Anxious => ShapeAnxious
      case Calm => ShapeCalm
      case Confident => ShapeConfidentInResolver
      case Confused => ShapeConfused
      case Determined => ShapeDetermined
      case Excited => ShapeExcited
      case Happy => ShapeHappy
      case Love => ShapeLove
      case Neutral => ShapeNeutral
      case Sad => ShapeSad
      case Touched => ShapeTouched
    )
    case Fruit => (
      match e
      case Angry => FruitAngry
      case Anxious => FruitAnxious
      case Calm => FruitCalm
      case Confident => FruitConfident
      case Confused => FruitConfused
      case Determined => FruitDetermined
      case Excited => FruitExcited
      case Happy => FruitHappy
      case Love => FruitLove
      case Neutral => FruitNeutral
      case Sad => FruitSad
      case Touched => FruitTouched
    )
    case Animal => (
      match e
      case Angry => AnimalAngry
      case Anxious => AnimalAnxious
      case Calm => AnimalCalm
      case Confident => AnimalConfident
      case Confused => AnimalConfused
      case Determined => AnimalDetermined
      case Excited => AnimalExcited
      case Happy => AnimalHappy
      case Love => AnimalLove
      case Neutral => AnimalNeutral
      case Sad => AnimalSad
      case Touched => AnimalTouched
    )
    case Weather => (
      match e
      case Angry => WeatherAngry
      case Anxious => WeatherAnxious
      case Calm => WeatherCalm
      case Confident => WeatherConfident
      case Confused => WeatherConfused
      case Determined => WeatherDetermined
      case Excited => WeatherExcited
      case Happy => WeatherHappy
      case Love => WeatherLove
      case Neutral => WeatherNeutral
      case Sad => WeatherSad
      case Touched => WeatherTouched
    )
  }

  function CatalogList(c: Category): seq<string> {
    match c
    case Shape =>
      [ShapeNeutral,
       ShapeExcited,
       ShapeConfident,
       ShapeAngry,
       ShapeDetermined,
       ShapeHappy,
       ShapeCalm,
       ShapeLove,
       ShapeSad,
       ShapeTouched,
       ShapeAnxious,
       ShapeConfused]
    case Fruit =>
      [FruitNeutral,
       FruitHappy,
       FruitCalm,
       FruitLove,
       FruitExcited,
       FruitAngry,
       FruitConfident,
       FruitDetermined,
       FruitSad,
       FruitTouched,
       FruitAnxious,
       FruitConfused]
    case Animal =>
      [AnimalNeutral,
       AnimalHappy,
       AnimalCalm,
       AnimalLove,
       AnimalExcited,
       AnimalAngry,
       AnimalConfident,
       AnimalDetermined,
       AnimalSad,
       AnimalTouched,
       AnimalAnxious,
       AnimalConfused]
    case Weather =>
      [WeatherNeutral,
       WeatherHappy,
       WeatherCalm,
       WeatherLove,
       WeatherExcited,
       WeatherAngry,
       WeatherConfident,
       WeatherDetermined,
       WeatherSad,
       WeatherTouched,
       WeatherAnxious,
       WeatherConfused]
  }

  /** A stored category name that is not one of the four falls back to shape. */
  function CategoryOrShape(category: string): (c: Category)
    ensures category in CategoryNames ==> c.Name() == category
    ensures category !in CategoryNames ==> c == Shape
  {
    ParseCategory(category).GetOr(Shape)
  }

  /** get_emotion_emoji_url: look the category up (unknown -> shape), then the
      emotion in that category's table (unknown -> the table's neutral URL). */
  function ResolveEmoji(emotion: string, category: string): (url: string)
    ensures exists e: Emotion :: url == ResolverUrl(CategoryOrShape(category), e)
    ensures emotion in EmotionLabels ==>
              exists e: Emotion :: e.Label() == emotion && url == ResolverUrl(CategoryOrShape(category), e)
    ensures emotion !in EmotionLabels ==> url == ResolverUrl(CategoryOrShape(category), Neutral)
    ensures StartsWith(url, "https://")
  {
    ResolverUrl(CategoryOrShape(category), ParseEmotion(emotion).GetOr(Neutral))
  }

  /** An unknown category resolves exactly as "shape" does. */
  lemma ResolveUnknownCategory(emotion: string, category: string)
    requires category !in CategoryNames
    ensures ResolveEmoji(emotion, category) == ResolveEmoji(emotion, "shape")
  {
  }

  /** An unknown emotion resolves to the chosen category's neutral URL. */
  lemma ResolveUnknownEmotion(emotion: string, category: string)
    requires emotion !in EmotionLabels
    ensures ResolveEmoji(emotion, category) == ResolveEmoji("neutral", category)
  {
  }

  /** The default emoticon_categories map of UserSettings. */
  const DefaultCatalog: map<string, seq<string>> :=
    map["shape" := CatalogList(Shape), "fruit" := CatalogList(Fruit),
        "animal" := CatalogList(Animal), "weather" := CatalogList(Weather)]

  /** The catalog has exactly the four category keys, twelve URLs each, and
      each list starts with its category's neutral URL. */
  lemma DefaultCatalogShape(c: Category)
    ensures DefaultCatalog.Keys == CategoryNames
    ensures c.Name() in DefaultCatalog && DefaultCatalog[c.Name()] == CatalogList(c)
    ensures |CatalogList(c)| == 12
    ensures CatalogList(c)[0] == ResolveEmoji("neutral", c.Name())
  {
    assert ParseEmotion("neutral") == Some(Neutral);
    assert CategoryOrShape(c.Name()) == c;
    match c
    case Shape =>
    case Fruit =>
    case Animal =>
    case Weather =>
  }

  /** Parsing a label gives back its emotion. */
  lemma ParseLabel(e: Emotion)
    ensures ParseEmotion(e.Label()) == Some(e)
  {
    match e
    case Angry =>
    case Anxious =>
    case Calm =>
    case Confident =>
    case Confused =>
    case Determined =>
    case Excited =>
    case Happy =>
    case Love =>
    case Neutral =>
    case Sad =>
    case Touched =>
  }

  /** Except for one entry, the resolver's tables and the catalog agree: every
      URL the resolver returns for a category is listed in its catalog list. */
  lemma ResolvedUrlsAreCatalogued(e: Emotion, c: Category)
    requires !(c == Shape && e == Confident)
    ensures ResolveEmoji(e.Label(), c.Name()) in CatalogList(c)
  {
    ParseLabel(e);
    assert CategoryOrShape(c.Name()) == c;
    TableEntryCatalogued(e, c);
  }

  lemma TableEntryCatalogued(e: Emotion, c: Category)
    requires !(c == Shape && e == Confident)
    ensures ResolverUrl(c, e) in CatalogList(c)
  {
    match c
    case Shape => ShapeEntryCatalogued(e);
    case Fruit => FruitEntryCatalogued(e);
    case Animal => AnimalEntryCatalogued(e);
    case Weather => WeatherEntryCatalogued(e);
  }

  lemma ShapeEntryCatalogued(e: Emotion)
    requires e != Confident
    ensures ResolverUrl(Shape, e) in CatalogList(Shape)
  {
  }

  lemma FruitEntryCatalogued(e: Emotion)
    ensures ResolverUrl(Fruit, e) in CatalogList(Fruit)
  {
  }

  lemma AnimalEntryCatalogued(e: Emotion)
    ensures ResolverUrl(Animal, e) in CatalogList(Animal)
  {
  }

  lemma WeatherEntryCatalogued(e: Emotion)
    ensures ResolverUrl(Weather, e) in CatalogList(Weather)
  {
  }

  /** The exception: the shape/confident token in posts.py is one character
      shorter than the catalog's, so that resolved URL is not the catalog's entry. */
  lemma ConfidentShapeIsNotCatalogued()
    ensures ResolveEmoji("confident", "shape") != CatalogList(Shape)[2]
    ensures |ResolveEmoji("confident", "shape")| + 1 == |CatalogList(Shape)[2]|
  {
  }
}

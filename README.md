# A verified model of the diary backend

This project models the rule-bearing core of a diary application. The
application has a FastAPI/MongoDB backend and a few AI helper services.
The model is written in Dafny 4.11 and holds:

- **Emoji** (`emoji.dfy`): the emoji categories and the twelve emotion labels.
  - The Firebase URL of every emoji image.
  - The resolver that maps an (emotion, category) pair to a URL, with two fallback steps.
  - The default emoticon catalog of the settings model.
  - Each URL is built from its storage folder, its file stem and its access token, spelled exactly as the source spells them.
  - The resolver's shape/confident token is one character shorter than the catalog's. The model keeps that difference and proves it.
- **Settings** (`settings.dfy`): the user-settings record and its defaults, and the settings store as a class over a map from user id to record.
  - The store has the lazy default on first read, the partial merge, the validated replacement of the category map, and the reset.
- **Users** (`users.dfy`): the user directory as a class over the users collection in insertion order.
  - `find_one` is "the first matching document".
  - The directory has registration, login, listing, the administrative update and delete routes, and the profile update.
- **Posts** (`posts.dfy`): the post store as a class over a map from post id to post.
  - Creation promotes the uploaded images and rolls back on failure.
  - Listing keeps the caller's live posts, newest first.
  - The store also has the by-date window, the detail view, the partial update with image matching, and the soft delete.
- **Images** (`images.dfy`): `os.path.splitext`, the upload validation, and the temporary and permanent image folders as a class over two maps from file name to size.
- **Comfort** (`comfort.dfy`): the comfort-message service. It keeps at most three complete sentences of a reply, or returns a fixed fallback message. It also checks the shape of the diary date.
- **AiService** (`ai_service.dfy`): the AI service's validators.
  - The audio extension test (`rsplit`) and the upload size limits.
  - The birthday checks in front of the fortune.
  - The cut after the second period of a comfort message.
  - The fallbacks of emotion extraction.
- **Asr** (`asr.dfy`): the temporary-file suffix of the speech-recognition route and its fixed response shape.
- **Migration** (`migration.dfy`): the one-off emoticon migration.
  - It decides which stored settings still hold a plain emoji, rewrites them with the five-URL table, and counts the rewrites.
- **Common** (`common.dfy`): the shared results, errors and Python string operations.
  - The results carry a status code and a reason.
  - The string operations are ASCII `lower`, `strip` with Python's whitespace set, last index, and counting.

Each route's refusals are modelled as `Err(HttpError(status, reason))`. The
model keeps their order of precedence. The clock, fresh identifiers (uuids,
ObjectIds, sequential ids) and the replies of external services are all
parameters.

Where the project's written design and its code disagree, the model follows the code:
- When a promotion fails in `create_post`, only the temporary files of the request are deleted. Files already moved to the permanent folder stay there.
- The post detail response carries neither emotion nor emoji.
- The fortune is refused only when the reply content is `None`. An empty reply is returned as an empty fortune.
- When the profile update changes the email, the user is read back by the old email. That read finds another user or none (500), after the write has been made.
- The registration's default settings record carries both creation and update times.

## Model

| member | source | states |
|---|---|---|
| Common.LastIndex | ai/ai_service.py:69 | The position of the last occurrence of a character, or -1 exactly when it does not occur; nothing after it is that character |
| Common.Lower | ai/ai_service.py:69 | ASCII lowercasing keeps the length and maps every character independently |
| Common.LowerKeepsEnds | ai/ai_service.py:327 | Lowercasing keeps a string free of surrounding whitespace |
| Common.LowerIdempotent | ai/ai_service.py:327 | Lowercasing twice is lowercasing once |
| Common.Strip | ai/openai/main.py:44 | `str.strip`: the result is no longer than the input and neither starts nor ends with whitespace |
| Common.StripIsInfix | ai/openai/main.py:44 | The stripped text is a contiguous slice of the input with only whitespace around it |
| Common.StripIdempotent | ai/ai_service.py:190 | Stripping twice is stripping once |
| Common.StripEmptyIffBlank | ai/openai/main.py:44-49 | Stripping gives the empty string exactly when the input is all whitespace |
| Common.Count | ai/ai_service.py:250 | The number of occurrences is at most the length and is 0 exactly when the character is absent |
| Common.CountAppend | ai/ai_service.py:250-254 | Counting distributes over concatenation |
| Emoji.ParseCategory | backend/models/user_settings.py:5-10 | A name denotes a category exactly when it is one of shape, fruit, animal, weather, and the category's name is that string |
| Emoji.CategoryNamesExact | backend/models/user_settings.py:5-10 | The enumeration has exactly four members, in one-to-one correspondence with the four names |
| Emoji.EmojiUrl | backend/post/routes/posts.py:60-117 | Every emoji URL is an https URL |
| Emoji.ParseEmotion | backend/post/routes/posts.py:60-117 | A label denotes an emotion exactly when it is one of the twelve, and the emotion's label is that string |
| Emoji.ParseLabel | backend/post/routes/posts.py:60-117 | Parsing an emotion's label gives back the emotion |
| Emoji.ResolverUrl | backend/post/routes/posts.py:60-117 | Every table entry is an https URL |
| Emoji.CategoryOrShape | backend/post/routes/posts.py:120 | A known category name selects its table, any other name selects the shape table |
| Emoji.ResolveEmoji | backend/post/routes/posts.py:57-121 | The lookup is total: the URL is always an entry of the chosen table, the entry of the given emotion when the label is known, and the table's neutral entry otherwise |
| Emoji.ResolveUnknownCategory | backend/post/routes/posts.py:120 | An unknown category resolves exactly as "shape" |
| Emoji.ResolveUnknownEmotion | backend/post/routes/posts.py:121 | An unknown emotion resolves to the chosen table's neutral URL |
| Emoji.DefaultCatalogShape | backend/models/user_settings.py:19-76 | The default catalog has exactly the four category keys, twelve URLs per category, each list starting with that category's neutral URL |
| Emoji.ResolvedUrlsAreCatalogued | backend/post/routes/posts.py:57-121 | Apart from shape/confident, every URL the resolver returns for a category is in that category's catalog list |
| Emoji.TableEntryCatalogued | backend/post/routes/posts.py:60-117 | Every table entry but shape/confident occurs in its category's catalog list |
| Emoji.ShapeEntryCatalogued | backend/post/routes/posts.py:61-74 | Every shape entry but confident occurs in the shape catalog |
| Emoji.FruitEntryCatalogued | backend/post/routes/posts.py:75-88 | Every fruit entry occurs in the fruit catalog |
| Emoji.AnimalEntryCatalogued | backend/post/routes/posts.py:89-102 | Every animal entry occurs in the animal catalog |
| Emoji.WeatherEntryCatalogued | backend/post/routes/posts.py:103-116 | Every weather entry occurs in the weather catalog |
| Emoji.ConfidentShapeIsNotCatalogued | backend/post/routes/posts.py:65 | The resolved shape/confident URL differs from the catalog's shape/confident entry and is one character shorter |
| Images.SplitExt | backend/post/routes/posts.py:529-530 | `os.path.splitext`'s extension is empty, or a suffix of the path that starts with its only '.' and holds no '/' |
| Images.SplitExtCases | backend/post/routes/posts.py:529-530 | The extension is the suffix from the last '.' when that dot is in the final component after a non-dot character, and empty when there is no such character |
| Images.DotFileHasNoExtension | backend/post/routes/posts.py:530 | ".wav" has no extension, "voice.m4a" has ".m4a", and "a.b/c" has none |
| Images.ImageExtension | backend/post/routes/posts.py:529-530 | An absent or empty name has no extension; otherwise the extension is a suffix of the lowercased name |
| Images.UploadCheck | backend/post/routes/posts.py:526-544 | The upload is accepted exactly when the type is image/* or the extension is an image extension, and the known size is not above 10 MiB; the type refusal precedes the size refusal |
| Images.UploadAcceptsEither | backend/post/routes/posts.py:533-537 | An image content type alone, or an upper-case image extension alone, is enough |
| Images.ImageStorage.constructor | backend/post/routes/posts.py:547 | Both folders start empty |
| Images.ImageStorage.FileInfo | backend/post/routes/posts.py:151 | File information exists exactly for names in the permanent folder and reports their size |
| Images.ImageStorage.Serve | backend/post/routes/posts.py:593-627 | A file is served from the temporary folder first, then the permanent one, else 404 |
| Images.ImageStorage.Upload | backend/post/routes/posts.py:522-561 | The upload succeeds exactly when the validation passes; then only the new temporary file is added, otherwise nothing changes |
| Images.ImageStorage.DeleteTemp | backend/post/routes/posts.py:568 | Reports whether the name was in the temporary folder and removes it |
| Images.ImageStorage.DeletePermanent | backend/post/routes/posts.py:571 | Reports whether the name was in the permanent folder and removes it |
| Images.ImageStorage.DeleteImage | backend/post/routes/posts.py:564-590 | Success exactly when either folder held the name, 404 otherwise; the name is gone from both folders |
| Images.ImageStorage.Promote | backend/post/routes/posts.py:148 | A present temporary file moves to the fresh permanent name with its size; a missing one is an error and changes nothing |
| Settings.UserSettings.ShownCategory | backend/models/user_settings.py:77 | A document without a last category reports "shape" |
| Settings.ModelDefaults | backend/models/user_settings.py:12-79 | Both flags true, volume 50, the full catalog, category "shape", and no id or timestamps |
| Settings.LazyDefaultIsModelDefault | backend/routes/user_settings.py:30-104 | The record inserted on first read is the model default with a fresh id and both timestamps |
| Settings.CurrentUserId | backend/routes/user_settings.py:14-23 | A token without a user id gives 401; otherwise the id it carries |
| Settings.CategoryProblem | backend/routes/user_settings.py:253-260 | Every refusal of a category request is a 400 |
| Settings.CategoryProblemIff | backend/routes/user_settings.py:253-260 | Validation passes exactly when every key is a known category with at most five emoticons; a failure names an offending key |
| Settings.ValidateCategories | backend/routes/user_settings.py:254-260 | The validation loop returns the refusal of the first failing entry, exactly as CategoryProblem |
| Settings.ToMap | backend/routes/user_settings.py:265-296 | The stored map has exactly the request's keys, each with its list |
| Settings.SettingsStore.constructor | backend/routes/user_settings.py:26-117 | The collection starts empty |
| Settings.SettingsStore.Get | backend/routes/user_settings.py:26-117 | An existing record is returned and nothing changes; otherwise the default record is inserted, returned, and the id counter advances |
| Settings.SettingsStore.Update | backend/routes/user_settings.py:120-243 | An existing record is merged, a missing one is created from the update; only that user's record changes |
| Settings.SettingsStore.UpdateCategories | backend/routes/user_settings.py:246-311 | A refused request changes nothing; otherwise the whole category map is replaced and updated_at refreshed, or a new record is created with the given map |
| Settings.SettingsStore.Reset | backend/routes/user_settings.py:314-400 | The record becomes the reset record and no other record changes |
| Settings.SettingsStore.InsertRegistrationDefaults | backend/routes/auth.py:71-141 | A user without settings gets the default record with both timestamps; an existing record stays the one every route sees |
| Settings.MergeFields | backend/routes/user_settings.py:209-230 | The merge writes exactly the fields the update sets and refreshes updated_at; id, owner and creation time never change |
| Settings.EmptyUpdateOnlyTouchesTimestamp | backend/routes/user_settings.py:209-230 | An update with no field set changes only updated_at |
| Settings.MergeIdempotent | backend/routes/user_settings.py:209-230 | Applying the same update twice equals applying it once |
| Settings.EmptyCategoriesDiffer | backend/routes/user_settings.py:129-221 | An empty category map is stored as given on an existing record but becomes the catalog on creation, where the last category is not stored |
| Settings.ResetProperties | backend/routes/user_settings.py:318-387 | Reset restores flags, volume and catalog, refreshes updated_at, keeps the last category; resetting twice equals the second reset alone |
| Users.ViewOf | backend/routes/auth.py:189-197 | The listing's view carries the id key, username, email, creation time and birthday, "" when the document has none, and no password field |
| Users.LoginInfoOf | backend/routes/auth.py:169-175 | Login's user_info carries the same fields but the birthday as stored, null when absent, so it differs from the listing's view exactly when the birthday is missing |
| Users.FirstMatch | backend/routes/auth.py:44-47 | `find_one` returns the first matching document, and nothing exactly when no document matches |
| Users.Remove | backend/routes/auth.py:328-330 | Deleting a document keeps all others in order |
| Users.UserDirectory.constructor | backend/routes/auth.py:42-66 | The directory starts empty |
| Users.UserDirectory.Register | backend/routes/auth.py:42-143 | A taken username (first) or taken email gives 400 with no write; otherwise a hashed-password user with the next sequential id is appended and the default settings record is inserted, while a record left over for that id is kept unchanged |
| Users.UserDirectory.Login | backend/routes/auth.py:146-181 | Unknown email and wrong password give the same 400; a match yields the token claims and the passwordless user_info, whose birthday is null when absent |
| Users.UserDirectory.AllUsers | backend/routes/auth.py:184-199 | One view per document, in order, and the total |
| Users.UserDirectory.UpdateUser | backend/routes/auth.py:248-313 | Malformed id 400, missing user 404, username held by another 400, empty update 400, unchanged document 400, all before any write; otherwise only that document becomes the applied update |
| Users.UserDirectory.UpdateProfile | backend/routes/auth.py:401-480 | Missing token 401, unknown caller 404, then the username, email, empty and unchanged refusals; a write changes only the caller's document and the reply is the document found by the old email, or 500 |
| Users.UserDirectory.DeleteUser | backend/routes/auth.py:316-346 | Malformed id 400, missing user 404; otherwise exactly that document is removed and no document has its ObjectId afterwards |
| Users.UserDirectory.DeleteUserByUsername | backend/routes/auth.py:349-369 | A missing username gives 404; otherwise the first document with it is removed |
| Users.AppliedFields | backend/routes/auth.py:261-285 | Both updates write exactly the set fields plus updated_at and differ only in storing the password raw or hashed |
| Users.AdminPasswordDoesNotVerify | backend/routes/auth.py:272-273 | A password stored by the administrative update never verifies; one stored by the profile update does |
| Users.EmailChangeBlockedByAnyOtherUser | backend/routes/auth.py:435-443 | Any user with an email other than the caller's makes the email filter match |
| Users.RemoveUniqueOid | backend/routes/auth.py:320-332 | With unique ObjectIds, removing a document leaves none with its ObjectId |
| Posts.PermanentPath | backend/post/routes/posts.py:155 | `os.path.join` with the images folder: an absolute name replaces the folder |
| Posts.UserCategory | backend/post/routes/posts.py:41-55 | The result is always one of the four categories: the stored last category when it is one, "shape" otherwise |
| Posts.Shown | backend/post/routes/posts.py:236-242 | Every dictionary entry is shown, each missing key by its default ("" or 0, no upload date); other entries are not shown |
| Posts.ListedImages | backend/post/routes/posts.py:232-242 | The listed images are exactly the shown forms of the stored dictionaries; other entries are dropped |
| Posts.ListedImagesInOrder | backend/post/routes/posts.py:232-242 | A list of dictionaries is listed whole and in order |
| Posts.PartialDictListedButNotDetailed | backend/post/routes/posts.py:236-296 | A dictionary missing keys is listed with their defaults but makes the detail conversion fail |
| Posts.RowOf | backend/post/routes/posts.py:244-251 | A missing emotion reads as "neutral" and a missing emoji as a star |
| Posts.InsertionPoint | backend/post/routes/posts.py:226 | The insertion point is after every strictly newer row and before the rest |
| Posts.InsertNewestFirst | backend/post/routes/posts.py:226 | Inserting a row keeps the list newest first and adds exactly that row |
| Posts.RowIdsAfterInsert | backend/post/routes/posts.py:226-252 | Inserting a new row adds its id and keeps ids distinct |
| Posts.ListStep | backend/post/routes/posts.py:228-252 | Scanning one more post keeps the loop invariant: sorted, one row per listed post seen so far |
| Posts.ListRows | backend/post/routes/posts.py:221-252 | The rows are newest first, one per listed post (owner, not deleted, in the window), each the row of its post |
| Posts.DayWindow | backend/post/routes/posts.py:469-476 | The by-date window contains the day's start and excludes the day's last second |
| Posts.FullInfo | backend/post/routes/posts.py:290-296 | An entry converts by subscript exactly when it is a dictionary holding all five keys, giving their values |
| Posts.DetailImages | backend/post/routes/posts.py:288-296 | A missing images key gives no images; otherwise detail images exist exactly when the field is a list and every entry is a dictionary with all five keys, and are those records in order |
| Posts.ExistingEntry | backend/post/routes/posts.py:351-362 | An entry is found exactly when a bare name or a dictionary with that filename is stored; the found entry carries that name and is never a bare name |
| Posts.MatchImages | backend/post/routes/posts.py:348-378 | One image entry per requested name, in request order, each a dictionary with that filename |
| Posts.Records | backend/post/routes/posts.py:181 | The stored images list of a new post is its records in order |
| Posts.PromotedInfos | backend/post/routes/posts.py:139-158 | One record per requested name, in order, with the permanent name, the temporary name as original name, and the moved file's size |
| Posts.PostStore.constructor | backend/post/routes/posts.py:124-208 | The collection starts empty |
| Posts.PostStore.List | backend/post/routes/posts.py:213-262 | The caller's non-deleted posts, newest first, one row each |
| Posts.PostStore.ListByDate | backend/post/routes/posts.py:455-514 | An unparseable date gives 400; otherwise the listing restricted to that day's window |
| Posts.PostStore.Detail | backend/post/routes/posts.py:264-312 | A missing, foreign or deleted post gives 404; an images field that is not a list, or an entry that is not a dictionary with all five keys, gives 500; otherwise the post's fields and images |
| Posts.PostStore.Delete | backend/post/routes/posts.py:404-452 | A missing, foreign or deleted post gives 404 and nothing changes; otherwise only the status becomes deleted, so a second delete gives 404 |
| Posts.PostStore.Update | backend/post/routes/posts.py:314-402 | A missing, foreign or deleted post gives 404; requested images over a stored field that cannot be iterated give 500; an update that changes nothing gives 500; otherwise only that post becomes the updated post |
| Posts.PostStore.MatchRequested | backend/post/routes/posts.py:351-378 | The matching loop builds exactly the list MatchImages defines |
| Posts.PostStore.Create | backend/post/routes/posts.py:124-208 | Success exactly when every name is promoted and the insert succeeds; then the post is stored with the resolved emoji and image records; a failed move gives 404 and the temporary names are deleted; a failed insert gives 500 and the permanent folder is restored |
| Posts.PromoteAll | backend/post/routes/posts.py:139-163 | Every requested temporary name is gone afterwards; success exactly when all moves succeed, with the promoted records and folder; a failed move gives 404 |
| Posts.PromoteStep | backend/post/routes/posts.py:146-158 | One successful move extends the promoted prefix by one file and one record |
| Posts.RollBackTemp | backend/post/routes/posts.py:159-163 | A temporary delete is attempted for every requested name |
| Posts.DropPermanent | backend/post/routes/posts.py:188-195 | Deleting every promoted file restores the permanent folder |
| Posts.UpdatedFields | backend/post/routes/posts.py:338-378 | An update writes only the set fields; setting the emotion recomputes the emoji; setting the images gives one entry per requested name, named after it; id, owner and creation time never change |
| Posts.EmptyImagesAddMissingKey | backend/post/routes/posts.py:347-389 | Setting the images to [] changes a document that has no images key, and changes nothing on one that already stores [] |
| Posts.MatchReusesRecord | backend/post/routes/posts.py:353-362 | The first stored entry matching the name is used: a dictionary as stored, even one missing keys, a bare name as a synthesized record |
| Posts.NewNameGetsFreshRecord | backend/post/routes/posts.py:368-376 | A name with no stored entry gets a new record sized from the permanent folder, or 0 |
| Comfort.FirstBreak | ai/openai/main.py:44 | The first place at or after a position where the split pattern matches, or the end |
| Comfort.SpaceRunEnd | ai/openai/main.py:44 | The end of the maximal whitespace run at a position |
| Comfort.SplitSentences | ai/openai/main.py:44 | At least one piece; every piece but the last ends in '.', '!' or '?'; no piece contains a match of the pattern; the first piece starts the input |
| Comfort.Interleave | ai/openai/main.py:44 | Putting pieces back together starts with the first piece |
| Comfort.SplitStep | ai/openai/main.py:44 | The first piece runs to the first break and the rest is split after a non-empty whitespace run |
| Comfort.SplitSentencesRebuilds | ai/openai/main.py:44 | The input is its pieces with a non-empty whitespace run between each two, so nothing but the separators is lost |
| Comfort.SplitRunsMaximal | ai/openai/main.py:44 | Each separator run is maximal: the piece after it is empty or starts with a character that is not whitespace |
| Comfort.Complete | ai/openai/main.py:46 | The filter keeps exactly the pieces ending in terminal punctuation |
| Comfort.CompleteConcat | ai/openai/main.py:46 | The filter keeps input order: filtering a concatenation concatenates the filtered parts |
| Comfort.Join | ai/openai/main.py:50 | `' '.join`: the result starts with the first piece and ends with the last |
| Comfort.JoinTwo | ai/openai/main.py:50 | Two pieces are joined by a single space |
| Comfort.Selected | ai/openai/main.py:46 | At most max_sentences complete pieces, the first ones in order |
| Comfort.TruncateToCompleteSentences | ai/openai/main.py:38-50 | The kept sentences joined by spaces, or the fallback when none; the result always ends in terminal punctuation |
| Comfort.BlankGivesFallback | ai/openai/main.py:48-49 | Empty or blank input gives the fallback |
| Comfort.SplitWithoutTerminal | ai/openai/main.py:44 | Text without terminal punctuation is a single piece |
| Comfort.NoPunctuationGivesFallback | ai/openai/main.py:44-49 | A reply without '.', '!' or '?' gives the fallback |
| Comfort.TrailingFragmentDropped | ai/openai/main.py:44-50 | A complete sentence followed by an unpunctuated fragment returns the sentence alone |
| Comfort.DateShapeExamples | ai/openai/main.py:55-56 | Only length and the '-' positions count: digits are not checked |
| Comfort.AnalyzeDiary | ai/openai/main.py:53-90 | Success exactly when the date shape is valid and the reply has content; every failure, the date's 400 included, surfaces as 500 |
| Comfort.BlankReplyGivesFallback | ai/openai/main.py:77-83 | A whitespace-only reply counts as content and gives the fallback |
| AiService.AfterLastDot | ai/ai_service.py:69 | `rsplit('.', 1)[1]`: no '.', and the name ends with '.' plus it |
| AiService.LowerSuffix | ai/ai_service.py:69 | Lowercasing commutes with taking a suffix |
| AiService.ExtensionsHaveNoDot | ai/ai_service.py:42 | No supported audio extension contains '.' |
| AiService.DotIsLast | ai/ai_service.py:69 | A suffix starting with its only '.' marks where `rsplit` splits |
| AiService.DotsSurviveLower | ai/ai_service.py:69 | Lowercasing neither creates nor removes a '.' |
| AiService.EndingGivesSuffix | ai/ai_service.py:66-69 | A name whose lowercased form ends in '.' and a dot-free extension has that extension after its last dot |
| AiService.AllowedByEnding | ai/ai_service.py:42-69 | A name ending, once lowercased, in '.' and a supported extension is allowed |
| AiService.AllowedHasEnding | ai/ai_service.py:42-69 | An allowed name ends, once lowercased, in '.' and the supported extension it was allowed for |
| AiService.AfterLastDotOf | ai/ai_service.py:69 | Only what follows the last '.' counts |
| AiService.OnlyLastSuffixCounts | ai/ai_service.py:66-69 | A supported extension earlier in the name does not help |
| AiService.LeadingDotNameAllowed | ai/ai_service.py:66-69 | ".wav" and "Memo.M4A" are allowed, "wav" is not |
| AiService.CheckAudioUpload | ai/ai_service.py:344-367 | Accepted exactly with a non-empty allowed name and a size in [100 B, 50 MiB]; every refusal is 400; too large is checked before too small |
| AiService.Transcribe | ai/ai_service.py:337-405 | Refusals of the checks pass through; after them, success exactly when the speech model succeeds, a failure being 500 |
| AiService.BirthParts | ai/ai_service.py:148-150 | The three parts concatenate to the birthday and have lengths 4, 2, 2 for eight characters |
| AiService.BirthdayCheck | ai/ai_service.py:454-470 | Not eight digits gives the format 400; otherwise an eight-digit date is accepted exactly when year, month and day are in range, and the refusal names the year, then the month, then the day; every refusal is 400 and an accepted date has the parsed parts |
| AiService.TwoDigits | ai/ai_service.py:459-461 | The decimal value of two digits |
| AiService.FourDigits | ai/ai_service.py:459 | The decimal value of four digits |
| AiService.YearCheckedFirst | ai/ai_service.py:463-467 | The year refusal precedes the month refusal |
| AiService.NoCalendarCheck | ai/ai_service.py:469-470 | The 31st of February passes |
| AiService.SeparatorsRefused | ai/ai_service.py:454-455 | A date with separators is refused as a whole |
| AiService.Fortune | ai/ai_service.py:450-480 | Check refusals pass through; success exactly with a key and a reply, returned stripped; otherwise 500 |
| AiService.NthEnd | ai/ai_service.py:250 | The end of the n-th occurrence is just after that character |
| AiService.NthEndCount | ai/ai_service.py:250-254 | There is an n-th occurrence exactly when there are at least n, and the prefix up to it holds exactly n |
| AiService.CutAtSecondPeriod | ai/ai_service.py:250-255 | The result is a prefix with min(2, count) periods, ending in '.' whenever the input has one, and the whole input when it has none |
| AiService.NthEndAfter | ai/ai_service.py:250 | Occurrence positions shift by a period-free prefix and its period |
| AiService.SecondPeriodEnd | ai/ai_service.py:250-252 | The second period's end in a + "." + b + "." + tail |
| AiService.NoSecondPeriod | ai/ai_service.py:250-254 | With one period there is no second end and the first end follows it |
| AiService.CutDropsTail | ai/ai_service.py:251-254 | Everything after the second period, or after the only period, is dropped |
| AiService.AnalyzeDiary | ai/ai_service.py:197-261 | Success exactly with a key, a well-shaped date and a reply with content; every failure is 500; the result is the stripped reply cut at its second period, a prefix with at most two periods |
| AiService.ExtractEmotion | ai/ai_service.py:263-333 | "neutral" without a key, content or successful call; otherwise the stripped, lowercased reply, never upper-case |
| AiService.ExtractedLabelUnchecked | ai/ai_service.py:327-329 | Any lowercase word comes back as it is, not checked against the twelve labels |
| AiService.BlankReplyGivesEmptyLabel | ai/ai_service.py:324-327 | A blank reply counts as content and gives the empty label |
| Asr.TempExtension | backend/routes/asr.py:31-35 | Always one of .wav, .m4a, .mp3, .flac: the lowercased splitext extension when supported, .m4a without a name or otherwise |
| Asr.LeadingDotNameBecomesM4a | backend/routes/asr.py:31-35 | ".wav" is written as ".m4a" here, while the AI service's rsplit test accepts it as wav |
| Asr.SplitExtOfStem | backend/routes/asr.py:33 | A plain stem, a dot and an extension: splitext finds the extension |
| Asr.UpperCaseSuffixKept | backend/routes/asr.py:33-34 | An upper-case supported extension is kept, lowercased |
| Asr.Recognize | backend/routes/asr.py:23-71 | An unloaded model gives 500 first; success exactly with a transcript; the response is always language "ko", duration 0.0, no segments, empty timestamp |
| Migration.NewTableShape | backend/migrate_emoticons.py:21-50 | The table has the four category keys, each list the first five catalog URLs, all starting with "http" |
| Migration.ScanNeedsUpdate | backend/migrate_emoticons.py:73-85 | The nested loop with its breaks computes exactly needs_update |
| Migration.AsEntries | backend/migrate_emoticons.py:95 | The table's URLs as stored string entries, in order |
| Migration.NewEntries | backend/migrate_emoticons.py:95 | The written dict maps each table key to its URL list |
| Migration.NewTableUrls | backend/migrate_emoticons.py:21-50 | Every list of the table holds only URLs |
| Migration.NewEntriesAreCurrent | backend/migrate_emoticons.py:73-95 | The rewritten categories never need another update |
| Migration.Migrated | backend/migrate_emoticons.py:89-99 | The write keeps the document's identity and owner |
| Migration.MigratedIsCurrent | backend/migrate_emoticons.py:89-107 | A document needing an update gets the table and updated_at and then needs none; any other document is not written |
| Migration.CountNeeding | backend/migrate_emoticons.py:64-102 | The number of documents needing an update is at most the number scanned |
| Migration.CountNeedingStep | backend/migrate_emoticons.py:101-102 | One more document adds one exactly when it needs an update |
| Migration.FirstMalformed | backend/migrate_emoticons.py:66-112 | The first document whose categories field makes `.items()` raise, with none before it |
| Migration.MigrateOne | backend/migrate_emoticons.py:66-107 | One document is written as the migration prescribes, and the write modifies it exactly when it needed an update |
| Migration.MigrateAll | backend/migrate_emoticons.py:52-114 | Documents before the first malformed one are migrated, each with its own clock reading, the rest untouched, the run aborted at a malformed one, and the count is the number that needed an update |
| Migration.SettingsCollection.constructor | backend/migrate_emoticons.py:63 | The collection holds the given documents |
| Migration.SettingsCollection.Migrate | backend/migrate_emoticons.py:52-114 | The collection becomes the migrated documents; updated_count counts the documents that needed an update and never exceeds their number |

## Left out

- Network and storage I/O. The language-model, Whisper and text-to-speech calls are left out, as are MongoDB, the file system and `FileResponse`. Their outcomes are parameters (`reply`, `transcript`, `outcome`, `inserted`), and the collections are in-memory maps and sequences.
- Password hashing and tokens. JWT creation and verification, and hashing, are not part of this model. A stored password is `Hashed(plain)` or `Raw(text)`, and verification matches only `Hashed` of the same text. The token's user id or email is a parameter.
- Post utilities. `post/utils/image_utils.py` and `move_temp_to_permanent` are not part of this model. They are modelled by their observable effect on the two folders. A failed move is modelled as a 404 error.
- Identifier counters. `get_next_user_id` and `get_next_setting_id` are not part of this model. Each is a counter field that the store advances. uuids and ObjectIds are fresh-name parameters.
- Clock and date parsing. Timestamps are integer microseconds passed in. `strptime` of the by-date route is replaced by an optional parsed day start.
- Concurrency, such as two requests racing to create the lazy default settings record.
- WAV duration measurement (floating point and file decoding), the text-to-speech endpoints, and the health, root and supported-languages endpoints.
- `get_user_by_id`, `get_user_by_username` and `get_user_profile` in `backend/routes/auth.py`. They are read-only lookups with the same 404 pattern as the modelled routes.
- The delete routes' `deleted_count`/`modified_count` failure branches, which cannot trigger after a successful find in a single-threaded store.
- The migration's asyncio driver and interactive prompt. Its `isoformat` timestamp is a `Timestamp`.
- Non-ASCII text. `lower` and `isdigit` are modelled on ASCII only. Python also lowercases and counts as digits other Unicode characters.
- Comfort.TruncateToCompleteSentences: `max_sentences` is a natural number, so Python's negative slicing for a negative argument is not modelled. The only caller uses the default of 3.
- Posts.PostStore.Update: an explicit `null` sent for a field is treated like an unset field.
- Settings.SettingsStore: the settings collection is a map keyed by user id, so a second document for the same user is modelled as shadowed by the first.
- Settings.SettingsStore.UpdateCategories: the request is assumed to have distinct keys, as a JSON object parsed into a dict does.
- Migration.Migrated: its own contract only keeps identity and owner; what the write does is stated in Migration.MigratedIsCurrent.
- Asr.Recognize: the recognised text is modelled as a string; other shapes of the pipeline's output are not distinguished.
- Posts.ListedImages: a missing upload date is shown as none; whether the response schema accepts the "" the listing puts there is not part of this model.
- Posts.PostStore.Update: a stored `images` field that is not a list is modelled as one that cannot be iterated (null or a number). A string or a dictionary stored there would be iterated by character or by key; that case is not modelled.
- Posts.PostStore.Detail: as for Update, a stored non-list `images` field is one that cannot be iterated and gives 500. An empty string or dictionary stored there would give an empty image list; that case is not modelled.

# Recipe app core, modelled in Dafny

This project models the decision logic of a React Native recipe and fridge app
(TypeScript, Expo, Supabase, Gemini, TheMealDB) and proves what that logic
promises. It covers:

- the free-tier quota rules of the subscription provider. This is the daily
  scan and AI-creation allowance, the cumulative PDF allowance, the counter
  update upserted into `user_quotas`, and the tier mirrored from the store's
  entitlements;
- the create/edit screen: the ingredient and fridge-item lists, the ordered
  checks of the two save handlers, the ingredients that are saved, the image
  upload decision and content type, insert versus update, and the mode reset;
- the Gemini reply handling: the MIME type, code-fence stripping, the defaults
  and the AI marker of an extracted recipe, the description prompt and request,
  and the error cases;
- link previews: the URL guard, the three Open Graph patterns and the fallback
  order, the "nothing useful gives null" rule, and entity decoding;
- the TheMealDB helpers: the twenty ingredient slots of a meal, the ingredient
  thumbnail URL, and the defaults of list responses;
- the ingredient autocomplete, the add-fridge-item sheet, and the recipe filter
  sheet;
- the set-new-password screen, and the root navigator's auth redirect and
  render gate.

Pure logic is written as functions and lemmas. State that the screens and the
provider update in place is written as classes, one field per piece of React
state, with methods for the handlers and effects. Every exchange with the
outside world becomes a parameter: Supabase reads and writes, HTTP fetches,
RevenueCat, `JSON.parse`, random ids and the current date. A state-changing
method states its whole new state against a specification function, and lemmas
prove what the source promises about that function.

The modules, one per source file plus shared helpers:

- `Wrappers`: `Option` and `Result`.
- `Text`: the JavaScript string primitives the app uses. These are `trim`,
  ASCII `toLowerCase`, `startsWith`/`endsWith`/`includes`, `split(sep).pop()`,
  global `replace`, `join`, UTF-16 `length`, `toString`, and truthiness.
- `Lists`: `filter` and `slice(0, n)`.
- `UriEncoding`: `encodeURIComponent`, through UTF-8.
- `Validation`: an ordered list of checks whose first failure aborts a handler.
- `Subscription`: `ctx/SubscriptionContext.tsx`.
- `MealDb`: `lib/themealdb.ts`.
- `Gemini`: `lib/gemini.ts`.
- `LinkPreview`: `lib/link-preview.ts`.
- `CreateScreen`: `app/create.tsx`.
- `AddItemForm`: `components/create/AddItemModal.tsx`.
- `Autocomplete`: `components/ui/AutocompleteInput.tsx`.
- `FilterSheet`: `components/recipes/FilterModal.tsx`.
- `ResetPassword`: `app/reset-password.tsx`.
- `RootLayout`: `app/_layout.tsx`.

## Model

| member | source | states |
|---|---|---|
| Text.Trim | components/create/AddItemModal.tsx:93-94 | `trim()` gives an infix of the text with only whitespace around it, and the infix neither starts nor ends with whitespace |
| Text.BlankIffAllWhitespace | app/reset-password.tsx:21 | `!s.trim()` holds exactly when every character is whitespace, so an empty or whitespace-only field is blank |
| Text.TrimIdempotent | components/create/AddItemModal.tsx:93-94 | trimming a trimmed text changes nothing |
| Text.ToLower | components/ui/AutocompleteInput.tsx:51 | lower-casing keeps the length and maps each ASCII capital to its small letter, leaving other characters alone |
| Text.ToLowerIdempotent | components/ui/AutocompleteInput.tsx:51-53 | lower-casing twice is the same as lower-casing once |
| Text.LastSegment | app/create.tsx:231 | `split('.').pop()` is the suffix after the last dot, or the whole text when there is no dot, and it holds no dot |
| Text.LastSegmentAfterSeparator | lib/gemini.ts:28 | the text after a final `.` is the last segment of a file name |
| Text.Utf16Length | app/reset-password.tsx:26 | `length` counts UTF-16 code units: between one and two per character |
| Text.NatToString | app/create.tsx:143 | `idx.toString()` is a non-empty run of decimal digits with no leading zero |
| Text.ParseNatToString | app/create.tsx:143 | reading the digits of `idx.toString()` back gives `idx`, so the rendering loses nothing |
| Text.NatToStringInjective | app/create.tsx:143 | different indices give different ids |
| Text.Join | lib/gemini.ts:160 | `join(sep)`: the items with the separator between neighbours and none at the ends. Its promise used by the prompt is stated by `Text.JoinPrefix` |
| Text.ReplaceAll | lib/link-preview.ts:76 | `replace(/lit/g, rep)`: non-overlapping occurrences replaced left to right, and the replacement is not rescanned. `Text.ReplaceAllWithoutFirstChar` and `Text.ReplaceAllShrinks` state its promises |
| Text.JoinPrefix | lib/gemini.ts:160 | joining the first `k` items gives a prefix of the join of all items |
| Lists.Filter | app/create.tsx:215 | `filter` keeps exactly the elements that pass the predicate |
| Lists.FilterKeepsAll | app/create.tsx:215 | when every element passes, `filter` returns the list unchanged |
| Lists.FilterConcat | app/create.tsx:215 | filtering a concatenation filters each part, so the kept elements stay in input order |
| Lists.FilterDropsOne | app/create.tsx:215 | when exactly one element fails, filtering removes that element and keeps the rest in order |
| Lists.Take | components/ui/AutocompleteInput.tsx:54 | `slice(0, n)` is the prefix of length `min(n, length)` |
| UriEncoding.Encode | lib/themealdb.ts:143 | `encodeURIComponent` output is made only of unreserved characters and `%` escapes, and is never shorter than its input |
| UriEncoding.EncodeUnreserved | lib/themealdb.ts:143 | a name made of unreserved characters is encoded as itself |
| UriEncoding.EncodeHasNoDelimiters | lib/themealdb.ts:143 | the encoding never holds `/`, `?`, `#` or a space |
| UriEncoding.DecodeEncodeAscii | lib/themealdb.ts:143 | decoding the encoding of an ASCII text gives the text back |
| Validation.FirstFailure | app/create.tsx:268-289 | a handler goes on iff every check passes; otherwise it shows the message of a check that fails while all before it pass |
| Validation.FirstFailureIsEarliest | app/create.tsx:268-289 | the message shown is that of the earliest failing check, so a later failure never masks an earlier one |
| Subscription.UsedToday | ctx/SubscriptionContext.tsx:147-152 | the recorded uses of a daily kind are non-zero only for a row last reset today, so no row and a stale row both read as no use today |
| Subscription.CheckQuota | ctx/SubscriptionContext.tsx:132-156 | a pro user passes. A lookup error other than PGRST116 refuses. Otherwise a free user passes iff today's recorded uses of the kind are below 1, so no row or a row last reset on another day passes |
| Subscription.CheckPdfQuota | ctx/SubscriptionContext.tsx:158-169 | a pro user passes; a free user passes iff the PDF total (missing counts as 0) is below 10 |
| Subscription.Upsert | ctx/SubscriptionContext.tsx:190-192 | the upsert writes every counter it carries. It keeps the stored `last_reset_date` when the update leaves that column out |
| Subscription.PlanIncrement | ctx/SubscriptionContext.tsx:174-188 | the `updates` object, upserted over the row that was read, records exactly one more use of the kind on today (`IncrementedRow`). It leaves the date out only for a row already reset today |
| Subscription.QuotaTable.IncrementQuota | ctx/SubscriptionContext.tsx:171-195 | a pro user's scan or AI use, and a failed upsert, change no row. Otherwise only the user's row changes, to the incremented row (a failed read counts as no row). Counters stay non-negative |
| Subscription.IncrementCountsOneUse | ctx/SubscriptionContext.tsx:179-188 | one increment raises the named kind's usage for today by one and leaves the other kinds' usage as it was; the PDF total rises only for a PDF upload |
| Subscription.NewDayRestartsDailyCounters | ctx/SubscriptionContext.tsx:179-183 | on a new day the date becomes today, the daily counters restart, and the PDF total is carried over |
| Subscription.IncrementKeepsNonNegative | ctx/SubscriptionContext.tsx:177-188 | an increment never makes a counter negative |
| Subscription.IncrementThenCheckRefuses | ctx/SubscriptionContext.tsx:148-153 | after a free user's scan or AI creation is counted, the same check on the same day refuses |
| Subscription.FreshDayAllowsOneUse | ctx/SubscriptionContext.tsx:148-153 | a free user with no use of the kind today passes once, and then no more that day |
| Subscription.PdfCountCumulative | ctx/SubscriptionContext.tsx:183-187 | over any run of increments, the PDF total is the stored total plus the counted PDF uploads, whatever the days |
| Subscription.SameDayUsageAccumulates | ctx/SubscriptionContext.tsx:184-187 | within one day, a daily kind's usage is the stored usage plus the counted uses of the run |
| Subscription.PdfAllowanceExhausted | ctx/SubscriptionContext.tsx:167-168 | after ten counted PDF uploads, a free user's PDF check refuses for good |
| Subscription.TierFor | ctx/SubscriptionContext.tsx:85-96 | the mirrored tier is pro iff the `pro_access` entitlement is active |
| Subscription.TierName | ctx/SubscriptionContext.tsx:96 | the column value is `pro` for the pro tier and `free` for the free tier |
| Subscription.Provider.constructor | ctx/SubscriptionContext.tsx:24-25 | the provider starts as not pro and loading |
| Subscription.Provider.HandleCustomerInfo | ctx/SubscriptionContext.tsx:80-105 | `isPro` becomes whether `pro_access` is active and loading ends. Only the signed-in user's existing profile row takes the tier, and no row is created. A failed update leaves every row as it was |
| MealDb.ExtractIngredients | lib/themealdb.ts:185-201 | the loop yields one entry per non-blank ingredient slot among 1..20, in slot order, so at most 20 entries |
| MealDb.LinesFollowFilledSlots | lib/themealdb.ts:188-198 | the `k`-th entry comes from the `k`-th slot holding a non-blank ingredient |
| MealDb.FilledSlotsIncreasing | lib/themealdb.ts:188 | the slots read lie in 1..n and are in strictly increasing order |
| MealDb.FilledSlotsComplete | lib/themealdb.ts:192-197 | every slot with a non-blank ingredient contributes an entry |
| MealDb.ExtractedAreFilledSlots | lib/themealdb.ts:188-198 | the entries are the in-order subsequence of the slots with a non-blank ingredient |
| MealDb.LineWellFormed | lib/themealdb.ts:192-196 | each entry's ingredient is trimmed and non-empty. Its measure is trimmed, and `''` when the measure is missing |
| MealDb.OnlyLowSlotsRead | lib/themealdb.ts:188 | two meals that agree on slots 1..20 give the same entries: no other slot is read |
| MealDb.IngredientThumbUrl | lib/themealdb.ts:141-144 | `getIngredientThumbUrl`: the image folder, the URI-encoded name, the size suffix and `.png`. `MealDb.ThumbUrlInFolder`, `MealDb.ThumbUrlSizeSuffix`, `MealDb.ThumbUrlStaysInFolder` and `MealDb.ThumbUrlRoundTrip` state its promises |
| MealDb.ThumbUrlInFolder | lib/themealdb.ts:141-144 | a thumbnail URL starts with the TheMealDB ingredient image folder |
| MealDb.ThumbUrlSizeSuffix | lib/themealdb.ts:142-143 | a thumbnail URL ends in `-Small.png` for the small size and in a plain `.png` for the medium size |
| MealDb.ThumbUrlStaysInFolder | lib/themealdb.ts:143 | whatever the name holds, the file part has no `/`, `?` or `#`, so the URL stays in the folder |
| MealDb.ThumbUrlRoundTrip | lib/themealdb.ts:143 | for an ASCII name the ingredient name can be read back out of its thumbnail URL |
| MealDb.ListOrEmpty | lib/themealdb.ts:108-134 | `data.meals \|\| []` is the list when present and `[]` when null or absent |
| MealDb.FirstMeal | lib/themealdb.ts:79-83 | `getMealById` gives the first meal of the response, or null when there is none |
| MealDb.FirstMealIsHeadOfList | lib/themealdb.ts:79-83 | the looked-up meal is the head of the defaulted list, and is null iff that list is empty |
| Gemini.ImageExtension | lib/gemini.ts:28 | the extension is never empty, since an empty last segment falls back to `jpeg`, and it holds no ASCII capital |
| Gemini.MimeTypeFor | lib/gemini.ts:28-29 | the MIME type is `image/png` iff the lower-cased last `.`-segment is `png`, and `image/jpeg` otherwise |
| Gemini.PngFileIsPng | lib/gemini.ts:28-29 | a file name ending in `.png` in any letter case is sent as PNG |
| Gemini.StripFences | lib/gemini.ts:107-117 | the step-by-step trim, fence removal and trim compute the fence-stripped text, which is trimmed |
| Gemini.FenceStrippedIsTrimmed | lib/gemini.ts:107-117 | the text handed to `JSON.parse` is always trimmed |
| Gemini.UnfencedReplyOnlyTrimmed | lib/gemini.ts:107-117 | a reply with no leading or trailing fence is only trimmed |
| Gemini.JsonFenceRoundTrip | lib/gemini.ts:107-117 | a body wrapped in a `json`-tagged code fence comes out as the body |
| Gemini.BareFenceRoundTrip | lib/gemini.ts:107-117 | a body wrapped in a bare code fence comes out as the body |
| Gemini.Normalize | lib/gemini.ts:119-136 | unparseable text and `null` give "Failed to parse recipe data from image"; any extracted recipe has a non-empty title |
| Gemini.NormalizeDefaults | lib/gemini.ts:119-132 | a missing or empty title becomes "Untitled Recipe", and a present one is kept. Missing ingredients become `[]`, and a present list is kept. Truthy instructions of a non-inferred reply are kept unchanged. Missing instructions become `''`, or the AI marker alone when the recipe was inferred |
| Gemini.AiMarkerIffInferred | lib/gemini.ts:120-126 | the instructions end with the AI marker iff the reply says the recipe was inferred, and what precedes the marker is the parsed instructions |
| Gemini.AnalyzeRecipeImage | lib/gemini.ts:17-137 | the errors in order: no API key, then a non-OK status, then empty reply text. Otherwise the result is the normalised parse of the fence-stripped reply |
| Gemini.DescriptionPrompt | lib/gemini.ts:155-168 | the prompt: the title line, the optional category and cuisine lines, and at most ten ingredients. `Gemini.PromptIgnoresLaterIngredients`, `Gemini.PromptIngredientsArePrefix` and `Gemini.AbsentFieldsGiveEmptyLines` state its promises |
| Gemini.PromptIgnoresLaterIngredients | lib/gemini.ts:160 | ingredients after the tenth never reach the description prompt |
| Gemini.PromptIngredientsArePrefix | lib/gemini.ts:160 | the prompt's ingredient list is a prefix of the full list joined by `, `. It is the whole list when there are at most ten |
| Gemini.AbsentFieldsGiveEmptyLines | lib/gemini.ts:155-168 | an absent or empty category and cuisine leave their prompt lines empty |
| Gemini.DescriptionRequestParts | lib/gemini.ts:170-200 | the request holds the prompt first. It also holds the image as JPEG exactly when an image URL is given and the download succeeded |
| Gemini.GenerateRecipeDescription | lib/gemini.ts:144-224 | no API key and empty reply text are errors. Otherwise the description is the reply text trimmed, which trimming again leaves unchanged |
| LinkPreview.MatchAt | lib/link-preview.ts:34-35 | a match at a position starts with the pattern's literal prefix in any ASCII case, and its capture is non-empty and free of the stop character |
| LinkPreview.SearchFrom | lib/link-preview.ts:34-35 | `match` finds the leftmost position where the pattern matches, and nothing when no position does |
| LinkPreview.FirstMatch | lib/link-preview.ts:34-36 | `getMetaContent` returns the capture of the first of its patterns that matches, or undefined when none does |
| LinkPreview.Title | lib/link-preview.ts:40-47 | the title is `og:title`, and falls back to the `<title>` text only when `og:title` is absent |
| LinkPreview.Description | lib/link-preview.ts:50-57 | the description is `og:description`, and falls back to `meta name="description"` only when that is absent |
| LinkPreview.OgCaptureNonEmpty | lib/link-preview.ts:36-42 | a found Open Graph value is never empty, so the fallback is taken only when the tag is absent |
| LinkPreview.DecodeEntities | lib/link-preview.ts:76 | the five entity replacements, `&amp;` first. `LinkPreview.DecodeWithoutAmpersand`, `LinkPreview.DecodeShrinks` and `LinkPreview.DecodeAmpersandFirst` state its promises |
| LinkPreview.Decode | lib/link-preview.ts:74-77 | `decode` maps undefined and `''` to undefined, and anything else to its entity-decoded text |
| LinkPreview.DecodeWithoutAmpersand | lib/link-preview.ts:76 | a text without `&` is returned unchanged |
| LinkPreview.DecodeShrinks | lib/link-preview.ts:76 | decoding never lengthens a text |
| LinkPreview.DecodeAmpersandFirst | lib/link-preview.ts:76 | `&amp;` is replaced first, so `&amp;lt;` becomes `<` |
| LinkPreview.ShouldFetch | lib/link-preview.ts:14 | a URL is fetched iff it starts with `http`, so the separate empty-URL test never decides anything |
| LinkPreview.PreviewFromHtml | lib/link-preview.ts:38-86 | a page gives a preview iff it has a truthy title, description or image. The preview echoes the URL and the page and keeps the image as found |
| LinkPreview.GetLinkPreview | lib/link-preview.ts:11-92 | a preview exists only for a guarded URL whose fetch answered OK, and it echoes the URL and the page. For such a fetch, a preview exists iff the page has a title, a description or an image |
| LinkPreview.RejectedUrlIgnoresFetch | lib/link-preview.ts:14-16 | an empty URL, or one not starting with `http`, gives null whatever the network would answer |
| LinkPreview.NothingUsefulIsNull | lib/link-preview.ts:69-71 | a page with no title, description or image gives null, even when it names a site |
| LinkPreview.PreviewFields | lib/link-preview.ts:79-86 | title, description and site name are entity-decoded, each from its first available source, and the image URL passes unchanged |
| CreateScreen.WithoutIngredient | app/create.tsx:214-216 | the rows left are exactly the rows without that id |
| CreateScreen.WithoutFridgeItem | app/create.tsx:263-265 | the items left are exactly the items without that id |
| CreateScreen.RemovalKeepsOrder | app/create.tsx:214-216 | removal commutes with splitting the list, so the remaining rows keep their order |
| CreateScreen.RemovingAbsentIdKeepsList | app/create.tsx:214-216 | removing an id no row carries leaves the list unchanged |
| CreateScreen.RemovingUniqueIdRemovesOnlyThatRow | app/create.tsx:214-216 | removing a row's id, when no other row carries it, removes that row alone |
| CreateScreen.UpdatedIngredients | app/create.tsx:218-222 | only the named field of the rows with that id changes. Other rows, and the other field, are unchanged |
| CreateScreen.UpdateWithSameValueIsIdentity | app/create.tsx:218-222 | setting a field to the value it already holds leaves every row as it was |
| CreateScreen.RowsFromExtracted | app/create.tsx:141-147 | the prefilled rows are the extracted ingredients in order, row `k` having id `k` in decimal |
| CreateScreen.RemovingPrefilledRowRemovesOnlyIt | app/create.tsx:141-147 | prefilled ids are distinct, so removing one prefilled row removes that row alone |
| CreateScreen.ValidIngredients | app/create.tsx:313 | the saved ingredients are exactly those whose trimmed name is non-empty |
| CreateScreen.CreateError | app/create.tsx:268-289 | `handleCreate` checks, in order: logged in, a non-blank title (recipe mode), a fridge item (fridge mode), and a named ingredient (recipe mode). The first failure aborts |
| CreateScreen.CreatedRecipeHasTitleAndIngredient | app/create.tsx:273-289 | a recipe that passes the checks has a non-blank title and at least one named ingredient |
| CreateScreen.UploadExtension | app/create.tsx:231 | the file extension is the lower-cased last `.`-segment, or `jpg` when that is empty |
| CreateScreen.UploadContentType | app/create.tsx:231-233 | the content type is `image/png` iff the lower-cased last `.`-segment is `png`, and `image/jpeg` otherwise |
| CreateScreen.UploadTypeAgreesWithGemini | app/create.tsx:231-233 | the upload and the Gemini request give a picture the same type, though their default extensions differ |
| CreateScreen.SaveTargetFor | app/create.tsx:328-345 | the recipe is updated by id iff the screen is in edit mode with an id, and inserted otherwise |
| CreateScreen.FridgeRows | app/create.tsx:297-302 | one `user_fridge` row per item, in order, owned by the user |
| CreateScreen.BookError | app/create.tsx:357-370 | `handleSaveRecipeBook` checks, in order: logged in, a non-blank book title, and a PDF with both URI and name |
| CreateScreen.CreateRecipeScreen.constructor | app/create.tsx:44-66 | the form starts in manual mode when editing and in mode selection otherwise, with one blank row with id `1` |
| CreateScreen.CreateRecipeScreen.AddIngredient | app/create.tsx:210-212 | one blank row is appended and nothing else changes |
| CreateScreen.CreateRecipeScreen.RemoveIngredient | app/create.tsx:214-216 | the rows with the id go and the rest stay in order; nothing else changes |
| CreateScreen.CreateRecipeScreen.UpdateIngredient | app/create.tsx:218-222 | the ingredient list becomes the updated list; nothing else changes |
| CreateScreen.CreateRecipeScreen.HandleAddItem | app/create.tsx:259-261 | the item is appended to the fridge list; nothing else changes |
| CreateScreen.CreateRecipeScreen.RemoveFridgeItem | app/create.tsx:263-265 | the items with the id go and the rest stay in order; nothing else changes |
| CreateScreen.CreateRecipeScreen.ResetCreationMode | app/create.tsx:397-406 | back to mode selection with an empty recipe and book and one blank row with id `1`; fridge items are kept |
| CreateScreen.CreateRecipeScreen.PickAndAnalyzeImage | app/create.tsx:123-160 | the picked image is shown. A successful analysis fills title, instructions and rows and switches to manual entry; a failed one changes nothing else |
| CreateScreen.CreateRecipeScreen.HandleCreate | app/create.tsx:267-354 | the first failed check is the alert and nothing is written. Otherwise, in fridge mode, the fridge rows are inserted. In recipe mode the recipe is written with its named ingredients, after uploading a local image; it is an update iff editing with an id. The form is untouched and loading is off afterwards |
| CreateScreen.CreateRecipeScreen.HandleSaveRecipeBook | app/create.tsx:356-394 | the first failed check is the alert; otherwise the picked PDF is uploaded and a book with the typed title is inserted |
| AddItemForm.ValidatedItem | components/create/AddItemModal.tsx:81-98 | a blank name, then a blank quantity, is an error. Otherwise the item has the trimmed, non-empty name and quantity, the selected unit, and the small thumbnail of the trimmed name |
| AddItemForm.NameCheckedFirst | components/create/AddItemModal.tsx:82-89 | a blank name is reported before anything is said about the quantity |
| AddItemForm.ValidatedItemIsStable | components/create/AddItemModal.tsx:91-98 | validating an emitted item's fields again gives the same item |
| AddItemForm.AddItemModal.constructor | components/create/AddItemModal.tsx:44-47 | the fields start empty, with unit `pcs` and no error |
| AddItemForm.AddItemModal.Open | components/create/AddItemModal.tsx:50-63 | opening copies the edited item's name, quantity and unit, or resets them to `''`, `''` and `pcs`. The error is cleared either way |
| AddItemForm.AddItemModal.ChangeName | components/create/AddItemModal.tsx:135-138 | typing a name stores it and clears the error |
| AddItemForm.AddItemModal.ChangeQuantity | components/create/AddItemModal.tsx:149-152 | typing a quantity stores it and clears the error |
| AddItemForm.AddItemModal.SelectUnit | components/create/AddItemModal.tsx:162-166 | a unit chip can only set the unit to one of the listed units |
| AddItemForm.AddItemModal.HandleValidate | components/create/AddItemModal.tsx:81-102 | on failure only the error is set and nothing is emitted. On success the validated item is emitted and the fields are kept |
| Autocomplete.Matches | components/ui/AutocompleteInput.tsx:51-53 | the matches are exactly the catalogue ingredients whose lower-cased name contains the lower-cased text |
| Autocomplete.Suggestions | components/ui/AutocompleteInput.tsx:44-58 | a text under two characters gets no suggestions. Otherwise the suggestions are the first `min(20, matches)` matches, in catalogue order |
| Autocomplete.FewMatchesAllSuggested | components/ui/AutocompleteInput.tsx:52-54 | with at most twenty matches, every matching ingredient is suggested |
| Autocomplete.SuggestionsIgnoreCase | components/ui/AutocompleteInput.tsx:51-53 | the text's letter case does not change the suggestions |
| Autocomplete.OwnNameMatches | components/ui/AutocompleteInput.tsx:53 | an ingredient matches its own lower-cased name |
| Autocomplete.AutocompleteInput.constructor | components/ui/AutocompleteInput.tsx:22-24 | the catalogue and the suggestions start empty and hidden |
| Autocomplete.AutocompleteInput.LoadIngredients | components/ui/AutocompleteInput.tsx:28-41 | a successful load replaces the catalogue and a failed one keeps it |
| Autocomplete.AutocompleteInput.DropdownVisible | components/ui/AutocompleteInput.tsx:79 | the dropdown is drawn iff it is shown and the list is non-empty. `Autocomplete.AutocompleteInput.FilterEffect` and `Autocomplete.AutocompleteInput.HandleSelect` state when that holds |
| Autocomplete.AutocompleteInput.FilterEffect | components/ui/AutocompleteInput.tsx:44-58 | the list becomes the suggestions for the text, shown iff non-empty, so the dropdown is visible iff there are suggestions |
| Autocomplete.AutocompleteInput.ChangeText | components/ui/AutocompleteInput.tsx:70-73 | typing hands the text on, and a non-empty text asks for the dropdown |
| Autocomplete.AutocompleteInput.HandleSelect | components/ui/AutocompleteInput.tsx:60-63 | picking a suggestion sets the text to its exact name and hides the dropdown |
| Autocomplete.SelectionIsFollowedByItsOwnSuggestion | components/ui/AutocompleteInput.tsx:44-63 | after a pick of a name of two or more characters, among at most twenty matches, the re-run filter effect suggests the picked ingredient again |
| FilterSheet.SyncOnOpen | components/recipes/FilterModal.tsx:55-62 | the open effect: a current filter restores its tab and value, and without one the selection is cleared and the tab kept. `FilterSheet.FilterModal.Open` and `FilterSheet.OpenThenApplyRoundTrip` state its promises |
| FilterSheet.AppliedFilter | components/recipes/FilterModal.tsx:82-89 | apply emits the active tab and the selection iff the selection is truthy, and null otherwise |
| FilterSheet.OpenThenApplyRoundTrip | components/recipes/FilterModal.tsx:55-89 | opening with a filter and applying at once emits that filter; opening without one and applying emits null |
| FilterSheet.Items | components/recipes/FilterModal.tsx:100-108 | the chips are the category names, the area names, or the first fifty ingredient names, in order, by tab |
| FilterSheet.MissingDataGivesNoItems | components/recipes/FilterModal.tsx:100-108 | missing data on the active tab lists no chips |
| FilterSheet.IsLoading | components/recipes/FilterModal.tsx:97-98 | the loading flag is that of the active tab's query alone |
| FilterSheet.FilterModal.constructor | components/recipes/FilterModal.tsx:32-33 | the sheet starts on the category tab, selecting the current filter's value when it is truthy |
| FilterSheet.FilterModal.Open | components/recipes/FilterModal.tsx:55-62 | opening with a current filter restores its tab and value; opening without one clears the selection and keeps the tab |
| FilterSheet.FilterModal.SelectTab | components/recipes/FilterModal.tsx:137-140 | switching tab always clears the selection |
| FilterSheet.FilterModal.SelectItem | components/recipes/FilterModal.tsx:159 | pressing a chip selects its label |
| FilterSheet.FilterModal.HandleApply | components/recipes/FilterModal.tsx:82-89 | apply emits the applied filter of the current selection and closes |
| FilterSheet.FilterModal.HandleReset | components/recipes/FilterModal.tsx:91-95 | reset clears the selection, emits null and closes |
| ResetPassword.ResetError | app/reset-password.tsx:21-34 | the checks, in order: a non-blank password, at least six UTF-16 units (spaces count), and the same password typed twice |
| ResetPassword.SentPasswordIsValid | app/reset-password.tsx:21-34 | a password that is sent is non-blank, at least six units long, and confirmed |
| ResetPassword.SpacesAreRefusedAsBlank | app/reset-password.tsx:21-29 | six spaces are long enough but are refused as blank, since that check comes first |
| ResetPassword.ReactionAsWritten | app/reset-password.tsx:42-45 | the success alert and the redirect to `/(tabs)` happen iff `updateUser` returned an error |
| ResetPassword.AsWrittenReactionIsInverted | app/reset-password.tsx:42-45 | a successful change gets no alert and no redirect, and a failed one is reported as a success |
| ResetPassword.IntendedReaction | app/reset-password.tsx:42-45 | the corrected reaction: success alert and redirect iff the call succeeded, the error reported otherwise |
| ResetPassword.ReactionsDisagreeOnSuccess | app/reset-password.tsx:42-45 | the written branch is exactly the negation of the intended one |
| ResetPassword.ResetPasswordScreen.constructor | app/reset-password.tsx:14-18 | the fields start empty and loading is off |
| ResetPassword.ResetPasswordScreen.HandleResetPassword | app/reset-password.tsx:20-46 | a failed check is the alert and nothing is sent. Otherwise `updateUser` runs once, with loading on; loading then goes off and the reaction is as written |
| RootLayout.InAuthGroup | app/_layout.tsx:57 | the first route segment is `(auth)` or `(onboarding)`. `RootLayout.Redirect` and `RootLayout.RedirectLandsInRightGroup` state how the guard uses it |
| RootLayout.Redirect | app/_layout.tsx:54-67 | no redirect while auth loads. A signed-out user outside `(auth)`/`(onboarding)` goes to sign-in; a signed-in user inside them goes to the tabs; nothing else redirects |
| RootLayout.UpToSlash | app/_layout.tsx:57-58 | a route's first segment is the prefix up to the first `/`, and holds no `/` |
| RootLayout.UpToSlashOfSegment | app/_layout.tsx:57-58 | the first segment of `a/…` is `a` |
| RootLayout.TargetGroups | app/_layout.tsx:62-65 | the sign-in route lies in `(auth)` and the tabs route in `(tabs)` |
| RootLayout.RedirectSettles | app/_layout.tsx:54-67 | once on the route the guard chose, the guard chooses nothing more for the same session |
| RootLayout.RedirectLandsInRightGroup | app/_layout.tsx:54-67 | a signed-out user always ends inside the auth group and a signed-in user always outside it |
| RootLayout.Renders | app/_layout.tsx:69-71 | the navigator renders iff the fonts are loaded and auth has finished loading |
| RootLayout.RenderedImpliesGuardActive | app/_layout.tsx:54-71 | whenever the navigator renders, auth has finished loading, so the redirect of that render stays put iff the session agrees with the route group |

## Left out

- Supabase: every select, insert, update and upsert, storage uploads, `getPublicUrl` and `auth.updateUser`. Their outcomes are parameters: the looked-up row and its error code, read and write failures, the uploaded URL, and the error of `updateUser`. The quota table is an in-memory map keyed by user id, on the assumption that `user_id` is the table's conflict key.
- HTTP: the requests to Gemini, TheMealDB and previewed pages. The reply (status, text, or a thrown error) is a parameter. The request URLs and the long image-analysis prompt are not modelled.
- Gemini.AnalyzeRecipeImage: `JSON.parse` is a function parameter, and only string titles and instructions, array ingredient lists and a boolean `is_inferred` are modelled. A parsed value of another JSON type is outside the model.
- RevenueCat: `Purchases.configure`, the listener, `loadOfferings`, `purchasePackage` and `restorePermissions`, and the `offerings`/`isConfigured` state. These are SDK calls; `handleCustomerInfo` is modelled on the set of active entitlement names.
- Subscription.CheckQuota: called only for `scan` and `ai`, as the source's type allows, so its final `return false` (line 155) is not reachable in the model.
- `fetchRecipeDetails` (loading the recipe being edited), `pickPdf`, `uploadImage` and `uploadPdf`. Their results are parameters: the edited fields, the picked PDF and the uploaded URL.
- CreateScreen.CreateRecipeScreen.HandleCreate: the success and error alerts, the navigation after saving, and an insert or upload that throws are not modelled. The method describes the writes it plans and states `loading` after the save.
- CreateScreen.CreateRecipeScreen.PickAndAnalyzeImage: the image picker, its cancel path, the `analyzing` and `editMode` flags, and the alerts are left out. The analysis result is a parameter.
- Base64 conversion (`readAsStringAsync`, `btoa`): the encoded image is a parameter.
- `Math.random()` ids, `Date.now()` file names and `new Date().toISOString()`: ids and "today" are parameters.
- UriEncoding.Encode: a lone surrogate, on which `encodeURIComponent` throws `URIError`, cannot be represented, because a Dafny `char` is a Unicode scalar value. That error path is not modelled.
- Text.ToLower: Unicode case mapping beyond ASCII is not modelled, so non-ASCII letters keep their case.
- Regular expressions: only the five patterns of the link preview are modelled, as literal prefixes compared in ASCII case, `[^x]+` captures and a literal suffix. The first Open Graph pattern, written without spaces in the source, is modelled as written.
- Async interleavings: for example, `isPro` changing while a quota check awaits the database, or two increments racing between read and upsert.
- Animations, layout, fonts and the splash screen. The font loading error, which is rethrown, is left out; the render gate is modelled.
- The React re-render loop itself: each effect is a method the caller invokes after the state it depends on changed.

## Findings

| source | as written | input that shows it | evidently intended | confidence | as-written member | corrected member |
|---|---|---|---|---|---|---|
| app/reset-password.tsx:42-45 | the success alert and the redirect to `/(tabs)` run only when `updateUser` returns an error | `updateUser` succeeds (no error): no alert, no redirect; `updateUser` fails: "Password updated successfully" and a redirect | `if (!error)` for success, with the error reported otherwise | not executed | ResetPassword.ReactionAsWritten | ResetPassword.IntendedReaction |

The screen method `ResetPassword.ResetPasswordScreen.HandleResetPassword` keeps
the branch as written, because that is what the screen does.
`ResetPassword.AsWrittenReactionIsInverted` exhibits both inputs, and
`ResetPassword.ReactionsDisagreeOnSuccess` proves that the two reactions
disagree on every outcome of the call.

Picking an autocomplete suggestion hides the dropdown. But the pick changes
the text, so the filter effect runs again and shows the dropdown once more,
now holding the picked ingredient. `Autocomplete.SelectionIsFollowedByItsOwnSuggestion`
states this; it is a behaviour of the source, not a defect the model corrects.

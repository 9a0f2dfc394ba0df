# Price tracker core in Dafny

A Dafny model of the logic inside a React Native price-tracking app. The app signs a user in, lists their products and each product's price history, and lets the user add products, add and edit price entries, and delete entries. Not modelled: screens, styling and network clients.

The model covers these parts:

- **Price history.**
  - The up/down/stable trend rule, which the source contains twice.
  - The relative-date labels of the product list.
  - The price chart's date-ascending stable copy-sort.
  - Deleting a price entry (a filter by id) and editing one (a map that replaces the matching id).
- **Forms.** How each modal validates its form and builds its request: add product, edit product, add price, edit price entry. Also the sign-in form and the tag editor.
- **Helpers.**
  - Date strings: the `:dddZ` repair, `YYYY-MM-DD` parsing and printing, with a round-trip proof.
  - Endpoint URLs and query keys, including the prefix relation between keys.
  - The placement arithmetic of the options menu.
  - The in-place prepend of the offline add-product helper.
- **Session and cache.** A state machine over two abstract stores:
  - the secure token store, a `map<string,string>` whose reads can fail;
  - the query cache, a map from `seq<string>` keys to Fresh/Stale/Initial entries. Invalidate, remove and reset each act on every key that has the filter as a prefix.

  The model states which store and cache operations each login, logout and mutation outcome triggers, and in what order. It does this with an ordered trace of `Effects.Effect` values: requests, store writes, cache operations, toasts and alerts.

The JavaScript runtime is passed in as a record of functions (`Platform.Runtime`). It covers `Number(s)`, `new Date(s).getTime()`, the local calendar of an instant, `toLocaleDateString` and `String(x)`. Every model function therefore states which runtime facts it depends on. Server answers are parameters of type `Result<_, Thrown>`. So are the current time, the generated UUID, the screen height, the button measurement and whether a mutation was pending at render time.

Where the code and its documentation differ, the model follows the code:

- The edit-price-entry modal fills its date field with `formatDate`'s long locale rendering, not the stored ISO string. An untouched form therefore sends that rendering back as the entry's date (`EditPriceEntryModal.UntouchedDateIsReformatted`).
- The add-price modal opens in EUR, but after a successful save it resets to USD (`AddPriceEntryModal.CurrencyAfterReset`). Every modal's reset also uses USD.
- `getPriceChangeInfo` divides by the previous price without a guard. A zero previous price gives NaN or Infinity, and both are modelled.

## Model

| member | source | states |
|---|---|---|
| PriceChangeInfo.GetPriceChangeInfo | utils/get-price-change-info.ts:3-23 | fewer than 2 entries give change 0, percentage 0 and stable; otherwise change is entry 0 minus entry 1; the trend is up, down or stable exactly when the change is positive, negative or zero; a finite percentage is never negative and equals abs(change)·100/abs(previous) when previous ≠ 0; a zero previous price gives NaN (no change) or Infinity |
| PriceChangeInfo.PercentOfNonZero | utils/get-price-change-info.ts:11-15 | for a non-zero previous price, abs((change/previous)·100) equals abs(change)·100/abs(previous) |
| PriceChangeInfo.OnlyNewestTwoMatter | utils/get-price-change-info.ts:8-9 | two histories that agree on the prices of entries 0 and 1 give the same result, whatever the later entries are |
| ProductsList.LocalCopyAgrees | components/ProductsList/ProductsList.tsx:30-50 | the list's own copy of the rule returns the same result as the utility for every product |
| ProductsList.CeilDiv | components/ProductsList/ProductsList.tsx:56 | `Math.ceil(a/b)` on naturals: the least q with q·b ≥ a |
| ProductsList.LabelFor | components/ProductsList/ProductsList.tsx:52-62 | for the absolute distance rounded up to whole days: 1 day gives Yesterday; 0 or 2..6 days give N days ago; 7..29 give ceil(N/7) weeks ago, always 1..5; 30 or more fall back to the locale date |
| ProductsList.FormatRelative | components/ProductsList/ProductsList.tsx:52-62 | an unparsable date gives the invalid-date rendering; a valid one is labelled by its distance from now |
| ProductsList.DiffDaysOfWholeDays | components/ProductsList/ProductsList.tsx:55-56 | a date exactly n whole days before now is n days away |
| ProductsList.YesterdayAndToday | components/ProductsList/ProductsList.tsx:56-59 | the label is Yesterday exactly when the distance is positive and at most one day; it is 0 days ago exactly when the date is now |
| ProductsList.FutureAndPastAlike | components/ProductsList/ProductsList.tsx:55 | a date k ms in the future and one k ms in the past either both fall back to the locale date or get the same label |
| ProductsList.RenderedTexts | components/ProductsList/ProductsList.tsx:58-60 | the label texts are "Yesterday", "N days ago" (including "0 days ago") and "N weeks ago" |
| ProductsList.PlaceholderLetter | components/ProductsList/ProductsList.tsx:78 | the brand's first character when the brand is non-empty, otherwise the name's first character ("" for an empty name) |
| TagInput.AddedTags | components/TagInput/TagInput.tsx:34-38 | the old list is a prefix of the result and at most one tag is added; a tag is in the result iff it was in the list or is the non-empty trimmed text; the list changes iff the trimmed text is non-empty and new |
| TagInput.RemovedTags | components/TagInput/TagInput.tsx:42-44 | a tag is in the result iff it was in the list and differs from the removed one |
| TagInput.RemoveDistributes | components/TagInput/TagInput.tsx:43 | removal works piecewise on a concatenation, so the other tags keep their order |
| TagInput.RemoveAtIndex | components/TagInput/TagInput.tsx:43 | in a list without duplicates, removing the tag at index i gives the list without position i |
| TagInput.BackspaceDropsLast | components/TagInput/TagInput.tsx:46-50 | in a list without duplicates, removing the last tag drops exactly the last position |
| TagInput.AddKeepsWellFormed | components/TagInput/TagInput.tsx:34-38 | adding keeps a list of distinct, non-empty, trimmed tags in that form |
| TagInput.RemoveKeepsWellFormed | components/TagInput/TagInput.tsx:42-44 | removing keeps a list of distinct, non-empty, trimmed tags in that form |
| TagInput.TagInputState.AddTag | components/TagInput/TagInput.tsx:34-40 | the list becomes the added list and is emitted only when it changed; the text is cleared either way; well-formedness is kept |
| TagInput.TagInputState.RemoveTag | components/TagInput/TagInput.tsx:42-44 | the filtered list is always emitted, even when nothing was removed |
| TagInput.TagInputState.KeyPress | components/TagInput/TagInput.tsx:46-50 | Backspace with empty text and a non-empty list removes the last tag (exactly the last position for a well-formed list); any other key changes nothing and emits nothing |
| TagInput.TagInputState.ChangeText | components/TagInput/TagInput.tsx:52-58 | text ending in a comma or whitespace adds the text minus its last character and clears the input, and the new list is emitted exactly when it changed; other text only replaces the input |
| TagInput.TagInputState.SubmitEditing | components/TagInput/TagInput.tsx:98 | submitting adds the submitted text as a tag and clears the input; the new list is emitted exactly when it changed |
| PriceEntryRow.RemoveEntry | components/ProductDetails/PriceEntries/PriceEntry/PriceEntry.tsx:33-35 | the filtered history is never longer than the original |
| PriceEntryRow.RemoveEntryMembers | components/ProductDetails/PriceEntries/PriceEntry/PriceEntry.tsx:33-35 | exactly the entries with a different id remain |
| PriceEntryRow.RemoveDistributes | components/ProductDetails/PriceEntries/PriceEntry/PriceEntry.tsx:33-35 | the filter works piecewise on a concatenation, so the remaining entries keep their relative order |
| PriceEntryRow.RemoveAbsent | components/ProductDetails/PriceEntries/PriceEntry/PriceEntry.tsx:33-35 | when no entry carries the id, the history is returned unchanged |
| PriceEntryRow.RemoveUnique | components/ProductDetails/PriceEntries/PriceEntry/PriceEntry.tsx:33-35 | with unique ids, deleting entry i removes exactly position i, so the history is one entry shorter |
| PriceEntryRow.DeletePayload | components/ProductDetails/PriceEntries/PriceEntry/PriceEntry.tsx:36-38 | the patch carries the filtered history and no other field |
| PriceEntryRow.MenuNeverEmptiesHistory | components/ProductDetails/PriceEntries/PriceEntry/PriceEntry.tsx:66 | the menu is hidden exactly for a one-entry history; where it is shown, deleting one entry of a history with unique ids leaves it non-empty |
| PriceEntryRow.OnDelete | components/ProductDetails/PriceEntries/PriceEntry/PriceEntry.tsx:31-44 | the effects are exactly the edit mutation's trace for the filtered patch (request, invalidations and toast, or request and alert); success updates the cache as an edit does; a failure leaves the cache unchanged |
| EditPriceEntryModal.ApplyEdit | components/EditPriceEntryModal/EditPriceEntryModal.tsx:57-68 | the edited entry keeps its id and location and takes the form's price, currency, date and store |
| EditPriceEntryModal.ReplaceEntry | components/EditPriceEntryModal/EditPriceEntryModal.tsx:63-71 | same length; entries with another id are unchanged; entries with the edited id are replaced by the edit |
| EditPriceEntryModal.ReplaceKeepsIds | components/EditPriceEntryModal/EditPriceEntryModal.tsx:63-71 | the sequence of ids is unchanged, so order and uniqueness survive the edit |
| EditPriceEntryModal.ReplaceOnlyTarget | components/EditPriceEntryModal/EditPriceEntryModal.tsx:63-71 | with unique ids, only position i changes |
| EditPriceEntryModal.SubmitPayload | components/EditPriceEntryModal/EditPriceEntryModal.tsx:52-75 | a blank or non-numeric price is rejected with "Valid price is required."; otherwise the patch carries only `priceHistory`, which is absent when the product is not loaded; an empty form date becomes the current ISO timestamp |
| EditPriceEntryModal.InitialForm | components/EditPriceEntryModal/EditPriceEntryModal.tsx:31-42 | the form starts with the entry's currency (EUR if empty), its store ('' if missing), `String(price)` and the long-format date |
| EditPriceEntryModal.UntouchedDateIsReformatted | components/EditPriceEntryModal/EditPriceEntryModal.tsx:41-60 | an untouched form writes back the locale rendering of the date (or now, if that rendering is empty) |
| EditPriceEntryModal.EditPriceEntryModalState.Submit | components/EditPriceEntryModal/EditPriceEntryModal.tsx:50-100 | an invalid price alerts and sends nothing; otherwise the effects are exactly the edit mutation's trace (invalidations and toast on success, its alert on failure); success resets the form (unless pending) and closes; a failure is caught after the alert with the form and cache unchanged |
| AddPriceEntryModal.SubmitPayload | components/AddPriceEntryModal/AddPriceEntryModal.tsx:46-58 | a blank or non-numeric price is rejected; otherwise the patch sets latestPrice = Number(price) and latestCurrency, latestStore and latestPurchaseDate exactly as typed, and nothing else (no price history) |
| AddPriceEntryModal.CurrencyAfterReset | components/AddPriceEntryModal/AddPriceEntryModal.tsx:27-79 | the form opens in EUR but is USD after a successful reset |
| AddPriceEntryModal.AddPriceEntryModalState.Submit | components/AddPriceEntryModal/AddPriceEntryModal.tsx:46-83 | an invalid price alerts and sends nothing; otherwise the effects are exactly the edit mutation's trace (invalidations and toast on success, its alert on failure); success resets and closes; a failure is caught after the alert with the form and cache unchanged |
| AddProductModal.InitialForm | components/AddProductModal/AddProductModal.tsx:49-60 | empty fields, currency EUR and today's date |
| AddProductModal.BuildNewProduct | components/AddProductModal/AddProductModal.tsx:85-104 | one history entry with the UUID, date, currency, `Number(price)` and store-or-undefined; latestPrice and latestCurrency equal that entry's; name and the optional texts trimmed; brand and store untrimmed; category as typed; empty tags absent; trend STABLE |
| AddProductModal.SubmitPayload | components/AddProductModal/AddProductModal.tsx:72-104 | name, then price, then category are checked, and only the first failure's message is returned; a valid form gives the built product |
| AddProductModal.SubmittedProductIsClean | components/AddProductModal/AddProductModal.tsx:72-104 | a valid product has a non-empty trimmed name and a non-blank category; brand, description, image URL, tags and store are never sent empty |
| AddProductModal.AddProductModalState.Submit | components/AddProductModal/AddProductModal.tsx:69-127 | a failed check alerts and sends nothing; otherwise the effects are exactly the add mutation's trace (invalidation and toast on success, its alert on failure); success invalidates the list, resets the form, folds the advanced section (unless pending) and closes; a failure is caught after the alert with the form unchanged |
| EditProductModal.InitialForm | components/EditProductModal/EditProductModal.tsx:29-40 | the cached product's fields, '' or [] where missing, currency EUR and empty price fields |
| EditProductModal.SubmitPayload | components/EditProductModal/EditProductModal.tsx:51-68 | name, then category are checked (never price); the patch holds only name (trimmed), brand, category, description, image URL and tags, normalised as for a new product |
| EditProductModal.ClearedFieldsAreOmitted | components/EditProductModal/EditProductModal.tsx:63-67 | a cleared brand, description, image or tag list is sent as absent, so a patch can never empty those fields |
| EditProductModal.UnchangedFormResendsProduct | components/EditProductModal/EditProductModal.tsx:29-68 | submitting the untouched form of a normalised product sends back exactly its own six fields |
| EditProductModal.EditProductModalState.Submit | components/EditProductModal/EditProductModal.tsx:48-93 | a failed check alerts and sends nothing; otherwise the effects are exactly the edit mutation's trace (invalidations and toast on success, its alert on failure); `onClose` runs only after a successful mutation; a failure is caught after the alert with the form and cache unchanged |
| SignInForm.ValidationError | components/SignIn/SignInForm/SignInForm.tsx:33-41 | a blank email or password gives "Please fill in all required fields"; otherwise, in sign-up mode, a blank name gives "Please enter your name"; no error iff all required fields are filled |
| SignInForm.FailureMessage | components/SignIn/SignInForm/SignInForm.tsx:50-54 | 'Failed to create account' in sign-up mode, 'Failed to sign in' otherwise |
| SignInForm.SignInCredentials | components/SignIn/SignInForm/SignInForm.tsx:33-48 | a valid sign-in sends a non-empty trimmed email and a non-empty password |
| SignInForm.SignInFormState.HandleSubmit | components/SignIn/SignInForm/SignInForm.tsx:32-58 | a failed check alerts and leaves everything unchanged, including the loading flag; sign-in runs login with the trimmed email and the raw password and alerts on failure; sign-up calls nothing; loading ends false |
| SignInForm.SignInFormState.ToggleMode | components/SignIn/SignInForm/SignInForm.tsx:60-65 | the mode flips and email, password and name are cleared |
| HandleAddProduct.Stamp | components/AddProductModal/utils/handle-add-product.ts:8-14 | the product gets the given id and owner, and createdAt = updatedAt = now |
| HandleAddProduct.StampKeepsData | components/AddProductModal/utils/handle-add-product.ts:9 | removing the stamp gives the supplied data back, so every field is copied |
| HandleAddProduct.MockProducts.HandleAddProduct | components/AddProductModal/utils/handle-add-product.ts:4-17 | the stamped product (id = the stringified timestamp, owner 'user1') goes to index 0; the list grows by one and the old items follow unchanged |
| PriceHistoryChart.Insert | components/PriceHistoryChart/PriceHistoryChart.tsx:27-29 | one insertion step adds exactly the inserted entry |
| PriceHistoryChart.SortByDate | components/PriceHistoryChart/PriceHistoryChart.tsx:27-29 | the sorted copy is a permutation of the history |
| PriceHistoryChart.ChartData | components/PriceHistoryChart/PriceHistoryChart.tsx:23-29 | nothing is drawn for a missing or empty history; otherwise the data is a permutation of it |
| PriceHistoryChart.InsertStable | components/PriceHistoryChart/PriceHistoryChart.tsx:27-29 | inserting appends the entry to its own time class and leaves every other class alone |
| PriceHistoryChart.SortStable | components/PriceHistoryChart/PriceHistoryChart.tsx:27-29 | for every time value, the entries with that time are in input order |
| PriceHistoryChart.InsertAscending | components/PriceHistoryChart/PriceHistoryChart.tsx:27-29 | inserting a dated entry into an ascending list keeps it ascending |
| PriceHistoryChart.SortAscending | components/PriceHistoryChart/PriceHistoryChart.tsx:27-29 | when every date parses, the result is in ascending time order |
| PriceHistoryChart.ChartDataSorted | components/PriceHistoryChart/PriceHistoryChart.tsx:23-29 | for a non-empty, fully dated history the chart data is an ascending, stable permutation of it |
| MoreOptionsMenu.PlaceMenu | components/MoreOptionsMenu/MoreOptionsMenu.tsx:77-88 | above the button (ending exactly at its top) iff less than 120 is left below; otherwise at the button's bottom, and the menu then fits on screen |
| MoreOptionsMenu.PlacementTouchesButton | components/MoreOptionsMenu/MoreOptionsMenu.tsx:83-85 | the menu always touches the button, above or below; with room below it never starts above the button |
| MoreOptionsMenu.MenuLeft | components/MoreOptionsMenu/MoreOptionsMenu.tsx:125 | the horizontal position is the anchor's x minus 120 |
| MoreOptionsMenu.MenuState.Open | components/MoreOptionsMenu/MoreOptionsMenu.tsx:77-93 | the menu is shown; a measured button sets the anchor to its x and the placed y; an unmounted one keeps the previous anchor |
| MoreOptionsMenu.MenuState.Close | components/MoreOptionsMenu/MoreOptionsMenu.tsx:95-97 | the fade-out starts, then the menu is hidden |
| MoreOptionsMenu.MenuState.PressEdit | components/MoreOptionsMenu/MoreOptionsMenu.tsx:133-140 | fade-out, hide, then `onEdit` (when given) |
| MoreOptionsMenu.MenuState.PressDelete | components/MoreOptionsMenu/MoreOptionsMenu.tsx:148-151 | fade-out starts, `onDelete` (when given) runs at once, and the hide comes last |
| ConvertDates.RewriteSuffix | utils/convert-dates.ts:5 | a string ending in ':' + 3 digits + 'Z' gets the colon replaced by '.'; any other string is unchanged; the result never ends that way |
| ConvertDates.RewriteIdempotent | utils/convert-dates.ts:5 | the rewrite is idempotent |
| ConvertDates.FormatDate | utils/convert-dates.ts:1-15 | an invalid repaired date gives ""; a valid one gives its short or long locale rendering |
| ConvertDates.Truncate | utils/convert-dates.ts:35 | the `Date` constructor truncates toward zero |
| ConvertDates.FullYear | utils/convert-dates.ts:35 | years 0..99 mean 1900..1999, others are kept |
| ConvertDates.ToDate | utils/convert-dates.ts:17-36 | '' gives null; input with 'T' gives only the ISO parse, null if invalid; otherwise a missing, zero or NaN year, month or day gives null, extra parts are ignored, and the month index is month − 1 truncated toward zero |
| ConvertDates.FractionalMonthIsJanuary | utils/convert-dates.ts:35 | a month part strictly between 0 and 1 still yields a date in January, since `month - 1` is truncated rather than `month` |
| ConvertDates.TwoDigitsRoundTrip | utils/convert-dates.ts:40-41 | `String(n).padStart(2,'0')` reproduces a two-digit string with a non-zero value |
| ConvertDates.IsoDayParts | utils/convert-dates.ts:30 | `split('-')` of 'YYYY-MM-DD' gives the three digit groups |
| ConvertDates.ToDateOfIsoDay | utils/convert-dates.ts:30-35 | an in-range 'YYYY-MM-DD' becomes that year, zero-based month and day |
| ConvertDates.IsoDayPrinted | utils/convert-dates.ts:38-43 | printing those parts gives back the original string |
| ConvertDates.IsoDayRoundTrip | utils/convert-dates.ts:30-43 | round trip: `toDateStringISO(toDate(s)) == s` for every in-range 'YYYY-MM-DD' |
| Urls.BaseUrl | constants/urls.ts:1-2 | the environment value, or '' when unset |
| Urls.ProductUrlsShape | constants/urls.ts:10-13 | the list and add URLs are equal, and the detail URL is the list URL + '/' + id |
| Urls.EndpointsUnderBase | constants/urls.ts:5-13 | every endpoint has the base as a prefix |
| Urls.ProductUrlInjective | constants/urls.ts:12-13 | distinct ids give distinct detail URLs |
| Urls.EndpointsDistinct | constants/urls.ts:5-10 | the sign-in, get-user, refresh-token and products URLs are pairwise distinct |
| QueryKeys.GetProductKeys | constants/query-keys.ts:8-10 | ['productInfo', id]: length 2, with the product prefix unchanged |
| QueryKeys.ProductKeysInjective | constants/query-keys.ts:8-10 | distinct ids give distinct keys |
| QueryKeys.DetailFilterIsExact | constants/query-keys.ts:8-10 | a detail filter matches exactly the same product's detail key |
| QueryKeys.ProductsFilterSelective | constants/query-keys.ts:1-4 | ['products'] is a prefix of no detail key and not of the user key |
| QueryKeys.OtherFiltersSelective | constants/query-keys.ts:1-10 | the detail and user filters match no key of another kind |
| QueryCache.Invalidated | hooks/use-add-product.ts:14 | every matching entry becomes stale and every other entry is kept; there are no new keys |
| QueryCache.Removed | hooks/use-login.ts:25 | exactly the matching entries are dropped |
| QueryCache.ResetEntries | contexts/AuthContext.tsx:53 | every matching entry returns to its initial state and every other entry is kept |
| QueryCache.OperationsIdempotent | hooks/use-login.ts:21-25 | applying each cache operation twice is the same as once |
| SecureStore.Lookup | utils/manage-tokens.ts:36 | a present key reads its value and an absent key reads as null |
| SecureStore.Store.GetItem | utils/manage-tokens.ts:36 | an unavailable store rejects the read; otherwise the read is the lookup |
| SecureStore.Store.SetItem | utils/manage-tokens.ts:12 | the key is set to the value |
| SecureStore.Store.DeleteItem | utils/manage-tokens.ts:44 | the key is removed |
| ManageTokens.StoreTokens | utils/manage-tokens.ts:7-15 | writes accessToken, idToken and refreshToken in that order |
| ManageTokens.GetStoredTokens | utils/manage-tokens.ts:17-33 | a rejected read gives null overall; otherwise the three fields are read, absent keys as null |
| ManageTokens.GetAccessToken | utils/manage-tokens.ts:35-37 | reads only the accessToken key |
| ManageTokens.GetIdToken | utils/manage-tokens.ts:39-41 | reads only the idToken key |
| ManageTokens.ClearTokens | utils/manage-tokens.ts:43-47 | deletes the three keys in order |
| ManageTokens.StoreThenRead | utils/manage-tokens.ts:12-29 | round trip: after storing t, reading returns t |
| ManageTokens.ClearThenRead | utils/manage-tokens.ts:43-47 | after clearing, all three fields read as null |
| ManageTokens.ClearIdempotent | utils/manage-tokens.ts:43-47 | clearing is idempotent |
| ManageTokens.OtherKeysUntouched | utils/manage-tokens.ts:3-47 | storing and clearing leave every other key unchanged |
| ManageTokens.StoreOverwrites | utils/manage-tokens.ts:12-14 | a second store fully replaces the first bundle |
| AuthTokens.SameKeys | utils/auth.ts:4-6 | the key names are those of manage-tokens.ts |
| AuthTokens.StoreTokens | utils/auth.ts:8-16 | the same writes, in the same order, as the manage-tokens version |
| AuthTokens.GetStoredToken | utils/auth.ts:18-20 | reads the accessToken key, or rejects when the store does |
| AuthTokens.ClearTokens | utils/auth.ts:22-26 | the same deletes as the manage-tokens version |
| AuthTokens.StoredTokenAfterStore | utils/auth.ts:8-20 | after storing through either module, the access token reads back; after clearing, it reads as null |
| UseLogin.Login | hooks/use-login.ts:9-27 | the credentials are sent unchanged; on success the returned tokens are stored and then the user key is invalidated; on failure all tokens are cleared and then the user entry is removed |
| UseLogin.LoginOrdering | hooks/use-login.ts:17-26 | the request comes first, the three store writes or deletes next, and the one cache operation last |
| UseLogin.FailedLoginDropsUser | hooks/use-login.ts:25 | after failure the user entry is gone, not merely stale |
| UseLogin.SuccessfulLoginStoresBundle | hooks/use-login.ts:18 | after success the store holds exactly the returned token triple |
| UseAddProduct.AddProduct | hooks/use-add-product.ts:11-29 | the effects are exactly `AddProductEffects`: the product is sent unchanged; success invalidates ['products'] and then toasts the name; an error leaves the cache unchanged and alerts with the message or the fallback text |
| UseAddProduct.SuccessLeavesOtherEntries | hooks/use-add-product.ts:14 | success leaves detail and user entries untouched and marks the list stale |
| UseEditProduct.EditProduct | hooks/use-edit-product.ts:11-38 | the effects are exactly `EditProductEffects`: the arguments are sent unchanged; success invalidates ['productInfo', returned id] and ['products'] before the toast; an error leaves the cache unchanged and alerts |
| UseEditProduct.EditTouchesDetailAndList | hooks/use-edit-product.ts:20-23 | exactly the returned product's detail entry and the list entry become stale; other products and the user entry are kept |
| UseDeleteProduct.DeleteProduct | hooks/use-delete-product.ts:10-27 | the effects are exactly `DeleteProductEffects`: the id is sent unchanged; success invalidates only ['products'] and then toasts; an error leaves the cache unchanged and alerts |
| UseDeleteProduct.DeleteLeavesDetailEntry | hooks/use-delete-product.ts:13 | the deleted product's detail entry is not invalidated |
| AuthContext.AuthProvider.constructor | contexts/AuthContext.tsx:39 | `hasToken` starts false |
| AuthContext.AuthProvider.Login | contexts/AuthContext.tsx:44-49 | runs the login mutation with the same arguments |
| AuthContext.AuthProvider.Logout | contexts/AuthContext.tsx:51-54 | clears the three tokens, then resets ['user','auth'] |
| AuthContext.AuthProvider.CheckSession | contexts/AuthContext.tsx:56-65 | a signed-in session sets `hasToken`; any other result calls logout; `hasToken` is never set back to false |
| AuthContext.LogoutIdempotent | contexts/AuthContext.tsx:51-54 | logging out twice equals logging out once |
| AuthContext.LogoutLeavesNoToken | contexts/AuthContext.tsx:51-54 | after logout no token field reads back |
| Forms.ParsePrice | components/AddPriceEntryModal/AddPriceEntryModal.tsx:48 | the price is rejected iff it is blank after trimming or `Number` gives NaN |
| Forms.OrUndefined | components/AddProductModal/AddProductModal.tsx:95 | '' becomes absent; other strings are kept |
| Forms.TagsOrUndefined | components/AddProductModal/AddProductModal.tsx:102 | an empty tag list becomes absent; others are kept |
| Forms.AfterSuccess | components/AddPriceEntryModal/AddPriceEntryModal.tsx:67-80 | the form is reset to empty/USD/today unless the mutation was pending at render time |
| Effects.AlertMessage | hooks/use-add-product.ts:26 | an Error's message, otherwise "Please try again later." |
| JsString.BlankIffAllWhitespace | components/AddProductModal/AddProductModal.tsx:72 | `!s.trim()` holds exactly when every character is whitespace |
| JsString.TrimIdempotent | components/TagInput/TagInput.tsx:35 | trimming twice is trimming once |
| JsString.TrimIsInnerSlice | components/TagInput/TagInput.tsx:35 | the trimmed string is the slice between the whitespace runs at both ends |
| JsString.DigitsRoundTrip | utils/convert-dates.ts:30-41 | a digit string without a leading zero is what `String` prints for its value |
| JsString.NatToStringValue | utils/convert-dates.ts:39-41 | `String(n)` reads back as n |
| JsString.SplitPiece | utils/convert-dates.ts:30 | `split` of a separator-free piece followed by the separator yields that piece first |

## Left out

- Rendering, styling, theming, navigation, animations and the camera and scan flow are not modelled. They are presentation and device I/O.
- The network clients (api/products-api.ts, api/auth-api.ts) are not part of this model. Each request is a `Call` effect, and the server's answer is a parameter.
- React Query's internals are left out: stale and garbage-collection times, deduplication and background refetching. Invalidate, remove and reset are state changes on an abstract map of entries.
- Token refresh and JWT expiry are absent from the code and are not invented. `isAuthenticated()` from utils/auth.ts has no definition there. `CheckSession` therefore takes its answer as a parameter.
- JavaScript `Number()` parsing, `Date` parsing, `toLocaleDateString`, `String(number)` and time zones are abstract runtime functions. Only one fact about them is assumed: `Number` reads a plain digit string as its value (used by the date round trip).
- Floating point is not modelled: prices and percentages are exact reals, and `toFixed` formatting is left out.
- ConvertDates.ToDate: there is no normalisation of out-of-range months or days (the `Date` constructor rolls them over) and no time-value range limit. Because of that, the round trip is proved only for real calendar days with a four-digit year from 1000 on.
- ProductsList.FormatRelative: the label is computed from the timestamp, but the locale date returned for 30 days or more is left abstract.
- PriceHistoryChart.SortByDate: `Array.prototype.sort` with an inconsistent comparator (when some dates do not parse) has an implementation-defined order. The model fixes one stable insertion order. Sortedness is proved only when every date parses; stability and permutation are proved for all inputs.
- Failed store writes are not modelled, because `setItemAsync` and `deleteItemAsync` failures are not handled by the code. Only reads can fail.
- Async interleaving is not modelled: each awaited chain runs as one sequential step. The `Promise.all` of the edit hook's two invalidations appears in source order.
- `isPending` is read at render time; the model passes it as `pendingAtRender`.
- The optional `onEdit`/`onDelete` callbacks are flags. Their own effects belong to the component that passes them.
- Sign-up has no backend call in the code (it is commented out), so submitting in sign-up mode only toggles the loading flag.
- mock-data/products.ts holds static fixtures and is not part of this model. `MockProducts` starts from any list.
- Strings are sequences of Unicode scalar values, not UTF-16 code units. `charAt(0)` of a string that starts with an astral character therefore differs.

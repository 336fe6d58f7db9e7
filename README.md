# Stock management app: a verified model of its state handling

The application is a browser inventory tracker. It keeps a cached list of products with
stock counts for three locations (`1F`, `2F`, warehouse). Users edit those counts inline,
create and edit products and categories, search and filter the list, pull the page down to
refresh it, and choose a nickname. All persistence lives in a hosted database and auth
service. This project models the client-side state handling around those remote calls and
proves what it guarantees:

- `Inventory.App` (inventory_app.dfy): the inventory page of `src/App.jsx`. Its component
  state is the fields of a class: `products`, `editingCell`, `editValue`, `newProduct`,
  `editingProductId`, `editingProduct`, `newCategory`, `isCreatingCategory`, and the rest.
  Each event handler is a method.
- `Products` (products.dfy): the product row, its column names, and the two list
  expressions of `App.jsx` as functions on sequences. `products.map` patches the rows of one
  id after a confirmed update. `products.filter` decides which rows are listed.
- `Gesture.PullToRefresh` (pull_to_refresh.dfy): the touch handlers of
  `src/PullToRefresh.jsx` over `startY`, `currentY` and `refreshing`.
- `Nickname` (set_nickname.dfy): the checks and the submit handler of `src/SetNickname.jsx`.
- `JsText` (js_text.dfy): the JavaScript string operations the handlers depend on. These are
  `trim`, with the exact whitespace set of ECMA-262, `toLowerCase` for ASCII, `includes`,
  `parseInt` (section 19.2.5 of ECMA-262: leading whitespace, sign, `0x` prefix, longest
  digit run) and `toString` of an integer.

How the model treats effects:

- **Remote calls.** A handler that talks to the remote store returns the request it sent in
  `sent`; `None` means no call was made. The store's answer (`Ok` or `Err(message)`) is a
  parameter of the method.
- **Alerts.** Each handler returns the alerts it raises as a list of values.
- **Clock.** Clock readings are opaque timestamp parameters. `saveEdit` reads the clock
  twice: once for the remote update and once for the local patch. So the model takes two
  timestamps, and the two may differ.
- **Handlers that keep a flag raised across an `await`.** These are `handleSubmit`
  (`loading`), `handleCreateCategory` (`isCreatingCategory`) and `handleTouchEnd`
  (`refreshing`). Each is split at its `await` into a `Begin…`/`Release…` method and a
  `Settle…` method, so the flag's value while the call is outstanding is a fact about the
  state between the two. A `Handle…` method runs both halves as one step.

Behaviour of the code worth noting (the model follows it):

- The timestamp column of a quantity is always the quantity's name with `_updated_at`
  appended, the warehouse included (`inventory_warehouse_updated_at`).
- `handleTouchEnd` resets `startY` after its `try`/`finally`. When `onRefresh` rejects, the
  rejection leaves the handler from the `finally`, so `startY` keeps its value. Only the
  indicator and `refreshing` are reset on every path.
- An upward or off-top move leaves the indicator wherever it was, not necessarily at 0.
- Nothing stops a second pull while a refresh is outstanding: `ReleasePull` does not look
  at `refreshing`, so a second deep pull invokes `onRefresh` again.
- After a product edit, the cached row keeps the draft's empty category and notes as empty
  strings, while the remote store is sent `null` for them.
- The nickname handler sets no upper length. The 20-character limit comes only from the
  input's `maxLength`.

## Model

| member | source | states |
|---|---|---|
| `JsText.TrimStart` | src/SetNickname.jsx:12 | the result is a suffix of the input, everything cut is whitespace, and the result does not start with whitespace |
| `JsText.TrimEnd` | src/SetNickname.jsx:12 | the result is a prefix of the input, everything cut is whitespace, and the result does not end with whitespace |
| `JsText.Trim` | src/App.jsx:67 | the trimmed text has no whitespace at either end, and it is empty exactly when the input is all whitespace; this makes `AllWhitespace` the one blank check `!s.trim()` used by the product forms, the category form and the nickname form |
| `JsText.AllWhitespace` | src/App.jsx:67 | the blank check `!s.trim()` of the product forms, the category form (src/App.jsx:152) and the nickname form (src/SetNickname.jsx:12); its contract is carried by `JsText.Trim`, whose trimmed text is empty exactly when the input is all whitespace |
| `JsText.TrimIsSlice` | src/SetNickname.jsx:12 | the trimmed text is one contiguous slice of the input, with only whitespace before it and after it |
| `JsText.TrimOfTrimmed` | src/SetNickname.jsx:12 | text with no whitespace at either end is left as it is by `trim` |
| `JsText.ToLower` | src/App.jsx:336-337 | the lowered text has the input's length and no capital letter left; each capital becomes the letter 32 code points above it, and every other character is kept |
| `JsText.ToLowerIgnoresCase` | src/App.jsx:336-337 | two texts that differ only in ASCII letter case lower to the same text |
| `JsText.Contains` | src/App.jsx:336-337 | `includes`, modelled by a scan from each position; its contract is carried by `JsText.ContainsIffOccurs` and `JsText.ContainsEmpty` |
| `JsText.ContainsIffOccurs` | src/App.jsx:336-337 | `includes` holds exactly when the needle occurs at some position, in both directions |
| `JsText.ContainsEmpty` | src/App.jsx:336 | every string includes the empty query |
| `JsText.ParseInt` | src/App.jsx:192 | `parseInt` with leading whitespace skipped; its contract is carried by `JsText.ParseIntOfIntToString`, `JsText.ParseIntSkipsWhitespace` and the examples below |
| `JsText.ParseSigned` | src/App.jsx:192 | the sign step of `parseInt`; its contract is carried by `JsText.ParseIntOfMinus` and `JsText.ParseIntNegativeZero` |
| `JsText.ParseMagnitude` | src/App.jsx:192 | the radix and digit-run step of `parseInt`; its contract is carried by `JsText.DigitPrefixLength`, `JsText.ParseIntOfNatToString` and `JsText.ParseIntHex` |
| `JsText.IntToString` | src/App.jsx:179 | `toString` of an integer; its contract is carried by `JsText.NatToStringDigits` and `JsText.ParseIntOfIntToString` |
| `JsText.DigitPrefixLength` | src/App.jsx:192 | `parseInt` reads the longest run of digits: all read characters are digits, and the next one is not |
| `JsText.NatToStringDigits` | src/App.jsx:179 | the decimal text of a number is a non-empty digit run worth that number, with no leading zero |
| `JsText.ParseIntOfNatToString` | src/App.jsx:179-192 | `parseInt` reads a sign-free decimal text back as the number it denotes |
| `JsText.ParseIntOfNegated` | src/App.jsx:179-192 | `parseInt` reads `-` followed by a decimal text as the negated number |
| `JsText.ParseIntOfMinus` | src/App.jsx:192 | a `-` in front of any magnitude `parseInt` reads negates it |
| `JsText.ParseIntOfIntToString` | src/App.jsx:179-192 | `parseInt` reads back the text that `toString` wrote, for every integer the model writes in plain decimal (JavaScript switches to exponent form from 1e21 on) |
| `JsText.ParseIntTruncates` | src/App.jsx:192 | `parseInt("3.7")` is 3: a fraction is cut off, not rounded |
| `JsText.ParseIntIgnoresExponent` | src/App.jsx:192 | `parseInt("1e3")` is 1 |
| `JsText.ParseIntSkipsWhitespace` | src/App.jsx:192 | whitespace in front of any text does not change what `parseInt` reads |
| `JsText.ParseIntNegativeZero` | src/App.jsx:192-193 | `-` before any text worth zero, such as `-0`, parses to zero, which the negative check accepts |
| `JsText.ParseIntHex` | src/App.jsx:192 | a `0x` prefix switches to hexadecimal |
| `JsText.ParseIntNaN` | src/App.jsx:192-193 | empty text, letters and a lone sign are `NaN` |
| `Products.UpdatedAtKeyConvention` | src/App.jsx:200 | each quantity's timestamp column is its name plus `_updated_at`, the warehouse included |
| `Products.ColumnKeyInjective` | src/App.jsx:204-207 | distinct columns have distinct property names |
| `Products.QuantityUpdate` | src/App.jsx:200-207 | the columns sent for a quantity save; its contract is carried by `Products.UpdatedAtKeyConvention` and `Products.ColumnKeyInjective` |
| `Products.SetQuantity` | src/App.jsx:213-218 | the local quantity patch of one row; its contract is carried by `Products.SetQuantitySpreadsUpdate` |
| `Products.SetQuantitySpreadsUpdate` | src/App.jsx:213-218 | the local patch equals spreading the object `{[field]: q, [field + '_updated_at']: stamp}` over the row: named columns take its values, every other column and the id stay |
| `Products.UpdateWhere` | src/App.jsx:138-140 | the `products.map` that updates the rows of one id; its contract is carried by `Products.UpdateWhereAt` |
| `Products.UpdateWhereAt` | src/App.jsx:138-140 | the map keeps length and order and replaces exactly the rows whose id equals the target |
| `Products.PatchQuantity` | src/App.jsx:212-219 | the cache update after a confirmed quantity save; its contract is carried by `Products.PatchQuantityTouchesOnlyCell` and `Products.PatchQuantityKeepsStockNonNegative` |
| `Products.PatchQuantityTouchesOnlyCell` | src/App.jsx:213-219 | after a quantity patch, rows of other ids are unchanged, and rows of the edited id change only in that quantity and its timestamp |
| `Products.PatchQuantityKeepsStockNonNegative` | src/App.jsx:192-219 | patching with a quantity that passed the check keeps every stock count non-negative |
| `Products.MergeDraft` | src/App.jsx:139 | merging a draft keeps the id, quantities and timestamps; reading the draft back gives the merged draft; empty category and notes are cached as empty strings |
| `Products.MergeInto` | src/App.jsx:138-140 | the cache update after a confirmed product edit; its contract is carried by `Products.MergeIntoTouchesOnlyTarget` |
| `Products.MergeIntoTouchesOnlyTarget` | src/App.jsx:138-140 | only rows of the edited id take the draft; the others, the length and the order stay; non-negative stock stays non-negative |
| `Products.HasNameAndSku` | src/App.jsx:119 | the name-and-SKU check of both product forms; its contract is carried by `Products.HasNameAndSkuIffTrimmed` |
| `Products.HasNameAndSkuIffTrimmed` | src/App.jsx:67-70 | the form check holds exactly when neither the trimmed name nor the trimmed SKU is empty |
| `Products.OrNull` | src/App.jsx:79-80 | a form text defaulted to `null` with JavaScript's or-operator, here and at src/App.jsx:130-131: the empty text is sent as `null`; its contract is carried by `Products.NewRowOf` and `Inventory.App.SaveEditProduct` |
| `Products.OrEmpty` | src/App.jsx:106-107 | a cached column defaulted to `''` with JavaScript's or-operator: `null` is shown as empty text; its contract is carried by `Products.MergeDraft` and `Products.NewRowOf`, whose `OrEmpty` reads back the draft |
| `Products.DraftOf` | src/App.jsx:103-108 | the object `startEditProduct` passes to `setEditingProduct`; its contract is carried by `Products.MergeDraft`, which ensures `DraftOf(r) == d` |
| `Products.NewRowOf` | src/App.jsx:76-84 | the inserted row carries name and SKU as typed, `null` for an empty category or note, and zero for all three stock counts |
| `Products.MatchesSearch` | src/App.jsx:336-337 | the `matchesSearch` constant; its contract is carried by `Products.MatchesSearchIgnoresCase` and `Products.VisibleMembers` |
| `Products.MatchesCategory` | src/App.jsx:338 | the `matchesCategory` constant; its contract is carried by `Products.VisibleMembers` and `Products.FilterExample` |
| `Products.Shown` | src/App.jsx:335-339 | the arrow function passed to `filter`; its contract is carried by `Products.VisibleMembers` and `Products.VisibleCounts` |
| `Products.MatchesSearchIgnoresCase` | src/App.jsx:336-337 | the search ignores letter case: a query, name or SKU that differs only in case matches alike |
| `Products.Visible` | src/App.jsx:358-363 | `products.filter` of the list; its contract is carried by `Products.VisibleMembers`, `Products.VisibleCounts`, `Products.VisibleIsSubsequence` and the lemmas below |
| `Products.VisibleMembers` | src/App.jsx:335-339 | a product is listed exactly when it is cached, its lowered name or SKU includes the lowered query, and the category is `all` or its own |
| `Products.VisibleCounts` | src/App.jsx:335-339 | a product passing both tests is listed as many times as it is cached, any other not at all |
| `Products.VisibleIsSubsequence` | src/App.jsx:357-363 | the listed rows are a subsequence of the cache, in cache order |
| `Products.VisibleAppend` | src/App.jsx:90 | filtering a concatenation filters each part; `Inventory.App.HandleCreateProduct` uses it to state what the list shows after the created rows are put in front of the cache |
| `Products.VisibleUnfiltered` | src/App.jsx:335-339 | an empty query under `all` lists every cached product |
| `Products.FilterExample` | src/App.jsx:335-339 | with `Apple` uncategorised and `Banana` in a category, query `a` under `all` lists both, and selecting the category lists only `Banana` |
| `Inventory.ParseQuantity` | src/App.jsx:192-193 | the quantity check of `saveEdit`; its contract is carried by the four lemmas below |
| `Inventory.ParseQuantityOfShownValue` | src/App.jsx:177-196 | the text a cell opens with passes the quantity check and reads back as the shown quantity when it is non-negative, and is refused when it is negative |
| `Inventory.ParseQuantityNegativeZero` | src/App.jsx:192-196 | `-0`, and `-` before any text worth zero, passes the quantity check as 0 |
| `Inventory.ParseQuantityTruncates` | src/App.jsx:192-196 | `3.7` passes the quantity check as 3 |
| `Inventory.ParseQuantityRefusesNegative` | src/App.jsx:192-196 | the text of every negative whole number is refused by the quantity check |
| `Inventory.OrEmptyList` | src/App.jsx:40 | a fetched list defaulted to `[]` with JavaScript's or-operator, here and at src/App.jsx:57; its contract is carried by `Inventory.App.FetchProducts` and `Inventory.App.FetchCategories` |
| `Inventory.App.Listed` | src/App.jsx:357-363 | the listed rows are exactly the cached products that pass both tests, each as many times as it is cached, in cache order, and all of them when nothing is filtered |
| `Inventory.App.constructor` | src/App.jsx:9-23 | initial state: empty cache, loading, no open cell or product edit, empty forms, query empty, category `all` |
| `Inventory.App.FetchProducts` | src/App.jsx:31-47 | on success the cache becomes the answer (`null` as empty); on failure it is kept and the error reported; `loading` ends false |
| `Inventory.App.FetchCategories` | src/App.jsx:49-62 | the same replace-on-success for the category list |
| `Inventory.App.ToggleAddProductForm` | src/App.jsx:412 | the add button flips whether the create form is shown |
| `Inventory.App.EditNewProduct` | src/App.jsx:426-456 | typing in the shown create form changes only its draft |
| `Inventory.App.HandleCreateProduct` | src/App.jsx:65-98 | a draft with blank name or SKU is refused with no call; otherwise the zero-stock row is inserted; on success the returned rows go in front of the cache, the list shows those of them that pass the filter in front of what it showed before, and the form is reset and hidden; on failure nothing changes |
| `Inventory.App.StartEditProduct` | src/App.jsx:101-109 | the edit form opens on the product's id with its fields, `null` shown as empty text |
| `Inventory.App.EditProductDraft` | src/App.jsx:498 | typing in the edit form changes only the draft |
| `Inventory.App.CancelEditProduct` | src/App.jsx:112-115 | no product under edit, the draft is emptied, the cache is untouched |
| `Inventory.App.SaveEditProduct` | src/App.jsx:118-147 | a draft with blank name or SKU is refused with no call; otherwise the update is sent with empty fields as `null`; on success the draft is merged into the rows of the edited id and the edit closes; on failure nothing changes |
| `Inventory.App.EditNewCategory` | src/App.jsx:570 | typing in the category name input changes only that name |
| `Inventory.App.BeginCreateCategory` | src/App.jsx:150-161 | a blank name is refused with no call and no busy flag; otherwise the busy flag is up while the name is sent as typed |
| `Inventory.App.SettleCreateCategory` | src/App.jsx:163-173 | on success the input is emptied and the categories refetched (kept when the refetch fails); on failure nothing changes; the busy flag drops either way |
| `Inventory.App.HandleCreateCategory` | src/App.jsx:150-174 | the whole handler: the call is made exactly for a name that is not blank; on success the input is emptied and the refetched categories replace the list, or are kept with the refetch error reported; on failure the input and list are kept and the error reported; the busy flag is down afterwards |
| `Inventory.App.SetSearchQuery` | src/App.jsx:320 | typing in the search box sets the query, and the list becomes the cache filtered by it |
| `Inventory.App.SetSelectedCategory` | src/App.jsx:326 | choosing in the category selector sets the selection, and the list becomes the cache filtered by it |
| `Inventory.App.StartEdit` | src/App.jsx:177-180 | the cell opens on the product and field with the quantity's decimal text |
| `Inventory.App.EditQuantityText` | src/App.jsx:238 | typing in the open cell changes only its text |
| `Inventory.App.CancelEdit` | src/App.jsx:183-186 | the cell closes, its text is cleared, the cache is untouched |
| `Inventory.App.SaveEdit` | src/App.jsx:189-225 | no open cell: nothing happens; `NaN` or negative text: refused with no call and nothing changed; otherwise the quantity and its timestamp are sent; on success the cache gets the quantity patch and the cell closes; on failure nothing changes |
| `Inventory.OpenThenCancel` | src/App.jsx:177-186 | opening a cell and cancelling it leaves no edit open and the cache unchanged |
| `Inventory.OpenThenSave` | src/App.jsx:177-225 | on a loaded page, opening a cell on a row's shown quantity and saving it sends that quantity; once the update succeeds the row shows the same quantity and every row of another product is unchanged |
| `Gesture.Damped` | src/PullToRefresh.jsx:29-31 | the indicator height is positive, at most 120 and at most 0.4 of the drag; it reaches the cap exactly from a drag of 300 and passes the threshold of 80 exactly for drags over 200 |
| `Gesture.PullToRefresh.constructor` | src/PullToRefresh.jsx:5-7 | starts with `startY` 0, `currentY` 0 and no refresh running |
| `Gesture.PullToRefresh.HandleTouchStart` | src/PullToRefresh.jsx:15-20 | the start is recorded only at scroll offset 0; otherwise it keeps its value |
| `Gesture.PullToRefresh.HandleTouchMove` | src/PullToRefresh.jsx:22-36 | a downward move at the top sets the indicator to the damped height; any other move leaves it; the height stays within 0..120 |
| `Gesture.PullToRefresh.ReleasePull` | src/PullToRefresh.jsx:38-44 | the refresh starts exactly when the indicator is strictly above 80: `refreshing` is up, the indicator is pinned at 80 and `onRefresh` is invoked once; otherwise the indicator and start drop to 0 and nothing is invoked |
| `Gesture.PullToRefresh.SettleRefresh` | src/PullToRefresh.jsx:45-53 | whatever `onRefresh` did, `refreshing` ends false and the indicator at 0; the start is reset only when it resolved |
| `Gesture.PullToRefresh.HandleTouchEnd` | src/PullToRefresh.jsx:38-53 | the whole handler: `onRefresh` is invoked exactly once when the indicator was over 80 and never otherwise, and the handler ends with the indicator at 0 |
| `Gesture.Pull` | src/PullToRefresh.jsx:15-53 | a full gesture from the top refreshes exactly when the finger travelled more than 200, and ends with the indicator at 0 |
| `Nickname.IsTooShort` | src/SetNickname.jsx:17 | the length check on the trimmed text; its contract is carried by `Nickname.Submitted` and `Nickname.NoUpperBound` |
| `Nickname.Submitted` | src/SetNickname.jsx:12-28 | the value sent is the trimmed nickname, at least 2 long and trimmed at both ends; nothing is sent exactly when the trimmed text is shorter than 2, blank included |
| `Nickname.AcceptedLengthWithinInputCap` | src/SetNickname.jsx:61 | within the input's 20-character limit, an accepted nickname is 2 to 20 long |
| `Nickname.NoUpperBound` | src/SetNickname.jsx:17-20 | the handler itself accepts a 21-character nickname |
| `Nickname.SetNickname.constructor` | src/SetNickname.jsx:5-7 | the form starts with the initial nickname and `loading` false |
| `Nickname.SetNickname.EditNickname` | src/SetNickname.jsx:59 | typing replaces the nickname |
| `Nickname.SetNickname.BeginSubmit` | src/SetNickname.jsx:9-28 | blank or too short: refused with the matching alert, no call, and `loading` untouched; otherwise `loading` is up while the trimmed nickname is sent |
| `Nickname.SetNickname.SettleSubmit` | src/SetNickname.jsx:30-39 | `onComplete` is called exactly when the update reported no error; `loading` ends false either way |
| `Nickname.SetNickname.HandleSubmit` | src/SetNickname.jsx:9-40 | the whole handler: sends the trimmed nickname exactly when it passes both checks, completes exactly when that call succeeds, and ends with `loading` false after a call; the alerts are the blank or too-short refusal, or after a call the success or the service's error |

## Left out

- Remote store and auth service (`select`, `insert`, `update`, `auth.updateUser`): their query semantics are not modelled. This includes the `updated_at` and `name` ordering of fetches and the rows an insert returns. Each call's answer is a parameter of the handler.
- `src/Login.jsx`, `src/PWAInstallPrompt.jsx`, `src/OfflineIndicator.jsx`, `src/main.jsx`: these are browser event, timer and OAuth plumbing with no state logic of their own.
- Rendering, tabs, settings mode, the category label lookup and `formatTimestamp`: these are presentation, and `formatTimestamp` also depends on the time zone.
- `JsText.ToLower`: lowers ASCII letters only. Full Unicode case mapping is not modelled.
- String lengths count code points. JavaScript counts UTF-16 code units, so a character outside the Basic Multilingual Plane counts once here and twice in the browser. This matters for the nickname length check.
- Numbers are unbounded integers and reals. Three JavaScript number limits are not modelled:
  - `parseInt` of a digit run beyond 2^53 loses precision in JavaScript, but not here.
  - `parseInt` of a run of more than 308 decimal digits is `Infinity` in JavaScript.
  - `toString` writes a magnitude of 1e21 or more in exponent form, such as `1e+21`, which `parseInt` reads back as 1.
- `JsText.ParseIntOfIntToString`: holds in JavaScript only below 1e21 in magnitude, because `JsText.IntToString` writes every integer in plain decimal.
- A quantity cell's field is one of the three location names. The code passes these names as strings and uses no other.
- Ids are opaque strings. The category filter's strict comparison is string equality; whether the store's ids are strings is a schema question outside this model.
- `Inventory.App.FetchProducts`: runs as one step, so the `loading` flag raised during the fetch is not observable; only its final value is stated.
- Handlers run as single sequential steps, or as two steps split at an `await`. React's batched state updates, stale closures and interleaving of overlapping calls are not modelled.
- `alert` and `console` output is returned as values; its wording is not modelled.

# Prompt Pocket in Dafny

A model of the logic behind a Raycast extension that stores reusable prompt
snippets. The extension keeps its prompts as one JSON array under the local
storage key `prompts`. Every store operation reads the array, sanitises it,
changes it and writes it back whole. Prompt bodies are templates:

- `{clipboard}` is replaced by the clipboard text;
- `{cursor}` marks where the caret should land after pasting.

The modules follow the source files:

| module | models |
|---|---|
| `Placeholder` (placeholder.dfy) | template filling for the copy path and the paste path, and placeholder detection and counting |
| `PromptTypes` (prompt.dfy) | the prompt record, the `isValidPrompt` type guard and the `sanitizePrompt` repair of stored records |
| `PromptStorage` (prompt_storage.dfy) | the validating store, as the class `PromptStore` whose field is the stored blob |
| `LegacyStorage` (legacy_storage.dfy) | the older store without validation, as the class `LegacyStore` |
| `UsePrompts` (use_prompts.dfy) | the list hook's state cells (`prompts`, `isLoading`, `error`), as the class `PromptsHook` |
| `Utils` (utils.dfy) | `truncateText`, `uniqueArray` and `isEmpty` |
| `Errors` (errors.dfy) | error codes, error normalisation and user-facing messages |
| `PromptForm` (prompt_form.dfy) | the comma-separated tag field and the round trip with its default text |
| `PromptDetail` (prompt_detail.dfy) | the relative-time label |

Shared modules:

- `Wrappers` holds `Option` and `Result`.
- `Text` models the ECMAScript string operations the code relies on: `trim`, `toLowerCase`, `includes`, `indexOf`, `split`, `join`, and `replace` with a global pattern and a literal replacement string (the `$` patterns of ECMAScript replacement strings are modelled only in `Placeholder`, for the clipboard step as written).
- `Lists` models `filter` and sub-sequences.
- `Sorting` models `Array.prototype.sort` as a stable insertion sort on a two-part key, newest first.
- `JsonValues` holds the values `JSON.parse` can produce and the stored blob.

Values the host supplies are parameters:

- the clipboard read;
- the current time `now`, as an ISO string;
- the fresh UUID;
- `millis`, the epoch milliseconds of a timestamp string (`new Date(s).getTime()`);
- the outcome of each awaited store call in the hook.

## Model

| member | source | states |
|---|---|---|
| Placeholder.GetClipboardText | src/lib/placeholder.ts:104-125 | A supplied text is used as it is, even when empty; otherwise the clipboard text is used; a null read and a failed read both give "". Its partners are `ProvidedTextWins` and `ClipboardReadOnlyWhenNeeded`. |
| Placeholder.RemoveCursors | src/lib/placeholder.ts:43-45 | The text is unchanged when there is no `{cursor}`. Otherwise it is cut at every marker and the pieces are concatenated. The length drops by 8 per marker. |
| Placeholder.CutAtFirstCursor | src/lib/placeholder.ts:70-90 | With `i` the first index of `{cursor}`, the text is `s[..i] + s[i+8..]` and the offset is `|s|-i-8`. The offset is None exactly when there is no marker. The offset lies between 0 and the text length, and counts exactly the characters after the marker. An offset of 0 means the marker was at the end. |
| Placeholder.FillPromptBody | src/lib/placeholder.ts:29-48 | The copy path. A template with neither token comes back unchanged. Without `{clipboard}`, the result is the template cut at its `{cursor}` markers with the pieces concatenated. With `{clipboard}`, the template is first cut at its `{clipboard}` tokens and joined with the clipboard text, and that text is then cut at its markers. |
| Placeholder.FillPromptForPaste | src/lib/placeholder.ts:58-91 | The paste path. A template with neither token comes back unchanged with a null offset. The offset is null exactly when the substituted text has no `{cursor}`, and otherwise lies between 0 and the text length. With at most one marker the text equals the copy path's; with two or more it still holds a marker. With `{clipboard}`, the marker is cut from the template split at its `{clipboard}` tokens and joined with the clipboard text, which is thus pasted literally. |
| Placeholder.HasPlaceholders | src/lib/placeholder.ts:131-133 | True exactly when `{clipboard}` or `{cursor}` occurs at least once. |
| Placeholder.CountPlaceholders | src/lib/placeholder.ts:138-149 | Each count is one less than the number of pieces the template splits into at that token, i.e. the number of non-overlapping matches. |
| Placeholder.ClipboardSinglePass | src/lib/placeholder.ts:36-39 | Substitution cuts the template at its `{clipboard}` tokens and joins the pieces with the clipboard text, so inserted text is never searched again. The length changes by `count * (|clip| - 11)`. |
| Placeholder.ClipboardReadOnlyWhenNeeded | src/lib/placeholder.ts:36-37 | Without `{clipboard}` in the template, both paths give the same result whatever the clipboard holds. |
| Placeholder.ProvidedTextWins | src/lib/placeholder.ts:104-108 | With a supplied text, both paths ignore the clipboard. |
| Placeholder.PasteTextVersusCopy | src/lib/placeholder.ts:44-75 | With at most one `{cursor}` after substitution, both paths produce the same text. With two or more, the paste text still holds a marker. |
| Placeholder.CutAtMarker | src/lib/placeholder.ts:71-83 | If the first marker follows a prefix `a` that contains no `{`, then `a + {cursor} + b` pastes as `a + b` with offset `|b|`. This covers the middle-of-text and multi-line test cases. |
| Placeholder.PasteOf | src/lib/placeholder.ts:58-91 | A template `a + {cursor} + b` without `{clipboard}`, where `a` holds no `{`, pastes as `a + b` with offset `|b|`. |
| Placeholder.PasteVectorAtEnd | src/lib/__tests__/placeholder.test.ts:96-102 | "Hello World {cursor}" pastes as "Hello World " with offset 0. |
| Placeholder.PasteVectorAtStart | src/lib/__tests__/placeholder.test.ts:112-118 | "{cursor} Hello World" pastes as " Hello World" with offset 12. |
| Placeholder.CopyVectorCursorFromClipboard | src/lib/placeholder.ts:36-45 | A `{cursor}` that arrives with the clipboard text is removed on the copy path too. |
| Placeholder.AsWrittenAgreesWithoutDollar | src/lib/placeholder.ts:38-67 | While the clipboard text holds no `$`, the as-written clipboard step (with `$` expansion) equals the literal one, and so do both paths. |
| Placeholder.AsWrittenExpandsDollar | src/lib/placeholder.ts:38 | As written, the copy path fills a clipboard of `$&` as `{clipboard}` instead of `$&`, and `$$` becomes `$`. The literal model inserts `$&`. |
| Placeholder.AsWrittenPasteExpandsDollar | src/lib/placeholder.ts:67 | The same on the paste path: as written, `$&` gives `{clipboard}` and `$$` gives `$`, while the literal model gives `$&`; the offset is null in each case. |
| PromptTypes.IsValidPrompt | src/types/prompt.ts:51-69 | A value that passes the guard is accepted by the sanitiser, and its sanitised form does not depend on the clock, since no date needs repair. |
| PromptTypes.SanitizePrompt | src/types/prompt.ts:74-117 | The result is present exactly when the input is an object with string `id`, `title` and `body`. A present result never has an empty tag list. |
| PromptTypes.Normalize | src/types/prompt.ts:96-102 | Turns an empty tag list into a missing one. The result is well-formed, and a well-formed prompt is left unchanged. |
| PromptTypes.ToJsonValid | src/types/prompt.ts:51-69 | The stored form of any prompt passes `isValidPrompt` and carries only the seven known keys. |
| PromptTypes.SanitizeToJson | src/types/prompt.ts:74-117 | Sanitising the stored form of a prompt gives the prompt back, with an empty tag list made missing. |
| PromptTypes.SanitizeRoundTrip | src/types/prompt.ts:74-117 | The store-then-sanitise round trip is the identity exactly on prompts without an empty tag list. |
| PromptTypes.SanitizeIdempotent | src/types/prompt.ts:91-116 | Sanitising a sanitised record again gives the same record, under any clock. |
| PromptTypes.SanitizeValid | src/types/prompt.ts:51-69 | Whatever passes `isValidPrompt` is accepted with id, title, body, both dates and `lastUsedAt` kept by value. Its tags are kept exactly when the array is non-empty, element by element in order. |
| PromptTypes.SanitizeRepairs | src/types/prompt.ts:79-116 | An accepted record keeps `id`, `title` and `body` as they are, keeps a string date or a string `lastUsedAt` by value, turns a non-string date into `now` and drops a non-string `lastUsedAt`. Tags are kept exactly when `tags` is an array with a string element. The kept tags are the string elements in their order and with their repetitions (the filter of the array). |
| PromptTypes.StringsOfIsFilter | src/types/prompt.ts:98 | The kept tags, as JSON, are `filter(t => typeof t === "string")` of the array. |
| PromptTypes.SanitizeCorruptedVector | src/types/__tests__/prompt.test.ts:182-199 | A record with `createdAt: 123`, `updatedAt: null`, `tags: "not-array"` and an extra field keeps its id, title and body, gets both dates from the clock, has no tags and no extra property. |
| PromptTypes.SanitizeTagsVector | src/types/__tests__/prompt.test.ts:139-147 | Tags `["valid", 123, "another", null, "last"]` are sanitised to `["valid", "another", "last"]`. |
| PromptTypes.StringsOfMembers | src/types/prompt.ts:98 | The tag filter keeps exactly the string elements. |
| PromptStorage.SanitizeAll | src/lib/promptStorage.ts:27-35 | The sanitised list is no longer than the array and holds only well-formed prompts. |
| PromptStorage.PromptStore.LoadPromptsFromStorage | src/lib/promptStorage.ts:13-42 | The loop yields `Loaded(blob)`. That is [] for a missing, unparseable or non-array item; otherwise it is the accepted elements, sanitised, in stored order. |
| PromptStorage.SanitizeAllSources | src/lib/promptStorage.ts:28-35 | Every loaded prompt is the sanitised form of some stored element. |
| PromptStorage.PromptStore.SavePromptsToStorage | src/lib/promptStorage.ts:47-54 | The whole array replaces the stored item. |
| PromptStorage.SanitizeAllStored | src/lib/promptStorage.ts:13-54 | Loading what was saved gives back the same well-formed prompts in the same order. |
| PromptStorage.LoadSaveLoad | src/lib/promptStorage.ts:13-54 | Saving what was loaded changes nothing a later load sees. |
| PromptStorage.PromptStore.ListPrompts | src/lib/promptStorage.ts:59-66 | The result is sorted by `updatedAt`, newest first, and is a permutation of the loaded prompts. |
| PromptStorage.ListingStable | src/lib/promptStorage.ts:63-65 | Prompts with equal update times keep their load order. |
| PromptStorage.IndexOfId | src/lib/promptStorage.ts:110 | Returns the first index holding the id, or -1 exactly when no prompt has it. |
| PromptStorage.FindById | src/lib/promptStorage.ts:73 | None exactly when no prompt has the id. Otherwise the prompt at a position holding the id with no earlier position holding it, i.e. the first match. |
| PromptStorage.PromptStore.GetPrompt | src/lib/promptStorage.ts:71-74 | The first loaded prompt with the id, or None exactly when none has it. |
| PromptStorage.NewPrompt | src/lib/promptStorage.ts:88-96 | The record has the fresh id, `createdAt == updatedAt == now` and no `lastUsedAt`. Title and body are the trims of the input's. A non-empty tag list is kept; a missing or empty one gives missing tags. The record is well-formed. |
| PromptStorage.PromptStore.CreatePrompt | src/lib/promptStorage.ts:79-103 | A blank title fails with "Title is required", then a blank body with "Body is required", both before storage is touched. Otherwise the new record is returned and the store holds `loaded ++ [new]`. |
| PromptStorage.GetAfterCreate | src/lib/promptStorage.ts:98-102 | After a create with an unused id, `getPrompt` finds the new record and the count grows by one. |
| PromptStorage.Patched | src/lib/promptStorage.ts:119-128 | `id`, `createdAt` and `lastUsedAt` are kept; `updatedAt` becomes `now`. Absent patch fields keep their values. A given title or body becomes its trim, which is empty exactly when the patch was blank. Given non-empty tags replace the old ones; given empty tags remove them. Well-formedness is preserved. |
| PromptStorage.PromptStore.UpdatePrompt | src/lib/promptStorage.ts:108-142 | An unknown id fails with the not-found message. If the patched title, then body, is empty, it fails with "cannot be empty". All failures leave storage unchanged. Otherwise only the first prompt with the id is replaced and written back. |
| PromptStorage.GetAfterUpdate | src/lib/promptStorage.ts:138-141 | After an update, `getPrompt` returns the patched record, the length is kept, and every other position is unchanged. |
| PromptStorage.PromptStore.DeletePrompt | src/lib/promptStorage.ts:147-156 | Fails with the not-found message, leaving storage unchanged, when no prompt has the id. Otherwise it writes exactly the prompts with other ids. |
| PromptStorage.GoneAfterDelete | src/lib/promptStorage.ts:147-156 | After a delete no prompt has the id, and the rest are kept as an order-preserving sub-sequence. |
| PromptStorage.PromptStore.ClearAllPrompts | src/lib/promptStorage.ts:161-163 | The item is removed. |
| PromptStorage.PromptStore.CountPrompts | src/lib/promptStorage.ts:168-171 | The number of loaded prompts. |
| PromptStorage.PromptStore.FindPromptsByTag | src/lib/promptStorage.ts:176-183 | An order-preserving sub-sequence of the listing. It holds exactly the loaded prompts with a tag equal to the lower-cased query after lower-casing. |
| PromptStorage.UntaggedNeverFoundByTag | src/lib/promptStorage.ts:180-182 | Prompts without tags are never found by tag. |
| PromptStorage.PromptStore.SearchPrompts | src/lib/promptStorage.ts:188-197 | An order-preserving sub-sequence of the listing. It holds exactly the loaded prompts whose lower-cased title, body or a tag contains the lower-cased query. |
| PromptStorage.SearchEmptyQuery | src/lib/promptStorage.ts:192-196 | The empty query matches every prompt. |
| LegacyStorage.Value | src/storage.ts:9-20 | A missing, empty or unparseable item reads as []. A parsed value is returned as it is. |
| LegacyStorage.LegacyStore.GetPrompts | src/storage.ts:9-20 | Returns `Value(blob)`. |
| LegacyStorage.FindIndexById | src/storage.ts:27 | Ok(-1) or Ok(first index holding the id). A `null` met before any holder makes it fail. |
| LegacyStorage.LegacyStore.SavePrompt | src/storage.ts:25-38 | A non-array value, or a `null` reached by the search, fails and leaves the store unchanged. Otherwise the array is written with the prompt replacing the first holder of its id, or appended. |
| LegacyStorage.LookupAfterSave | src/storage.ts:26-37 | After a save the id is found at the saved prompt. The length grows by one exactly when the id was new. Every other element keeps its place. |
| LegacyStorage.FindIndexAt | src/storage.ts:27 | A holder preceded only by non-null non-holders is the index found. |
| LegacyStorage.LegacyStore.DeletePrompt | src/storage.ts:43-47 | A non-array value or a `null` element fails and leaves the store unchanged. Otherwise exactly the elements without the id are written, whether or not one had it. |
| LegacyStorage.DeleteKeepsOthers | src/storage.ts:45 | The kept elements are exactly those without the id, in order, and the id is no longer found. |
| LegacyStorage.NotFound | src/storage.ts:27 | With no `null` and no holder, the search yields -1. |
| LegacyStorage.DeleteAbsentId | src/storage.ts:43-47 | Deleting an id nobody has rewrites the same array. |
| LegacyStorage.LegacyStore.ClearAllPrompts | src/storage.ts:52-54 | The item is removed, so the next read gives []. |
| UsePrompts.AsError | src/hooks/usePrompts.ts:30 | The result is an `Error`, and an `Error` is kept as it is. |
| UsePrompts.PromptsHook.constructor | src/hooks/usePrompts.ts:16-18 | Starts with no prompts, loading and no error. |
| UsePrompts.PromptsHook.LoadPrompts | src/hooks/usePrompts.ts:23-34 | On success the snapshot becomes the listing and the error is cleared. On failure the snapshot is kept and the error recorded. Loading ends either way. |
| UsePrompts.PromptsHook.Create | src/hooks/usePrompts.ts:44-51 | The snapshot becomes `[new] ++ old`, only after the store succeeded. A failure is rethrown with the snapshot unchanged. |
| UsePrompts.ReplaceById | src/hooks/usePrompts.ts:59 | Same length; every entry with the id is the returned record and every other entry is unchanged. |
| UsePrompts.PromptsHook.Update | src/hooks/usePrompts.ts:56-63 | The snapshot is replaced by id after success and unchanged on failure. |
| UsePrompts.ReplaceByIdAbsent | src/hooks/usePrompts.ts:59 | Replacing an id nobody has changes nothing. |
| UsePrompts.ReplaceByIdIdempotent | src/hooks/usePrompts.ts:59 | Replacing twice is replacing once. |
| UsePrompts.PromptsHook.Remove | src/hooks/usePrompts.ts:68-71 | Entries with the id are dropped after success; the snapshot is unchanged on failure. |
| UsePrompts.RemoveByIdSpec | src/hooks/usePrompts.ts:70 | Exactly the entries with other ids remain, in order. The length is kept exactly when none had the id. |
| UsePrompts.PromptsHook.MarkAsUsed | src/hooks/usePrompts.ts:76-113 | On success the snapshot is replaced by id and re-sorted. On failure the error is rethrown with the snapshot unchanged. |
| UsePrompts.MarkedUsedSpec | src/hooks/usePrompts.ts:84-97 | The result is a permutation of the replaced snapshot, sorted by last use (missing counts as 0), then by creation, newest first. It contains the returned record when the id was present. |
| UsePrompts.NeverUsedSortsLast | src/hooks/usePrompts.ts:87-92 | A prompt never used sorts strictly after one used at a positive time. |
| Sorting.SortDescSpec | src/lib/promptStorage.ts:63-65 | The sort yields a permutation ordered by the key, newest first. |
| Sorting.SortDescStable | src/hooks/usePrompts.ts:86-97 | Among equal keys the sort keeps the original order. |
| Utils.TruncateText | src/lib/utils.ts:4-9 | Text that fits is returned unchanged. Otherwise the result is the first `maxLength` characters plus "...", of length `maxLength + 3`. |
| Utils.TruncateIdempotent | src/lib/utils.ts:4-9 | Truncating again to the same length changes nothing. |
| Utils.UniqueArray | src/lib/utils.ts:14-16 | Holds exactly the input's elements, without duplicates. |
| Utils.UniqueArrayOrder | src/lib/utils.ts:15 | The elements appear in the order of their first occurrence. |
| Utils.UniqueArrayIdentity | src/lib/utils.ts:15 | A duplicate-free array is returned unchanged. |
| Utils.UniqueArrayIdempotent | src/lib/utils.ts:15 | De-duplicating twice is de-duplicating once. |
| Utils.IsEmpty | src/lib/utils.ts:21-23 | True exactly when the input is missing or all whitespace. |
| Errors.ToPromptManagerError | src/types/errors.ts:31-41 | A `PromptManagerError` passes through. Anything else gets the default code and itself as the cause, and keeps an `Error`'s message or the value's rendering. |
| Errors.ToPromptManagerErrorIdempotent | src/types/errors.ts:31-41 | Normalising again, with any code, changes nothing. |
| Errors.GetErrorMessage | src/types/errors.ts:46-71 | A code other than a validation failure gives that code's fixed, non-empty text. Any other `Error` gives its own message. A non-`Error` gives "An unknown error occurred.". |
| Errors.CodeMessagesDistinct | src/types/errors.ts:48-63 | The six fixed messages are non-empty and pairwise different. |
| Errors.MessageAfterNormalising | src/types/errors.ts:31-71 | A plain error normalised as a validation failure shows its own message; with any other code it shows that code's text. |
| Text.TrimEmpty | src/lib/promptStorage.ts:81-86 | `s.trim()` is empty exactly when `s` is all whitespace. |
| Text.IndexOf | src/lib/placeholder.ts:72 | Gives the first index where the pattern occurs, or -1 exactly when it does not occur. |
| Text.ReplaceAllLength | src/lib/placeholder.ts:38 | A global literal replacement changes the length by `count * (|rep| - |p|)`. |
| PromptForm.ParseTagsFromString | src/components/PromptForm.tsx:144-155 | Blank input gives None. A present result is non-empty, and every tag in it is trimmed, non-empty and comma-free. The converse, that a non-blank segment always yields present tags, is stated by `PromptForm.SegmentsInOrder` and `PromptForm.NonBlankSegmentParses`. |
| PromptForm.SegmentsInOrder | src/components/PromptForm.tsx:144-155 | For every input, the parser returns the list of non-empty trimmed comma segments when that list is non-empty, and nothing otherwise. The tags keep segment order and duplicates, form an order-preserving sub-sequence of the trimmed segments, and include every non-blank segment. |
| PromptForm.NonBlankSegmentParses | src/components/PromptForm.tsx:149-154 | Input with a non-blank comma segment (such as "work,ai") yields present tags, and the trimmed segment is among them. |
| PromptForm.RepeatedTag | src/components/PromptForm.tsx:149-152 | A valid tag written twice, separated by ", ", parses to that tag twice. |
| PromptForm.DuplicatesKept | src/components/PromptForm.tsx:149-152 | `"a, a"` parses to `["a", "a"]`. |
| PromptForm.OnlySeparators | src/components/PromptForm.tsx:149-154 | Commas and whitespace alone give None. |
| PromptForm.ParseDefaultValue | src/components/PromptForm.tsx:127-155 | Parsing the `", "` join of a non-empty list of valid tags gives the list back. |
| PromptForm.ParseDefaultNone | src/components/PromptForm.tsx:127-147 | With no tags the field starts empty and parses to None. |
| PromptDetail.NatToString | src/components/PromptDetail.tsx:112-116 | The rendering of a count is non-empty decimal digits without a leading zero. |
| PromptDetail.NatToStringValue | src/components/PromptDetail.tsx:112-116 | The digits denote the number. |
| PromptDetail.FormatRelativeTime | src/components/PromptDetail.tsx:101-120 | With `d` the difference in milliseconds: under 60000 (a future date included) the label is "just now". From a minute to an hour it is "n min(s) ago" with n = floor(d / 60000) between 1 and 59. From an hour to a day it is "n hour(s) ago" with n between 1 and 23. From a day to 30 days it is "n day(s) ago" with n between 1 and 29. From 30 days on it is the locale date. |
| PromptDetail.Units | src/components/PromptDetail.tsx:103-107 | Chained floor divisions equal division by 60000, 3600000 and 86400000. |
| PromptDetail.Plural | src/components/PromptDetail.tsx:112-116 | A count of 1 is singular; a larger count takes "s". |

## Left out

- Host services are parameters, not code:
  - `LocalStorage`, `Clipboard.readText`, `uuidv4` and `new Date().toISOString()`;
  - `Date` parsing (`millis`), including the NaN a malformed date would give a comparator;
  - `toLocaleDateString` (`localeDate`).
- JSON text is not parsed or printed. The blob is `Absent`, `Unparseable` or a parsed value. An empty stored string is treated like a missing one. JSON numbers are integers, since no modelled operation reads them.
- A failed write in `savePromptsToStorage`, which rethrows "Failed to save prompts", is not modelled: saving always succeeds.
- Asynchrony and concurrency are left out. Each store call is atomic, and the hook receives the outcome of each awaited call as a parameter.
- One timestamp `now` stands for every clock read within one store call. `loadPromptsFromStorage` reads the clock once per sanitised element, and `createPrompt` reads it again after loading; the model passes the same value to each read.
- `updateLastUsed` is imported by src/hooks/usePrompts.ts but is not defined in src/lib/promptStorage.ts. Only its outcome is part of this model.
- The tests expect `PromptManagerError`s and "Corrupted storage data" from the store. The code throws plain `Error`s and reads a corrupted item as []; the model follows the code.
- `Text.Lower` lowers ASCII letters only, since full Unicode case mapping is not modelled. Strings are sequences of UTF-16 code units, so surrogate pairs count as two.
- Utils.TruncateText: requires `maxLength >= 0`. For a negative length, `slice` would count from the end of the text.
- `Utils.UniqueArray` compares values; the identity of objects under `Set` is not modelled.
- The legacy record type (src/types.ts) is not part of this model. Legacy records are kept as parsed JSON values.
- src/lib/cursorControl.ts, src/hooks/usePromptActions.ts, src/lib/toastUtils.ts and all rendering are not part of this model. The duplicate helpers in src/manage-prompts.tsx and src/prompt-pocket.tsx are left out too.
- `console` logging is left out.

## Findings

| source | as written | input that shows it | evidently intended | confidence | as-written member | corrected member |
|---|---|---|---|---|---|---|
| src/lib/placeholder.ts:38 | In `fillPromptBody`, `result.replace(/{clipboard}/g, clipboardText)` applies the replacement-pattern expansion of ECMA-262 (the GetSubstitution operation) to the clipboard text. | Template `{clipboard}` with clipboard text `$&` yields `{clipboard}`; clipboard text `$$` yields `$`. | The clipboard text is inserted literally, e.g. by a replacer function `() => clipboardText`. | not executed | Placeholder.AsWrittenExpandsDollar | Placeholder.ClipboardSinglePass |
| src/lib/placeholder.ts:67 | The same call in `fillPromptForPaste` expands `$` patterns in the clipboard text too. | Template `{clipboard}` with clipboard text `$&` pastes `{clipboard}`; `$$` pastes `$`. | The clipboard text is pasted literally. | not executed | Placeholder.AsWrittenPasteExpandsDollar | Placeholder.FillPromptForPaste |

# Quote collection: a Dafny model

A model of the logic under a small single-page app that shows inspirational
quotes. The app keeps its whole collection as one value under one
local-storage key. A user can ask for another random quote, add a quote
through a validated form with a tag editor, and delete the displayed quote.

The model has five modules, one per source file or concept:

- `Quotes` (`quote.dfy`): the `Quote` record and `QuoteFormData`, which is a
  quote without `id` and `addedAt`. `source` and `tags` are `Option`s.
  `UniqueIds` is the id-uniqueness invariant the design relies on.
- `JsString` (`jsstring.dfy`): `String.prototype.trim` and `toLowerCase`.
  Trim strips exactly the ECMAScript WhiteSpace and LineTerminator code
  points. The lemmas give its defining properties: it returns a slice, only
  whitespace lies outside that slice, the result is empty exactly when the
  input is blank, and trimming is idempotent.
- `Storage` (`storage.dfy`): the quote store. The storage key is one of:
  - `Absent`;
  - `Stored(qs)`, a collection that parses;
  - `Corrupt`, a value whose read or parse throws.

  The class `QuoteStore` holds that state. It also holds the constant
  `writable`, which says whether `localStorage.setItem` succeeds for this
  store, so the swallowed write failures of `saveAll` and of seeding are
  part of the model. The
  specification functions are:
  - `Visible`: what `getAll` returns;
  - `AfterRead`: the state after `getAll` (it seeds an absent key);
  - `AfterWrite`: the state after `saveAll`;
  - `StateAfterAdd`, `StateAfterDelete`: the state after `add` and `delete`.

  The filter `q.id !== id` is the recursive function `WithoutId`.
- `Form` (`form.dfy`): the creation form. The class `QuoteForm` has the
  fields `formData`, `tagInput` and `errors`. `errors` maps each field to its
  message. The handlers are methods. The tag-list expressions are the pure
  functions `AppendTag` and `RemoveTagFrom`. `TagsValid` is the tag-list
  invariant: no duplicates, and every tag non-empty, trimmed and lower-case.
- `Page` (`page.dfy`): the page controller. The class `QuotePage` holds
  `currentQuote`, `showForm` and the store. `NextDisplay` is the
  specification of `handleNewQuote`. It takes a first draw and, when that
  draw has the displayed id and more than one quote exists, a second draw
  from the collection without that id. `Mode` is what the page renders:
  Loading, Viewing or Composing.

Browser facilities become injected values:

- `crypto.randomUUID()` and `Date.now()` are the `id` and `now` parameters of
  `Add` and `AddQuote`.
- Each `Math.floor(Math.random() * n)` is a natural index parameter. A
  `requires` bounds it by the list it indexes, because `Math.random()` lies
  in [0, 1).
- The `onSubmit` callback of the form is the out-parameter of `HandleSubmit`.

Id uniqueness is an assumption of the model, stated as `UniqueIds`. The
lemmas that need it take it as a precondition.

`HasContent` is the collection invariant: every quote has a non-empty text
and a non-empty author. The defaults satisfy it. `add` keeps it for data that
`handleSubmit` lets through, and `delete` always keeps it.

## Model

| member | source | states |
|---|---|---|
| `Quotes.WithIdAndTime` | src/utils/quoteStorage.ts:86-90 | the new quote carries exactly the form data given (`FormDataOf` inverts it) plus the injected id and timestamp |
| `JsString.Trim` | src/components/QuoteForm.tsx:39-48 | the trimmed string is no longer than the input and neither starts nor ends with whitespace |
| `JsString.TrimIsSlice` | src/components/QuoteForm.tsx:39-48 | the trim is a slice `s[a..b]` of the input, with only whitespace before `a` and after `b` |
| `JsString.TrimEmptyIffBlank` | src/components/QuoteForm.tsx:39 | `trim()` is `""` exactly when every character is whitespace |
| `JsString.TrimIdempotent` | src/components/QuoteForm.tsx:48 | trimming a trimmed string changes nothing |
| `JsString.ToLower` | src/components/QuoteForm.tsx:42-48 | lower-casing keeps the length and maps each character independently |
| `JsString.ToLowerIdempotent` | src/components/QuoteForm.tsx:48 | lower-casing twice is lower-casing once |
| `JsString.ToLowerKeepsTrimmed` | src/components/QuoteForm.tsx:48 | lower-casing a trimmed string leaves it trimmed |
| `JsString.TrimSurrounded` | src/components/QuoteForm.tsx:39-48 | whitespace added at either end of a string does not change its trim |
| `JsString.TrimLower` | src/components/QuoteForm.tsx:42-48 | trimming and lower-casing commute |
| `Storage.Visible` | src/utils/quoteStorage.ts:61-74 | what getAll returns: the stored collection, or the defaults for an absent or corrupt key (no contract; its properties are `Storage.ReadFallbacks` and `Storage.ReadIsStable`) |
| `Storage.AfterRead` | src/utils/quoteStorage.ts:63-67 | the state after getAll: an absent key becomes the stored defaults when the write succeeds, any other state is kept (no contract; see `Storage.ReadFallbacks`) |
| `Storage.AfterWrite` | src/utils/quoteStorage.ts:76-82 | the state after saveAll(qs): `qs` when the write succeeds, the old state otherwise (no contract; see `Storage.SaveAllRoundTrip`) |
| `Storage.StateAfterAdd` | src/utils/quoteStorage.ts:84-95 | the read, then the write of the read collection with the new quote appended (no contract; see `Storage.AddGrows` and `Storage.AddKeepsContent`) |
| `Storage.StateAfterDelete` | src/utils/quoteStorage.ts:97-106 | the read, then the write of the filtered collection only when some quote had the id (no contract; see `Storage.DeleteShrinks` and `Storage.DeleteKeepsContent`) |
| `Storage.DefaultQuotes` | src/utils/quoteStorage.ts:5-56 | the seven default quotes with their texts, authors, sources, timestamps and tags (a constant; its properties are `Storage.DefaultQuotesShape`) |
| `Storage.DefaultQuotesShape` | src/utils/quoteStorage.ts:5-56 | there are 7 defaults with ids "1" to "7", all distinct, each with text and author, so an absent or corrupt key shows a collection satisfying `HasContent` |
| `Storage.ReadFallbacks` | src/utils/quoteStorage.ts:63-73 | an absent key seeds and returns the defaults (if the write works); a corrupt key returns the defaults and stays as it was |
| `Storage.ReadIsStable` | src/utils/quoteStorage.ts:61-74 | a second getAll sees what the first returned and changes nothing |
| `Storage.SaveAllRoundTrip` | src/utils/quoteStorage.ts:61-79 | with a working store, saveAll(qs) followed by getAll returns qs, and that getAll leaves the store as saveAll left it |
| `Storage.WithoutId` | src/utils/quoteStorage.ts:99 | the filter keeps exactly the quotes with another id, and it is shorter exactly when some quote has the id |
| `Storage.WithoutIdAppend` | src/utils/quoteStorage.ts:99 | the filter distributes over concatenation, so the kept quotes keep their relative order |
| `Storage.WithoutIdMissing` | src/utils/quoteStorage.ts:99-105 | filtering an id nobody has returns the collection unchanged |
| `Storage.WithoutIdUnique` | src/utils/quoteStorage.ts:97-104 | the filter keeps ids unique; with unique ids, removing a present id removes exactly one quote |
| `Storage.Pick` | src/utils/quoteStorage.ts:108-114 | null exactly on an empty collection, otherwise `qs[i]`, a member of the collection |
| `Storage.AddGrows` | src/utils/quoteStorage.ts:84-95 | with a working store, add makes the collection one longer, keeps the earlier quotes as a prefix, puts the new quote last, and keeps ids unique when the new id is fresh |
| `Storage.DeleteShrinks` | src/utils/quoteStorage.ts:97-106 | with a working store, after delete no quote has the id, the rest are exactly the others, a missing id leaves the collection as it was, and with unique ids one quote goes |
| `Storage.AddKeepsContent` | src/utils/quoteStorage.ts:84-95 | if every visible quote has text and author, adding data whose text and author do not trim to nothing (what handleSubmit lets through) keeps that so |
| `Storage.DeleteKeepsContent` | src/utils/quoteStorage.ts:97-106 | delete keeps every visible quote with text and author |
| `Storage.QuoteStore.constructor` | src/utils/quoteStorage.ts:58-60 | the store starts in the given key state with the given write outcome |
| `Storage.QuoteStore.GetAll` | src/utils/quoteStorage.ts:61-74 | returns `Visible` of the old state; the new state is the old one, except that an absent key is seeded with the defaults when the write works |
| `Storage.QuoteStore.SaveAll` | src/utils/quoteStorage.ts:76-82 | the key holds qs if the write works, otherwise the old state |
| `Storage.QuoteStore.Add` | src/utils/quoteStorage.ts:84-95 | the returned quote has the data, id and timestamp given; the new state is the read followed by the write of the collection with it appended |
| `Storage.QuoteStore.Delete` | src/utils/quoteStorage.ts:97-106 | returns true iff some visible quote has the id; writes the filtered collection only then; otherwise the state is just the read's |
| `Storage.QuoteStore.GetRandom` | src/utils/quoteStorage.ts:108-114 | returns `Pick` of the visible collection at the injected index, a member of it; the state is the read's |
| `Storage.QuoteStore.Clear` | src/utils/quoteStorage.ts:116-118 | the key becomes absent |
| `Storage.ReseedAfterAdd` | src/utils/quoteStorage.ts:116-118 | after add, clear and getAll on the corrected store, the result is exactly the 7 defaults |
| `Storage.ReadAsWritten` | src/utils/quoteStorage.ts:61-74 | getAll as written: the stored collection, or the shared defaults array itself, with a flag saying which (no contract) |
| `Storage.AddAsWritten` | src/utils/quoteStorage.ts:84-95 | add as written: seeding, the push onto the array getAll returned (which may be the shared defaults), and the write (no contract; see `Storage.AddAsWrittenPollutesDefaults`) |
| `Storage.ClearAsWritten` | src/utils/quoteStorage.ts:116-118 | clear as written: the key becomes absent and the in-memory defaults array stays as it is (no contract) |
| `Storage.AddCopying` | src/utils/quoteStorage.ts:84-95 | add as intended, appending to a copy (no contract; see `Storage.AddCopyingKeepsDefaults`) |
| `Storage.AddCopyingKeepsDefaults` | src/utils/quoteStorage.ts:84-118 | the copying add leaves the defaults at the seven quotes, writes exactly `StateAfterAdd`, and clear then getAll returns the seven defaults |
| `Storage.DeleteAsWritten` | src/utils/quoteStorage.ts:97-106 | delete as written over the shared array: it filters the collection getAll returned, writes it back when it is shorter, and reports whether it was (no contract; see `Storage.UnwritableAddSurvivesDelete`) |
| `Storage.UnwritableAddSurvivesDelete` | src/utils/quoteStorage.ts:61-106 | as written, on a store whose writes fail, add leaves the key absent, yet getAll returns the defaults plus the new quote; delete of that quote reports success and the quote stays; with value semantics the same add leaves getAll at the defaults |
| `Storage.AddAsWrittenPollutesDefaults` | src/utils/quoteStorage.ts:67-92 | as written, add on an absent key, then clear, then getAll returns 8 quotes, the added one last |
| `Form.NormalizeTag` | src/components/QuoteForm.tsx:42-48 | `trim().toLowerCase()` is empty exactly on blank input, and its result is trimmed and lower-case |
| `Form.NormalizeTagIdempotent` | src/components/QuoteForm.tsx:42-48 | normalizing a normalized tag changes nothing |
| `Form.AppendTag` | src/components/QuoteForm.tsx:48 | the result is the old list, or the empty one if there was none, with the tag at the end |
| `Form.RemoveAll` | src/components/QuoteForm.tsx:56 | the filter keeps exactly the tags different from the removed one |
| `Form.RemoveAllAppend` | src/components/QuoteForm.tsx:56 | the filter distributes over concatenation, so the remaining tags keep their order |
| `Form.RemoveAllMissing` | src/components/QuoteForm.tsx:56 | removing an absent tag returns the list unchanged |
| `Form.RemoveAllNoDuplicates` | src/components/QuoteForm.tsx:53-57 | the filter keeps a duplicate-free list duplicate-free |
| `Form.RemoveTagFrom` | src/components/QuoteForm.tsx:53-57 | a missing list stays missing; otherwise no occurrence of the tag remains and every other tag does |
| `Form.AppendTagValid` | src/components/QuoteForm.tsx:38-50 | appending a new normalized tag preserves the invariant (no duplicates, every tag normal) |
| `Form.RemoveTagValid` | src/components/QuoteForm.tsx:53-57 | removing a tag preserves the invariant |
| `Form.NormalizeTagIgnoresCase` | src/components/QuoteForm.tsx:42-48 | inputs equal up to letter case give the same tag |
| `Form.NormalizeTagIgnoresSpace` | src/components/QuoteForm.tsx:42-48 | whitespace typed around an input does not change its tag |
| `Form.CaseInsensitiveDuplicate` | src/components/QuoteForm.tsx:42-44 | an input that is a stored tag up to case and surrounding whitespace normalizes to that stored tag, so the duplicate check finds it |
| `Form.EmptyDraft` | src/components/QuoteForm.tsx:16-21 | the initial draft: empty text and author, source `""`, no tags (a constant; see `Form.QuoteForm.constructor`) |
| `Form.HasTag` | src/components/QuoteForm.tsx:42 | `formData.tags?.includes(t)`: false when there is no tag list (no contract; used by `Form.QuoteForm.AddTag`) |
| `Form.HasError` | src/components/QuoteForm.tsx:33 | the truthiness test `errors[name]`: a message is recorded and is not `""` (no contract; used by `Form.QuoteForm.HandleChange`) |
| `Form.QuoteForm.constructor` | src/components/QuoteForm.tsx:16-24 | the draft starts with empty text and author, source `""` and an empty tag list; tag input and errors are empty; the invariant holds |
| `Form.QuoteForm.HandleChange` | src/components/QuoteForm.tsx:26-36 | only the named field becomes the value; that field's error becomes `""` if it was non-empty; other errors and the tags are untouched |
| `Form.QuoteForm.SetTagInput` | src/components/QuoteForm.tsx:142 | only the tag input changes |
| `Form.QuoteForm.AddTag` | src/components/QuoteForm.tsx:38-51 | blank input or a duplicate changes nothing; otherwise the normalized tag is appended and the input reset to `""`; the invariant is preserved |
| `Form.QuoteForm.RemoveTag` | src/components/QuoteForm.tsx:53-58 | the tags become the filtered list; tag input and errors are untouched; the invariant is preserved |
| `Form.QuoteForm.HandleSubmit` | src/components/QuoteForm.tsx:60-80 | submits iff neither trimmed text nor trimmed author is empty; submits the untrimmed draft and keeps the errors; otherwise the errors are exactly the failing fields with their messages |
| `Form.BlankTextScenario` | src/components/QuoteForm.tsx:64-77 | a fresh form given whitespace-only (or empty) text and a non-blank author records exactly the text error and submits nothing |
| `Page.NextDisplay` | src/pages/Index.tsx:22-37 | the quote handleNewQuote displays: the first draw, or on a collision with more than one quote the second draw from the others (no contract; its properties are the `Page.NewQuote*` lemmas and `Page.NextDisplayMember`) |
| `Page.NextDisplayMember` | src/pages/Index.tsx:22-37 | what handleNewQuote shows is a collection member; it shows nothing iff the collection is empty or the second draw's list is empty |
| `Page.NewQuoteNoCollision` | src/pages/Index.tsx:23-36 | when the draw's id differs, or nothing is shown, the draw is shown |
| `Page.NewQuoteCollision` | src/pages/Index.tsx:24-30 | on a collision with more than one quote and unique ids, `filtered[j]` is shown, a member with another id |
| `Page.NewQuoteSingle` | src/pages/Index.tsx:31-32 | on a collision with a single quote, it is shown again |
| `Page.NewQuoteEmpty` | src/pages/Index.tsx:23 | an empty collection shows nothing |
| `Page.NewQuoteVaries` | src/pages/Index.tsx:22-37 | with unique ids and more than one quote, the shown quote always has an id different from the one displayed before |
| `Page.NewQuoteNoneIffEmpty` | src/pages/Index.tsx:22-37 | with unique ids, nothing is shown exactly when the collection is empty |
| `Page.TwoQuotesAlternate` | src/pages/Index.tsx:22-37 | with quotes A and B and A displayed, B is shown whatever the draws |
| `Page.DeleteHidesQuote` | src/pages/Index.tsx:50-57 | after a delete on a working store, the next quote shown never has the deleted id; with unique ids nothing is shown exactly when the deleted quote was the last |
| `Page.QuotePage.constructor` | src/pages/Index.tsx:12-13 | nothing is displayed and the form is closed, so the page shows the spinner |
| `Page.QuotePage.Mode` | src/pages/Index.tsx:61-97 | what the page renders: the spinner while no quote is set, else the form when it is open, else the quote card (no contract) |
| `Page.QuotePage.Mount` | src/pages/Index.tsx:16-20 | the displayed quote becomes getRandom's result; the form flag is unchanged |
| `Page.QuotePage.NewQuote` | src/pages/Index.tsx:22-37 | the displayed quote becomes `NextDisplay` of the collection; the store is only read |
| `Page.QuotePage.AddQuote` | src/pages/Index.tsx:39-48 | the quote add returned is displayed and the form is closed; the store becomes `StateAfterAdd` of the old state, which holds the grown collection when the store is writable and is only the read's state otherwise |
| `Page.QuotePage.DeleteQuote` | src/pages/Index.tsx:50-58 | if nothing is removed, the display stays; otherwise it is `NextDisplay` of what the store shows after the delete (the shrunk collection on a writable store, the unchanged one otherwise), and on a writable store it never has the deleted id |
| `Page.QuotePage.OpenForm` | src/pages/Index.tsx:101 | the form opens; the display and the store are untouched |
| `Page.QuotePage.CancelForm` | src/pages/Index.tsx:89 | the form closes; the display and the store are untouched |

## Findings

| source | as written | input that shows it | evidently intended | confidence | as-written member | corrected member |
|---|---|---|---|---|---|---|
| src/utils/quoteStorage.ts:61-93 | when the key is absent or unreadable, `getAll` returns the `DEFAULT_QUOTES` array object itself. `add` then `push`es the new quote onto it, so the module's "constant" defaults grow. | Reachable in the app: on a store whose `setItem` throws (quota exceeded or storage disabled) and an absent key, `add(d)` pushes `d` onto the shared array, so every later `getAll()` shows it although nothing was stored; deleting it returns true, shows the toast and redraws, but `d` stays in rotation for the session. Through `clear()`, which the app never calls: on an empty store, `add(d)`, `clear()`, `getAll()` seeds and returns 8 quotes, `d` last. | The defaults stay the seven fixed quotes; `getAll` hands out a copy. | high; not executed | `Storage.UnwritableAddSurvivesDelete` and `Storage.AddAsWrittenPollutesDefaults` (over `Storage.AddAsWritten`, `Storage.DeleteAsWritten`) | `Storage.AddCopying` (its intended property is proved by `Storage.AddCopyingKeepsDefaults`; the store class `Storage.QuoteStore.Add` uses the same value semantics, and `Storage.ReseedAfterAdd` states it there) |

The as-written half pairs the stored state with the current content of the
shared array (`Storage.Backing`). `Storage.AddAsWritten` and
`Storage.ClearAsWritten` model `add` and `clear` over that pair, and
`Storage.AddCopying` is the corrected `add` over it. The rest of
the model uses value semantics: `DefaultQuotes` is a constant, and
`QuoteStore.GetAll` returns a sequence value.

## Left out

- src/components/QuoteCard.tsx: rendering only, plus the 300 ms `setTimeout` before it calls the page's new-quote handler.
- JSX, CSS classes, `toast` notifications and `console.error` logging: no effect on state.
- JSON text: the key holds a parsed collection, or is `Corrupt` when a read or parse would throw. The model assumes that `JSON.parse(JSON.stringify(qs))` gives back `qs`, which holds for these records of strings, numbers and arrays.
- A stored empty string: the source treats it as absent (`!storedQuotes`), but the app never writes one, so the state has no such case.
- A stored value that parses but is not an array of quotes: the source would return it unchecked. The model has no such state.
- `crypto.randomUUID()`, `Date.now()` and `Math.random()`: they are parameters. Uniformity of the random choice is not modelled, only its range.
- `Storage.QuoteStore.Add`: the freshness of the generated id is an assumption (`!HasId`) in `Storage.AddGrows`, not something `Add` guarantees.
- `JsString.ToLower`: it covers only the Latin capitals A-Z and the Cyrillic capitals U+0400 to U+042F. The rest of Unicode case mapping, including changes of length, is not modelled.
- React's batched, asynchronous state updates: each handler is one atomic step over the state its render saw, which is how all the handlers here read state.
- Cross-tab races on the storage key: the app does not handle them.
- `Storage.QuoteStore.Add`: it has value semantics, so on an unwritable store the added quote is not kept anywhere. The program keeps it in the shared defaults array for the session; that as-written behaviour is modelled only over `Storage.Backing` (`Storage.UnwritableAddSurvivesDelete`).
- `Page.QuotePage.DeleteQuote`: it runs on the value-semantics store, so after an add on an unwritable store it finds no quote to delete and keeps the display. The program instead reports a successful delete, shows the toast and draws again, with the added quote still drawable. The page over the as-written store is not modelled.
- `Storage.QuoteStore.Clear`: it always ends with the key absent. `localStorage.removeItem` is not wrapped in try/catch, so where storage access throws, `clear` throws to its caller; this error path is not modelled, and no caller in the app could observe it because nothing in the app calls `clear`.
- `Storage.QuoteStore`: `writable` is one constant for the store's whole life, so a write that fails only because of its size cannot be represented. For example, the seed at src/utils/quoteStorage.ts:66 might succeed while the larger write at line 93 exceeds the quota.
- The page's handlers never see the form's state. The form's submitted data reaches `Page.QuotePage.AddQuote` through its `data` parameter.

# damao-timeline persistence and form logic in Dafny

This project models the core of the damao-timeline application: a personal
timeline of stories with coloured tags. Everything is kept in the browser's
embedded database. The model covers:

- the stories, tags and settings tables, including auto-increment keys, the
  unique tag name and the schema version 2 upgrade (`Db`);
- the asynchronous thunks of the timeline, tag and settings slices. These
  stamp versions and times, run the stale-write checks and settle as fulfilled
  or rejected (`Timeline`, `Tags`, `SettingsFeature`);
- each slice's `status`, `error` and entity cache, and how every settled thunk
  changes them (`EntityAdapter` plus the slice classes);
- the start-up hook that loads the settings or builds defaults from the
  browser language (`Initializer`);
- the pure form logic: the story-form state hook, the story form, the tag form
  and the validity-to-message mapping (`StoryFormHook`, `StoryForm`, `TagForm`,
  `Validity`).

Modelling conventions:

- Tables and slices are classes with `map` fields. Thunks are methods that
  return an `Outcome` (`Fulfilled(payload)` or `Rejected(reason)`).
- Every thunk takes a `fault` flag meaning "the database transaction fails".
  A failed transaction is atomic and writes nothing.
- Clock readings are passed in as `now`.
- An optional property is an `Option`, where `None` means the property is
  absent (`undefined`). A cache key of `None` is the key `undefined`.

The model follows the code where the code departs from the design:

- **Story thunks never reject.** `timelineSlice.ts` calls `rejectWithValue`
  without returning it. A story whose insert failed is therefore still
  fulfilled and added to the cache; without an id, it goes under `undefined`.
  An update skipped by the version check still updates the cache. A delete
  whose transaction failed still removes the story from the cache.
- **Stale updates are fulfilled, not rejected.** In `updateTag`, the refusals
  inside the transaction return only from the callback, so the thunk fulfils
  too.
- **The version is bumped from the submitted one, not assigned by the store.**
  A story is written when the bumped version is greater than the stored one,
  so a submitted version equal to the stored one writes.
- **The tag check uses `===`.** It refuses only a copy exactly one version
  behind the stored row. An older copy is written, and the stored version goes
  backwards.
- **The locale pattern never matches a real language tag.** In the
  default-settings chooser, `\b` inside a template literal is U+0008, so a
  browser tag such as `ja-JP` leaves the language English.
- **The settings table is not in `src/app/db.ts`.** The database declaration
  there lists only stories and tags. The settings table that
  `settingsSlice.ts` uses is modelled separately, as a keyed table with an
  inbound key.

## Model

| member | source | states |
|---|---|---|
| Entities.MergeStory | src/features/timeline/timelineSlice.ts:101-104 | the shallow merge takes every required property from the changes; each optional property (id, version, both times) comes from the changes when they have it and from the original otherwise |
| Entities.MergeTag | src/features/tag/tagSlice.ts:96 | as for stories: required properties from the changes; id, version and both times from the changes when present, else from the stored tag |
| Entities.MergeSettings | src/features/settings/settingsSlice.ts:38 | settings merge: language and theme from the changes; id and populated flag from the changes when present, else from the stored row |
| Entities.MergeCompleteStory | src/features/timeline/timelineSlice.ts:101-104 | a story carrying every optional property replaces whatever it is merged onto |
| Entities.MergeStoryIdempotent | src/features/timeline/timelineSlice.ts:188-192 | merging the same changes twice is merging them once |
| Keys.ListKeys | src/features/timeline/timelineSlice.ts:46 | `toArray` visits every key of the table exactly once and nothing else |
| Keys.LowestKey | src/features/settings/settingsSlice.ts:27 | `first()` is the lowest key, and there is none exactly when the table is empty |
| EntityAdapter.AddOne | src/features/timeline/timelineSlice.ts:173 | `addOne` stores the entity under an uncached key and never changes an entity already cached |
| EntityAdapter.UpdateOne | src/features/timeline/timelineSlice.ts:188-192 | `updateOne` merges the changes into the cached entity, keeps the key set and touches no other key; an uncached key is a no-op |
| EntityAdapter.UpsertOne | src/features/tag/tagSlice.ts:171 | `upsertOne` merges into a cached entity or stores the new one, and touches no other key |
| EntityAdapter.UpsertMany | src/features/timeline/timelineSlice.ts:161 | `upsertMany` adds exactly the keys of the payload and leaves every key outside the payload unchanged; when the payload's keys are distinct, each key holds its entity merged into the cached one, or the entity itself |
| EntityAdapter.RemoveOne | src/features/timeline/timelineSlice.ts:206 | `removeOne` drops exactly that key and keeps every other entity |
| Db.StampStory | src/app/db.ts:22-27 | the upgrade sets a story's version to 1 and both times to now, and changes nothing else |
| Db.StampTag | src/app/db.ts:31-36 | the same for a tag |
| Db.StoryTable.constructor | src/app/db.ts:14-15 | a new stories table is empty and its key generator starts at 1 |
| Db.StoryTable.Add | src/app/db.ts:15 | `add` succeeds exactly when the id is absent or free; the new key never collides with an existing row and is written into the stored story; a taken key fails with ConstraintError and writes nothing |
| Db.StoryTable.Update | src/features/timeline/timelineSlice.ts:101-104 | `update` merges into the row under the key and counts 1, or counts 0 and writes nothing |
| Db.StoryTable.Delete | src/features/timeline/timelineSlice.ts:130 | `delete` removes exactly that key |
| Db.StoryTable.ToArray | src/features/timeline/timelineSlice.ts:46 | the result lists every stored story exactly once, each as stored under its id |
| Db.StoryTable.StampAll | src/app/db.ts:20-28 | every story is stamped, and no row is added, removed or re-keyed |
| Db.TagTable.constructor | src/app/db.ts:16 | a new tags table is empty with generator 1 |
| Db.TagTable.Add | src/app/db.ts:16 | as for stories, and a name already stored fails with ConstraintError; names stay unique |
| Db.TagTable.Update | src/features/tag/tagSlice.ts:96 | a missing key counts 0; a name held by another row fails with ModifyError and writes nothing; otherwise the merged tag is written and counts 1 |
| Db.TagTable.Delete | src/features/tag/tagSlice.ts:117 | removes exactly that key |
| Db.TagTable.ToArray | src/features/tag/tagSlice.ts:35 | lists every stored tag exactly once |
| Db.TagTable.StampAll | src/app/db.ts:29-37 | every tag is stamped, and no row is added, removed or re-keyed |
| Db.SettingsTable.constructor | src/features/settings/settingsSlice.ts:27 | a new settings table is empty |
| Db.SettingsTable.First | src/features/settings/settingsSlice.ts:27 | the row with the lowest key, or none exactly when the table is empty |
| Db.SettingsTable.Update | src/features/settings/settingsSlice.ts:38 | merges into the row under the key and counts 1, or counts 0 and writes nothing |
| Db.AppDatabase.constructor | src/app/db.ts:9-17 | a fresh database with two empty, distinct tables |
| Db.AppDatabase.UpgradeToVersion2 | src/app/db.ts:19-38 | every story and tag gets version 1 and creation and update time now; keys, row sets, other properties and key generators are unchanged |
| Timeline.StampedForInsert | src/features/timeline/timelineSlice.ts:59-61 | version 1 when absent, else one more; both times now; nothing else changes |
| Timeline.StampedForUpdate | src/features/timeline/timelineSlice.ts:86-87 | update time now and the version bumped; nothing else changes |
| Timeline.TimelineSlice.constructor | src/features/timeline/timelineSlice.ts:32-35 | idle, no error, empty cache |
| Timeline.TimelineSlice.Add | src/features/timeline/timelineSlice.ts:144 | the `add` reducer is `addOne` |
| Timeline.TimelineSlice.Validate | src/features/timeline/timelineSlice.ts:145 | the `validate` reducer changes nothing |
| Timeline.TimelineSlice.SetError | src/features/timeline/timelineSlice.ts:146-148 | sets only the error |
| Timeline.TimelineSlice.ToggleLoading | src/features/timeline/timelineSlice.ts:149-152 | loading when on, idle when off; nothing else changes |
| Timeline.TimelineSlice.Pending | src/features/timeline/timelineSlice.ts:156-158 | every pending case sets loading only |
| Timeline.TimelineSlice.SelectAllSettled | src/features/timeline/timelineSlice.ts:159-165 | fulfilled: succeeded and the payload upserted; rejected: failed with the cache untouched |
| Timeline.TimelineSlice.InsertSettled | src/features/timeline/timelineSlice.ts:169-179 | fulfilled: succeeded and `addOne` under the payload's id; rejected: failed and the error message recorded |
| Timeline.TimelineSlice.UpdateSettled | src/features/timeline/timelineSlice.ts:183-198 | fulfilled: succeeded and the payload merged into its cached story; rejected: failed with the message |
| Timeline.TimelineSlice.DeleteSettled | src/features/timeline/timelineSlice.ts:202-212 | fulfilled: succeeded and the payload's key removed; rejected: failed with the message |
| Timeline.SelectAllStories | src/features/timeline/timelineSlice.ts:37-53 | always fulfils: with every stored story once, or, when the read fails, with none after recording the error |
| Timeline.InsertStory | src/features/timeline/timelineSlice.ts:55-73 | always fulfils with the stamped story; when the write goes ahead the story is stored under a fresh key that becomes its id; otherwise the table is unchanged and the id is the one submitted |
| Timeline.UpdateStory | src/features/timeline/timelineSlice.ts:75-116 | without an id: fulfils with the story untouched; otherwise always fulfils with the stamped story, writes only when the row exists, is versioned and the bumped version is greater, and records the error when the transaction fails |
| Timeline.DeleteStory | src/features/timeline/timelineSlice.ts:118-138 | always fulfils with the story; removes exactly its id when it has one and the transaction succeeds |
| Timeline.DispatchSelectAllStories | src/features/timeline/timelineSlice.ts:156-165 | the status always ends succeeded; a failed read leaves the cache alone and sets the error |
| Timeline.DispatchInsertStory | src/features/timeline/timelineSlice.ts:166-175 | the status ends succeeded even when nothing was written; a failed id-less insert puts the story under the key `undefined` |
| Timeline.DispatchUpdateStory | src/features/timeline/timelineSlice.ts:180-194 | when the version check skips the write, the table keeps its row while the cached story takes the stamped changes |
| Timeline.DispatchDeleteStory | src/features/timeline/timelineSlice.ts:199-208 | the cache loses the story's key even when the row is still stored |
| Timeline.WriteAllowedIffNotOlder | src/features/timeline/timelineSlice.ts:95 | a versioned row is overwritten exactly when the submitted version is at least the stored one |
| Timeline.UnversionedNeverOverwrites | src/features/timeline/timelineSlice.ts:87-99 | a story submitted without a version never overwrites a row of version 1 or more |
| Timeline.UpgradedRowsRefuseUnversioned | src/app/db.ts:19-28 | after the version 2 upgrade no story submitted without a version overwrites any row |
| Timeline.UpdateNotReplayable | src/features/timeline/timelineSlice.ts:95-104 | after a write, resubmitting the same story is refused, and the stored version is the bumped one |
| Tags.StampedForInsert | src/features/tag/tagSlice.ts:62-64 | version bumped from the submitted one, both times now, nothing else changed |
| Tags.StampedForUpdate | src/features/tag/tagSlice.ts:85-86 | update time now, version bumped, nothing else changed |
| Tags.UpdateResult | src/features/tag/tagSlice.ts:77-106 | `updateTag` fulfils exactly when the tag has an id, the transaction succeeds, and the name stays unique or the check skips the write; a fulfilled payload is the stamped tag and has an id |
| Tags.RowsAfterUpdate | src/features/tag/tagSlice.ts:87-100 | the update touches at most the tag's own row and never adds or removes keys |
| Tags.TagSlice.constructor | src/features/tag/tagSlice.ts:22-25 | idle, no error, empty cache |
| Tags.TagSlice.SetError | src/features/tag/tagSlice.ts:130-132 | sets only the error |
| Tags.TagSlice.Pending | src/features/tag/tagSlice.ts:176-178 | the pending matcher sets loading only |
| Tags.TagSlice.MarkFailed | src/features/tag/tagSlice.ts:140-142 | a rejected case sets failed and touches neither cache nor error |
| Tags.TagSlice.SelectAllSettled | src/features/tag/tagSlice.ts:136-142 | fulfilled: succeeded and the payload upserted; rejected: failed |
| Tags.TagSlice.FetchByIdSettled | src/features/tag/tagSlice.ts:169-175 | fulfilled: succeeded, and the tag upserted only when one was found; rejected: failed |
| Tags.TagSlice.InsertSettled | src/features/tag/tagSlice.ts:143-149 | fulfilled: `addOne`; rejected: failed with the cache untouched |
| Tags.TagSlice.UpdateSettled | src/features/tag/tagSlice.ts:150-161 | fulfilled: the payload merged into its cached tag; rejected: failed |
| Tags.TagSlice.DeleteSettled | src/features/tag/tagSlice.ts:162-168 | fulfilled: the payload's key removed; rejected: failed |
| Tags.SelectAllTags | src/features/tag/tagSlice.ts:27-42 | rejects exactly when the read fails; otherwise lists every stored tag once, each with an id |
| Tags.FetchTagById | src/features/tag/tagSlice.ts:44-57 | rejects exactly when the read fails; otherwise the stored tag under the id, or nothing exactly when there is none |
| Tags.InsertTag | src/features/tag/tagSlice.ts:59-75 | fulfils exactly when the transaction succeeds and the key and name are free, with the stamped tag stored under a fresh key; otherwise rejects with the placeholder message and writes nothing |
| Tags.UpdateTag | src/features/tag/tagSlice.ts:77-106 | settles as `UpdateResult` and leaves the table as `RowsAfterUpdate` |
| Tags.DeleteTag | src/features/tag/tagSlice.ts:108-124 | rejects with "Tag id is missing." without an id and with the error on a failed transaction; otherwise removes exactly that key and fulfils with the tag |
| Tags.DispatchSelectAllTags | src/features/tag/tagSlice.ts:136-142 | failed exactly when the read fails, leaving the cache alone; otherwise the stored tags are upserted: each is cached under its id, merged over the cached entry when there was one; the cache never gains the key `undefined` |
| Tags.DispatchFetchTagById | src/features/tag/tagSlice.ts:169-175 | a found tag is upserted into the cache under its id (merged over a cached entry); otherwise the cache is unchanged |
| Tags.DispatchInsertTag | src/features/tag/tagSlice.ts:143-149 | a rejected insert changes neither table nor cache; a fulfilled one adds the same tag to both under its new id |
| Tags.DispatchUpdateTag | src/features/tag/tagSlice.ts:150-161 | a fulfilled update merges the stamped tag into the cache whether or not the table was written |
| Tags.DispatchDeleteTag | src/features/tag/tagSlice.ts:162-168 | cache and table lose the tag together, or neither does |
| Tags.StaleCopyOverwrites | src/features/tag/tagSlice.ts:92 | a copy two or more versions behind is written, and the stored version goes backwards |
| Tags.OneBehindSkipped | src/features/tag/tagSlice.ts:92-94 | the one copy the check refuses is still fulfilled, and nothing is written |
| Tags.UpdateNotReplayable | src/features/tag/tagSlice.ts:92-96 | after a write, resubmitting the same tag is refused |
| SettingsFeature.InitialSettings | src/features/settings/settingsSlice.ts:19 | English, light, not populated, no id |
| SettingsFeature.SettingsSlice.constructor | src/features/settings/settingsSlice.ts:17-21 | idle, the initial settings, no error |
| SettingsFeature.SettingsSlice.SetLanguage | src/features/settings/settingsSlice.ts:64-66 | only the language changes |
| SettingsFeature.SettingsSlice.Pending | src/features/settings/settingsSlice.ts:83-85 | loading; the settings untouched |
| SettingsFeature.SettingsSlice.MarkFailed | src/features/settings/settingsSlice.ts:86-89 | failed; the settings untouched |
| SettingsFeature.SettingsSlice.Settled | src/features/settings/settingsSlice.ts:70-77 | a fulfilled payload replaces the whole settings and the status is succeeded |
| SettingsFeature.FetchSettings | src/features/settings/settingsSlice.ts:23-32 | fulfils exactly when the transaction succeeds and the table is not empty, with the lowest-key row; an empty table rejects with "no settings" |
| SettingsFeature.UpdateSettings | src/features/settings/settingsSlice.ts:34-45 | fulfils with the submitted settings exactly when a row has their id, merging them into it; a missing row rejects with "Update failed." and writes nothing |
| SettingsFeature.DispatchFetchSettings | src/features/settings/settingsSlice.ts:74-89 | the slice holds the stored row, or fails and keeps its settings |
| SettingsFeature.DispatchUpdateSettings | src/features/settings/settingsSlice.ts:70-89 | on success the slice holds the submitted settings and the stored row agrees on language and theme; on failure neither changes |
| Initializer.FindLocale | src/common/hooks.ts:50-52 | the result matches and no earlier candidate does; no result means no candidate matches |
| Initializer.DefaultSettings | src/common/hooks.ts:48-61 | no id; dark exactly when dark is preferred; a language other than English only when the browser tag matches its pattern |
| Initializer.MatchNeedsBackspace | src/common/hooks.ts:52 | a locale pattern matches only a tag with U+0008 right after the code |
| Initializer.NoBackspaceMeansEnglish | src/common/hooks.ts:49-54 | any tag without U+0008 leaves the default language English |
| Initializer.JapaneseTagStaysEnglish | src/common/hooks.ts:49-54 | "ja-JP" gives English |
| Initializer.BackspaceTagSelectsLocale | src/common/hooks.ts:49-54 | a tag with U+0008 after "ja" or "zh-TW" selects that locale |
| Initializer.Initialize | src/common/hooks.ts:17-73 | always initialized; defaults are built exactly when the settings fetch does not fulfil, whatever the reason, and are the chosen defaults |
| StoryFormHook.InitialState | src/features/timeline/useStoryForm.tsx:19-26 | empty strings, no tags, not archived, time 0, no errors |
| StoryFormHook.Reduce | src/features/timeline/useStoryForm.tsx:37-47 | `update` replaces the inputs given and keeps the others; any other action returns an equal state |
| StoryFormHook.ArgumentOf | src/features/timeline/useStoryForm.tsx:59-66 | all six inputs from the story, without errors |
| StoryFormHook.LoadStory | src/features/timeline/useStoryForm.tsx:57-67 | nothing before a story is set; afterwards the inputs hold the story's values |
| StoryFormHook.GenerateStory | src/features/timeline/useStoryForm.tsx:69-79 | the six properties are the input values; id, version and times come from the loaded story, and are absent without one |
| StoryFormHook.UpdatesCompose | src/features/timeline/useStoryForm.tsx:43 | two `update`s in a row equal one whose argument prefers the later inputs; an empty argument changes nothing |
| StoryFormHook.UpdateIdempotent | src/features/timeline/useStoryForm.tsx:43 | the same `update` twice is one `update` |
| StoryFormHook.LoadThenGenerate | src/features/timeline/useStoryForm.tsx:57-79 | loading a story and generating gives the story back |
| StoryFormHook.GenerateThenLoad | src/features/timeline/useStoryForm.tsx:57-79 | generating and loading back keeps every input value and clears the errors |
| StoryForm.PatchStory | src/features/timeline/StoryForm.tsx:52 | the story merge sets the given properties and keeps the rest |
| StoryForm.PatchForm | src/features/timeline/StoryForm.tsx:50 | the state merge sets the given properties and keeps the rest |
| StoryForm.Reduce | src/features/timeline/StoryForm.tsx:47-58 | `update` merges into the state, `updateStory` into the story only, `validate` and unknown actions return an equal state |
| StoryForm.InitialFormState | src/features/timeline/StoryForm.tsx:60-74 | all validities valid without error, an empty story at the load time, status ready |
| StoryForm.Validate | src/features/timeline/StoryForm.tsx:99-105 | valid exactly when the input is valid; the "value is missing" message exactly when invalid with the value missing |
| StoryForm.ValidateAgreesWithMessages | src/features/timeline/StoryForm.tsx:99-105 | a field is valid exactly when the message mapping has nothing to say |
| StoryForm.DetailInvalidMarksTitle | src/features/timeline/StoryForm.tsx:251-256 | the detail field's invalid handler sets the title's validity and never the detail's |
| StoryForm.ToHex | src/features/timeline/StoryForm.tsx:158 | at least one lowercase hexadecimal digit |
| StoryForm.HexRoundTrip | src/features/timeline/StoryForm.tsx:158 | reading the hexadecimal back gives the number |
| StoryForm.HexLength | src/features/timeline/StoryForm.tsx:158 | one digit below 16, two from 16 to 255: no padding |
| StoryForm.AppendHex | src/features/timeline/StoryForm.tsx:157-160 | the fold only appends to the accumulated string |
| StoryForm.ColorString | src/features/timeline/StoryForm.tsx:157-160 | starts with "#" and has at least four characters |
| StoryForm.ColorStringConcat | src/features/timeline/StoryForm.tsx:157-160 | "#" then the hexadecimal of red, green and blue, in order |
| StoryForm.ColorStringLength | src/features/timeline/StoryForm.tsx:157-160 | 4 to 7 characters for components from 0 to 255 |
| StoryForm.ColorStringNotInjective | src/features/timeline/StoryForm.tsx:157-160 | (1, 35, 0) and (18, 3, 0) both give "#1230" |
| StoryForm.Without | src/features/timeline/StoryForm.tsx:177-179 | the id is gone, nothing new appears, the list does not grow |
| StoryForm.ToggleTag | src/features/timeline/StoryForm.tsx:175-179 | checking appends the id at the end; unchecking leaves no occurrence |
| StoryForm.WithoutKeepsOthers | src/features/timeline/StoryForm.tsx:177-179 | unchecking keeps every other id as many times as it occurred |
| StoryForm.WithoutConcat | src/features/timeline/StoryForm.tsx:177-179 | unchecking keeps the order of the other ids |
| StoryForm.WithoutAbsent | src/features/timeline/StoryForm.tsx:177-179 | unchecking an id that is not there changes nothing |
| StoryForm.CheckTwiceThenUncheck | src/features/timeline/StoryForm.tsx:175-179 | checking an id already there adds a second copy, and unchecking then removes every copy |
| StoryForm.Submit | src/features/timeline/StoryForm.tsx:121-137 | an invalid form dispatches nothing and stays, changing only the title's validity, which the detail's handler sets last; otherwise submitting, update or insert by route, then navigation; only a throwing dispatch returns to ready, without navigating; nothing but the status changes |
| StoryForm.MissingTitleOnSubmit | src/features/timeline/StoryForm.tsx:218-256 | submitting without a title marks it "value is missing", unless an invalid detail overwrites that; the detail's validity never changes |
| StoryForm.Delete | src/features/timeline/StoryForm.tsx:143-151 | deleting, the delete dispatched, then the root; a throwing dispatch returns to ready |
| StoryForm.OnStoryLoaded | src/features/timeline/StoryForm.tsx:116-119 | nothing while loading or without a story |
| StoryForm.LoadedStoryReplaces | src/features/timeline/StoryForm.tsx:116-119 | a loaded story is merged into the form's story like a store update, and nothing else changes |
| TagForm.PatchForm | src/features/tag/TagForm.tsx:46 | the state merge sets the given properties and keeps the rest |
| TagForm.PatchTag | src/features/tag/TagForm.tsx:48 | the tag merge sets the given name, description and colour, keeps those not given, and changes nothing else |
| TagForm.Reduce | src/features/tag/TagForm.tsx:43-54 | `updateState` merges into the state, `updateTag` into the tag only, `error` and unknown actions return an equal state |
| TagForm.InitialFormState | src/features/tag/TagForm.tsx:56-62 | no field invalid, an empty tag without id, the snackbar hidden |
| TagForm.OnSelectedTag | src/features/tag/TagForm.tsx:86-97 | no selected tag gives the initial state; a selected tag gives the initial state holding that tag |
| TagForm.SelectedTagForgetsState | src/features/tag/TagForm.tsx:86-97 | the result does not depend on the previous state, and the snackbar is hidden |
| TagForm.StatusReaction | src/features/tag/TagForm.tsx:99-112 | navigate exactly on "inserted", "updated" or "deleted"; the snackbar exactly on "failed" |
| TagForm.OnStatus | src/features/tag/TagForm.tsx:106-108 | the snackbar is shown after "failed", and nothing changes otherwise |
| TagForm.SliceStatusNeverNavigates | src/features/tag/TagForm.tsx:99-112 | no status the tag slice can hold makes the form navigate; the snackbar shows exactly when the slice failed |
| TagForm.Submit | src/features/tag/TagForm.tsx:117-186 | nothing is dispatched exactly when the form is invalid, and then an invalid name sets `isNameInvalid` and an invalid description sets `isDescriptionInvalid`, nothing else changing; a valid form inserts without a selected tag, updates with one, and leaves the state alone |
| TagForm.NameInvalidSticks | src/features/tag/TagForm.tsx:86-171 | a name marked invalid stays marked through edits, the status effect and further submits; loading a selected tag clears it |
| TagForm.EditedTagKeepsId | src/features/tag/TagForm.tsx:86-126 | editing the selected tag and submitting updates it under the selected tag's id |
| Validity.FirstSet | src/utilities/mapValidityToMessages.ts:4-38 | the index of the first set flag, or the length when none is set |
| Validity.MapValidityToMessages | src/utilities/mapValidityToMessages.ts:1-43 | null exactly when valid; every message has id ""; "Value is missing." wins; "Unkown." exactly when invalid with no flag set |
| Validity.FirstFailedConstraintWins | src/utilities/mapValidityToMessages.ts:4-43 | the message is that of the first set flag in the order valueMissing, tooLong, tooShort, rangeOverflow, rangeUnderflow, patternMismatch, typeMismatch |
| Validity.LaterFlagsIgnored | src/utilities/mapValidityToMessages.ts:4-38 | two invalid states that agree on every flag up to the first set one get the same message, whatever the later flags are |

## Left out

- Concurrency: thunks run one after another here. Interleaved transactions and the race between the version check and the write are not modelled.
- Clocks: the source reads the clock separately for `createAt` and `updatedAt`. Each operation gets one `now`, so the two times are equal.
- Order: `toArray` and `first()` return rows in key order. The model guarantees each row exactly once, and `first()` the lowest key, but not the order of the listing.
- Matchers: the `isPendingAction` and `isRejectedAction` matchers come from a revision of `src/app/types.ts` that is not part of this model. Each slice applies them to its own thunks only, not to the actions of other slices.
- Thrown errors: a rejected action's `error.message` is reduced to the store error's name, or "Rejected" for a `rejectWithValue`. Logging with `console.log` and `console.error` is not modelled.
- Tables and Dexie: `insertSettings`, which the start-up hook dispatches, is not in the settings slice shown. `Initializer.Initialize` returns the defaults it would insert.
- `resetDatabase` is left out: deleting and reopening the whole database is outside the table model.
- `fetchStoryById`, story pagination and counting are not part of this model. Neither are the notification slice, the views, routing and i18n message loading.
- Aliasing: thunks mutate their argument object, for example writing `id`, `version` and times into the submitted story. The model returns the mutated story as the payload instead; a caller that kept a reference to it is not modelled.
- Numbers: JavaScript numbers are floats. Ids, versions and times are unbounded integers here.
- Form effects: the React effects and handlers are functions of the state they read. Rendering, refs and `navigate` (a returned `Navigation`) are not modelled. The story form's `checkValidity()` is modelled by the validity states of the title and detail plus an `othersValid` flag, and the tag form's by the validity of the name and the description plus an `othersValid` flag. A form whose element is not mounted is not modelled.
- The tag form's delete handler only dispatches `deleteTag` with the selected tag, and both forms' close handlers only navigate. None of the three is modelled separately.

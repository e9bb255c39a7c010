# Card editor reducer and card grid, modelled in Dafny

This project models two parts of a flash-card application.

- **The card editor's reducer** (`edit` in `src/edit/reducer.ts`). The editor holds one active form: a form id, a phase (`EMPTY`, `LOADING`, `OK`, `DIRTY`, `NOT_FOUND`), the card being edited, the list of fields edited since the last save ("dirty fields"), a `deleted` flag and the attached notes. It can also record a save error. Each action that names a form is ignored unless it names the active one. The model covers every case of the reducer and its initial state.
- **The card grid's list maintenance** (`src/components/CardGrid.jsx`). The grid shows the cards newest first, sorted in descending `_id` order under the store's collation. It locates a card with the binary search `findCard`. It applies each change record from the store's change feed by removing, replacing or inserting one card.

Files:

- `wrappers.dfy`: the `Option` type.
- `js_object.dfy`: plain JavaScript objects as the reducer uses them. An object is an ordered list of properties with distinct keys. A missing property reads as `undefined`. The module defines the property write `o[k] = v`, the spread `{ ...a, ...b }` and `Array.prototype.filter` on key lists.
- `edit_reducer.dfy`: the editor state, the actions and the reducer. Each case is a function whose contract states what the case promises. The `for ... in` loop of SYNC_EDIT_CARD is a method proved equal to a function of its input. A well-formedness invariant is proved for every state reachable from the initial state.
- `card_grid.dfy`: `findCard` as a method with its loop, proved against a linear reference position. The change handler is a function with lemmas. The component is a class whose state is the list of cards.

`deepEqual` is modelled as equality of values. The `collate` function of pouchdb-collate is not part of this model. The card grid takes the comparison as a parameter `cmp` and assumes only the laws in `IsCollation`:

- swapping the arguments flips the sign;
- "greater" is transitive, also through one step that compares equal.

`StringCollate`, the lexicographic comparison of two strings by character, is proved to satisfy these laws. It shows that the laws can be met. It is not `collate`'s exact string order: it compares Unicode scalar values, JavaScript compares UTF-16 code units, and the two orders differ for characters outside the Basic Multilingual Plane.

In two places the reducer's test file `src/edit/reducer.test.ts` disagrees with `src/edit/reducer.ts`, and the model follows `reducer.ts`:

- It expects form id 12 after a new card is saved (`src/edit/reducer.test.ts:363-383`). `src/edit/reducer.ts:197` sets the saved card's `_id`.
- It keeps dirty fields as a `Set`. `reducer.ts` keeps them as an array.

## Model

| member | source | states |
|---|---|---|
| JsObject.Get | src/edit/reducer.ts:154 | reading a property the object does not have gives `undefined` |
| JsObject.GetAt | src/edit/reducer.ts:154 | reading an object's own property gives that property's value |
| JsObject.Put | src/edit/reducer.ts:247 | assigning `o[k] = v` gives `v` at `k` and leaves every other property as it was; an existing key keeps its place; a new key is appended at the end |
| JsObject.Spread | src/edit/reducer.ts:166 | `{ ...a, ...b }` has the keys of both objects, and `b`'s value wins wherever both have the key |
| JsObject.Filter | src/edit/reducer.ts:150-158 | the kept elements are exactly the elements that satisfy the test, and they keep their order (a subsequence of the input); filtering never creates a duplicate and never grows the list |
| JsObject.SubsequenceUnique | src/edit/reducer.ts:150-158 | on a list without duplicates, two subsequences with the same elements are equal, so elements and order together fix a filtered list |
| JsObject.FilterDetermined | src/edit/reducer.ts:150-158 | the filtered list is the only subsequence of a duplicate-free list that holds exactly the kept elements |
| EditReducer.InitialState | src/edit/reducer.ts:53-62 | `initialState` is a blank EMPTY form with id 0, no `deleted` flag and no save error, and it is well formed |
| EditReducer.NewlyDirty | src/edit/reducer.ts:148-159 | the fields an edit makes dirty are exactly the changed tracked fields whose value differs from the card's and that are not yet listed, without duplicates, in the change's key order |
| EditReducer.StillDirty | src/edit/reducer.ts:182-189 | the fields still dirty after a save are exactly the saved tracked fields whose value differs from the local card's, without duplicates, in the saved card's key order |
| EditReducer.OnNewCard | src/edit/reducer.ts:69-80 | NEW_CARD gives a blank EMPTY form with the new id: no card, no dirty list, no notes, no `deleted` flag, no save error |
| EditReducer.OnLoadCard | src/edit/reducer.ts:82-93 | LOAD_CARD gives a blank LOADING form for the requested id and discards the rest of the old state |
| EditReducer.OnFinishLoadCard | src/edit/reducer.ts:95-110 | another form's load is ignored; otherwise the loaded card becomes the clean content of an OK form whose id is the card's `_id` |
| EditReducer.OnFailLoadCard | src/edit/reducer.ts:112-133 | another form's failure is ignored; otherwise the form is NOT_FOUND and blank, and `deleted` is true exactly when the error's reason is `'deleted'` |
| EditReducer.OnEditCard | src/edit/reducer.ts:135-172 | another form's edit is ignored; otherwise the card is the old card overridden by the change; the dirty list is the old list followed by exactly the changed tracked fields that differ from the current value and were not listed, with no duplicates, in the change's key order; the phase is DIRTY and the notes are kept |
| EditReducer.OnFinishSaveCard | src/edit/reducer.ts:174-209 | ignored for another form or a deleted one; otherwise the form takes the saved `_id` and the local values win in the merged card; a field is dirty exactly when the saved card's tracked value differs from the local one, and the dirty list follows the saved card's key order; the phase is OK exactly when no field differs, and then there is no dirty list at all |
| EditReducer.StillDirtyMeaning | src/edit/reducer.ts:182-190 | the recomputed dirty list is empty exactly when no saved tracked field differs from the local card |
| EditReducer.OnFailSaveCard | src/edit/reducer.ts:211-220 | ignored for another form or a deleted one; otherwise the forms are unchanged and the save error is recorded |
| EditReducer.SyncedCard | src/edit/reducer.ts:242-253 | the synced card has exactly the change's keys, in the change's order; each field holds the local value when it is dirty and the change's value otherwise |
| EditReducer.MergeSyncedFields | src/edit/reducer.ts:242-253 | the `for ... in` loop builds exactly the synced card |
| EditReducer.SyncedCardStep | src/edit/reducer.ts:245-252 | one iteration of the loop assigns the next property of the change to the card built so far |
| EditReducer.OnSyncEditCard | src/edit/reducer.ts:222-260 | a change to another card is ignored; a deletion gives a blank NOT_FOUND form flagged deleted with the same form id; otherwise only the card changes, to the synced card, and the phase, dirty list and notes are kept |
| EditReducer.OnDeleteEditCard | src/edit/reducer.ts:262-291 | another form's deletion is ignored; otherwise the form keeps its id and is blank; it is EMPTY when the card has no `_id`, and NOT_FOUND flagged deleted when it has one |
| EditReducer.StringArray | src/edit/reducer.ts:300 | the keywords are copied element by element into a new array |
| EditReducer.NewNote | src/edit/reducer.ts:298-301 | without initial keywords the new note is empty; with them its only property is a copy of the keywords |
| EditReducer.OnAddEditNote | src/edit/reducer.ts:293-317 | another form's note is ignored; otherwise exactly one note, in state Ok, is appended after the old notes, and nothing else in the form changes |
| EditReducer.Edit | src/edit/reducer.ts:64-322 | an action aimed at another form, or an action the reducer does not handle, returns the state unchanged; every action preserves well-formedness |
| EditReducer.Reduce | src/edit/reducer.ts:53-68 | with no state, the reducer starts from the initial state: an unhandled action, or one aimed at a form other than form 0, yields the initial state, and the result is well formed; with a state, an action aimed at another form returns it unchanged, and a well-formed state stays well formed |
| EditReducer.ReachableStatesWellFormed | src/edit/reducer.ts:53-322 | in every state reachable from the initial state, the form has a dirty list exactly when it is DIRTY; that list holds distinct tracked fields; only a NOT_FOUND form is flagged deleted |
| EditReducer.WellFormedPreserved | src/edit/reducer.ts:64-322 | any sequence of actions keeps a well-formed state well formed |
| EditReducer.PushDirtyFieldsAsWritten | src/edit/reducer.ts:148-159 | as written, the update appends the newly dirty fields to the array the previous state refers to, and returns that same array |
| EditReducer.PushDirtyFieldsCorrected | src/edit/reducer.ts:148-159 | the same list is built in a new array, and the previous state's array is left alone |
| EditReducer.PromptAnswerNewlyDirty | src/edit/reducer.ts:148-159 | a change of `prompt` then `answer` that differs from an empty card makes both fields newly dirty, exactly `['prompt', 'answer']` in that order |
| EditReducer.EditNewCardOrder | src/edit/reducer.ts:135-172 | EDIT_CARD of `prompt` then `answer` on the empty form of a new card gives the dirty list `['prompt', 'answer']`, in that order |
| EditReducer.ScenarioNewlyDirty | src/edit/reducer.ts:148-159 | editing `answer` on a card whose dirty list is `['question']` makes exactly `answer` newly dirty |
| EditReducer.PreviousStateMutated | src/edit/reducer.ts:148-159 | as written, after the edit the previous state's dirty list reads `['question', 'answer']` instead of `['question']` |
| EditReducer.PreviousStateKept | src/edit/reducer.ts:148-171 | with the corrected update, the previous state still reads `['question']` and the new state reads `['question', 'answer']` |
| CardGrid.Position | src/components/CardGrid.jsx:8-12 | the reference insertion point: every card before it compares greater than the id, and the card at it, if any, does not |
| CardGrid.PositionUnique | src/components/CardGrid.jsx:8-12 | only one index has the two properties of the insertion point |
| CardGrid.AfterPosition | src/components/CardGrid.jsx:27-31 | in sorted cards, every card after the insertion point compares below the id |
| CardGrid.AboveBefore | src/components/CardGrid.jsx:27-28 | in sorted cards, when the probed card compares at least the id, every card before it compares above the id, so the search may drop them |
| CardGrid.BelowAfter | src/components/CardGrid.jsx:29-30 | in sorted cards, when the probed card compares at most the id, every card after it compares below the id, so the search may drop them |
| CardGrid.FindCard | src/components/CardGrid.jsx:13-35 | a hit is an index whose card compares equal to the id; a miss gives an index from 0 to the number of cards; on sorted cards the index is the insertion point in both cases, and the search misses only when no card compares equal; the loop terminates on every input |
| CardGrid.Max | src/components/CardGrid.jsx:34 | `Math.max` is the larger of its two arguments |
| CardGrid.SelectMatchingSorted | src/components/CardGrid.jsx:8-12 | sorted cards hold at most one card comparing equal to an id, and it sits at the insertion point |
| CardGrid.Splice | src/components/CardGrid.jsx:72-78 | removing `n` cards at `p` and inserting `ins` there changes the length by the number of inserted cards minus `n` |
| CardGrid.SpliceElements | src/components/CardGrid.jsx:72-78 | after a splice the cards before `p` stay in place, the inserted cards follow from `p`, and the cards after the removed ones shift by the change in length |
| CardGrid.HitIsSearch | src/components/CardGrid.jsx:13-35 | on sorted cards the card at the insertion point compares equal to the id exactly when some card does, which is when the search hits |
| CardGrid.ApplyChange | src/components/CardGrid.jsx:67-81 | applying a change never introduces a card other than the change's document |
| CardGrid.ApplyChangeAsSplice | src/components/CardGrid.jsx:70-80 | every outcome of `ApplyChange` is one splice at the insertion point: remove the found card or none, then insert the new document unless the change is a deletion |
| CardGrid.ApplyChangeCases | src/components/CardGrid.jsx:70-80 | found and deleted removes that card (one card fewer); found and not deleted replaces it in place (same length, only that index differs); not found and not deleted inserts the document at the insertion point, which is the search's index on sorted cards (one card more); not found and deleted changes nothing |
| CardGrid.ApplyChangeKeepsOthers | src/components/CardGrid.jsx:69-80 | the cards with other ids are the same cards, in the same order, after the change |
| CardGrid.ApplyChangeMatching | src/components/CardGrid.jsx:69-80 | on sorted cards, after the change the only card with the changed id is the new document, or there is none after a deletion |
| CardGrid.ApplyChangeSorted | src/components/CardGrid.jsx:68-80 | applying a well-formed change keeps sorted cards sorted |
| CardGrid.RemoveKeepsSorted | src/components/CardGrid.jsx:72 | removing one card keeps the cards sorted |
| CardGrid.ReplaceKeepsSorted | src/components/CardGrid.jsx:74 | replacing a card by one that still fits between its neighbours keeps the cards sorted |
| CardGrid.InsertKeepsSorted | src/components/CardGrid.jsx:78 | inserting a card that compares below all cards before the index and above all cards from it keeps the cards sorted |
| CardGrid.StringCollateIsCollation | src/components/CardGrid.jsx:3 | lexicographic string comparison satisfies the collation laws the grid relies on |
| CardGrid.CardGridView.constructor | src/components/CardGrid.jsx:56-59 | the grid starts with no cards |
| CardGrid.CardGridView.SetCards | src/components/CardGrid.jsx:63-65 | the store's initial list, newest first, becomes the grid's cards |
| CardGrid.CardGridView.OnChange | src/components/CardGrid.jsx:67-81 | the handler searches a copy of the cards and stores the result of applying the change; the cards stay sorted |

## Left out

- OnEditCard: `deepEqual` is modelled as equality of values. The library's default non-strict mode also treats values such as `1` and `'1'` as equal, and the model does not.
- OnFinishSaveCard: the same simplification of `deepEqual`.
- Numbers are integers. Floating point, `NaN` and `-0` are not modelled. Property values are `undefined`, `null`, booleans, numbers, strings and arrays; nested objects are not modelled.
- `Object.keys` and `for ... in` are modelled in insertion order. JavaScript lists integer-like keys first, and no card field is integer-like.
- Form ids (`string | number`) are compared with structural equality, which agrees with `!==` on strings and numbers.
- OnFailLoadCard: an error that is not an object (`typeof error !== 'object'`) is not representable. It reads as an absent error, which gives the same result.
- The development-only `console.assert` in EDIT_CARD (`src/edit/reducer.ts:140-146`) is left out. It has no effect on the state.
- The state objects are values. `Edit` therefore cannot show that EDIT_CARD mutates the previous state's array. That aliasing is modelled separately by `FieldArray` and the methods reported under Findings.
- `collate` from pouchdb-collate is a parameter; only its ordering laws are assumed. `StringCollate` is one comparison meeting these laws, not `collate`'s exact string order: it compares Unicode scalar values, and JavaScript compares UTF-16 code units.
- ApplyChange: looks the card up at the linear insertion point `Position`. That is the index and outcome of `findCard` only on sorted cards (`FindCard`, `HitIsSearch`). On unsorted cards the two can differ, and `ApplyChange` then does not describe the handler. `CardGridView.Valid()` keeps the grid's cards sorted, so `CardGridView.OnChange` is exact.
- CardGridView.OnChange: requires `WellFormedChange`: a change that is not a deletion carries a document with the change's `_id`. This is an assumption about the store's change feed, which is not part of this model. The handler itself accepts any record.
- ApplyChangeSorted: holds only under the same `WellFormedChange` assumption, and so do `ApplyChangeKeepsOthers` and `ApplyChangeMatching`. A change whose document has another `_id` could break the order.
- A change record always carries a document. A deletion's document is never read.
- CardGridView.SetCards requires its list to be sorted. The store promises newest-first order, and the requirement states that promise.
- React's asynchronous, batched `setState`, the `getCards()` promise, the change-feed subscription, rendering and the ordering between the initial load and early change events are left out.
- The card list is a sequence value. The handler's `slice()` copy is therefore implicit, and the previous list can never be altered.
- The sagas, the card store and its replication, the route and review reducers and the other React components are not part of this model.

## Findings

| source | as written | input that shows it | evidently intended | confidence | as-written member | corrected member |
|---|---|---|---|---|---|---|
| src/edit/reducer.ts:148-159 | EDIT_CARD takes the previous state's `dirtyFields` array and pushes the newly dirty fields onto it, so the reducer mutates the state it was given | a form for card `abc` whose dirty list is `['question']` receives EDIT_CARD `{ answer: 'Updated answer' }`; afterwards the previous state's dirty list reads `['question', 'answer']` | a reducer leaves its input state untouched and builds the new dirty list in a new array | medium, not executed | EditReducer.PreviousStateMutated | EditReducer.PreviousStateKept |

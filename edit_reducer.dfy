/**
 * The card editor's state and its reducer `edit(state, action)`
 * (src/edit/reducer.ts). The state holds one active form; every action
 * that names a form, or a card, is ignored unless it names the active one.
 * Local edits and the store's copy of the card are merged field by field:
 * fields edited locally since the last save are "dirty" and keep their
 * local value.
 */
module EditReducer {
  import opened Wrappers
  import opened JsObject

  /** A form id: the id of the card being edited (a string) or, for a card not yet saved, a sequence number. */
  type FormId = Value

  datatype EditorState = Empty | Loading | Ok | Dirty | NotFound

  datatype EditNoteState = NoteOk | NoteDirty | NoteDeleted

  /** A note attached to the form; `note` is a partial note object. */
  datatype EditNote = EditNote(note: Object, noteState: EditNoteState)

  /** The error objects the card store rejects with. */
  datatype StoreError = StoreError(status: Option<int>, name: string, message: string, reason: Option<string>)

  /** `forms.active`. `dirtyFields` and `deleted` are optional properties. */
  datatype EditForm = EditForm(
    formId: FormId,
    editorState: EditorState,
    card: Object,
    dirtyFields: Option<seq<string>>,
    deleted: Option<bool>,
    notes: seq<EditNote>)

  /** The whole editing state: `{ forms: { active }, saveError? }`. */
  datatype EditState = EditState(active: EditForm, saveError: Option<StoreError>)

  /** The actions the reducer distinguishes, with the parts of each it reads. */
  datatype EditAction =
    | NewCard(id: FormId)
    | LoadCard(id: FormId)
    | FinishLoadCard(formId: FormId, card: Object)
    | FailLoadCard(formId: FormId, error: Option<StoreError>)
    | EditCard(formId: FormId, card: Object)
    | FinishSaveCard(formId: FormId, card: Object)
    | FailSaveCard(formId: FormId, error: Option<StoreError>)
    | SyncEditCard(change: Object)
    | DeleteEditCard(formId: FormId)
    | AddEditNote(formId: FormId, initialKeywords: Option<seq<string>>)
    | OtherAction

  /** The actions that carry a `formId` and apply only to the form it names. */
  predicate TargetsForm(action: EditAction) {
    !(action.NewCard? || action.LoadCard? || action.SyncEditCard? || action.OtherAction?)
  }

  /** `initialState`: a blank EMPTY form with id 0 and no save error, which is well formed. */
  function InitialState(): (s: EditState)
    ensures s.active.formId == Num(0) && s.active.editorState == Empty
    ensures IsBlank(s.active) && s.active.deleted.None? && s.saveError.None?
    ensures WellFormed(s)
  {
    EditState(EditForm(Num(0), Empty, [], None, None, []), None)
  }

  /** Fields whose edits are tracked: every field but `_id` and `modified`. */
  predicate IsTrackedField(field: string) {
    field != "_id" && field != "modified"
  }

  /** The form lists `field` among its dirty fields. */
  predicate IsDirty(form: EditForm, field: string) {
    form.dirtyFields.Some? && field in form.dirtyFields.value
  }

  /** A form showing no card. */
  function BlankForm(formId: FormId, editorState: EditorState, deleted: Option<bool>): EditForm {
    EditForm(formId, editorState, [], None, deleted, [])
  }

  predicate IsBlank(form: EditForm) {
    form.card == [] && form.dirtyFields.None? && form.notes == []
  }

  // ---------------------------------------------------------------------
  // Dirty-field bookkeeping
  // ---------------------------------------------------------------------

  /**
   * The fields of an EDIT_CARD change that become dirty: tracked fields
   * whose new value differs from the form's current one and that are not
   * already listed in `dirty`, in the change's key order.
   */
  function NewlyDirty(dirty: seq<string>, change: Object, card: Object): (r: seq<string>)
    ensures forall f :: f in r <==>
      f in Keys(change) && IsTrackedField(f) && Get(change, f) != Get(card, f) && f !in dirty
    ensures NoDuplicates(r) && Subsequence(r, Keys(change))
  {
    KeysDistinct(change);
    Filter(Keys(change), f => IsTrackedField(f) && Get(change, f) != Get(card, f) && f !in dirty)
  }

  /** The fields of a saved card that still differ from the local card. */
  function StillDirty(saved: Object, local: Object): (r: seq<string>)
    ensures forall f :: f in r <==> f in Keys(saved) && IsTrackedField(f) && Get(saved, f) != Get(local, f)
    ensures NoDuplicates(r) && Subsequence(r, Keys(saved))
  {
    KeysDistinct(saved);
    Filter(Keys(saved), f => IsTrackedField(f) && Get(saved, f) != Get(local, f))
  }

  lemma {:induction false} NoDuplicatesAppend(a: seq<string>, b: seq<string>)
    requires NoDuplicates(a) && NoDuplicates(b)
    requires forall x :: x in b ==> x !in a
    ensures NoDuplicates(a + b)
  {
    var ab := a + b;
    forall i, j | 0 <= i < j < |ab| ensures ab[i] != ab[j] {
      if j < |a| {
        assert ab[i] == a[i] && ab[j] == a[j];
      } else if i < |a| {
        assert ab[j] == b[j - |a|] && ab[j] in b;
        assert ab[i] == a[i] && ab[i] in a;
      } else if i >= |a| {
        assert ab[i] == b[i - |a|] && ab[j] == b[j - |a|];
      }
    }
  }

  // ---------------------------------------------------------------------
  // The cases of the reducer
  // ---------------------------------------------------------------------

  /** NEW_CARD: a blank form for a card not yet saved; nothing of the old state survives. */
  function OnNewCard(id: FormId): (next: EditState)
    ensures next.active.formId == id && next.active.editorState == Empty
    ensures IsBlank(next.active) && next.active.deleted.None? && next.saveError.None?
  {
    EditState(BlankForm(id, Empty, None), None)
  }

  /** LOAD_CARD: a blank form waiting for card `id`; nothing of the old state survives. */
  function OnLoadCard(id: FormId): (next: EditState)
    ensures next.active.formId == id && next.active.editorState == Loading
    ensures IsBlank(next.active) && next.active.deleted.None? && next.saveError.None?
  {
    EditState(BlankForm(id, Loading, None), None)
  }

  /** FINISH_LOAD_CARD: the loaded card becomes the form's clean content, its `_id` the form id. */
  function OnFinishLoadCard(state: EditState, formId: FormId, card: Object): (next: EditState)
    ensures formId != state.active.formId ==> next == state
    ensures formId == state.active.formId ==>
      && next.active.formId == Get(card, "_id")
      && next.active.editorState == Ok
      && next.active.card == card
      && next.active.dirtyFields.None? && next.active.deleted.None? && next.active.notes == []
      && next.saveError.None?
  {
    if formId != state.active.formId then state
    else EditState(EditForm(Get(card, "_id"), Ok, card, None, None, []), None)
  }

  /** The load error says that the card was deleted (`error.reason === 'deleted'`). */
  predicate ReportsDeleted(error: Option<StoreError>) {
    error.Some? && error.value.reason == Some("deleted")
  }

  /** FAIL_LOAD_CARD: the form shows "not found", flagged deleted exactly when the error says so. */
  function OnFailLoadCard(state: EditState, formId: FormId, error: Option<StoreError>): (next: EditState)
    ensures formId != state.active.formId ==> next == state
    ensures formId == state.active.formId ==>
      && next.active.formId == formId
      && next.active.editorState == NotFound
      && IsBlank(next.active)
      && next.active.deleted.Some?
      && (next.active.deleted.value <==> ReportsDeleted(error))
      && next.saveError.None?
  {
    if formId != state.active.formId then state
    else
      EditState(BlankForm(formId, NotFound, Some(ReportsDeleted(error))), None)
  }

  /**
   * EDIT_CARD: the card becomes the old card overridden by the change; the
   * dirty list grows by the changed tracked fields not yet listed.
   */
  function OnEditCard(state: EditState, formId: FormId, change: Object): (next: EditState)
    ensures formId != state.active.formId ==> next == state
    ensures formId == state.active.formId ==>
      && next.active.formId == formId
      && next.active.editorState == Dirty
      && next.active.notes == state.active.notes
      && next.active.deleted.None?
      && next.saveError.None?
    ensures formId == state.active.formId ==>
      && (forall k :: Get(next.active.card, k) == if k in Keys(change) then Get(change, k) else Get(state.active.card, k))
      && (forall k :: k in Keys(next.active.card) <==> k in Keys(state.active.card) || k in Keys(change))
    ensures formId == state.active.formId ==>
      var before := state.active.dirtyFields.GetOr([]);
      && next.active.dirtyFields.Some?
      && |before| <= |next.active.dirtyFields.value|
      && next.active.dirtyFields.value[..|before|] == before
      && NoDuplicates(next.active.dirtyFields.value[|before|..])
      && Subsequence(next.active.dirtyFields.value[|before|..], Keys(change))
      && (forall f :: f in next.active.dirtyFields.value[|before|..] <==>
            && f in Keys(change) && IsTrackedField(f)
            && Get(change, f) != Get(state.active.card, f)
            && f !in before)
      && (NoDuplicates(before) ==> NoDuplicates(next.active.dirtyFields.value))
  {
    if formId != state.active.formId then state
    else
      var before := state.active.dirtyFields.GetOr([]);
      var added := NewlyDirty(before, change, state.active.card);
      var dirty := before + added;
      assert dirty[..|before|] == before && dirty[|before|..] == added;
      KeysDistinct(change);
      assert NoDuplicates(before) ==> NoDuplicates(dirty) by {
        if NoDuplicates(before) {
          NoDuplicatesAppend(before, added);
        }
      }
      EditState(
        EditForm(formId, Dirty, Spread(state.active.card, change), Some(dirty), None, state.active.notes),
        None)
  }

  /**
   * FINISH_SAVE_CARD: unless the form was deleted meanwhile, the saved card
   * is merged under the local one (local values win), the dirty list is
   * recomputed against what was saved, and the form takes the saved `_id`.
   */
  function OnFinishSaveCard(state: EditState, formId: FormId, saved: Object): (next: EditState)
    ensures formId != state.active.formId || state.active.deleted == Some(true) ==> next == state
    ensures formId == state.active.formId && state.active.deleted != Some(true) ==>
      && next.active.formId == Get(saved, "_id")
      && next.active.notes == state.active.notes
      && next.active.deleted.None?
      && next.saveError.None?
      && (forall k :: Get(next.active.card, k) == if k in Keys(state.active.card) then Get(state.active.card, k) else Get(saved, k))
      && (forall k :: k in Keys(next.active.card) <==> k in Keys(saved) || k in Keys(state.active.card))
    ensures formId == state.active.formId && state.active.deleted != Some(true) ==>
      && (next.active.editorState == Ok || next.active.editorState == Dirty)
      && (next.active.editorState == Ok <==> next.active.dirtyFields.None?)
      && (next.active.editorState == Ok <==>
            forall f :: f in Keys(saved) && IsTrackedField(f) ==> Get(saved, f) == Get(state.active.card, f))
      && (forall f :: IsDirty(next.active, f) <==>
            f in Keys(saved) && IsTrackedField(f) && Get(saved, f) != Get(state.active.card, f))
      && (next.active.dirtyFields.Some? ==> next.active.dirtyFields.value != [] && NoDuplicates(next.active.dirtyFields.value))
      && (next.active.dirtyFields.Some? ==> Subsequence(next.active.dirtyFields.value, Keys(saved)))
  {
    if formId != state.active.formId || state.active.deleted == Some(true) then state
    else
      var local := state.active.card;
      var dirty := StillDirty(saved, local);
      StillDirtyMeaning(saved, local);
      var card := Spread(saved, local);
      var form := EditForm(Get(saved, "_id"), if |dirty| > 0 then Dirty else Ok, card, None, None, state.active.notes);
      EditState(if |dirty| > 0 then form.(dirtyFields := Some(dirty)) else form, None)
  }

  /** The recomputed dirty list is empty exactly when no tracked field differs. */
  lemma StillDirtyMeaning(saved: Object, local: Object)
    ensures StillDirty(saved, local) == [] <==>
      forall f :: f in Keys(saved) && IsTrackedField(f) ==> Get(saved, f) == Get(local, f)
  {
    var d := StillDirty(saved, local);
    if d != [] {
      assert d[0] in d;
    }
  }

  /** FAIL_SAVE_CARD: unless the form was deleted, the forms stay as they are and the error is recorded. */
  function OnFailSaveCard(state: EditState, formId: FormId, error: Option<StoreError>): (next: EditState)
    ensures formId != state.active.formId || state.active.deleted == Some(true) ==> next == state
    ensures formId == state.active.formId && state.active.deleted != Some(true) ==>
      next.active == state.active && next.saveError == error
  {
    if formId != state.active.formId || state.active.deleted == Some(true) then state
    else EditState(state.active, error)
  }

  /** The value SYNC_EDIT_CARD gives `field`: the local one when the field is dirty, else the change's. */
  function SyncedValue(change: Object, form: EditForm, field: string): Value {
    if IsDirty(form, field) then Get(form.card, field) else Get(change, field)
  }

  /**
   * The card SYNC_EDIT_CARD builds (lines 242-253): one property per
   * property of the change, in the change's order, holding the local value
   * for a dirty field and the change's value otherwise.
   */
  function SyncedCard(change: Object, form: EditForm): (card: Object)
    ensures Keys(card) == Keys(change)
    ensures forall f :: f in Keys(change) ==>
      Get(card, f) == if IsDirty(form, f) then Get(form.card, f) else Get(change, f)
    decreases |change|
  {
    if change == [] then []
    else
      var n := |change| - 1;
      var field := change[n].key;
      var rest := SyncedCard(change[..n], form);
      LastProperty(change);
      Put(rest, field, SyncedValue(change, form, field))
  }

  /** How an object is its prefix plus its last property. */
  lemma LastProperty(o: Object)
    requires o != []
    ensures Keys(o) == Keys(o[..|o| - 1]) + [o[|o| - 1].key]
    ensures o[|o| - 1].key !in Keys(o[..|o| - 1])
    ensures forall f :: f in Keys(o[..|o| - 1]) ==> Get(o[..|o| - 1], f) == Get(o, f)
  {
    KeysLast(o);
    LastKeyFresh(o);
    PrefixGet(o);
  }

  lemma KeysLast(o: seq<Entry>)
    requires o != []
    ensures Keys(o) == Keys(o[..|o| - 1]) + [o[|o| - 1].key]
  {
  }

  lemma LastKeyFresh(o: Object)
    requires o != []
    ensures o[|o| - 1].key !in Keys(o[..|o| - 1])
  {
  }

  lemma PrefixGet(o: Object)
    requires o != []
    ensures forall f :: f in Keys(o[..|o| - 1]) ==> Get(o[..|o| - 1], f) == Get(o, f)
  {
    var n := |o| - 1;
    var prefix: Object := o[..n];
    forall f | f in Keys(prefix) ensures Get(prefix, f) == Get(o, f) {
      var j :| 0 <= j < n && Keys(prefix)[j] == f;
      GetAt(prefix, j);
      GetAt(o, j);
    }
  }

  /**
   * The `for ... in` loop of SYNC_EDIT_CARD: starting from an empty object,
   * assign each property of the change, in order, the local value when the
   * field is dirty and the change's value otherwise.
   */
  method MergeSyncedFields(change: Object, form: EditForm) returns (card: Object)
    ensures card == SyncedCard(change, form)
  {
    card := [];
    var i := 0;
    while i < |change|
      invariant 0 <= i <= |change|
      invariant card == SyncedCard(change[..i], form)
    {
      var field := change[i].key;
      var value := SyncedValue(change, form, field);
      SyncedCardStep(change, form, i);
      card := Put(card, field, value);
      i := i + 1;
    }
    assert change[..|change|] == change;
  }

  /** The loop's step: the card for one more property of the change. */
  lemma SyncedCardStep(change: Object, form: EditForm, i: nat)
    requires i < |change|
    ensures SyncedCard(change[..i + 1], form) ==
      Put(SyncedCard(change[..i], form), change[i].key, SyncedValue(change, form, change[i].key))
  {
    var longer: Object := change[..i + 1];
    assert longer[..i] == change[..i];
    GetAt(change, i);
    GetAt(longer, i);
  }

  /**
   * SYNC_EDIT_CARD: a change to another card is ignored; a deletion turns
   * the form into "not found (deleted)"; otherwise the form takes the
   * change's fields, keeping local values for dirty ones.
   */
  function OnSyncEditCard(state: EditState, change: Object): (next: EditState)
    ensures Get(change, "_id") != Get(state.active.card, "_id") ==> next == state
    ensures Get(change, "_id") == Get(state.active.card, "_id") && Truthy(Get(change, "_deleted")) ==>
      && next.active.formId == state.active.formId
      && next.active.editorState == NotFound
      && IsBlank(next.active)
      && next.active.deleted == Some(true)
      && next.saveError.None?
    ensures Get(change, "_id") == Get(state.active.card, "_id") && !Truthy(Get(change, "_deleted")) ==>
      && next.active == state.active.(card := next.active.card)
      && Keys(next.active.card) == Keys(change)
      && (forall f :: f in Keys(change) ==>
            Get(next.active.card, f) == if IsDirty(state.active, f) then Get(state.active.card, f) else Get(change, f))
      && next.saveError.None?
  {
    if Get(change, "_id") != Get(state.active.card, "_id") then state
    else if Truthy(Get(change, "_deleted")) then
      EditState(BlankForm(state.active.formId, NotFound, Some(true)), None)
    else
      EditState(state.active.(card := SyncedCard(change, state.active)), None)
  }

  /** DELETE_EDIT_CARD: an unsaved card leaves an empty form; a saved one a "not found (deleted)" form. */
  function OnDeleteEditCard(state: EditState, formId: FormId): (next: EditState)
    ensures formId != state.active.formId ==> next == state
    ensures formId == state.active.formId ==>
      && next.active.formId == formId
      && IsBlank(next.active)
      && next.saveError.None?
      && (!Truthy(Get(state.active.card, "_id")) ==> next.active.editorState == Empty && next.active.deleted.None?)
      && (Truthy(Get(state.active.card, "_id")) ==> next.active.editorState == NotFound && next.active.deleted == Some(true))
  {
    if formId != state.active.formId then state
    else if !Truthy(Get(state.active.card, "_id")) then
      EditState(BlankForm(formId, Empty, None), None)
    else
      EditState(BlankForm(formId, NotFound, Some(true)), None)
  }

  /** `initialKeywords`, as an array of strings. */
  function StringArray(words: seq<string>): (v: Value)
    ensures v.Arr? && |v.items| == |words|
    ensures forall i :: 0 <= i < |words| ==> v.items[i] == Str(words[i])
  {
    Arr(seq(|words|, i requires 0 <= i < |words| => Str(words[i])))
  }

  /** The new note: empty, or holding a copy of the initial keywords. */
  function NewNote(initialKeywords: Option<seq<string>>): (note: Object)
    ensures initialKeywords.None? ==> note == []
    ensures initialKeywords.Some? ==> Keys(note) == ["keywords"] && Get(note, "keywords") == StringArray(initialKeywords.value)
  {
    if initialKeywords.Some? then [Entry("keywords", StringArray(initialKeywords.value))] else []
  }

  /** ADD_EDIT_NOTE: exactly one note, in state Ok, is appended; nothing else of the form changes. */
  function OnAddEditNote(state: EditState, formId: FormId, initialKeywords: Option<seq<string>>): (next: EditState)
    ensures formId != state.active.formId ==> next == state
    ensures formId == state.active.formId ==>
      && next.active.(notes := state.active.notes) == state.active
      && |next.active.notes| == |state.active.notes| + 1
      && next.active.notes[..|state.active.notes|] == state.active.notes
      && next.active.notes[|state.active.notes|] == EditNote(NewNote(initialKeywords), NoteOk)
      && next.saveError.None?
  {
    if formId != state.active.formId then state
    else
      var notes := state.active.notes + [EditNote(NewNote(initialKeywords), NoteOk)];
      assert notes[..|state.active.notes|] == state.active.notes;
      EditState(state.active.(notes := notes), None)
  }

  // ---------------------------------------------------------------------
  // The reducer
  // ---------------------------------------------------------------------

  /**
   * A state every reachable state satisfies: the form is dirty exactly when
   * it has a dirty list, the list holds distinct tracked fields, and only a
   * "not found" form is flagged deleted.
   */
  predicate WellFormed(state: EditState) {
    && (state.active.dirtyFields.Some? <==> state.active.editorState == Dirty)
    && (state.active.dirtyFields.Some? ==>
          NoDuplicates(state.active.dirtyFields.value)
          && forall f :: f in state.active.dirtyFields.value ==> IsTrackedField(f))
    && (state.active.deleted == Some(true) ==> state.active.editorState == NotFound)
  }

  /** `edit(state, action)`. */
  function Edit(state: EditState, action: EditAction): (next: EditState)
    ensures TargetsForm(action) && action.formId != state.active.formId ==> next == state
    ensures action.OtherAction? ==> next == state
    ensures WellFormed(state) ==> WellFormed(next)
  {
    match action
    case NewCard(id) => OnNewCard(id)
    case LoadCard(id) => OnLoadCard(id)
    case FinishLoadCard(formId, card) => OnFinishLoadCard(state, formId, card)
    case FailLoadCard(formId, error) => OnFailLoadCard(state, formId, error)
    case EditCard(formId, change) => OnEditCard(state, formId, change)
    case FinishSaveCard(formId, saved) => OnFinishSaveCard(state, formId, saved)
    case FailSaveCard(formId, error) => OnFailSaveCard(state, formId, error)
    case SyncEditCard(change) => OnSyncEditCard(state, change)
    case DeleteEditCard(formId) => OnDeleteEditCard(state, formId)
    case AddEditNote(formId, initialKeywords) => OnAddEditNote(state, formId, initialKeywords)
    case OtherAction => state
  }

  /**
   * The reducer as the store calls it: an absent state stands for the
   * initial state, so an unhandled action or one aimed at a form other than
   * form 0 yields the initial state, and a present well-formed state stays
   * well formed.
   */
  function Reduce(state: Option<EditState>, action: EditAction): (next: EditState)
    ensures state.None? && action.OtherAction? ==> next == InitialState()
    ensures state.None? && TargetsForm(action) && action.formId != Num(0) ==> next == InitialState()
    ensures state.None? ==> WellFormed(next)
    ensures state.Some? && TargetsForm(action) && action.formId != state.value.active.formId ==> next == state.value
    ensures state.Some? && WellFormed(state.value) ==> WellFormed(next)
  {
    Edit(state.GetOr(InitialState()), action)
  }

  /** The state after dispatching `actions` in order. */
  function EditAll(state: EditState, actions: seq<EditAction>): EditState
    decreases |actions|
  {
    if actions == [] then state else EditAll(Edit(state, actions[0]), actions[1..])
  }

  /**
   * Every state the reducer reaches from the initial state is well formed;
   * in particular no dirty list ever holds a field twice.
   */
  lemma {:induction false} ReachableStatesWellFormed(actions: seq<EditAction>)
    ensures WellFormed(EditAll(InitialState(), actions))
  {
    WellFormedPreserved(InitialState(), actions);
  }

  lemma {:induction false} WellFormedPreserved(state: EditState, actions: seq<EditAction>)
    requires WellFormed(state)
    ensures WellFormed(EditAll(state, actions))
    decreases |actions|
  {
    if actions != [] {
      WellFormedPreserved(Edit(state, actions[0]), actions[1..]);
    }
  }

  // ---------------------------------------------------------------------
  // EDIT_CARD and the previous state's dirty list
  // ---------------------------------------------------------------------

  /** The JavaScript array a form's `dirtyFields` property refers to. */
  class FieldArray {
    var items: seq<string>

    constructor (items: seq<string>)
      ensures this.items == items
    {
      this.items := items;
    }
  }

  /**
   * EDIT_CARD's dirty-list update as written (lines 148-159): the array
   * the previous state refers to is reused, when there is one, and the new
   * fields are pushed onto it.
   */
  method PushDirtyFieldsAsWritten(previous: FieldArray?, change: Object, card: Object) returns (dirty: FieldArray)
    modifies previous
    ensures previous != null ==> dirty == previous && dirty.items == old(previous.items) + NewlyDirty(old(previous.items), change, card)
    ensures previous == null ==> fresh(dirty) && dirty.items == NewlyDirty([], change, card)
  {
    if previous == null {
      dirty := new FieldArray([]);
    } else {
      dirty := previous;
    }
    dirty.items := dirty.items + NewlyDirty(dirty.items, change, card);
  }

  /** The same update on a new array, leaving the previous state's array alone. */
  method PushDirtyFieldsCorrected(previous: FieldArray?, change: Object, card: Object) returns (dirty: FieldArray)
    ensures fresh(dirty)
    ensures previous != null ==> dirty.items == previous.items + NewlyDirty(previous.items, change, card)
    ensures previous == null ==> dirty.items == NewlyDirty([], change, card)
  {
    var before := if previous == null then [] else previous.items;
    dirty := new FieldArray(before + NewlyDirty(before, change, card));
  }

  /** The card and the change of the scenario below. */
  function ScenarioCard(): Object {
    [Entry("_id", Str("abc")), Entry("question", Str("Updated question")), Entry("answer", Str("Answer"))]
  }

  function ScenarioChange(): Object {
    [Entry("answer", Str("Updated answer"))]
  }

  lemma ScenarioNewlyDirty()
    ensures NewlyDirty(["question"], ScenarioChange(), ScenarioCard()) == ["answer"]
  {
  }

  /** The change of the scenario below: `prompt`, then `answer`. */
  function PromptAnswerChange(): Object {
    [Entry("prompt", Str("Updated prompt")), Entry("answer", Str("Updated answer"))]
  }

  /** Both fields of the change become dirty, in the change's key order. */
  lemma PromptAnswerNewlyDirty()
    ensures NewlyDirty([], PromptAnswerChange(), []) == ["prompt", "answer"]
  {
    var change := PromptAnswerChange();
    var expected := ["prompt", "answer"];
    assert Keys(change) == expected;
    assert Get(change, "prompt") == Str("Updated prompt") && Get(change, "answer") == Str("Updated answer");
    var added := NewlyDirty([], change, []);
    assert forall f :: f in added <==> f in expected;
    assert Subsequence(expected, Keys(change)) by {
      assert expected[1..] == ["answer"] && expected[1..][1..] == [];
    }
    KeysDistinct(change);
    SubsequenceUnique(added, expected, Keys(change));
  }

  /**
   * EDIT_CARD of `prompt` and then `answer` on the empty form of a new
   * card: the dirty list follows the change's key order.
   */
  lemma EditNewCardOrder()
    ensures OnEditCard(EditState(BlankForm(Num(7), Empty, None), None), Num(7), PromptAnswerChange()).active.dirtyFields
      == Some(["prompt", "answer"])
  {
    PromptAnswerNewlyDirty();
    assert [] + NewlyDirty([], PromptAnswerChange(), []) == ["prompt", "answer"];
  }

  /**
   * A form whose dirty list is ["question"] receives an edit of "answer":
   * as written, the dirty list the previous state still refers to now reads
   * ["question", "answer"].
   */
  method PreviousStateMutated() returns (before: seq<string>, after: seq<string>)
    ensures before == ["question"] && after == ["question", "answer"]
  {
    var shared := new FieldArray(["question"]);
    before := shared.items;
    ScenarioNewlyDirty();
    var dirty := PushDirtyFieldsAsWritten(shared, ScenarioChange(), ScenarioCard());
    after := shared.items;
  }

  /** The same scenario with the corrected update: the previous state still reads ["question"]. */
  method PreviousStateKept() returns (before: seq<string>, after: seq<string>, next: seq<string>)
    ensures before == ["question"] && after == before
    ensures next == ["question", "answer"]
  {
    var shared := new FieldArray(["question"]);
    before := shared.items;
    ScenarioNewlyDirty();
    var dirty := PushDirtyFieldsCorrected(shared, ScenarioChange(), ScenarioCard());
    after := shared.items;
    next := dirty.items;
  }
}

/**
 * The create/edit form: the record it builds on submit, its set-like tag
 * editing, loading the record to edit, and the image field's handlers.
 * React state is modelled as the values the handlers compute; the clock
 * is one reading `now` (milliseconds) for the id and both timestamps.
 */
module AdminForm {
  import opened Wrappers
  import opened Types
  import opened Strings
  import opened Seqs
  import opened Records

  /**
   * The form's `Partial<ReferenceImage>`: a new form has no id and no
   * timestamps; a form loaded for editing carries the record's.
   */
  datatype FormData = FormData(
    id: Option<string>,
    title: string,
    customer: string,
    orderNumber: string,
    section: Section,
    tags: seq<string>,
    notes: string,
    image: Image,
    createdAt: Option<int>,
    updatedAt: Option<int>)

  /** The form state for a new reference. */
  const INITIAL_FORM: FormData := FormData(
    None, "", "", "", Door, [], "", Url("https://picsum.photos/800/600?industrial"), None, None)

  /** `setFormData(existing)`: a stored record as form state. */
  function FromRecord(r: Record): FormData
  {
    FormData(Some(r.id), r.title, r.customer, r.orderNumber, r.section, r.tags, r.notes,
      r.image, Some(r.createdAt), Some(r.updatedAt))
  }

  /** The id the submit handler saves: the form's own when non-empty, otherwise `ref-<now>`. */
  function SubmitId(form: FormData, now: nat): string
  {
    if form.id.Some? && form.id.value != "" then form.id.value else "ref-" + Decimal(now)
  }

  /**
   * `handleSubmit`'s record: the form's fields, the id as above, the
   * creation time kept when present and otherwise `now`, and the update
   * time always `now`.
   */
  function BuildRecord(form: FormData, now: nat): (r: Record)
    ensures FromRecord(r) == form.(id := Some(r.id), createdAt := Some(r.createdAt), updatedAt := Some(now))
    ensures form.id.Some? && form.id.value != "" ==> r.id == form.id.value
    ensures (form.id.None? || form.id.value == "") ==> r.id == "ref-" + Decimal(now)
    ensures form.createdAt.Some? ==> r.createdAt == form.createdAt.value
    ensures form.createdAt.None? ==> r.createdAt == now
  {
    Record(
      SubmitId(form, now),
      form.title, form.customer, form.orderNumber, form.section, form.tags, form.notes, form.image,
      if form.createdAt.Some? then form.createdAt.value else now,
      now)
  }

  /**
   * Submitting a new form saves a record with id `ref-<now>` whose
   * creation and update times are both `now`, and whose other fields are
   * the form's.
   */
  lemma SubmitNew(form: FormData, now: nat)
    requires form.id.None? && form.createdAt.None?
    ensures var r := BuildRecord(form, now);
            && r.id == "ref-" + Decimal(now)
            && r.createdAt == r.updatedAt == now
            && FromRecord(r) == form.(id := Some(r.id), createdAt := Some(now), updatedAt := Some(now))
  {
  }

  /**
   * Submitting a loaded record without changes saves the same record
   * with only its update time moved to `now`; the creation time is kept,
   * and the update time strictly advances when `now` is later.
   */
  lemma SubmitEdit(r: Record, now: nat)
    requires r.id != ""
    ensures BuildRecord(FromRecord(r), now) == r.(updatedAt := now)
    ensures BuildRecord(FromRecord(r), now).createdAt == r.createdAt
    ensures r.updatedAt < now ==> BuildRecord(FromRecord(r), now).updatedAt > r.updatedAt
  {
  }

  /** The form together with the text of its new-tag input. */
  datatype FormState = FormState(data: FormData, newTag: string)

  /**
   * `addTag`: a non-empty tag not yet in the list is appended and the
   * input cleared; otherwise nothing changes.
   */
  function AddTag(st: FormState): (r: FormState)
    ensures r == st || (r.data.tags == st.data.tags + [st.newTag] && r.newTag == "")
    ensures st.newTag != "" ==> st.newTag in r.data.tags
    ensures r.data.(tags := st.data.tags) == st.data
    ensures NoDup(st.data.tags) ==> NoDup(r.data.tags)
  {
    if st.newTag != "" && st.newTag !in st.data.tags then
      var tags := st.data.tags + [st.newTag];
      assert tags[|st.data.tags|] == st.newTag;
      assert forall i :: 0 <= i < |st.data.tags| ==> tags[i] == st.data.tags[i];
      FormState(st.data.(tags := tags), "")
    else st
  }

  /** `removeTag`: every occurrence of the tag filtered out. */
  function RemoveTag(st: FormState, tag: string): (r: FormState)
    ensures tag !in r.data.tags
    ensures forall k :: 0 <= k < |st.data.tags| && st.data.tags[k] != tag ==> st.data.tags[k] in r.data.tags
    ensures r.data.(tags := st.data.tags) == st.data && r.newTag == st.newTag
  {
    FormState(st.data.(tags := Filter(st.data.tags, IsNotTag(tag))), st.newTag)
  }

  /** The filter `t => t !== tag`. */
  function IsNotTag(tag: string): string -> bool
  {
    (t: string) => t != tag
  }

  /**
   * Adding is a no-op exactly for an empty or present tag; otherwise the
   * tag goes at the end, the input is cleared, and nothing else changes.
   */
  lemma AddTagSpec(st: FormState)
    ensures st.newTag == "" || st.newTag in st.data.tags ==> AddTag(st) == st
    ensures st.newTag != "" && st.newTag !in st.data.tags ==>
              && AddTag(st).data.tags == st.data.tags + [st.newTag]
              && AddTag(st).newTag == ""
              && AddTag(st).data.(tags := st.data.tags) == st.data
  {
  }

  /**
   * Removing drops every occurrence of the tag, keeps every other tag as
   * often as it was there, keeps their order, and leaves the input alone.
   */
  lemma RemoveTagSpec(st: FormState, tag: string, more: seq<string>)
    ensures tag !in RemoveTag(st, tag).data.tags
    ensures forall t :: t != tag ==>
              multiset(RemoveTag(st, tag).data.tags)[t] == multiset(st.data.tags)[t]
    ensures Filter(st.data.tags + more, IsNotTag(tag))
            == RemoveTag(st, tag).data.tags + Filter(more, IsNotTag(tag))
    ensures RemoveTag(st, tag).data.(tags := st.data.tags) == st.data
    ensures RemoveTag(st, tag).newTag == st.newTag
  {
    forall t | t != tag
      ensures multiset(RemoveTag(st, tag).data.tags)[t] == multiset(st.data.tags)[t]
    {
      FilterMultiset(st.data.tags, IsNotTag(tag), t);
    }
    FilterAppend(st.data.tags, more, IsNotTag(tag));
  }

  /** Removing a tag that was just added gives the old tag list back. */
  lemma AddThenRemove(st: FormState)
    requires st.newTag != "" && st.newTag !in st.data.tags
    ensures RemoveTag(AddTag(st), st.newTag).data == st.data
  {
    var tag := st.newTag;
    FilterAppend(st.data.tags, [tag], IsNotTag(tag));
    FilterAll(st.data.tags, IsNotTag(tag));
  }

  /**
   * The edit page's load: when editing and the list is non-empty, the
   * first record with the route id becomes the form; otherwise, or when
   * none matches, the form is left as it was.
   */
  function LoadForEdit(form: FormData, routeId: Option<string>, refs: seq<Record>): (r: FormData)
    ensures routeId.Some? && routeId.value != "" && HasId(refs, routeId.value) ==>
              r == FromRecord(refs[FindIndex(refs, routeId.value)])
    ensures routeId.None? || routeId.value == "" || !HasId(refs, routeId.value) ==> r == form
  {
    var isEditing := routeId.Some? && routeId.value != "";
    if isEditing && |refs| > 0 then
      match FindById(refs, routeId.value)
      case Some(existing) => FromRecord(existing)
      case None => form
    else form
  }

  /** The clear button: an empty image of url kind. */
  function ClearImage(form: FormData): (r: FormData)
    ensures r.image == Url("") && UrlFieldText(r) == ""
    ensures r.(image := form.image) == form
  {
    form.(image := Url(""))
  }

  /** Typing in the URL field: always an image of url kind. */
  function TypeImageUrl(form: FormData, text: string): (r: FormData)
    ensures r.image.Url? && UrlFieldText(r) == text
    ensures r.(image := form.image) == form
  {
    form.(image := Url(text))
  }

  /** A file read as a data URL: an image of base64 kind. */
  function FileLoaded(form: FormData, dataUrl: string): (r: FormData)
    ensures r.image.Base64? && r.image.value == dataUrl && UrlFieldText(r) == ""
    ensures r.(image := form.image) == form
  {
    form.(image := Base64(dataUrl))
  }

  /** The URL field shows the image value only for an image of url kind. */
  function UrlFieldText(form: FormData): (t: string)
    ensures t == "" || form.image == Url(t)
  {
    if form.image.Url? then form.image.value else ""
  }
}

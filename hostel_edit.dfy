/**
 * The hostel edit page: the validation schema the form is checked
 * against, the effect that loads the hostel named in the route into the
 * form, and the submit handler that writes the form back through the
 * hostel service.
 */
module HostelEdit {
  import opened Common
  import Text
  import Db
  import opened HostelTypes
  import HostelService

  // ---------------------------------------------------------------- schema

  /**
   * A national number as the phone pattern wants it: 2 to 15 decimal
   * digits, the first of them 1-9 (ITU-T Recommendation E.164 allows at
   * most 15 digits).
   */
  predicate PhoneNumberDigits(d: string)
  {
    2 <= |d| <= 15 && '1' <= d[0] <= '9' && forall i :: 0 <= i < |d| ==> Text.IsDigit(d[i])
  }

  /** The text after the optional leading `+`. */
  function AfterPlus(s: string): string
  {
    if |s| > 0 && s[0] == '+' then s[1..] else s
  }

  /** `/^\+?[1-9]\d{1,14}$/`. */
  predicate IsPhone(s: string)
  {
    PhoneNumberDigits(AfterPlus(s))
  }

  /** The pattern accepts exactly a valid digit string, with or without one leading `+`. */
  lemma PhoneShape(s: string)
    ensures IsPhone(s) <==> exists d :: PhoneNumberDigits(d) && (s == d || s == "+" + d)
  {
    if IsPhone(s) {
      var d := AfterPlus(s);
      if |s| > 0 && s[0] == '+' {
        assert s == "+" + d;
      }
      assert PhoneNumberDigits(d) && (s == d || s == "+" + d);
    }
    if d :| PhoneNumberDigits(d) && (s == d || s == "+" + d) {
      if s == "+" + d {
        assert AfterPlus(s) == d;
      } else {
        assert s[0] != '+';
      }
    }
  }

  /** An accepted phone is at most 16 characters: 15 digits and the sign. */
  lemma PhoneLength(s: string)
    requires IsPhone(s)
    ensures 2 <= |s| <= 16
  {
  }

  lemma PhoneExamples()
    ensures IsPhone("+14155552671") && IsPhone("31")
    ensures !IsPhone("0123") && !IsPhone("7") && !IsPhone("+") && !IsPhone("++12")
    ensures !IsPhone("1234567890123456")
  {
    assert AfterPlus("+14155552671") == "14155552671";
    assert AfterPlus("++12") == "+12";
    assert "1234567890123456"[0] == '1';
  }

  /**
   * The reference reading of the schema: every constraint at once. The
   * minimum lengths count UTF-16 code units, as `length` does.
   */
  predicate Accepts(d: HostelFormData)
  {
    && Text.Utf16Length(d.name) >= 3
    && Text.Utf16Length(d.city) >= 2
    && 1 <= d.totalFloors <= 50
    && 1 <= d.roomsPerFloor <= 100
    && Text.Utf16Length(d.managerName) >= 2
    && IsPhone(d.managerPhone)
  }

  /** One failed check: the field and the schema's own message, `None` where the schema gives none. */
  datatype FieldError = FieldError(field: string, message: Option<string>)

  function Check(ok: bool, field: string, message: Option<string>): (r: seq<FieldError>)
    ensures |r| == if ok then 0 else 1
  {
    if ok then [] else [FieldError(field, message)]
  }

  /** The issues the schema reports, in field order; `notes` is optional and never fails. */
  function SchemaErrors(d: HostelFormData): (errs: seq<FieldError>)
    ensures errs == [] <==> Accepts(d)
  {
    Check(Text.Utf16Length(d.name) >= 3, "name", Some("Name must be at least 3 characters"))
    + Check(Text.Utf16Length(d.city) >= 2, "city", Some("City is required"))
    + Check(d.totalFloors >= 1, "totalFloors", Some("Must have at least 1 floor"))
    + Check(d.totalFloors <= 50, "totalFloors", None)
    + Check(d.roomsPerFloor >= 1, "roomsPerFloor", Some("Must have at least 1 room"))
    + Check(d.roomsPerFloor <= 100, "roomsPerFloor", None)
    + Check(Text.Utf16Length(d.managerName) >= 2, "managerName", Some("Manager name is required"))
    + Check(IsPhone(d.managerPhone), "managerPhone", Some("Invalid phone number"))
  }

  /** A name of an emoji and one letter is three code units long, so it passes the minimum of 3. */
  lemma EmojiNameAccepted()
    ensures Accepts(HostelFormData("\U{1F600}a", "Pune", 3, 10, "Asha", "+14155552671", None))
  {
    Text.Utf16LengthOfEmoji();
    assert AfterPlus("+14155552671") == "14155552671";
  }

  /** The notes never decide acceptance. */
  lemma NotesAreOptional(d: HostelFormData, notes: Option<string>)
    ensures Accepts(d.(notes := notes)) == Accepts(d)
  {
  }

  /** An accepted hostel has between 1 and 5000 rooms. */
  lemma AcceptedCapacity(d: HostelFormData)
    requires Accepts(d)
    ensures 1 <= HostelService.Capacity(WithId(0, d)) <= 5000
  {
    HostelService.CapacityBounds(d.totalFloors, d.roomsPerFloor);
  }

  // ---------------------------------------------------------------- load and submit

  /** The values `reset` puts in the form: the hostel's fields, with `notes || ''`. */
  function ResetValues(h: Hostel): (d: HostelFormData)
    ensures d.notes.Some?
    ensures d.(notes := h.notes) == FormOf(h)
  {
    FormOf(h).(notes := Some(h.notes.GetOr("")))
  }

  /** The patch `updateHostel` receives: every field of the submitted form. */
  function FullPatch(d: HostelFormData): HostelPatch
  {
    HostelPatch(Some(d.name), Some(d.city), Some(d.totalFloors), Some(d.roomsPerFloor),
                Some(d.managerName), Some(d.managerPhone), d.notes)
  }

  /** Submitting a full form replaces every field of the hostel and keeps its id. */
  lemma FullPatchReplacesForm(h: Hostel, d: HostelFormData)
    ensures FormOf(ApplyPatch(h, FullPatch(d))).(notes := if d.notes.Some? then d.notes else h.notes)
         == d.(notes := if d.notes.Some? then d.notes else h.notes)
    ensures ApplyPatch(h, FullPatch(d)).id == h.id
  {
  }

  /**
   * Submitting the loaded form untouched gives back the hostel, except
   * that absent notes come back as empty notes.
   */
  lemma UntouchedSubmit(h: Hostel)
    ensures ApplyPatch(h, FullPatch(ResetValues(h))) == h.(notes := Some(h.notes.GetOr("")))
    ensures h.notes.Some? ==> ApplyPatch(h, FullPatch(ResetValues(h))) == h
  {
  }

  /** Loading a hostel that passes the schema gives a form that passes it too. */
  lemma LoadedFormAccepted(h: Hostel)
    requires Accepts(FormOf(h))
    ensures Accepts(ResetValues(h))
    ensures SchemaErrors(ResetValues(h)) == []
  {
    NotesAreOptional(FormOf(h), Some(h.notes.GetOr("")));
  }

  const NotFoundMessage: string := "Hostel not found"
  const UpdatedMessage: string := "Hostel updated successfully!"
  const UpdateFailedMessage: string := "Failed to update hostel. Please try again."

  /**
   * The mounted edit page. The route parameter is `None` when it is
   * absent or empty, and otherwise the number it denotes.
   */
  class HostelEditPage {
    const service: HostelService.HostelService
    const id: Option<int>
    var loading: bool
    var toast: ToastState
    /** The values last passed to `reset`, if any. */
    var form: Option<HostelFormData>
    /** The schema issues shown under the fields after the last submit attempt. */
    var errors: seq<FieldError>

    ghost predicate Valid()
      reads this, service, service.store
    {
      service.Valid()
    }

    constructor (service: HostelService.HostelService, id: Option<int>)
      requires service.Valid()
      ensures Valid()
      ensures this.service == service && this.id == id
      ensures loading && toast == ClosedToast && form == None && errors == []
    {
      this.service := service;
      this.id := id;
      loading := true;
      toast := ClosedToast;
      form := None;
      errors := [];
    }

    /**
     * The load effect. Without an id nothing happens. A found hostel is
     * put in the form and loading ends; a missing one shows the error toast
     * and the page stays loading.
     */
    method Load()
      requires Valid()
      modifies this`loading, this`toast, this`form, service.store
      ensures Valid()
      ensures id.None? ==> unchanged(service.store) && loading == old(loading) && toast == old(toast) && form == old(form)
      ensures id.Some? ==> service.Initialized(old(service.store.db), old(service.store.storage))
      ensures id.Some? && IdKey(NumId(id.value)) in service.Hostels() ==>
        && form == Some(ResetValues(FromRecord(service.Hostels()[IdKey(NumId(id.value))])))
        && !loading && toast == old(toast)
      ensures id.Some? && IdKey(NumId(id.value)) !in service.Hostels() ==>
        && toast == ToastState(true, Error, NotFoundMessage)
        && loading == old(loading) && form == old(form)
    {
      if id.None? {
        return;
      }
      var hostel := service.GetHostelById(NumId(id.value));
      if hostel.Some? {
        form := Some(ResetValues(hostel.value));
        loading := false;
      } else {
        toast := ToastState(true, Error, NotFoundMessage);
      }
    }

    /**
     * `handleSubmit(onSubmit)`: a form the schema rejects only shows its
     * issues. An accepted form is written back with `updateHostel`; the
     * toast says whether the hostel was still there to update.
     */
    method Submit(data: HostelFormData)
      requires Valid()
      modifies this`toast, this`errors, service.store
      ensures Valid()
      ensures errors == SchemaErrors(data)
      ensures !Accepts(data) || id.None? ==> unchanged(service.store) && toast == old(toast)
      ensures Accepts(data) && id.Some? ==>
        var c, k := service.AfterInit(old(service.store.db), old(service.store.storage)), IdKey(NumId(id.value));
        && (k in c ==> toast == ToastState(true, Success, UpdatedMessage))
        && (k !in c ==> toast == ToastState(true, Error, UpdateFailedMessage))
        && service.store.db == old(service.store.db)[HostelService.EntityKey :=
             if k in c then c[k := Db.ShallowMerge(c[k], PatchRecord(FullPatch(data)))] else c]
        && service.store.storage ==
             var st := service.StorageAfterInit(old(service.store.db), old(service.store.storage));
             if k in c then Db.Persist(st, service.store.writable, HostelService.EntityKey, service.store.db[HostelService.EntityKey]) else st
    {
      errors := SchemaErrors(data);
      if errors != [] || id.None? {
        return;
      }
      var updated := service.UpdateHostel(NumId(id.value), FullPatch(data));
      if updated.Some? {
        toast := ToastState(true, Success, UpdatedMessage);
      } else {
        toast := ToastState(true, Error, UpdateFailedMessage);
      }
    }
  }
}

/**
 * The booking form: the bookable classes (those with free places), the
 * preselection of the class the user came from, the class picker, the slot
 * count, and the message shown when the booking is refused.
 */
module BookingForm {
  import opened Js
  import opened Forms
  import opened ServerError

  /** A class as the class list returns it; `id` is the id's decimal text. */
  datatype BookableClass = BookableClass(id: string, class_type: string, date_time: int, available_slots: int)

  datatype BookingData = BookingData(class_id: string, slots: Option<int>)

  datatype ErrorKey = ClassId | Slots | NonField

  const ClassRequired := "Please select a class"
  const SlotsInvalid := "Please enter a valid number of slots"
  const BookingFailed := "Failed to create booking"
  const NonFieldErrorsKey := "non_field_errors"

  /** The form as first shown: the class passed along by the previous page, if truthy, and one place. */
  function InitialForm(classId: Option<string>): (d: BookingData)
    ensures d.slots == Some(1)
    ensures Truthy(classId) ==> d.class_id == classId.value
    ensures !Truthy(classId) ==> d.class_id == ""
  {
    BookingData(if Truthy(classId) then classId.value else "", Some(1))
  }

  predicate HasPlaces(c: BookableClass) {
    c.available_slots > 0
  }

  /** The classes offered: exactly the fetched ones with a free place, in the order they came. */
  function AvailableClasses(fetched: seq<BookableClass>): (r: seq<BookableClass>)
    ensures |r| <= |fetched|
    ensures forall i :: 0 <= i < |r| ==> r[i] in fetched && HasPlaces(r[i])
    ensures forall i :: 0 <= i < |fetched| && HasPlaces(fetched[i]) ==> fetched[i] in r
  {
    Filter(fetched, HasPlaces)
  }

  /** Filtering keeps the order: two runs of classes are offered one after the other. */
  lemma AvailableKeepsOrder(a: seq<BookableClass>, b: seq<BookableClass>)
    ensures AvailableClasses(a + b) == AvailableClasses(a) + AvailableClasses(b)
  {
    FilterAppend(a, b, HasPlaces);
  }

  /** Offering is idempotent: the offered classes are offered again unchanged. */
  lemma AvailableIdempotent(fetched: seq<BookableClass>)
    ensures AvailableClasses(AvailableClasses(fetched)) == AvailableClasses(fetched)
  {
    FilterAllPass(AvailableClasses(fetched), HasPlaces);
  }

  /** `classes.find(c => c.id.toString() === id)`: the first class with that id. */
  function Find(classes: seq<BookableClass>, id: string): (r: Option<BookableClass>)
    ensures r.None? <==> forall i :: 0 <= i < |classes| ==> classes[i].id != id
    ensures r.Some? ==> exists i :: (0 <= i < |classes| && classes[i] == r.value
      && r.value.id == id && forall j :: 0 <= j < i ==> classes[j].id != id)
  {
    if classes == [] then None
    else if classes[0].id == id then Some(classes[0])
    else Find(classes[1..], id)
  }

  /** What the page holds once the class list has arrived. */
  datatype Fetched = Fetched(classes: seq<BookableClass>, selected: Option<BookableClass>, form: BookingData, unavailable: bool)

  /**
   * fetchClasses: the offered classes are kept; when the page was opened for
   * a class, that class is selected if it is among them and the user is told
   * it is unavailable otherwise.
   */
  function AfterFetch(d: BookingData, fetched: seq<BookableClass>, classId: Option<string>): (r: Fetched)
    ensures r.classes == AvailableClasses(fetched)
    ensures !Truthy(classId) ==> r.selected.None? && r.form == d && !r.unavailable
    ensures Truthy(classId) ==> r.selected == Find(r.classes, classId.value)
    ensures r.unavailable <==> Truthy(classId) && r.selected.None?
    ensures r.selected.Some? ==> r.form == d.(class_id := classId.value) && HasPlaces(r.selected.value)
    ensures r.selected.None? ==> r.form == d
  {
    var classes := AvailableClasses(fetched);
    if Truthy(classId) then
      match Find(classes, classId.value)
      case Some(c) => Fetched(classes, Some(c), d.(class_id := c.id), false)
      case None => Fetched(classes, None, d, true)
    else
      Fetched(classes, None, d, false)
  }

  /** A class the page was opened for is preselected exactly when it is in the list and has a free place. */
  lemma PreselectedIffBookable(d: BookingData, fetched: seq<BookableClass>, id: string)
    requires id != ""
    ensures AfterFetch(d, fetched, Some(id)).selected.Some? <==>
      exists i :: 0 <= i < |fetched| && fetched[i].id == id && HasPlaces(fetched[i])
  {
    var classes := AvailableClasses(fetched);
    if exists i :: 0 <= i < |fetched| && fetched[i].id == id && HasPlaces(fetched[i]) {
      var i :| 0 <= i < |fetched| && fetched[i].id == id && HasPlaces(fetched[i]);
      var k :| 0 <= k < |classes| && classes[k] == fetched[i];
      assert classes[k].id == id;
    }
  }

  /** The picker's change: the chosen id is set, only its error is cleared, and the matching class is shown. */
  function OnSelect(d: BookingData, errors: Errors<ErrorKey>, classes: seq<BookableClass>, value: string)
      : (r: (BookingData, Errors<ErrorKey>, Option<BookableClass>))
    ensures r.0 == d.(class_id := value)
    ensures r.1 == ClearError(errors, ClassId)
    ensures r.2 == Find(classes, value)
  {
    (d.(class_id := value), ClearError(errors, ClassId), Find(classes, value))
  }

  /** The slot input's change: only the count changes, and no error is cleared. */
  function OnSlotsChange(d: BookingData, slots: Option<int>): (r: BookingData)
    ensures r.class_id == d.class_id && r.slots == slots
  {
    d.(slots := slots)
  }

  /** validateForm: a class must be chosen and at least one place asked for; nothing else is keyed. */
  method ValidateForm(d: BookingData) returns (errors: Errors<ErrorKey>)
    ensures MessageFor(errors, ClassId) == Required(d.class_id, ClassRequired)
    ensures MessageFor(errors, Slots) == AtLeastOne(d.slots, SlotsInvalid)
    ensures NonField !in errors
  {
    errors := map[];
    errors := Record(errors, ClassId, Required(d.class_id, ClassRequired));
    errors := Record(errors, Slots, AtLeastOne(d.slots, SlotsInvalid));
    assert MessageFor(errors, NonField).None?;
  }

  /** The booking posted to `/bookings/`. */
  datatype BookingRequest = BookingRequest(class_id: string, slots: int)

  /** handleSubmit up to the request: the booking goes out exactly when a class is chosen and the count is at least 1. */
  method HandleSubmit(d: BookingData) returns (s: Submission<ErrorKey, BookingRequest>)
    ensures s.Sent? <==> d.class_id != "" && d.slots.Some? && d.slots.value >= 1
    ensures s.Sent? ==> s.payload == BookingRequest(d.class_id, d.slots.value)
    ensures s.Blocked? ==> s.errors != map[] && NonField !in s.errors
    ensures s.Blocked? ==> MessageFor(s.errors, ClassId) == Required(d.class_id, ClassRequired)
    ensures s.Blocked? ==> MessageFor(s.errors, Slots) == AtLeastOne(d.slots, SlotsInvalid)
  {
    var errors := ValidateForm(d);
    EmptyIffNoMessages(errors);
    if |errors| > 0 {
      var k :| MessageFor(errors, k).Some?;
      assert k == ClassId || k == Slots;
      s := Blocked(errors);
    } else {
      assert MessageFor(errors, ClassId).None? && MessageFor(errors, Slots).None?;
      s := Sent(BookingRequest(d.class_id, d.slots.value));
    }
  }

  /**
   * The message value after a refused booking: the server's truthy `error` as
   * it came, else the `non_field_errors` array joined with ", " when that is
   * not empty, else the fallback. None when `non_field_errors` is a single
   * string: calling `join` on it throws and the handler ends without a message.
   */
  function BookingErrorMessage(data: Option<Body>): (m: Option<Value>)
    ensures ErrorField(data).Some? ==> m == ErrorField(data)
    ensures ErrorField(data).None? && (data.None? || Field(data.value, NonFieldErrorsKey).None?) ==> m == Some(Message(BookingFailed))
    ensures ErrorField(data).None? && data.Some? && Field(data.value, NonFieldErrorsKey).Some? ==>
      match Field(data.value, NonFieldErrorsKey).value
      case Message(_) => m.None?
      case Messages(ts) => m == Some(Message(if Join(ts, ", ") != "" then Join(ts, ", ") else BookingFailed))
  {
    match ErrorField(data)
    case Some(e) => Some(e)
    case None =>
      match data
      case None => Some(Message(BookingFailed))
      case Some(body) =>
        match Field(body, NonFieldErrorsKey)
        case None => Some(Message(BookingFailed))
        case Some(Message(_)) => None
        case Some(Messages(ts)) =>
          var joined := Join(ts, ", ");
          Some(Message(if joined != "" then joined else BookingFailed))
  }

  /** Without an `error` field, every non-field message the server sent is in the shown message. */
  lemma EveryNonFieldErrorShown(body: Body, ts: seq<string>, i: nat) returns (k: nat)
    requires ErrorField(Some(body)).None? && Field(body, NonFieldErrorsKey) == Some(Messages(ts))
    requires i < |ts| && ts[i] != ""
    ensures BookingErrorMessage(Some(body)).Some? && BookingErrorMessage(Some(body)).value.Message?
    ensures var m := BookingErrorMessage(Some(body)).value.text; k + |ts[i]| <= |m| && m[k..k + |ts[i]|] == ts[i]
  {
    JoinEmptyIff(ts, ", ");
    k := JoinContains(ts, ", ", i);
  }

  /** The banner entry a refused booking adds, as the page draws it, when a message came out; the field errors stay. */
  function AfterBookingFailure(errors: Errors<ErrorKey>, data: Option<Body>): (r: Errors<ErrorKey>)
    ensures BookingErrorMessage(data).Some? ==> r == errors[NonField := Shown(BookingErrorMessage(data).value)]
    ensures BookingErrorMessage(data).None? ==> r == errors
  {
    match BookingErrorMessage(data)
    case Some(m) => errors[NonField := Shown(m)]
    case None => errors
  }
}

/**
 * The create/edit form for a fitness class. Dates are instants in
 * milliseconds and "now" is a parameter; numeric inputs are None while empty.
 */
module ClassForm {
  import opened Js
  import opened Forms
  import opened ServerError

  datatype Field = Name | DateTime | Duration | Instructor | TotalSlots | Difficulty | Location

  /** The error map's keys: one per input, plus the banner for a failed save. */
  datatype ErrorKey = On(field: Field) | NonField

  datatype FormData = FormData(
    name: string,
    date_time: Option<int>,
    duration: Option<int>,
    instructor: string,
    total_slots: Option<int>,
    difficulty: string,
    Location: string)

  const NameRequired := "Class type is required"
  const DateRequired := "Date and time are required"
  const DateInPast := "Date and time must be in the future"
  const InstructorRequired := "Instructor is required"
  const SlotsTooFew := "Total slots must be at least 1"
  const DurationTooShort := "Duration must be at least 1 minute"
  const DifficultyRequired := "Difficulty level is required"
  const LocationRequired := "Location is required"
  const SaveFailed := "Failed to save class"

  /** An input's current value: text, or a number that may still be empty. */
  datatype InputValue = Str(s: string) | Num(n: Option<int>)

  function Get(d: FormData, f: Field): InputValue {
    match f
    case Name => Str(d.name)
    case DateTime => Num(d.date_time)
    case Duration => Num(d.duration)
    case Instructor => Str(d.instructor)
    case TotalSlots => Num(d.total_slots)
    case Difficulty => Str(d.difficulty)
    case Location => Str(d.Location)
  }

  /** A change event: the input's name and its new value, typed by the input. */
  datatype Change =
    | SetName(name: string)
    | SetDateTime(date_time: Option<int>)
    | SetDuration(duration: Option<int>)
    | SetInstructor(instructor: string)
    | SetTotalSlots(total_slots: Option<int>)
    | SetDifficulty(difficulty: string)
    | SetLocation(location: string)
  {
    function Target(): Field {
      match this
      case SetName(_) => Name
      case SetDateTime(_) => DateTime
      case SetDuration(_) => Duration
      case SetInstructor(_) => Instructor
      case SetTotalSlots(_) => TotalSlots
      case SetDifficulty(_) => Difficulty
      case SetLocation(_) => Location
    }

    function NewValue(): InputValue {
      match this
      case SetName(v) => Str(v)
      case SetDateTime(v) => Num(v)
      case SetDuration(v) => Num(v)
      case SetInstructor(v) => Str(v)
      case SetTotalSlots(v) => Num(v)
      case SetDifficulty(v) => Str(v)
      case SetLocation(v) => Str(v)
    }
  }

  /** handleChange: the named input takes the value and only its error is cleared. */
  function HandleChange(d: FormData, errors: Errors<ErrorKey>, c: Change): (r: (FormData, Errors<ErrorKey>))
    ensures Get(r.0, c.Target()) == c.NewValue()
    ensures forall g :: g != c.Target() ==> Get(r.0, g) == Get(d, g)
    ensures r.1 == ClearError(errors, On(c.Target()))
  {
    var d' := match c
      case SetName(v) => d.(name := v)
      case SetDateTime(v) => d.(date_time := v)
      case SetDuration(v) => d.(duration := v)
      case SetInstructor(v) => d.(instructor := v)
      case SetTotalSlots(v) => d.(total_slots := v)
      case SetDifficulty(v) => d.(difficulty := v)
      case SetLocation(v) => d.(Location := v);
    (d', ClearError(errors, On(c.Target())))
  }

  /** The date must be present, and then not before now; an instant equal to now passes. */
  function DateError(date_time: Option<int>, now: int): (r: Option<string>)
    ensures date_time.None? ==> r == Some(DateRequired)
    ensures date_time.Some? && date_time.value < now ==> r == Some(DateInPast)
    ensures r == None <==> date_time.Some? && date_time.value >= now
  {
    match date_time
    case None => Some(DateRequired)
    case Some(t) => if t < now then Some(DateInPast) else None
  }

  function FieldError(d: FormData, now: int, f: Field): Option<string> {
    match f
    case Name => Required(d.name, NameRequired)
    case DateTime => DateError(d.date_time, now)
    case Instructor => Required(d.instructor, InstructorRequired)
    case TotalSlots => AtLeastOne(d.total_slots, SlotsTooFew)
    case Duration => AtLeastOne(d.duration, DurationTooShort)
    case Difficulty => Required(d.difficulty, DifficultyRequired)
    case Location => Required(d.Location, LocationRequired)
  }

  /** validateForm: each input carries exactly its check's message, and the banner is never set. */
  method ValidateForm(d: FormData, now: int) returns (errors: Errors<ErrorKey>)
    ensures forall f :: MessageFor(errors, On(f)) == FieldError(d, now, f)
    ensures NonField !in errors
  {
    errors := map[];
    errors := Record(errors, On(Name), Required(d.name, NameRequired));
    errors := Record(errors, On(DateTime), DateError(d.date_time, now));
    errors := Record(errors, On(Instructor), Required(d.instructor, InstructorRequired));
    errors := Record(errors, On(TotalSlots), AtLeastOne(d.total_slots, SlotsTooFew));
    errors := Record(errors, On(Duration), AtLeastOne(d.duration, DurationTooShort));
    errors := Record(errors, On(Difficulty), Required(d.difficulty, DifficultyRequired));
    errors := Record(errors, On(Location), Required(d.Location, LocationRequired));
    assert MessageFor(errors, NonField).None?;
    forall f
      ensures MessageFor(errors, On(f)) == FieldError(d, now, f)
    {
      match f
      case Name => case DateTime => case Duration => case Instructor =>
      case TotalSlots => case Difficulty => case Location =>
    }
  }

  /** Every input is filled in, the date is not in the past and both numbers are at least 1. */
  predicate Acceptable(d: FormData, now: int) {
    && d.name != "" && d.instructor != "" && d.difficulty != "" && d.Location != ""
    && d.date_time.Some? && d.date_time.value >= now
    && d.total_slots.Some? && d.total_slots.value >= 1
    && d.duration.Some? && d.duration.value >= 1
  }

  lemma AcceptableIffNoFieldError(d: FormData, now: int)
    ensures Acceptable(d, now) <==> forall f :: FieldError(d, now, f).None?
  {
    if !Acceptable(d, now) {
      if d.name == "" { assert FieldError(d, now, Name).Some?; }
      else if d.instructor == "" { assert FieldError(d, now, Instructor).Some?; }
      else if d.difficulty == "" { assert FieldError(d, now, Difficulty).Some?; }
      else if d.Location == "" { assert FieldError(d, now, Location).Some?; }
      else if d.date_time.None? || d.date_time.value < now { assert FieldError(d, now, DateTime).Some?; }
      else if d.total_slots.None? || d.total_slots.value < 1 { assert FieldError(d, now, TotalSlots).Some?; }
      else { assert FieldError(d, now, Duration).Some?; }
    }
  }

  /** The class being edited, when the form was opened from one. */
  datatype EditingClass = EditingClass(id: Option<string>)

  /** The save request: its verb, its path and the form it carries. */
  datatype SaveRequest = SaveRequest(verb: string, url: string, payload: FormData)

  /**
   * The PUT/POST choice: editing (a class was passed in, or the route carries
   * an id) updates `/classes/<id>/`, taking the passed class's id when it is
   * truthy and the route's otherwise; anything else creates on `/classes/`.
   */
  function SaveTarget(editing: Option<EditingClass>, routeId: Option<string>, d: FormData): (r: SaveRequest)
    ensures r.payload == d
    ensures r.verb == "PUT" <==> editing.Some? || Truthy(routeId)
    ensures r.verb != "PUT" ==> r.verb == "POST" && r.url == "/classes/"
    ensures r.verb == "PUT" && editing.Some? && Truthy(editing.value.id) ==> r.url == "/classes/" + editing.value.id.value + "/"
    ensures r.verb == "PUT" && !(editing.Some? && Truthy(editing.value.id)) ==> r.url == "/classes/" + Text(routeId) + "/"
  {
    if editing.Some? || Truthy(routeId) then
      var id := if editing.Some? && Truthy(editing.value.id) then editing.value.id else routeId;
      SaveRequest("PUT", "/classes/" + Text(id) + "/", d)
    else
      SaveRequest("POST", "/classes/", d)
  }

  /**
   * The banner value after a failed save: the server's truthy `error` as it
   * came (a string or an array), else every value of the body flattened and
   * joined with ", " when that is not empty, else the fallback.
   */
  function SaveErrorMessage(data: Option<Body>): (m: Value)
    ensures ErrorField(data).Some? ==> m == ErrorField(data).value
    ensures ErrorField(data).None? && Join(FlatValues(data.GetOr([])), ", ") != "" ==> m == Message(Join(FlatValues(data.GetOr([])), ", "))
    ensures ErrorField(data).None? && Join(FlatValues(data.GetOr([])), ", ") == "" ==> m == Message(SaveFailed)
  {
    match ErrorField(data)
    case Some(e) => e
    case None =>
      var joined := Join(FlatValues(data.GetOr([])), ", ");
      Message(if joined != "" then joined else SaveFailed)
  }

  /** The fallback shows exactly when there is no error field and no message, or only one empty one. */
  lemma FallbackIffNothingToShow(data: Option<Body>)
    requires ErrorField(data).None?
    ensures SaveErrorMessage(data) == Message(SaveFailed) <==>
      var flat := FlatValues(data.GetOr([])); flat == [] || flat == [""] || Join(flat, ", ") == SaveFailed
  {
    JoinEmptyIff(FlatValues(data.GetOr([])), ", ");
  }

  /** Without an `error` field, every message the server sent for any field is in the banner. */
  lemma EveryFieldMessageShown(body: Body, i: nat, message: string) returns (k: nat)
    requires ErrorField(Some(body)).None?
    requires i < |body| && message in Flat(body[i].value) && message != ""
    ensures SaveErrorMessage(Some(body)).Message?
    ensures var banner := SaveErrorMessage(Some(body)).text;
      k + |message| <= |banner| && banner[k..k + |message|] == message
  {
    FlatValuesContains(body, i, message);
    var flat := FlatValues(body);
    var n :| 0 <= n < |flat| && flat[n] == message;
    k := JoinContains(flat, ", ", n);
  }

  /** The banner entry a failed save adds, as the page draws it; the per-input errors stay. */
  function AfterSaveFailure(errors: Errors<ErrorKey>, data: Option<Body>): (r: Errors<ErrorKey>)
    ensures MessageFor(r, NonField) == Some(Shown(SaveErrorMessage(data)))
    ensures forall f :: MessageFor(r, On(f)) == MessageFor(errors, On(f))
  {
    errors[NonField := Shown(SaveErrorMessage(data))]
  }

  /**
   * handleSubmit up to the request: with any error the form stays open with
   * those errors, otherwise the request chosen by SaveTarget goes out.
   */
  method HandleSubmit(d: FormData, now: int, editing: Option<EditingClass>, routeId: Option<string>)
      returns (s: Submission<ErrorKey, SaveRequest>)
    ensures s.Sent? <==> Acceptable(d, now)
    ensures s.Sent? ==> s.payload == SaveTarget(editing, routeId, d)
    ensures s.Blocked? ==> s.errors != map[] && NonField !in s.errors
    ensures s.Blocked? ==> forall f :: MessageFor(s.errors, On(f)) == FieldError(d, now, f)
  {
    var errors := ValidateForm(d, now);
    AcceptableIffNoFieldError(d, now);
    EmptyIffNoMessages(errors);
    if |errors| > 0 {
      var k :| MessageFor(errors, k).Some?;
      assert FieldError(d, now, k.field).Some?;
      s := Blocked(errors);
    } else {
      s := Sent(SaveTarget(editing, routeId, d));
    }
  }
}

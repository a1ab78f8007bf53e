/**
 * The administration page for shared build numbers. It covers who may use the page, how a
 * request's action is routed, how the add/edit form is read and checked, and what each
 * action does to the configuration service.
 */
module Controller {
  import opened Wrappers
  import opened JavaString
  import opened Entity
  import opened TreeSet
  import opened Listing
  import opened Service
  import Provider

  /** Where every successful add, edit and delete sends the browser. */
  const AdminUrl: string := "/admin/admin.html?item=sharedBuildNumbers"

  // ---------------------------------------------------------------------------
  // Users, requests and responses

  /** The signed-in user, reduced to the two permissions the page checks. */
  datatype User = User(isSystemAdmin: bool, canManageAllProjects: bool)

  /** `hasAccess`: system administrators, and users who may manage every project. */
  predicate HasAccess(user: User)
  {
    user.isSystemAdmin || user.canManageAllProjects
  }

  /** An HTTP request: whether it is a POST, and its parameters. */
  datatype Request = Request(isPost: bool, parameters: map<string, string>)

  /** `request.getParameter(name)`: null when the parameter was not sent. */
  function Parameter(request: Request, name: string): NString
  {
    if name in request.parameters then Str(request.parameters[name]) else Null
  }

  /** `value.equalsIgnoreCase(request.getParameter(name))`: false when the parameter is absent. */
  predicate ParameterIs(request: Request, name: string, value: string)
  {
    var p := Parameter(request, name);
    p.Str? && EqualsIgnoreCase(value, p.s)
  }

  /** The two form pages; an edit whose form has errors is shown on the add page. */
  datatype View = AddView | EditView

  /** What the controller answers. */
  datatype Response =
    | AccessDenied
    | NotFound
    | ListPage(sortedBy: string, parameterPrefix: string, numResults: int,
               buildNumbers: seq<SharedBuildNumber>, sortClass: string, sortChange: string)
    | FormPage(view: View, form: SharedBuildNumber, errors: Option<map<string, string>>,
               prefix: Option<string>)
    | Redirect(url: string)
      // The service refused to lower a counter, and its exception leaves the controller.
    | CounterDecreased

  // ---------------------------------------------------------------------------
  // Routing

  /** The requested action. It is `list` when absent or blank, and trimmed otherwise. */
  function Action(request: Request): (action: string)
    ensures action != [] && Trim(action) == action
    ensures Parameter(request, "action").Null? || Trim(Parameter(request, "action").s) == [] ==> action == "list"
    ensures Parameter(request, "action").Str? && Trim(Parameter(request, "action").s) != [] ==>
      action == Trim(Parameter(request, "action").s)
  {
    var p := Parameter(request, "action");
    if p.Null? || Trim(p.s) == [] then
      TrimKeeps("list");
      "list"
    else
      TrimIdempotent(p.s);
      Trim(p.s)
  }

  /** The handler `doHandle` picks for an action. */
  datatype Handler = ListHandler | AddForm | SubmitAdd | EditForm | SubmitEdit | SubmitDelete | Unsupported

  /** The handlers that change the stored build numbers. */
  predicate Changes(h: Handler)
  {
    h.SubmitAdd? || h.SubmitEdit? || h.SubmitDelete?
  }

  /** `doHandle`'s dispatch on the action and the request method. */
  function Route(action: string, isPost: bool): (h: Handler)
    ensures Changes(h) <==> isPost && (action == "add" || action == "edit" || action == "delete")
    ensures h == Unsupported <==>
      action != "list" && action != "add" && action != "edit" && !(action == "delete" && isPost)
  {
    if action == "list" then ListHandler
    else if action == "add" then (if isPost then SubmitAdd else AddForm)
    else if action == "edit" then (if isPost then SubmitEdit else EditForm)
    else if action == "delete" && isPost then SubmitDelete
    else Unsupported
  }

  // ---------------------------------------------------------------------------
  // Numbers in requests

  /**
   * The test `getId` and the counter share: `isDigits`, and neither a dot nor a minus sign
   * (`contains` of a one-character string is membership of that character).
   */
  predicate IsNumber(text: NString)
  {
    text.Str? && IsDigits(text.s) && '.' !in text.s && '-' !in text.s
  }

  /** The dot and minus checks add nothing to `isDigits`. */
  lemma NumberIsDigits(text: NString)
    ensures IsNumber(text) <==> text.Str? && IsDigits(text.s)
  {
    if text.Str? && IsDigits(text.s) {
      var s := text.s;
      assert forall i | 0 <= i < |s| :: s[i] != '.' && s[i] != '-' by {
        forall i | 0 <= i < |s| ensures s[i] != '.' && s[i] != '-' {
          assert IsDigit(s[i]);
        }
      }
    }
  }

  /** `Integer.parseInt` behind the number test: the value, or none when the text is no number. */
  function ParseNumber(text: NString): (n: Option<int>)
    ensures n.Some? ==> n.value >= 0
  {
    if IsNumber(text) then Some(DigitsValue(text.s)) else None
  }

  /** Exactly the digit strings parse, and they parse to their decimal value. */
  lemma ParseNumberDigits(text: NString)
    ensures ParseNumber(text).Some? <==> text.Str? && IsDigits(text.s)
    ensures ParseNumber(text).Some? ==> ParseNumber(text).value == DigitsValue(text.s)
  {
    NumberIsDigits(text);
  }

  /** `getId`: the `id` parameter as a number, or none when it is absent or not a number. */
  function GetId(request: Request): (id: Option<int>)
    ensures id.Some? <==> Parameter(request, "id").Str? && IsDigits(Parameter(request, "id").s)
    ensures id.Some? ==> id.value >= 0
  {
    ParseNumberDigits(Parameter(request, "id"));
    ParseNumber(Parameter(request, "id"))
  }

  /** An id written out in decimal reads back as that id. */
  lemma GetIdRoundTrip(request: Request, id: nat)
    requires Parameter(request, "id") == Str(NatToString(id))
    ensures GetId(request) == Some(id)
  {
    NatToStringRoundTrip(id);
  }

  // ---------------------------------------------------------------------------
  // The add/edit form

  const CounterMessage: string := "The counter must be a positive integer."
  const NameMessage: string := "The name must be between 5 and 60 characters long."
  const FormatMessage: string := "The build number format must be at least 3 characters long."
  const DateFormatMessage: string := "The date format must be at least 3 characters long."

  /** The form fields that are checked. */
  const CheckedFields: set<string> := {"counter", "name", "format", "dateFormat"}

  /** The name check: present, and 5 to 60 UTF-16 code units long once trimmed. */
  predicate NameLengthOk(name: NString)
  {
    name.Str? && 5 <= Length(Trim(name.s)) <= 60
  }

  /** The format and date format check: present, and at least 3 UTF-16 code units long once trimmed. */
  predicate LongEnough(text: NString)
  {
    text.Str? && Length(Trim(text.s)) >= 3
  }

  /** `errors.put(field, message)` when a check fails. */
  function CheckField(errors: map<string, string>, valid: bool, field: string, message: string): map<string, string>
  {
    if valid then errors else errors[field := message]
  }

  /** The errors recorded when the four checks come out as given, in the order they are made. */
  function ErrorsFor(counterOk: bool, nameOk: bool, formatOk: bool, dateFormatOk: bool): map<string, string>
  {
    var e0 := CheckField(map[], counterOk, "counter", CounterMessage);
    var e1 := CheckField(e0, nameOk, "name", NameMessage);
    var e2 := CheckField(e1, formatOk, "format", FormatMessage);
    CheckField(e2, dateFormatOk, "dateFormat", DateFormatMessage)
  }

  /** One entry per failed check, holding that check's message. */
  lemma ErrorsForExactly(counterOk: bool, nameOk: bool, formatOk: bool, dateFormatOk: bool)
    ensures ErrorsFor(counterOk, nameOk, formatOk, dateFormatOk).Keys ==
      (if counterOk then {} else {"counter"}) + (if nameOk then {} else {"name"})
      + (if formatOk then {} else {"format"}) + (if dateFormatOk then {} else {"dateFormat"})
    ensures ErrorsFor(counterOk, nameOk, formatOk, dateFormatOk).Keys <= CheckedFields
    ensures var e := ErrorsFor(counterOk, nameOk, formatOk, dateFormatOk);
      && ("counter" in e ==> e["counter"] == CounterMessage)
      && ("name" in e ==> e["name"] == NameMessage)
      && ("format" in e ==> e["format"] == FormatMessage)
      && ("dateFormat" in e ==> e["dateFormat"] == DateFormatMessage)
  {
  }

  /** The errors for a request: the counter, name, format and date format checked in turn. */
  function FormErrors(request: Request): map<string, string>
  {
    ErrorsFor(ParseNumber(Parameter(request, "counter")).Some?, NameLengthOk(Parameter(request, "name")),
              LongEnough(Parameter(request, "format")), LongEnough(Parameter(request, "dateFormat")))
  }

  /** Every checked field passes its check. */
  predicate FormAccepted(request: Request)
  {
    && ParseNumber(Parameter(request, "counter")).Some?
    && NameLengthOk(Parameter(request, "name"))
    && LongEnough(Parameter(request, "format"))
    && LongEnough(Parameter(request, "dateFormat"))
  }

  /** The form page reports no error exactly when every field passes its check. */
  lemma FormErrorsEmpty(request: Request)
    ensures FormErrors(request) == map[] <==> FormAccepted(request)
  {
    ErrorsForExactly(ParseNumber(Parameter(request, "counter")).Some?, NameLengthOk(Parameter(request, "name")),
                     LongEnough(Parameter(request, "format")), LongEnough(Parameter(request, "dateFormat")));
    if !FormAccepted(request) {
      assert FormErrors(request).Keys != {};
    }
  }

  /** A text of three or more characters that neither starts nor ends with a space is long enough. */
  lemma LongEnoughPlain(text: string)
    requires |text| >= 3 && !IsSpace(text[0]) && !IsSpace(text[|text| - 1])
    ensures LongEnough(Str(text))
  {
    TrimKeeps(text);
    LengthBounds(text);
  }

  /**
   * The form for a request. Its text fields are the parameters as sent and it is not
   * once-per-chain. Its counter is the number sent, but at least 1; when the counter text
   * is no number, the counter stays at the new value's 1.
   */
  function FormOf(request: Request, id: int): (form: SharedBuildNumber)
    ensures form.id == id && form.counter >= 1
  {
    var counter := ParseNumber(Parameter(request, "counter"));
    SharedBuildNumber(id, Parameter(request, "name"), Parameter(request, "description"),
                      Parameter(request, "format"), Parameter(request, "dateFormat"), false,
                      if counter.Some? && counter.value > 1 then counter.value else 1)
  }

  /** A counter sent as decimal text is accepted, and it is kept when positive and raised to 1 when zero. */
  lemma CounterRoundTrip(request: Request, id: int, n: nat)
    requires Parameter(request, "counter") == Str(NatToString(n))
    ensures "counter" !in FormErrors(request)
    ensures FormOf(request, id).counter == if n == 0 then 1 else n
  {
    ParseNumberDigits(Parameter(request, "counter"));
    NatToStringRoundTrip(n);
  }

  /**
   * The counter field of the form: a digit string is parsed and raised to 1 when zero, and
   * anything else leaves `current` in place and fails the check.
   */
  method ParseCounter(counterString: NString, current: int) returns (counter: int, ok: bool)
    ensures ok == ParseNumber(counterString).Some?
    ensures ok ==> counter == (if ParseNumber(counterString).value > 1 then ParseNumber(counterString).value else 1)
    ensures !ok ==> counter == current
  {
    counter := current;
    var parsed := ParseNumber(counterString);
    ok := parsed.Some?;
    if ok {
      counter := parsed.value;
      if counter < 1 {
        counter := 1;
      }
    }
  }

  /** `getAndValidateFormFromRequest`: fills a new form field by field and records one error per failed check. */
  method GetAndValidateFormFromRequest(request: Request, id: int) returns (form: SharedBuildNumber, errors: map<string, string>)
    ensures form == FormOf(request, id)
    ensures errors == FormErrors(request)
  {
    var name := Parameter(request, "name");
    var description := Parameter(request, "description");
    var format := Parameter(request, "format");
    var dateFormat := Parameter(request, "dateFormat");
    var counter, counterOk := ParseCounter(Parameter(request, "counter"), NewSharedBuildNumber(id).counter);
    errors := map[];
    errors := CheckField(errors, counterOk, "counter", CounterMessage);
    errors := CheckField(errors, NameLengthOk(name), "name", NameMessage);
    errors := CheckField(errors, LongEnough(format), "format", FormatMessage);
    errors := CheckField(errors, LongEnough(dateFormat), "dateFormat", DateFormatMessage);
    assert errors == ErrorsFor(counterOk, NameLengthOk(name), LongEnough(format), LongEnough(dateFormat));

    form := NewSharedBuildNumber(id).(name := name, description := description, format := format,
                                      dateFormat := dateFormat, counter := counter);
  }

  /**
   * `copyFormToBuildNumber`: the target keeps its id and its once-per-chain flag and takes
   * everything else from the form.
   */
  function CopyForm(form: SharedBuildNumber, target: SharedBuildNumber): (b: SharedBuildNumber)
    ensures b.id == target.id && b.incrementOnceForChain == target.incrementOnceForChain
    ensures b.(id := form.id, incrementOnceForChain := form.incrementOnceForChain) == form
  {
    target.(name := form.name, description := form.description, format := form.format,
            dateFormat := form.dateFormat, counter := form.counter)
  }

  /** `addBuildNumber`: an empty add form with id 0, format `{0}` and date format `yyyyMMddHHmmss`. */
  function AddBuildNumber(): Response
  {
    FormPage(AddView, NewSharedBuildNumber(0).(format := Str("{0}"), dateFormat := Str("yyyyMMddHHmmss")), None, None)
  }

  /** The add page's default format and date format pass their checks. */
  lemma AddFormDefaultsValid()
    ensures LongEnough(AddBuildNumber().form.format) && LongEnough(AddBuildNumber().form.dateFormat)
  {
    DefaultFormatLongEnough();
    DefaultDateFormatLongEnough();
  }

  /** The default format `{0}` is long enough. */
  lemma DefaultFormatLongEnough()
    ensures LongEnough(Str("{0}"))
  {
    LongEnoughPlain("{0}");
  }

  /** The default date format `yyyyMMddHHmmss` is long enough. */
  lemma DefaultDateFormatLongEnough()
    ensures LongEnough(Str("yyyyMMddHHmmss"))
  {
    LongEnoughPlain("yyyyMMddHHmmss");
  }

  /** Whether the service's save takes `b`: the counter may not fall below the stored one, or below 1 for a new id. */
  predicate SaveAccepts(numbers: map<int, SharedBuildNumber>, b: SharedBuildNumber)
  {
    (if b.id in numbers then numbers[b.id].counter else 1) <= b.counter
  }

  /** A form copied onto a new build number is always saved. */
  lemma NewBuildNumberAccepted(numbers: map<int, SharedBuildNumber>, request: Request, id: int)
    requires id !in numbers
    ensures SaveAccepts(numbers, CopyForm(FormOf(request, 0), NewSharedBuildNumber(id)))
  {
    var form := FormOf(request, 0);
    assert form.counter >= 1;
  }

  /** The ids a delete request names: its id, or none when the id is missing or no number. */
  function DeletedIds(request: Request): set<int>
  {
    if GetId(request).Some? then {GetId(request).value} else {}
  }

  /** A listing sorted by name is asked for with `sort=name`, in any letter case. */
  predicate ByName(request: Request)
  {
    ParameterIs(request, "sort", "name")
  }

  /** A descending listing is asked for with `direction=desc`, in any letter case. */
  predicate Descending(request: Request)
  {
    ParameterIs(request, "direction", "desc")
  }

  /** The controller over one configuration service. */
  class SharedBuildNumberController {
    const configurationService: PluginConfigurationServiceDefault

    constructor (configurationService: PluginConfigurationServiceDefault)
      ensures this.configurationService == configurationService
    {
      this.configurationService := configurationService;
    }

    /**
     * `listBuildNumbers`: the build numbers sorted by id or by name, either way round. It also
     * returns the sort classes the page shows and the parameter prefix.
     */
    method ListBuildNumbers(request: Request) returns (response: Response)
      requires configurationService.Valid()
      requires ByName(request) ==> forall k | k in configurationService.Numbers() :: configurationService.Numbers()[k].name.Str?
      ensures response.ListPage?
      ensures response.sortedBy == if ByName(request) then "name" else "id"
      ensures response.parameterPrefix == Provider.ParameterPrefix
      ensures response.numResults == |response.buildNumbers|
      ensures response.sortClass == (if Descending(request) then "sortedDesc" else "sortedAsc")
      ensures response.sortChange == (if Descending(request) then "asc" else "desc")
      ensures forall x | x in response.buildNumbers :: x in configurationService.Numbers().Values
      ensures ByName(request) ==>
        && Sorted(response.buildNumbers, NameOrder(Descending(request)))
        && forall k | k in configurationService.Numbers() ::
             exists x | x in response.buildNumbers :: x.name == configurationService.Numbers()[k].name
      ensures !ByName(request) ==>
        && Sorted(response.buildNumbers, IdOrder(Descending(request)))
        && |response.buildNumbers| == |configurationService.Numbers()|
        && forall x | x in configurationService.Numbers().Values :: x in response.buildNumbers
    {
      var descending := Descending(request);
      var sorted: seq<SharedBuildNumber>;
      var sortedBy: string;
      if ByName(request) {
        sorted := configurationService.SortedByName(descending);
        sortedBy := "name";
      } else {
        sorted := configurationService.SortedById(descending);
        sortedBy := "id";
      }
      response := ListPage(sortedBy, Provider.ParameterPrefix, |sorted|, sorted,
                           if descending then "sortedDesc" else "sortedAsc",
                           if descending then "asc" else "desc");
    }

    /** `editBuildNumber`: the edit page for the stored build number the request names, otherwise not found. */
    method EditBuildNumber(request: Request) returns (response: Response)
      requires configurationService.Valid()
      ensures GetId(request).Some? && GetId(request).value in configurationService.Numbers() ==>
        response == FormPage(EditView, configurationService.Numbers()[GetId(request).value], None, Some(Provider.ParameterPrefix))
      ensures GetId(request).None? || GetId(request).value !in configurationService.Numbers() ==>
        response == NotFound
    {
      var id := GetId(request);
      if id.Some? {
        var form := configurationService.GetSharedBuildNumber(id.value);
        if form.Some? {
          return FormPage(EditView, form.value, None, Some(Provider.ParameterPrefix));
        }
      }
      return NotFound;
    }

    /**
     * `submitAddBuildNumber`: shows the errors on the add page when the form fails a check.
     * Otherwise it takes the next id from the sequence and saves the form under that id.
     */
    method SubmitAddBuildNumber(request: Request, timestamp: string) returns (response: Response)
      requires configurationService.Valid()
      modifies configurationService.Repr
      ensures configurationService.Valid()
      ensures !FormAccepted(request) ==>
        response == FormPage(AddView, FormOf(request, 0), Some(FormErrors(request)), None)
        && unchanged(old(configurationService.Repr))
      ensures FormAccepted(request) ==>
        var b := CopyForm(FormOf(request, 0), NewSharedBuildNumber(old(configurationService.Sequence())));
        && configurationService.Sequence() == old(configurationService.Sequence()) + 1
        && (SaveAccepts(old(configurationService.Numbers()), b) ==>
              && response == Redirect(AdminUrl)
              && configurationService.Numbers() == old(configurationService.Numbers())[b.id := b]
              && configurationService.configFile == configurationService.SavedFile(timestamp))
        && (!SaveAccepts(old(configurationService.Numbers()), b) ==>
              && response == CounterDecreased
              && configurationService.Numbers() == old(configurationService.Numbers()))
    {
      ghost var numbers, sequence := configurationService.Numbers(), configurationService.Sequence();
      var form, errors := GetAndValidateFormFromRequest(request, 0);
      assert configurationService.Numbers() == numbers && configurationService.Sequence() == sequence;
      FormErrorsEmpty(request);
      if errors != map[] {
        return FormPage(AddView, form, Some(errors), None);
      }
      response := SaveNewBuildNumber(form, timestamp);
    }

    /** The accepted branch of `submitAddBuildNumber`: the form is saved under a fresh id. */
    method SaveNewBuildNumber(form: SharedBuildNumber, timestamp: string) returns (response: Response)
      requires configurationService.Valid()
      modifies configurationService.Repr
      ensures configurationService.Valid()
      ensures var b := CopyForm(form, NewSharedBuildNumber(old(configurationService.Sequence())));
        && configurationService.Sequence() == old(configurationService.Sequence()) + 1
        && (SaveAccepts(old(configurationService.Numbers()), b) ==>
              && response == Redirect(AdminUrl)
              && configurationService.Numbers() == old(configurationService.Numbers())[b.id := b]
              && configurationService.configFile == configurationService.SavedFile(timestamp))
        && (!SaveAccepts(old(configurationService.Numbers()), b) ==>
              && response == CounterDecreased
              && configurationService.Numbers() == old(configurationService.Numbers()))
    {
      var id := configurationService.GetNextBuildNumberId(timestamp);
      var buildNumber := CopyForm(form, NewSharedBuildNumber(id));
      response := SaveAndRedirect(buildNumber, timestamp);
    }

    /**
     * `saveSharedBuildNumber` followed by the redirect to the admin page; a refused counter
     * is the exception that escapes instead.
     */
    method SaveAndRedirect(b: SharedBuildNumber, timestamp: string) returns (response: Response)
      requires configurationService.Valid()
      modifies configurationService.Repr
      ensures configurationService.Valid()
      ensures configurationService.Sequence() == old(configurationService.Sequence())
      ensures SaveAccepts(old(configurationService.Numbers()), b) ==>
        && response == Redirect(AdminUrl)
        && configurationService.Numbers() == old(configurationService.Numbers())[b.id := b]
        && configurationService.configFile == configurationService.SavedFile(timestamp)
      ensures !SaveAccepts(old(configurationService.Numbers()), b) ==>
        && response == CounterDecreased
        && configurationService.Numbers() == old(configurationService.Numbers())
        && configurationService.configFile == old(configurationService.configFile)
    {
      var accepted := configurationService.SaveSharedBuildNumber(b, timestamp);
      if !accepted {
        return CounterDecreased;
      }
      return Redirect(AdminUrl);
    }

    /**
     * `submitEditBuildNumber`: answers not found when the request names no stored build
     * number. When the form fails a check, it shows the errors on the add page. Otherwise it
     * copies the form onto the stored value and saves that.
     */
    method SubmitEditBuildNumber(request: Request, timestamp: string) returns (response: Response)
      requires configurationService.Valid()
      modifies configurationService.Repr
      ensures configurationService.Valid()
      ensures configurationService.Sequence() == old(configurationService.Sequence())
      ensures GetId(request).None? || GetId(request).value !in old(configurationService.Numbers()) ==>
        response == NotFound && unchanged(old(configurationService.Repr))
      ensures GetId(request).Some? && GetId(request).value in old(configurationService.Numbers()) && !FormAccepted(request) ==>
        response == FormPage(AddView, FormOf(request, GetId(request).value), Some(FormErrors(request)), Some(Provider.ParameterPrefix))
        && unchanged(old(configurationService.Repr))
      ensures GetId(request).Some? && GetId(request).value in old(configurationService.Numbers()) && FormAccepted(request) ==>
        var id := GetId(request).value;
        var b := CopyForm(FormOf(request, id), old(configurationService.Numbers())[id]);
        && (SaveAccepts(old(configurationService.Numbers()), b) ==>
              && response == Redirect(AdminUrl)
              && configurationService.Numbers() == old(configurationService.Numbers())[id := b]
              && configurationService.configFile == configurationService.SavedFile(timestamp))
        && (!SaveAccepts(old(configurationService.Numbers()), b) ==>
              && response == CounterDecreased
              && configurationService.Numbers() == old(configurationService.Numbers())
              && configurationService.configFile == old(configurationService.configFile))
    {
      var id := GetId(request);
      if id.Some? {
        var buildNumber := configurationService.GetSharedBuildNumber(id.value);
        if buildNumber.Some? {
          response := EditStored(request, id.value, buildNumber.value, timestamp);
          return;
        }
      }
      return NotFound;
    }

    /** The part of `submitEditBuildNumber` for a request that names the stored build number `stored`. */
    method EditStored(request: Request, id: int, stored: SharedBuildNumber, timestamp: string) returns (response: Response)
      requires configurationService.Valid()
      requires id in configurationService.Numbers() && stored == configurationService.Numbers()[id] && stored.id == id
      modifies configurationService.Repr
      ensures configurationService.Valid()
      ensures configurationService.Sequence() == old(configurationService.Sequence())
      ensures !FormAccepted(request) ==>
        response == FormPage(AddView, FormOf(request, id), Some(FormErrors(request)), Some(Provider.ParameterPrefix))
        && unchanged(old(configurationService.Repr))
      ensures FormAccepted(request) ==>
        var b := CopyForm(FormOf(request, id), stored);
        && (SaveAccepts(old(configurationService.Numbers()), b) ==>
              && response == Redirect(AdminUrl)
              && configurationService.Numbers() == old(configurationService.Numbers())[id := b]
              && configurationService.configFile == configurationService.SavedFile(timestamp))
        && (!SaveAccepts(old(configurationService.Numbers()), b) ==>
              && response == CounterDecreased
              && configurationService.Numbers() == old(configurationService.Numbers())
              && configurationService.configFile == old(configurationService.configFile))
    {
      ghost var numbers := configurationService.Numbers();
      var form, errors := GetAndValidateFormFromRequest(request, id);
      assert configurationService.Numbers() == numbers;
      FormErrorsEmpty(request);
      if errors != map[] {
        return FormPage(AddView, form, Some(errors), Some(Provider.ParameterPrefix));
      }
      var b := CopyForm(form, stored);
      response := SaveAndRedirect(b, timestamp);
    }

    /** `submitDeleteBuildNumber`: deletes the id the request names, whether stored or not; not found when it names none. */
    method SubmitDeleteBuildNumber(request: Request, timestamp: string) returns (response: Response)
      requires configurationService.Valid()
      modifies configurationService.Repr
      ensures configurationService.Valid()
      ensures configurationService.Sequence() == old(configurationService.Sequence())
      ensures configurationService.Numbers() == old(configurationService.Numbers()) - DeletedIds(request)
      ensures GetId(request).None? ==> response == NotFound && unchanged(old(configurationService.Repr))
      ensures GetId(request).Some? ==>
        response == Redirect(AdminUrl) && configurationService.configFile == configurationService.SavedFile(timestamp)
    {
      var id := GetId(request);
      if id.Some? {
        configurationService.DeleteSharedBuildNumber(id.value, timestamp);
        return Redirect(AdminUrl);
      }
      return NotFound;
    }

    /**
     * `doHandle`: users without access are refused and nothing changes. Otherwise the action
     * picks the handler. Only POSTed adds, edits and deletes change the stored build numbers,
     * and an unknown action is not found.
     */
    method DoHandle(user: User, request: Request, timestamp: string) returns (response: Response)
      requires configurationService.Valid()
      requires ByName(request) ==> forall k | k in configurationService.Numbers() :: configurationService.Numbers()[k].name.Str?
      modifies configurationService.Repr
      ensures configurationService.Valid()
      ensures !HasAccess(user) ==> response == AccessDenied && unchanged(old(configurationService.Repr))
      ensures HasAccess(user) && !Changes(Route(Action(request), request.isPost)) ==> unchanged(old(configurationService.Repr))
      ensures HasAccess(user) && Route(Action(request), request.isPost) == Unsupported ==> response == NotFound
      ensures HasAccess(user) && Route(Action(request), request.isPost) == ListHandler ==> response.ListPage?
      ensures HasAccess(user) && Route(Action(request), request.isPost) == AddForm ==> response == AddBuildNumber()
      ensures HasAccess(user) && Route(Action(request), request.isPost) == EditForm ==>
        response.NotFound? || (response.FormPage? && response.view == EditView)
      ensures HasAccess(user) && Route(Action(request), request.isPost) == SubmitDelete ==>
        configurationService.Numbers() == old(configurationService.Numbers()) - DeletedIds(request)
      ensures HasAccess(user) && Route(Action(request), request.isPost) == SubmitEdit ==>
        configurationService.Sequence() == old(configurationService.Sequence())
    {
      if !HasAccess(user) {
        return AccessDenied;
      }
      var action := Action(request);
      var handler := Route(action, request.isPost);
      match handler
      case ListHandler =>
        response := ListBuildNumbers(request);
      case AddForm =>
        response := AddBuildNumber();
      case SubmitAdd =>
        response := SubmitAddBuildNumber(request, timestamp);
      case EditForm =>
        response := EditBuildNumber(request);
      case SubmitEdit =>
        response := SubmitEditBuildNumber(request, timestamp);
      case SubmitDelete =>
        response := SubmitDeleteBuildNumber(request, timestamp);
      case Unsupported =>
        response := NotFound;
    }
  }
}

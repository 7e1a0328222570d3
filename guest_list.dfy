/**
 * The RSVP section: a case-insensitive search over the cached guest list,
 * a modal that is pre-filled from the selected guest and shows either a
 * read-only summary (guest already answered) or the RSVP form, the update
 * payload sent on submit, and the separate "request to join" form.
 *
 * Every network call is replaced by a parameter that says whether the
 * response was ok (or which list it returned); timers are separate methods.
 */
module GuestList {
  import opened Text

  /** One row of the guest sheet. A cell missing from the sheet is "". */
  datatype Guest = Guest(name: string, email: string, rsvp: string, headcount: string, message: string)

  /** The RSVP form's fields. */
  datatype RsvpForm = RsvpForm(name: string, email: string, rsvp: string, headcount: string, message: string)

  /** The body of the update request sent to the guest endpoint. */
  datatype UpdatePayload = UpdatePayload(
    action: string, originalName: string, name: string, email: string,
    rsvp: string, headcount: string, message: string)

  /** The "request to join" form; it is also the body of the request sent. */
  datatype JoinRequest = JoinRequest(name: string, email: string, phone: string, headcount: string, message: string)

  datatype Attendance = Yes | No
  datatype FormField = EmailField | MessageField
  datatype RequestField = RequestName | RequestEmail | RequestPhone | RequestMessage

  /** What the modal shows. */
  datatype ModalView = NoModal | Summary | FormView

  /** What a press of the RSVP submit button leads to. */
  datatype SubmitDecision = Ignored | Rejected(reason: string) | Send(payload: UpdatePayload)

  /** What a press of the join-request submit button leads to. */
  datatype RequestDecision = RequestRejected(reason: string) | RequestSend(body: JoinRequest)

  const EmptyForm := RsvpForm("", "", "", "1", "")
  const EmptyRequest := JoinRequest("", "", "", "1", "")

  const NoChoiceError := "Please select if you can attend"
  const SubmitFailedError := "Failed to submit RSVP. Please try again."
  const LoadFailedError := "Failed to load guest list"
  const NameRequiredError := "Name is required"
  const RequestFailedError := "Failed to submit request. Please try again."
  const ThankYou := "Thank you for your response!"
  const RequestThankYou := "Request submitted! We'll review and get back to you."

  // ---------------------------------------------------------------------
  // Search

  /** The guest's lower-cased name contains the lower-cased query. */
  predicate Matches(g: Guest, query: string) {
    Contains(LowerStr(g.name), LowerStr(query))
  }

  /** `guests.filter(g => g.Name.toLowerCase().includes(query.toLowerCase()))` */
  function FilterGuests(guests: seq<Guest>, query: string): seq<Guest> {
    if guests == [] then []
    else if Matches(guests[0], query) then [guests[0]] + FilterGuests(guests[1..], query)
    else FilterGuests(guests[1..], query)
  }

  /** A guest is listed exactly when it is in the cached list and matches;
      the list is never longer than the cached one. */
  lemma {:induction false} FilterGuestsSpec(guests: seq<Guest>, query: string)
    ensures |FilterGuests(guests, query)| <= |guests|
    ensures forall g :: g in FilterGuests(guests, query) <==> g in guests && Matches(g, query)
  {
    if guests != [] {
      FilterGuestsSpec(guests[1..], query);
      assert forall g :: g in guests <==> g == guests[0] || g in guests[1..];
    }
  }

  /** Filtering distributes over concatenation: matches keep the order of
      the cached list. */
  lemma {:induction false} FilterGuestsAppend(a: seq<Guest>, b: seq<Guest>, query: string)
    ensures FilterGuests(a + b, query) == FilterGuests(a, query) + FilterGuests(b, query)
  {
    if a != [] {
      assert (a + b)[1..] == a[1..] + b;
      FilterGuestsAppend(a[1..], b, query);
    } else {
      assert a + b == b;
    }
  }

  /** The effect that recomputes the dropdown: a query whose `trim()` is
      empty gives no matches, otherwise the matches of the untrimmed query. */
  function SearchResults(guests: seq<Guest>, query: string): seq<Guest> {
    if IsBlank(query) then [] else FilterGuests(guests, query)
  }

  /** A blank query lists nobody; any other query lists exactly the cached
      guests whose lower-cased name contains the lower-cased query (the
      query itself is not trimmed). */
  lemma SearchResultsSpec(guests: seq<Guest>, query: string)
    ensures IsBlank(query) ==> SearchResults(guests, query) == []
    ensures !IsBlank(query) ==>
      forall g :: g in SearchResults(guests, query) <==> g in guests && Matches(g, query)
  {
    FilterGuestsSpec(guests, query);
  }

  // ---------------------------------------------------------------------
  // Selecting a guest and submitting

  /** The guest has answered when the RSVP cell's `trim()` is not empty. */
  predicate HasResponded(g: Guest) {
    !IsBlank(g.rsvp)
  }

  /** The form pre-filled from the selected guest. */
  function Prefill(g: Guest): RsvpForm {
    RsvpForm(g.name, if g.email != "Pending" then g.email else "", g.rsvp, "1", g.message)
  }

  /** The update request built from the selected guest and the form. */
  function UpdateFor(selected: Guest, form: RsvpForm): UpdatePayload {
    UpdatePayload("update", selected.name, form.name,
                  if form.email != "" then form.email else "Pending",
                  form.rsvp, if form.rsvp == "Yes" then "1" else "0", form.message)
  }

  /** The validation done by the RSVP submit handler before any request. */
  function DecideSubmit(selected: Option<Guest>, form: RsvpForm): (d: SubmitDecision)
    ensures d.Ignored? <==> selected.None?
    ensures d.Rejected? <==> selected.Some? && form.rsvp == ""
    ensures d.Rejected? ==> d.reason == NoChoiceError
    ensures d.Send? ==> d.payload.action == "update" && d.payload.originalName == selected.value.name
    ensures d.Send? ==> (d.payload.headcount == "1" <==> form.rsvp == "Yes")
    ensures d.Send? ==> (d.payload.headcount == "0" <==> form.rsvp != "Yes")
    ensures d.Send? ==> d.payload.email == (if form.email == "" then "Pending" else form.email)
    ensures d.Send? ==> d.payload.rsvp == form.rsvp && d.payload.message == form.message && d.payload.name == form.name
  {
    if selected.None? then Ignored
    else if form.rsvp == "" then Rejected(NoChoiceError)
    else Send(UpdateFor(selected.value, form))
  }

  /** A guest who has not answered, picks an attendance and submits the
      pre-filled form unchanged: the request keeps the guest's name and
      message, writes "Pending" for an empty e-mail, keeps any other
      e-mail (including "Pending") and fixes the headcount by the choice. */
  lemma PrefillThenSubmit(g: Guest, choice: string)
    requires choice == "Yes" || choice == "No"
    ensures var d := DecideSubmit(Some(g), Prefill(g).(rsvp := choice));
      && d.Send?
      && d.payload.originalName == g.name && d.payload.name == g.name
      && d.payload.email == (if g.email == "" then "Pending" else g.email)
      && d.payload.headcount == (if choice == "Yes" then "1" else "0")
      && d.payload.message == g.message
  {
  }

  /** The validation done by the join-request handler. */
  function DecideRequest(form: JoinRequest): (d: RequestDecision)
    ensures d.RequestRejected? <==> form.name == ""
    ensures d.RequestRejected? ==> d.reason == NameRequiredError
    ensures d.RequestSend? ==> d.body == form.(headcount := "1")
  {
    if form.name == "" then RequestRejected(NameRequiredError) else RequestSend(form.(headcount := "1"))
  }

  function ViewOf(showModal: bool, hasResponded: bool): (v: ModalView)
    ensures v == FormView <==> showModal && !hasResponded
    ensures v == Summary <==> showModal && hasResponded
  {
    if !showModal then NoModal else if hasResponded then Summary else FormView
  }

  // ---------------------------------------------------------------------
  // The component's state

  class RsvpSection {
    var guests: seq<Guest>
    var searchQuery: string
    var filteredGuests: seq<Guest>
    var isSearching: bool
    var selectedGuest: Option<Guest>
    var formData: RsvpForm
    var hasResponded: bool
    var showModal: bool
    var error: Option<string>
    var success: Option<string>
    var isLoading: bool
    var requestForm: JoinRequest
    var showRequestModal: bool
    var requestSuccess: Option<string>

    /** The dropdown always shows the matches of the current query, it is
        open only when there is a match, and the modal is open exactly when
        a guest is selected. */
    ghost predicate Valid()
      reads this
    {
      && filteredGuests == SearchResults(guests, searchQuery)
      && (isSearching ==> filteredGuests != [])
      && (showModal <==> selectedGuest.Some?)
    }

    constructor ()
      ensures Valid()
      ensures guests == [] && searchQuery == "" && filteredGuests == [] && !isSearching
      ensures selectedGuest == None && formData == EmptyForm && !hasResponded && !showModal
      ensures error == None && success == None && !isLoading
      ensures requestForm == EmptyRequest && !showRequestModal && requestSuccess == None
    {
      guests, searchQuery, filteredGuests, isSearching := [], "", [], false;
      selectedGuest, formData, hasResponded, showModal := None, EmptyForm, false, false;
      error, success, isLoading := None, None, false;
      requestForm, showRequestModal, requestSuccess := EmptyRequest, false, None;
    }

    /** The search effect, run whenever the query or the guest list changes. */
    method RunSearchEffect()
      modifies this`filteredGuests, this`isSearching
      ensures filteredGuests == SearchResults(guests, searchQuery)
      ensures isSearching <==> filteredGuests != []
    {
      if Trim(searchQuery) == "" {
        filteredGuests := [];
        isSearching := false;
        return;
      }
      var filtered := FilterGuests(guests, searchQuery);
      filteredGuests := filtered;
      isSearching := |filtered| > 0;
    }

    /** `fetchGuests`, given the response: the list, or None on failure. */
    method LoadGuests(response: Option<seq<Guest>>)
      requires Valid()
      modifies this`guests, this`filteredGuests, this`isSearching, this`error, this`isLoading
      ensures Valid() && !isLoading
      ensures response.Some? ==> guests == response.value && error == old(error)
      ensures response.Some? ==> (isSearching <==> filteredGuests != [])
      ensures response.None? ==> guests == old(guests) && error == Some(LoadFailedError)
      ensures response.None? ==> isSearching == old(isSearching) && filteredGuests == old(filteredGuests)
    {
      isLoading := true;
      if response.Some? {
        guests := response.value;
        RunSearchEffect();
      } else {
        error := Some(LoadFailedError);
      }
      isLoading := false;
    }

    /** Typing in the search box. */
    method SetSearchQuery(q: string)
      requires Valid()
      modifies this`searchQuery, this`filteredGuests, this`isSearching
      ensures Valid() && searchQuery == q
      ensures q != old(searchQuery) ==> (isSearching <==> filteredGuests != [])
      ensures q == old(searchQuery) ==> isSearching == old(isSearching)
    {
      var changed := q != searchQuery;
      searchQuery := q;
      if changed {
        RunSearchEffect();
      }
    }

    /** A mouse-down outside the search box closes the dropdown. */
    method ClickOutside()
      requires Valid()
      modifies this`isSearching
      ensures Valid() && !isSearching
    {
      isSearching := false;
    }

    /** `handleSearchSelect`: select the guest, put the name in the search
        box, pre-fill the form, decide whether the guest already answered
        and open the modal. */
    method SearchSelect(g: Guest)
      requires Valid()
      modifies this`selectedGuest, this`searchQuery, this`isSearching, this`filteredGuests,
               this`formData, this`hasResponded, this`showModal
      ensures Valid()
      ensures selectedGuest == Some(g) && searchQuery == g.name && showModal
      ensures formData.name == g.name && formData.headcount == "1"
      ensures formData.email == (if g.email == "Pending" then "" else g.email)
      ensures formData.rsvp == g.rsvp && formData.message == g.message
      ensures hasResponded <==> !IsBlank(g.rsvp)
      ensures ViewOf(showModal, hasResponded) == (if HasResponded(g) then Summary else FormView)
      ensures g.name == old(searchQuery) ==> !isSearching
    {
      var changed := g.name != searchQuery;
      selectedGuest := Some(g);
      searchQuery := g.name;
      isSearching := false;
      formData := Prefill(g);
      hasResponded := Trim(g.rsvp) != "";
      showModal := true;
      if changed {
        RunSearchEffect();
      }
    }

    /** Clicking "Yes" or "No" in the form. */
    method ChooseAttendance(a: Attendance)
      modifies this`formData
      ensures formData == old(formData).(rsvp := if a == Yes then "Yes" else "No")
    {
      formData := formData.(rsvp := if a == Yes then "Yes" else "No");
    }

    /** `handleFormChange` for the e-mail and message inputs. */
    method EditForm(field: FormField, value: string)
      modifies this`formData
      ensures formData == if field == EmailField then old(formData).(email := value)
                          else old(formData).(message := value)
    {
      if field == EmailField {
        formData := formData.(email := value);
      } else {
        formData := formData.(message := value);
      }
    }

    /** `handleSubmitRSVP`; `responseOk` is whether the update request
        succeeded. Returns the request that was sent, if any. */
    method SubmitRsvp(responseOk: bool) returns (sent: Option<UpdatePayload>)
      requires Valid()
      modifies this`error, this`success, this`hasResponded, this`isLoading
      ensures Valid()
      ensures selectedGuest.None? ==> sent.None? && error == old(error) && success == old(success)
                                      && hasResponded == old(hasResponded) && isLoading == old(isLoading)
      ensures selectedGuest.Some? && formData.rsvp == "" ==>
                sent.None? && error == Some(NoChoiceError) && success == old(success)
                && hasResponded == old(hasResponded) && isLoading == old(isLoading)
      ensures selectedGuest.Some? && formData.rsvp != "" ==>
                sent == Some(UpdateFor(selectedGuest.value, formData)) && !isLoading
      ensures sent.Some? && responseOk ==> success == Some(ThankYou) && hasResponded && error == None
      ensures sent.Some? && !responseOk ==> success == None && error == Some(SubmitFailedError)
                                            && hasResponded == old(hasResponded)
    {
      if selectedGuest.None? {
        sent := None;
      } else if formData.rsvp == "" {
        error := Some(NoChoiceError);
        sent := None;
      } else {
        isLoading := true;
        error := None;
        success := None;
        sent := Some(UpdateFor(selectedGuest.value, formData));
        if responseOk {
          success := Some(ThankYou);
          hasResponded := true;
        } else {
          error := Some(SubmitFailedError);
        }
        isLoading := false;
      }
    }

    /** The delayed callback after a successful RSVP: close the modal and
        clear the search (the refetch that follows is a separate
        `LoadGuests`). */
    method AfterRsvpSent()
      requires Valid()
      modifies this`showModal, this`searchQuery, this`selectedGuest, this`success,
               this`filteredGuests, this`isSearching
      ensures Valid()
      ensures !showModal && searchQuery == "" && selectedGuest == None && success == None
      ensures filteredGuests == [] && !isSearching
    {
      showModal := false;
      searchQuery := "";
      selectedGuest := None;
      success := None;
      RunSearchEffect();
    }

    /** The five-second timer that clears the error banner. */
    method DismissError()
      modifies this`error
      ensures error == None
    {
      error := None;
    }

    /** `handleCloseModal`: everything the modal showed is reset. */
    method CloseModal()
      requires Valid()
      modifies this`showModal, this`selectedGuest, this`searchQuery, this`formData,
               this`hasResponded, this`error, this`filteredGuests, this`isSearching
      ensures Valid()
      ensures !showModal && selectedGuest == None && searchQuery == ""
      ensures formData == EmptyForm && !hasResponded && error == None
      ensures filteredGuests == [] && !isSearching
    {
      showModal := false;
      selectedGuest := None;
      searchQuery := "";
      formData := EmptyForm;
      hasResponded := false;
      error := None;
      RunSearchEffect();
    }

    /** The "Request to Join" button, shown only for a non-empty query with
        no match: it opens the request form with the query as the name. */
    method OpenRequest()
      requires searchQuery != "" && filteredGuests == []
      modifies this`requestForm, this`showRequestModal
      ensures requestForm == old(requestForm).(name := searchQuery) && showRequestModal
    {
      requestForm := requestForm.(name := searchQuery);
      showRequestModal := true;
    }

    /** Typing in one of the request form's inputs. */
    method EditRequest(field: RequestField, value: string)
      modifies this`requestForm
      ensures requestForm == match field
        case RequestName => old(requestForm).(name := value)
        case RequestEmail => old(requestForm).(email := value)
        case RequestPhone => old(requestForm).(phone := value)
        case RequestMessage => old(requestForm).(message := value)
    {
      match field
      case RequestName => requestForm := requestForm.(name := value);
      case RequestEmail => requestForm := requestForm.(email := value);
      case RequestPhone => requestForm := requestForm.(phone := value);
      case RequestMessage => requestForm := requestForm.(message := value);
    }

    /** `handleSubmitRequest`; `responseOk` is whether the request succeeded. */
    method SubmitRequest(responseOk: bool) returns (sent: Option<JoinRequest>)
      modifies this`error, this`requestSuccess, this`isLoading
      ensures requestForm.name == "" ==> sent.None? && error == Some(NameRequiredError)
                                         && requestSuccess == old(requestSuccess)
      ensures requestForm.name != "" ==> sent == Some(requestForm.(headcount := "1")) && !isLoading
      ensures sent.Some? ==> sent.value.headcount == "1"
      ensures sent.Some? && responseOk ==> requestSuccess == Some(RequestThankYou) && error == None
      ensures sent.Some? && !responseOk ==> requestSuccess == None && error == Some(RequestFailedError)
    {
      var d := DecideRequest(requestForm);
      match d
      case RequestRejected(reason) =>
        error := Some(reason);
        sent := None;
      case RequestSend(body) =>
        isLoading := true;
        error := None;
        requestSuccess := None;
        sent := Some(body);
        if responseOk {
          requestSuccess := Some(RequestThankYou);
        } else {
          error := Some(RequestFailedError);
        }
        isLoading := false;
    }

    /** The delayed callback after a successful join request. */
    method AfterRequestSent()
      requires Valid()
      modifies this`showRequestModal, this`requestForm, this`searchQuery, this`requestSuccess,
               this`filteredGuests, this`isSearching
      ensures Valid()
      ensures !showRequestModal && requestForm == EmptyRequest && searchQuery == ""
      ensures requestSuccess == None && filteredGuests == [] && !isSearching
    {
      showRequestModal := false;
      requestForm := EmptyRequest;
      searchQuery := "";
      requestSuccess := None;
      RunSearchEffect();
    }

    /** `handleCloseRequestModal`. */
    method CloseRequestModal()
      modifies this`showRequestModal, this`requestForm, this`error, this`requestSuccess
      ensures !showRequestModal && requestForm == EmptyRequest && error == None && requestSuccess == None
    {
      showRequestModal := false;
      requestForm := EmptyRequest;
      error := None;
      requestSuccess := None;
    }
  }
}

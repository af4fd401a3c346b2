/** The events section (components/Events.tsx): three banquet packages, a
    price estimate for the selected package and guest count, and an inquiry
    form whose submission is sent by e-mail. The e-mail service is outside
    the model: its configuration arrives as three strings and its outcome as
    a boolean. */
module Events {
  import opened Optional

  /** A banquet package: its id, its name, how many guests the base price
      covers, and the base price in rupees. */
  datatype EventPackage = EventPackage(id: int, name: string, capacity: int, price: int)

  /** The packages on offer. */
  const EventPackages: seq<EventPackage> := [
    EventPackage(1, "Small Gathering", 20, 15000),
    EventPackage(2, "Medium Event", 50, 35000),
    EventPackage(3, "Large Banquet", 100, 70000)
  ]

  /** Rupees charged for each guest beyond a package's capacity. */
  const ExtraGuestFee := 500

  /** The inquiry form. `packageId` 0 means no package chosen. */
  datatype FormData = FormData(
    name: string,
    email: string,
    phone: string,
    eventType: string,
    eventDate: string,
    guests: int,
    packageId: int,
    message: string)

  /** The form as it first appears, and as a successful submission leaves it. */
  const InitialForm := FormData("", "", "", "", "", 20, 0, "")

  datatype SubmitStatus = Idle | Success | Error

  /** `packages.find(p => p.id === id)`: the first package with that id. */
  function FindPackage(packages: seq<EventPackage>, id: int): (r: Option<EventPackage>)
    ensures r.None? <==> forall i | 0 <= i < |packages| :: packages[i].id != id
    ensures r.Some? ==> r.value in packages && r.value.id == id
  {
    if packages == [] then None
    else if packages[0].id == id then Some(packages[0])
    else FindPackage(packages[1..], id)
  }

  /** The package the form has selected, if any. */
  function SelectedPackage(f: FormData): Option<EventPackage> {
    FindPackage(EventPackages, f.packageId)
  }

  function Max(a: int, b: int): int {
    if a >= b then a else b
  }

  /** `calculatePrice`: the base price plus the fee for each guest beyond the
      package's capacity; 0 when no package has the form's id. The estimate
      never falls below the base price, and equals it exactly when the guests
      fit within the package's capacity. */
  function CalculatePrice(f: FormData): (r: int)
    ensures SelectedPackage(f).None? ==> r == 0
    ensures SelectedPackage(f).Some? ==> r >= SelectedPackage(f).value.price
    ensures SelectedPackage(f).Some? ==>
              (r == SelectedPackage(f).value.price <==> f.guests <= SelectedPackage(f).value.capacity)
  {
    match SelectedPackage(f)
    case None => 0
    case Some(p) => p.price + Max(0, f.guests - p.capacity) * ExtraGuestFee
  }

  /** Each offered package is found by its own id. */
  lemma FindOfferedPackage(p: EventPackage)
    requires p in EventPackages
    ensures FindPackage(EventPackages, p.id) == Some(p)
  {
    assert EventPackages[1..][1..] == [EventPackages[2]];
  }

  /** With no package matching, including the unselected id 0 of a fresh
      form, the estimate is 0. */
  lemma NoPackageNoPrice(f: FormData)
    requires SelectedPackage(f).None? || f.packageId == 0
    ensures CalculatePrice(f) == 0
  {
  }

  /** More guests never lower the estimate. */
  lemma PriceMonotoneInGuests(f: FormData, more: int)
    requires f.guests <= more
    ensures CalculatePrice(f) <= CalculatePrice(f.(guests := more))
  {
  }

  /** At or beyond capacity, each further guest adds exactly the fee. */
  lemma EachExtraGuestCostsFee(f: FormData)
    requires SelectedPackage(f).Some? && f.guests >= SelectedPackage(f).value.capacity
    ensures CalculatePrice(f.(guests := f.guests + 1)) == CalculatePrice(f) + ExtraGuestFee
  {
  }

  /** The small package for 25 guests: 15000 plus 5 extra guests at 500. */
  lemma SmallGatheringFor25()
    ensures CalculatePrice(InitialForm.(packageId := 1, guests := 25)) == 17500
  {
  }

  /** The "Select Package" button: the form takes the package's id and its
      capacity as the guest count. */
  function WithPackage(f: FormData, p: EventPackage): (r: FormData)
    ensures r.packageId == p.id && r.guests == p.capacity
    ensures r.(packageId := f.packageId, guests := f.guests) == f
  {
    f.(packageId := p.id, guests := p.capacity)
  }

  /** Right after selecting an offered package the estimate is its base
      price. */
  lemma SelectingPackageShowsBasePrice(f: FormData, p: EventPackage)
    requires p in EventPackages
    ensures SelectedPackage(WithPackage(f, p)) == Some(p)
    ensures CalculatePrice(WithPackage(f, p)) == p.price
  {
    FindOfferedPackage(p);
  }

  // ---------------------------------------------------------------------
  // The price calculator panel
  // ---------------------------------------------------------------------

  /** The panel shows a breakdown once `packageId` is positive. */
  predicate ShowsBreakdown(f: FormData) {
    f.packageId > 0
  }

  /** The "Base Package" line: the selected package's price. */
  function BaseLine(f: FormData): (r: Option<int>)
    ensures r.Some? <==> SelectedPackage(f).Some?
    ensures r.Some? ==> r.value <= CalculatePrice(f)
  {
    match SelectedPackage(f)
    case None => None
    case Some(p) => Some(p.price)
  }

  /** The "Additional Guests" line, shown when the guests exceed the selected
      package's capacity (`capacity || 0` when none is found). */
  function ExtraGuestLine(f: FormData): (r: Option<int>)
    ensures r.Some? ==> r.value >= ExtraGuestFee
    ensures SelectedPackage(f).Some? ==> (r.Some? <==> f.guests > SelectedPackage(f).value.capacity)
  {
    var capacity := match SelectedPackage(f) case None => 0 case Some(p) => p.capacity;
    if f.guests > capacity then Some((f.guests - capacity) * ExtraGuestFee) else None
  }

  /** For a selected package the breakdown is shown, and base plus extra is
      the total shown. */
  lemma BreakdownAddsUp(f: FormData)
    requires SelectedPackage(f).Some?
    ensures ShowsBreakdown(f)
    ensures BaseLine(f).Some?
    ensures BaseLine(f).value + ExtraGuestLine(f).GetOr(0) == CalculatePrice(f)
  {
  }

  /** For the forms the page produces (no package, or an offered one picked
      with its button), the breakdown is shown exactly when a package is
      selected. */
  lemma BreakdownShownWithPackage(f: FormData)
    requires f.packageId == 0 || exists p | p in EventPackages :: p.id == f.packageId
    ensures ShowsBreakdown(f) <==> SelectedPackage(f).Some?
  {
    if f.packageId != 0 {
      var p :| p in EventPackages && p.id == f.packageId;
      FindOfferedPackage(p);
    }
  }

  // ---------------------------------------------------------------------
  // Submitting the inquiry
  // ---------------------------------------------------------------------

  /** The fields handed to the e-mail service. The guest count is sent as a
      number here (the source sends its decimal string). */
  datatype Inquiry = Inquiry(
    kind: string,
    name: string,
    email: string,
    phone: string,
    eventType: string,
    eventDate: string,
    guests: int,
    packageName: string,
    message: string)

  /** `selectedPackage?.name || 'Custom'`. */
  function PackageLabel(f: FormData): (r: string)
    ensures SelectedPackage(f).None? ==> r == "Custom"
    ensures SelectedPackage(f).Some? && SelectedPackage(f).value.name != "" ==> r == SelectedPackage(f).value.name
  {
    match SelectedPackage(f)
    case None => "Custom"
    case Some(p) => if p.name == "" then "Custom" else p.name
  }

  /** The inquiry built from the form. */
  function InquiryOf(f: FormData): (r: Inquiry)
    ensures r.kind == "Event Inquiry" && r.packageName != ""
    ensures (r.name, r.email, r.phone, r.eventType, r.eventDate, r.guests, r.message)
         == (f.name, f.email, f.phone, f.eventType, f.eventDate, f.guests, f.message)
  {
    Inquiry("Event Inquiry", f.name, f.email, f.phone, f.eventType, f.eventDate,
            f.guests, PackageLabel(f), f.message)
  }

  /** An inquiry for a selected offered package names that package; with no
      package chosen it says "Custom". */
  lemma InquiryNamesPackage(f: FormData, p: EventPackage)
    requires p in EventPackages
    ensures InquiryOf(WithPackage(f, p)).packageName == p.name
    ensures InquiryOf(f.(packageId := 0)).packageName == "Custom"
  {
    FindOfferedPackage(p);
  }

  /** The events section's state. */
  class EventsSection {
    var formData: FormData
    var isSubmitting: bool
    var submitStatus: SubmitStatus

    constructor ()
      ensures formData == InitialForm && !isSubmitting && submitStatus == Idle
    {
      formData, isSubmitting, submitStatus := InitialForm, false, Idle;
    }

    /** A "Select Package" button. */
    method SelectPackage(p: EventPackage)
      modifies this
      ensures formData == WithPackage(old(formData), p)
      ensures isSubmitting == old(isSubmitting) && submitStatus == old(submitStatus)
    {
      formData := WithPackage(formData, p);
    }

    /** The guest-count input. */
    method SetGuests(guests: int)
      modifies this
      ensures formData == old(formData).(guests := guests)
      ensures isSubmitting == old(isSubmitting) && submitStatus == old(submitStatus)
    {
      formData := formData.(guests := guests);
    }

    /** `handleSubmit`. The three credentials are the configured service id,
        template id and public key (`''` when unset); `sendSucceeds` is the
        outcome of the e-mail call. Returns the inquiry handed to the
        service, if the credentials allowed a send. */
    method Submit(serviceId: string, templateId: string, publicKey: string, sendSucceeds: bool)
      returns (sent: Option<Inquiry>)
      modifies this
      ensures sent.Some? <==> serviceId != "" && templateId != "" && publicKey != ""
      ensures sent.Some? ==> sent.value == InquiryOf(old(formData))
      ensures submitStatus == if sent.Some? && sendSucceeds then Success else Error
      ensures formData == if submitStatus == Success then InitialForm else old(formData)
      ensures !isSubmitting
    {
      isSubmitting := true;
      submitStatus := Idle;
      if serviceId == "" || templateId == "" || publicKey == "" {
        sent := None;
        submitStatus := Error;
      } else {
        sent := Some(InquiryOf(formData));
        if sendSucceeds {
          submitStatus := Success;
          formData := InitialForm;
        } else {
          submitStatus := Error;
        }
      }
      isSubmitting := false;
    }
  }
}

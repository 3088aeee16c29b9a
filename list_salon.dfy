/** The salon-listing form: its schema (per-field length and presence rules)
    and its default values. The e-mail and URL format checks belong to the
    schema library; they enter the model as the `Formats` parameter. */
module ListSalon {
  import opened JsValues

  /** The form's values. Optional fields may be left undefined (`None`). */
  datatype ListingForm = ListingForm(
    salonName: string, address: string, city: string, state: string,
    zipCode: string, phone: string, email: string,
    website: Option<string>, socialMedia: Option<string>,
    operatingHours: string, googleMapsLink: Option<string>,
    serviceCategories: string, serviceList: string, priceRange: string,
    customPackages: Option<string>,
    staffProfiles: Option<string>, certifications: Option<string>,
    specialtyServices: Option<string>,
    description: string,
    bookingPolicy: string, cancellationPolicy: string,
    parkingInfo: Option<string>, accessibility: Option<string>, paymentMethods: string,
    hygieneMeasures: string, covidPrecautions: Option<string>,
    brands: Option<string>, additionalFacilities: Option<string>, loyaltyProgram: Option<string>)

  datatype FieldName =
    | SalonName | Address | City | State | ZipCode | Phone | Email | Website | SocialMedia
    | OperatingHours | GoogleMapsLink | ServiceCategories | ServiceList | PriceRange
    | CustomPackages | StaffProfiles | Certifications | SpecialtyServices | Description
    | BookingPolicy | CancellationPolicy | ParkingInfo | Accessibility | PaymentMethods
    | HygieneMeasures | CovidPrecautions | Brands | AdditionalFacilities | LoyaltyProgram

  /** The schema's keys, section by section as the schema groups them. */
  const BasicDetails: seq<FieldName> := [
    SalonName, Address, City, State, ZipCode, Phone, Email, Website, SocialMedia,
    OperatingHours, GoogleMapsLink]
  const Services: seq<FieldName> := [ServiceCategories, ServiceList, PriceRange, CustomPackages]
  const Staff: seq<FieldName> := [StaffProfiles, Certifications, SpecialtyServices]
  const Ambiance: seq<FieldName> := [Description]
  const Booking: seq<FieldName> := [BookingPolicy, CancellationPolicy]
  const Facilities: seq<FieldName> := [ParkingInfo, Accessibility, PaymentMethods]
  const Safety: seq<FieldName> := [HygieneMeasures, CovidPrecautions]
  const Additional: seq<FieldName> := [Brands, AdditionalFacilities, LoyaltyProgram]

  /** The schema's key order, which is also the order of its error list. */
  const SchemaOrder: seq<FieldName> :=
    BasicDetails + Services + Staff + Ambiance + Booking + Facilities + Safety + Additional

  /** A field's place among the schema's keys (PositionInSchema). */
  function Position(f: FieldName): nat
  {
    match f
    case SalonName => 0
    case Address => 1
    case City => 2
    case State => 3
    case ZipCode => 4
    case Phone => 5
    case Email => 6
    case Website => 7
    case SocialMedia => 8
    case OperatingHours => 9
    case GoogleMapsLink => 10
    case ServiceCategories => 11
    case ServiceList => 12
    case PriceRange => 13
    case CustomPackages => 14
    case StaffProfiles => 15
    case Certifications => 16
    case SpecialtyServices => 17
    case Description => 18
    case BookingPolicy => 19
    case CancellationPolicy => 20
    case ParkingInfo => 21
    case Accessibility => 22
    case PaymentMethods => 23
    case HygieneMeasures => 24
    case CovidPrecautions => 25
    case Brands => 26
    case AdditionalFacilities => 27
    case LoyaltyProgram => 28
  }

  /** The schema holds each field at the field's place. */
  lemma PositionInSchema(f: FieldName)
    ensures Position(f) < |SchemaOrder| && SchemaOrder[Position(f)] == f
  {
    match f
    case SalonName =>
    case Address =>
    case City =>
    case State =>
    case ZipCode =>
    case Phone =>
    case Email =>
    case Website =>
    case SocialMedia =>
    case OperatingHours =>
    case GoogleMapsLink =>
    case ServiceCategories =>
    case ServiceList =>
    case PriceRange =>
    case CustomPackages =>
    case StaffProfiles =>
    case Certifications =>
    case SpecialtyServices =>
    case Description =>
    case BookingPolicy =>
    case CancellationPolicy =>
    case ParkingInfo =>
    case Accessibility =>
    case PaymentMethods =>
    case HygieneMeasures =>
    case CovidPrecautions =>
    case Brands =>
    case AdditionalFacilities =>
    case LoyaltyProgram =>
  }

  /** The fields of `xs` stand at consecutive schema places from `start`. */
  predicate PlacedFrom(xs: seq<FieldName>, start: nat)
  {
    forall i :: 0 <= i < |xs| ==> Position(xs[i]) == start + i
  }

  lemma PlacedAppend(a: seq<FieldName>, b: seq<FieldName>, start: nat)
    requires PlacedFrom(a, start) && PlacedFrom(b, start + |a|)
    ensures PlacedFrom(a + b, start)
  {
    forall i | 0 <= i < |a + b| ensures Position((a + b)[i]) == start + i {
      if i >= |a| {
        assert (a + b)[i] == b[i - |a|];
      }
    }
  }

  lemma BasicDetailsPlaced() ensures PlacedFrom(BasicDetails, 0) { }
  lemma ServicesPlaced() ensures PlacedFrom(Services, 11) { }
  lemma StaffPlaced() ensures PlacedFrom(Staff, 15) { }
  lemma AmbiancePlaced() ensures PlacedFrom(Ambiance, 18) { }
  lemma BookingPlaced() ensures PlacedFrom(Booking, 19) { }
  lemma FacilitiesPlaced() ensures PlacedFrom(Facilities, 21) { }
  lemma SafetyPlaced() ensures PlacedFrom(Safety, 24) { }
  lemma AdditionalPlaced() ensures PlacedFrom(Additional, 26) { }

  /** Each key's place is its index, so no key occurs twice. */
  lemma SchemaPlaced()
    ensures PlacedFrom(SchemaOrder, 0)
    ensures forall i, j :: 0 <= i < j < |SchemaOrder| ==> SchemaOrder[i] != SchemaOrder[j]
  {
    BasicDetailsPlaced();
    ServicesPlaced();
    StaffPlaced();
    AmbiancePlaced();
    BookingPlaced();
    FacilitiesPlaced();
    SafetyPlaced();
    AdditionalPlaced();
    var s := BasicDetails + Services;
    PlacedAppend(BasicDetails, Services, 0);
    PlacedAppend(s, Staff, 0);
    s := s + Staff;
    PlacedAppend(s, Ambiance, 0);
    s := s + Ambiance;
    PlacedAppend(s, Booking, 0);
    s := s + Booking;
    PlacedAppend(s, Facilities, 0);
    s := s + Facilities;
    PlacedAppend(s, Safety, 0);
    s := s + Safety;
    PlacedAppend(s, Additional, 0);
  }

  /** The library's e-mail and URL format checks. */
  datatype Formats = Formats(isEmail: string -> bool, isUrl: string -> bool)

  /** Both format checks refuse the empty string. */
  predicate RefusesEmpty(formats: Formats)
  {
    !formats.isEmail("") && !formats.isUrl("")
  }

  /** The kinds of rule the schema uses: `min(n)`, `email()`, `url().optional()`
      and a bare `optional()` string. */
  datatype Rule = MinLength(n: nat) | EmailFormat | UrlIfPresent | Unchecked

  /** The schema, field by field. */
  function RuleOf(f: FieldName): (r: Rule)
    ensures r.MinLength? ==> r.n >= 1
  {
    match f
    case SalonName => MinLength(2)
    case Address => MinLength(5)
    case City => MinLength(2)
    case State => MinLength(2)
    case ZipCode => MinLength(5)
    case Phone => MinLength(10)
    case Email => EmailFormat
    case Website => UrlIfPresent
    case OperatingHours => MinLength(1)
    case GoogleMapsLink => UrlIfPresent
    case ServiceCategories => MinLength(1)
    case ServiceList => MinLength(1)
    case PriceRange => MinLength(1)
    case Description => MinLength(10)
    case BookingPolicy => MinLength(1)
    case CancellationPolicy => MinLength(1)
    case PaymentMethods => MinLength(1)
    case HygieneMeasures => MinLength(1)
    case _ => Unchecked
  }

  /** The value a field holds; required fields always hold one. */
  function Value(form: ListingForm, f: FieldName): (v: Option<string>)
    ensures !RuleOf(f).Unchecked? && !RuleOf(f).UrlIfPresent? ==> v.Some?
  {
    match f
    case SalonName => Some(form.salonName)
    case Address => Some(form.address)
    case City => Some(form.city)
    case State => Some(form.state)
    case ZipCode => Some(form.zipCode)
    case Phone => Some(form.phone)
    case Email => Some(form.email)
    case Website => form.website
    case SocialMedia => form.socialMedia
    case OperatingHours => Some(form.operatingHours)
    case GoogleMapsLink => form.googleMapsLink
    case ServiceCategories => Some(form.serviceCategories)
    case ServiceList => Some(form.serviceList)
    case PriceRange => Some(form.priceRange)
    case CustomPackages => form.customPackages
    case StaffProfiles => form.staffProfiles
    case Certifications => form.certifications
    case SpecialtyServices => form.specialtyServices
    case Description => Some(form.description)
    case BookingPolicy => Some(form.bookingPolicy)
    case CancellationPolicy => Some(form.cancellationPolicy)
    case ParkingInfo => form.parkingInfo
    case Accessibility => form.accessibility
    case PaymentMethods => Some(form.paymentMethods)
    case HygieneMeasures => Some(form.hygieneMeasures)
    case CovidPrecautions => form.covidPrecautions
    case Brands => form.brands
    case AdditionalFacilities => form.additionalFacilities
    case LoyaltyProgram => form.loyaltyProgram
  }

  /** The schema's verdict on one field. */
  predicate FieldAccepts(form: ListingForm, f: FieldName, formats: Formats)
  {
    var v := Value(form, f);
    match RuleOf(f)
    case MinLength(n) => v.Some? && |v.value| >= n
    case EmailFormat => v.Some? && formats.isEmail(v.value)
    case UrlIfPresent => v.None? || formats.isUrl(v.value)
    case Unchecked => true
  }

  /** An optional URL: undefined, or a well-formed URL. */
  predicate OptionalUrl(x: Option<string>, formats: Formats)
  {
    x.None? || formats.isUrl(x.value)
  }

  /** The message the schema attaches to a failing field. */
  function Message(f: FieldName): string
  {
    match f
    case SalonName => "Salon name must be at least 2 characters."
    case Address => "Address must be at least 5 characters."
    case City => "City is required"
    case State => "State is required"
    case ZipCode => "Valid ZIP code is required"
    case Phone => "Valid phone number is required"
    case Email => "Valid email is required"
    case OperatingHours => "Operating hours are required"
    case ServiceCategories => "At least one service category is required"
    case ServiceList => "Service list is required"
    case PriceRange => "Price range is required"
    case Description => "Description must be at least 10 characters"
    case BookingPolicy => "Booking policy is required"
    case CancellationPolicy => "Cancellation policy is required"
    case PaymentMethods => "Payment methods are required"
    case HygieneMeasures => "Hygiene measures are required"
    case _ => "Invalid url"
  }

  /** Fields listed in strictly increasing schema place: in schema order,
      none twice. */
  predicate InSchemaOrder(xs: seq<FieldName>)
  {
    forall i, j :: 0 <= i < j < |xs| ==> Position(xs[i]) < Position(xs[j])
  }

  function FailingAmong(form: ListingForm, fields: seq<FieldName>, formats: Formats): (r: seq<FieldName>)
    ensures forall f :: f in r <==> f in fields && !FieldAccepts(form, f, formats)
  {
    if fields == [] then []
    else (if FieldAccepts(form, fields[0], formats) then [] else [fields[0]])
         + FailingAmong(form, fields[1..], formats)
  }

  /** Dropping the accepted fields keeps the others in their order. */
  lemma {:induction false} FailingAmongInOrder(form: ListingForm, fields: seq<FieldName>, formats: Formats)
    requires InSchemaOrder(fields)
    ensures InSchemaOrder(FailingAmong(form, fields, formats))
  {
    if fields != [] {
      var rest := FailingAmong(form, fields[1..], formats);
      FailingAmongInOrder(form, fields[1..], formats);
      FailingAmongAfter(form, fields, formats);
      if !FieldAccepts(form, fields[0], formats) {
        ConsInSchemaOrder(fields[0], rest);
      } else {
        assert FailingAmong(form, fields, formats) == rest;
      }
    }
  }

  /** What is kept from a list's tail comes after its head. */
  lemma FailingAmongAfter(form: ListingForm, fields: seq<FieldName>, formats: Formats)
    requires fields != [] && InSchemaOrder(fields)
    ensures forall f :: f in FailingAmong(form, fields[1..], formats) ==> Position(fields[0]) < Position(f)
  {
    forall f | f in FailingAmong(form, fields[1..], formats) ensures Position(fields[0]) < Position(f) {
      var m :| 0 <= m < |fields[1..]| && fields[1..][m] == f;
      assert fields[m + 1] == f;
    }
  }

  lemma ConsInSchemaOrder(x: FieldName, rest: seq<FieldName>)
    requires InSchemaOrder(rest)
    requires forall f :: f in rest ==> Position(x) < Position(f)
    ensures InSchemaOrder([x] + rest)
  {
    var r := [x] + rest;
    forall i, j | 0 <= i < j < |r| ensures Position(r[i]) < Position(r[j]) {
      assert r[j] == rest[j - 1];
      if i > 0 {
        assert r[i] == rest[i - 1];
      }
    }
  }

  /** The fields the schema reports: exactly the failing ones, in schema
      order, each once. */
  function Issues(form: ListingForm, formats: Formats): (r: seq<FieldName>)
    ensures forall f :: f in r <==> !FieldAccepts(form, f, formats)
    ensures InSchemaOrder(r)
  {
    SchemaListsEveryField();
    SchemaPlaced();
    FailingAmongInOrder(form, SchemaOrder, formats);
    FailingAmong(form, SchemaOrder, formats)
  }

  /** The messages shown for a submitted form: the message of every failing
      field and of no other, one per reported field, in schema order. */
  function ErrorMessages(form: ListingForm, formats: Formats): (r: seq<string>)
    ensures |r| == |Issues(form, formats)|
    ensures forall k :: 0 <= k < |r| ==> r[k] == Message(Issues(form, formats)[k])
    ensures forall f :: !FieldAccepts(form, f, formats) ==> Message(f) in r
    ensures forall m :: m in r ==> exists f :: !FieldAccepts(form, f, formats) && m == Message(f)
  {
    var issues := Issues(form, formats);
    var r := seq(|issues|, k requires 0 <= k < |issues| => Message(issues[k]));
    MessagesOf(issues, r);
    r
  }

  /** A list of messages taken field by field holds the message of each listed
      field, and only those. */
  lemma MessagesOf(fields: seq<FieldName>, r: seq<string>)
    requires |r| == |fields| && forall k :: 0 <= k < |r| ==> r[k] == Message(fields[k])
    ensures forall f :: f in fields ==> Message(f) in r
    ensures forall m :: m in r ==> exists f :: f in fields && m == Message(f)
  {
    forall f | f in fields ensures Message(f) in r {
      var k :| 0 <= k < |fields| && fields[k] == f;
      assert r[k] == Message(f);
    }
    forall m | m in r ensures exists f :: f in fields && m == Message(f) {
      var k :| 0 <= k < |r| && r[k] == m;
      assert fields[k] in fields;
    }
  }

  /** Submitting the untouched form first reports the salon name's length. */
  lemma DefaultsFirstMessage(formats: Formats)
    ensures ErrorMessages(Defaults, formats) != []
    ensures ErrorMessages(Defaults, formats)[0] == "Salon name must be at least 2 characters."
  {
    assert SchemaOrder[0] == SalonName;
    assert !FieldAccepts(Defaults, SalonName, formats);
    assert Issues(Defaults, formats)[0] == SalonName;
  }

  lemma SchemaListsEveryField()
    ensures forall f :: f in SchemaOrder
  {
    forall f ensures f in SchemaOrder {
      EveryFieldInSchema(f);
    }
  }

  lemma EveryFieldInSchema(f: FieldName)
    ensures f in SchemaOrder
  {
    PositionInSchema(f);
  }

  /** The form is submitted only when the schema reports nothing. */
  predicate Accepts(form: ListingForm, formats: Formats)
  {
    Issues(form, formats) == []
  }

  /** The form is accepted iff every field passes its rule. */
  lemma AcceptsEveryField(form: ListingForm, formats: Formats)
    ensures Accepts(form, formats) <==> forall f :: FieldAccepts(form, f, formats)
  {
    var r := Issues(form, formats);
    if r != [] {
      assert r[0] in r;
    }
  }

  /** The schema's rules written out: only lengths are checked (no digits
      for the phone or ZIP code), and the optional free-text fields play no part. */
  predicate MeetsSchema(form: ListingForm, formats: Formats)
  {
    && |form.salonName| >= 2 && |form.city| >= 2 && |form.state| >= 2
    && |form.address| >= 5 && |form.zipCode| >= 5 && |form.phone| >= 10
    && |form.description| >= 10
    && formats.isEmail(form.email)
    && OptionalUrl(form.website, formats) && OptionalUrl(form.googleMapsLink, formats)
    && form.operatingHours != "" && form.serviceCategories != ""
    && form.serviceList != "" && form.priceRange != ""
    && form.bookingPolicy != "" && form.cancellationPolicy != ""
    && form.paymentMethods != "" && form.hygieneMeasures != ""
  }

  lemma MeetsSchemaField(form: ListingForm, formats: Formats, f: FieldName)
    requires MeetsSchema(form, formats)
    ensures FieldAccepts(form, f, formats)
  {
    match f
    case SalonName =>
    case Address =>
    case City =>
    case State =>
    case ZipCode =>
    case Phone =>
    case Email =>
    case Website =>
    case SocialMedia =>
    case OperatingHours =>
    case GoogleMapsLink =>
    case ServiceCategories =>
    case ServiceList =>
    case PriceRange =>
    case CustomPackages =>
    case StaffProfiles =>
    case Certifications =>
    case SpecialtyServices =>
    case Description =>
    case BookingPolicy =>
    case CancellationPolicy =>
    case ParkingInfo =>
    case Accessibility =>
    case PaymentMethods =>
    case HygieneMeasures =>
    case CovidPrecautions =>
    case Brands =>
    case AdditionalFacilities =>
    case LoyaltyProgram =>
  }

  /** The schema accepts a form exactly when its rules, written out, hold. */
  lemma AcceptsExactly(form: ListingForm, formats: Formats)
    ensures Accepts(form, formats) <==> MeetsSchema(form, formats)
  {
    AcceptsEveryField(form, formats);
    if MeetsSchema(form, formats) {
      forall f ensures FieldAccepts(form, f, formats) {
        MeetsSchemaField(form, formats, f);
      }
    }
    if Accepts(form, formats) {
      FieldsMeetSchema(form, formats);
    }
  }

  lemma FieldsMeetSchema(form: ListingForm, formats: Formats)
    requires forall f :: FieldAccepts(form, f, formats)
    ensures MeetsSchema(form, formats)
  {
    LengthRulesWrittenOut(form, formats);
    FormatRulesWrittenOut(form, formats);
    PresenceRulesWrittenOut(form, formats);
    PolicyRulesWrittenOut(form, formats);
    assert FieldAccepts(form, SalonName, formats) && FieldAccepts(form, City, formats);
    assert FieldAccepts(form, State, formats) && FieldAccepts(form, Address, formats);
    assert FieldAccepts(form, ZipCode, formats) && FieldAccepts(form, Phone, formats);
    assert FieldAccepts(form, Description, formats) && FieldAccepts(form, Email, formats);
    assert FieldAccepts(form, Website, formats) && FieldAccepts(form, GoogleMapsLink, formats);
    assert FieldAccepts(form, OperatingHours, formats) && FieldAccepts(form, ServiceCategories, formats);
    assert FieldAccepts(form, ServiceList, formats) && FieldAccepts(form, PriceRange, formats);
    assert FieldAccepts(form, BookingPolicy, formats) && FieldAccepts(form, CancellationPolicy, formats);
    assert FieldAccepts(form, PaymentMethods, formats) && FieldAccepts(form, HygieneMeasures, formats);
  }

  /** The minimum lengths, written out: nothing but the length is checked. */
  lemma LengthRulesWrittenOut(form: ListingForm, formats: Formats)
    ensures FieldAccepts(form, SalonName, formats) <==> |form.salonName| >= 2
    ensures FieldAccepts(form, City, formats) <==> |form.city| >= 2
    ensures FieldAccepts(form, State, formats) <==> |form.state| >= 2
    ensures FieldAccepts(form, Address, formats) <==> |form.address| >= 5
    ensures FieldAccepts(form, ZipCode, formats) <==> |form.zipCode| >= 5
    ensures FieldAccepts(form, Phone, formats) <==> |form.phone| >= 10
    ensures FieldAccepts(form, Description, formats) <==> |form.description| >= 10
  {
  }

  /** The format rules, written out: the e-mail must be one, the two links
      may be left undefined. */
  lemma FormatRulesWrittenOut(form: ListingForm, formats: Formats)
    ensures FieldAccepts(form, Email, formats) <==> formats.isEmail(form.email)
    ensures FieldAccepts(form, Website, formats) <==> OptionalUrl(form.website, formats)
    ensures FieldAccepts(form, GoogleMapsLink, formats) <==> OptionalUrl(form.googleMapsLink, formats)
  {
  }

  /** The required service fields, written out: each must be non-empty. */
  lemma PresenceRulesWrittenOut(form: ListingForm, formats: Formats)
    ensures FieldAccepts(form, OperatingHours, formats) <==> form.operatingHours != ""
    ensures FieldAccepts(form, ServiceCategories, formats) <==> form.serviceCategories != ""
    ensures FieldAccepts(form, ServiceList, formats) <==> form.serviceList != ""
    ensures FieldAccepts(form, PriceRange, formats) <==> form.priceRange != ""
  {
  }

  /** The required policy fields, written out: each must be non-empty. */
  lemma PolicyRulesWrittenOut(form: ListingForm, formats: Formats)
    ensures FieldAccepts(form, BookingPolicy, formats) <==> form.bookingPolicy != ""
    ensures FieldAccepts(form, CancellationPolicy, formats) <==> form.cancellationPolicy != ""
    ensures FieldAccepts(form, PaymentMethods, formats) <==> form.paymentMethods != ""
    ensures FieldAccepts(form, HygieneMeasures, formats) <==> form.hygieneMeasures != ""
  {
  }

  /** The optional free-text fields: a bare `optional()` string. */
  predicate FreeText(f: FieldName)
  {
    RuleOf(f).Unchecked?
  }

  /** The optional free-text fields are never reported, and changing them all
      never changes the verdict. */
  lemma FreeTextIrrelevant(form: ListingForm, formats: Formats, t: Option<string>)
    ensures forall f :: FreeText(f) ==> f !in Issues(form, formats)
    ensures Accepts(form, formats) <==> Accepts(form.(
      socialMedia := t, customPackages := t, staffProfiles := t, certifications := t,
      specialtyServices := t, parkingInfo := t, accessibility := t, covidPrecautions := t,
      brands := t, additionalFacilities := t, loyaltyProgram := t), formats)
  {
    AcceptsExactly(form, formats);
    AcceptsExactly(form.(
      socialMedia := t, customPackages := t, staffProfiles := t, certifications := t,
      specialtyServices := t, parkingInfo := t, accessibility := t, covidPrecautions := t,
      brands := t, additionalFacilities := t, loyaltyProgram := t), formats);
  }

  /** `defaultValues`: every field the empty string. */
  const Defaults: ListingForm := ListingForm(
    "", "", "", "", "", "", "", Some(""), Some(""), "", Some(""), "", "", "", Some(""),
    Some(""), Some(""), Some(""), "", "", "", Some(""), Some(""), "", "", Some(""),
    Some(""), Some(""), Some(""))

  /** The untouched form is rejected; with format checks that refuse the empty
      string, every field except the free-text ones is reported. */
  lemma DefaultsRejected(formats: Formats)
    ensures SalonName in Issues(Defaults, formats) && Description in Issues(Defaults, formats)
    ensures !Accepts(Defaults, formats)
    ensures RefusesEmpty(formats) ==>
      forall f :: f in Issues(Defaults, formats) <==> !FreeText(f)
  {
    assert !FieldAccepts(Defaults, SalonName, formats);
    assert !FieldAccepts(Defaults, Description, formats);
    if RefusesEmpty(formats) {
      forall f ensures f in Issues(Defaults, formats) <==> !FreeText(f) {
        DefaultFieldVerdict(formats, f);
      }
    }
  }

  /** With format checks that refuse the empty string, a field at its default
      passes exactly when it is free text. */
  lemma DefaultFieldVerdict(formats: Formats, f: FieldName)
    requires RefusesEmpty(formats)
    ensures FieldAccepts(Defaults, f, formats) <==> FreeText(f)
  {
    assert Value(Defaults, f) == Some("");
  }

  /** A form whose only edits went through the sixteen inputs the page
      renders: every other field still holds its default. */
  predicate FilledThroughPage(form: ListingForm)
  {
    form == Defaults.(
      salonName := form.salonName, email := form.email, phone := form.phone,
      address := form.address, city := form.city, state := form.state, zipCode := form.zipCode,
      operatingHours := form.operatingHours, serviceCategories := form.serviceCategories,
      serviceList := form.serviceList, priceRange := form.priceRange,
      staffProfiles := form.staffProfiles, certifications := form.certifications,
      bookingPolicy := form.bookingPolicy, hygieneMeasures := form.hygieneMeasures,
      paymentMethods := form.paymentMethods)
  }

  /** A field left at "" is reported when its rule asks for a length, or asks
      for a format that refuses the empty string. */
  lemma EmptyValueReported(form: ListingForm, f: FieldName, formats: Formats)
    requires Value(form, f) == Some("")
    requires RuleOf(f).MinLength? || (RefusesEmpty(formats) && !RuleOf(f).Unchecked?)
    ensures f in Issues(form, formats)
  {
    assert !FieldAccepts(form, f, formats);
  }

  /** `description` and `cancellationPolicy` have no input and default to "", so
      a form filled through the page is always rejected. */
  lemma PageFormNeverAccepted(form: ListingForm, formats: Formats)
    requires FilledThroughPage(form)
    ensures Description in Issues(form, formats) && CancellationPolicy in Issues(form, formats)
    ensures !Accepts(form, formats)
    ensures RefusesEmpty(formats) ==> Website in Issues(form, formats) && GoogleMapsLink in Issues(form, formats)
  {
    assert Value(form, Description) == Some("") && RuleOf(Description) == MinLength(10);
    assert Value(form, CancellationPolicy) == Some("") && RuleOf(CancellationPolicy) == MinLength(1);
    assert Value(form, Website) == Some("") && RuleOf(Website) == UrlIfPresent;
    assert Value(form, GoogleMapsLink) == Some("") && RuleOf(GoogleMapsLink) == UrlIfPresent;
    EmptyValueReported(form, Description, formats);
    EmptyValueReported(form, CancellationPolicy, formats);
    if RefusesEmpty(formats) {
      EmptyValueReported(form, Website, formats);
      EmptyValueReported(form, GoogleMapsLink, formats);
    }
  }
}

/** The record normalisation and status check of `fetchDoctors`. The request
    itself and JSON parsing are not modelled: the response arrives as its status
    code and the parsed array, each element a record whose fields may be absent. */
module DoctorService {
  import opened Wrappers
  import opened DoctorTypes

  /** A loosely-typed element of the JSON array. None stands for a field that is
      absent, `null` or `undefined`. */
  datatype RawAddress = RawAddress(locality: Option<string>, city: Option<string>,
                                   addressLine1: Option<string>, location: Option<string>,
                                   logoUrl: Option<string>)

  datatype RawClinic = RawClinic(name: Option<string>, address: Option<RawAddress>)

  datatype RawDoctor = RawDoctor(
    id: Option<string>,
    name: Option<string>,
    nameInitials: Option<string>,
    photo: Option<string>,
    doctorIntroduction: Option<string>,
    specialities: Option<seq<Speciality>>,
    fees: Option<string>,
    experience: Option<ExperienceValue>,
    languages: Option<seq<string>>,
    clinic: Option<RawClinic>,
    videoConsult: Option<bool>,
    inClinic: Option<bool>)

  datatype Response = Response(status: int, body: seq<RawDoctor>)

  /** The error thrown for a non-OK status ("API request failed with status ..."). */
  datatype FetchError = RequestFailed(status: int)

  const DefaultFees: string := "₹ 0"
  const DefaultExperience: string := "0 Years of experience"

  /** JavaScript truthiness of the values that can occur in each field. Arrays and
      objects are always truthy. */
  predicate TruthyString(v: Option<string>) {
    v.Some? && v.value != ""
  }

  predicate TruthyExperience(v: Option<ExperienceValue>) {
    match v
    case None => false
    case Some(Number(n)) => n != 0
    case Some(Text(t)) => t != ""
  }

  /** `v || dflt` for a string field: the result is empty only when both are. */
  function OrString(v: Option<string>, dflt: string): (r: string)
    ensures TruthyString(v) ==> r == v.value
    ensures !TruthyString(v) ==> r == dflt
    ensures r == "" <==> !TruthyString(v) && dflt == ""
  {
    match v
    case Some(s) => if s != "" then s else dflt
    case None => dflt
  }

  /** `v || false`. */
  function OrFalse(v: Option<bool>): (r: bool)
    ensures r <==> v == Some(true)
  {
    match v
    case Some(b) => b
    case None => false
  }

  function OrEmptySeq<T>(v: Option<seq<T>>): (r: seq<T>)
    ensures v.Some? ==> r == v.value
    ensures v.None? ==> r == []
  {
    match v
    case Some(s) => s
    case None => []
  }

  /** `item.experience || "0 Years of experience"`: the field is always truthy
      afterwards, so the defaulting is not repeated downstream. */
  function OrExperience(v: Option<ExperienceValue>): (r: ExperienceValue)
    ensures TruthyExperience(v) ==> r == v.value
    ensures !TruthyExperience(v) ==> r == Text(DefaultExperience)
    ensures TruthyExperience(Some(r))
  {
    if TruthyExperience(v) then v.value else Text(DefaultExperience)
  }

  /** The object literal built for one element: `item.clinic?.address?.city || ""` and so on. */
  function NormalizeAddress(a: Option<RawAddress>): Address {
    match a
    case None => Address("", "", "", "", "")
    case Some(r) => Address(OrString(r.locality, ""), OrString(r.city, ""),
                            OrString(r.addressLine1, ""), OrString(r.location, ""),
                            OrString(r.logoUrl, ""))
  }

  function NormalizeClinic(c: Option<RawClinic>): Clinic {
    match c
    case None => Clinic("", NormalizeAddress(None))
    case Some(r) => Clinic(OrString(r.name, ""), NormalizeAddress(r.address))
  }

  /** One record of the result: each truthy input field copied unchanged, each
      falsy or absent one replaced by its default. */
  function Normalize(item: RawDoctor): (d: Doctor)
    ensures d.id == (if TruthyString(item.id) then item.id.value else "")
    ensures d.name == (if TruthyString(item.name) then item.name.value else "")
    ensures d.nameInitials == (if TruthyString(item.nameInitials) then item.nameInitials.value else "")
    ensures d.photo == (if TruthyString(item.photo) then item.photo.value else "")
    ensures d.doctorIntroduction ==
              (if TruthyString(item.doctorIntroduction) then item.doctorIntroduction.value else "")
    ensures d.specialities == (if item.specialities.Some? then item.specialities.value else [])
    ensures d.fees == (if TruthyString(item.fees) then item.fees.value else "₹ 0")
    ensures d.experience ==
              (if TruthyExperience(item.experience) then item.experience.value
               else Text("0 Years of experience"))
    ensures d.languages == (if item.languages.Some? then item.languages.value else [])
    ensures d.videoConsult <==> item.videoConsult == Some(true)
    ensures d.inClinic <==> item.inClinic == Some(true)
    ensures item.clinic.None? ==> d.clinic == Clinic("", Address("", "", "", "", ""))
    ensures item.clinic.Some? ==>
              d.clinic.name == (if TruthyString(item.clinic.value.name) then item.clinic.value.name.value else "")
    ensures item.clinic.Some? && item.clinic.value.address.None? ==>
              d.clinic.address == Address("", "", "", "", "")
    ensures item.clinic.Some? && item.clinic.value.address.Some? ==>
              var a := item.clinic.value.address.value;
              && d.clinic.address.locality == (if TruthyString(a.locality) then a.locality.value else "")
              && d.clinic.address.city == (if TruthyString(a.city) then a.city.value else "")
              && d.clinic.address.addressLine1 == (if TruthyString(a.addressLine1) then a.addressLine1.value else "")
              && d.clinic.address.location == (if TruthyString(a.location) then a.location.value else "")
              && d.clinic.address.logoUrl == (if TruthyString(a.logoUrl) then a.logoUrl.value else "")
    ensures IsNormalized(d)
  {
    Doctor(
      OrString(item.id, ""),
      OrString(item.name, ""),
      OrString(item.nameInitials, ""),
      OrString(item.photo, ""),
      OrString(item.doctorIntroduction, ""),
      OrEmptySeq(item.specialities),
      OrString(item.fees, DefaultFees),
      OrExperience(item.experience),
      OrEmptySeq(item.languages),
      NormalizeClinic(item.clinic),
      OrFalse(item.videoConsult),
      OrFalse(item.inClinic))
  }

  /** `data.map(item => ({ ... }))`. */
  function NormalizeAll(data: seq<RawDoctor>): (r: seq<Doctor>)
    ensures |r| == |data|
    ensures forall i :: 0 <= i < |data| ==> r[i] == Normalize(data[i])
  {
    if data == [] then [] else [Normalize(data[0])] + NormalizeAll(data[1..])
  }

  /** `fetchDoctors` once the response is in: a non-OK status (outside 200-299)
      is an error carrying the status; otherwise the normalised array. */
  function FetchDoctors(response: Response): (r: Result<seq<Doctor>, FetchError>)
    ensures r.Failure? <==> !(200 <= response.status <= 299)
    ensures r.Failure? ==> r.error == RequestFailed(response.status)
    ensures r.Success? ==> |r.value| == |response.body|
    ensures r.Success? ==> forall i :: 0 <= i < |response.body| ==> r.value[i] == Normalize(response.body[i])
  {
    if 200 <= response.status <= 299 then Success(NormalizeAll(response.body))
    else Failure(RequestFailed(response.status))
  }

  /** The downstream invariant of a normalised record: every field present, fees
      non-empty and experience truthy. */
  predicate IsNormalized(d: Doctor) {
    d.fees != "" && d.experience != Number(0) && d.experience != Text("")
  }

  /** A normalised record written back as a raw one, every field present. */
  function Lift(d: Doctor): RawDoctor {
    var a := d.clinic.address;
    RawDoctor(Some(d.id), Some(d.name), Some(d.nameInitials), Some(d.photo),
              Some(d.doctorIntroduction), Some(d.specialities), Some(d.fees),
              Some(d.experience), Some(d.languages),
              Some(RawClinic(Some(d.clinic.name),
                             Some(RawAddress(Some(a.locality), Some(a.city),
                                             Some(a.addressLine1), Some(a.location),
                                             Some(a.logoUrl))))),
              Some(d.videoConsult), Some(d.inClinic))
  }

  /** Normalisation maps a fully present record back to itself exactly when that
      record already satisfies the invariant: falsy strings other than fees read
      as "" again, but empty fees and falsy experience are replaced. */
  lemma NormalizeLiftRoundTrip(d: Doctor)
    ensures Normalize(Lift(d)) == d <==> IsNormalized(d)
  {
  }

  /** Normalising twice changes nothing more than normalising once. */
  lemma NormalizeIdempotent(item: RawDoctor)
    ensures Normalize(Lift(Normalize(item))) == Normalize(item)
  {
    NormalizeLiftRoundTrip(Normalize(item));
  }
}

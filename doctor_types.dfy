/** The records and enums of the doctor directory. Field names follow the
    JSON keys in camelCase (`video_consult` is `videoConsult`). */
module DoctorTypes {
  import opened Wrappers

  datatype Speciality = Speciality(name: string)

  /** `experience: string | number`; numbers are modelled as integers. */
  datatype ExperienceValue = Number(years: int) | Text(text: string)

  datatype Address = Address(locality: string, city: string, addressLine1: string,
                             location: string, logoUrl: string)

  datatype Clinic = Clinic(name: string, address: Address)

  datatype Doctor = Doctor(
    id: string,
    name: string,
    nameInitials: string,
    photo: string,
    doctorIntroduction: string,
    specialities: seq<Speciality>,
    fees: string,
    experience: ExperienceValue,
    languages: seq<string>,
    clinic: Clinic,
    videoConsult: bool,
    inClinic: bool)

  /** A string enum: at run time each member is its wire string. */
  datatype ConsultationMode = Video | InClinic {
    function Wire(): (w: string)
      ensures w != ""
    {
      match this
      case Video => "Video Consult"
      case InClinic => "In Clinic"
    }
  }

  datatype SortOption = Fees | Experience {
    function Wire(): (w: string)
      ensures w != ""
    {
      match this
      case Fees => "fees"
      case Experience => "experience"
    }
  }

  /** Distinct enum members have distinct wire strings, so the wire string
      identifies the member. */
  lemma WiresDistinct(m1: ConsultationMode, m2: ConsultationMode, o1: SortOption, o2: SortOption)
    ensures m1.Wire() == m2.Wire() <==> m1 == m2
    ensures o1.Wire() == o2.Wire() <==> o1 == o2
  {
  }

  /** The page's filter state. `consultationMode` and `sortBy` hold the string the
      page holds at run time (None is `null`): the URL decoder casts without
      checking, so a value outside the enum can reach them. */
  datatype FilterState = FilterState(
    searchQuery: string,
    consultationMode: Option<string>,
    specialties: seq<string>,
    sortBy: Option<string>)

  /** The declared type of `FilterState`: each optional field is null or a member's wire string. */
  predicate WellTyped(f: FilterState) {
    && f.consultationMode in {None, Some(Video.Wire()), Some(InClinic.Wire())}
    && f.sortBy in {None, Some(Fees.Wire()), Some(Experience.Wire())}
  }

  /** `{id, name}` of one doctor, `id` typed as `Doctor.id`. */
  datatype SearchSuggestion = SearchSuggestion(id: string, name: string)
}

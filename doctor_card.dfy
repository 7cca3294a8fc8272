/** The derived values a doctor card shows. */
module DoctorCard {
  import opened Wrappers
  import opened Strings
  import opened DoctorTypes
  import DoctorService

  /** `getExperienceYears`: a number is shown as it is; a string shows the decimal
      value of its first run of digits, or 0 when it has none. */
  function ExperienceYears(experience: ExperienceValue): (years: int)
    ensures experience.Number? ==> years == experience.years
    ensures experience.Text? ==> years >= 0
    ensures experience.Text? && FirstDigitRun(experience.text).None? ==> years == 0
  {
    match experience
    case Number(n) => n
    case Text(s) =>
      match FirstDigitRun(s)
      case Some(run) => DecimalValue(run)
      case None => 0
  }

  /** A text made of a digit-free prefix, a digit run and a rest that does not
      continue the run shows the value of that run. */
  lemma ExperienceYearsOfRun(prefix: string, digits: string, rest: string)
    requires forall k :: 0 <= k < |prefix| ==> !IsDigit(prefix[k])
    requires digits != [] && AllDigits(digits)
    requires rest == [] || !IsDigit(rest[0])
    ensures ExperienceYears(Text(prefix + digits + rest)) == DecimalValue(digits)
  {
    FirstDigitRunOf(prefix, digits, rest);
  }

  /** "10 Years of experience" is shown as 10 years. */
  lemma TenYearsOfExperience()
    ensures ExperienceYears(Text("10 Years of experience")) == 10
  {
    assert "10 Years of experience" == "" + "10" + " Years of experience";
    ExperienceYearsOfRun("", "10", " Years of experience");
  }

  /** The primary specialty: the name of the first entry, shown only when the
      list is non-empty. */
  function PrimarySpecialty(d: Doctor): (r: Option<string>)
    ensures r.Some? <==> |d.specialities| > 0
    ensures r.Some? ==> r.value == d.specialities[0].name
  {
    if |d.specialities| > 0 then Some(d.specialities[0].name) else None
  }

  /** A doctor whose record had no truthy experience gets the service's default
      text, which the card shows as 0 years. */
  lemma FalsyExperienceShowsZero(v: Option<ExperienceValue>)
    requires !DoctorService.TruthyExperience(v)
    ensures ExperienceYears(DoctorService.OrExperience(v)) == 0
  {
    assert DoctorService.DefaultExperience == "" + "0" + " Years of experience";
    FirstDigitRunOf("", "0", " Years of experience");
  }
}

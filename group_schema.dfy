/** The study-group enumerations of the `StudyGroup` schema: the domains
    a group can be about and the levels it can be at. */
module GroupSchema {
  import opened Common

  datatype Domain = AI | ML | Cyber

  datatype Level = Beginner | Intermediate | Advanced

  function DomainName(d: Domain): string
  {
    match d
    case AI => "AI"
    case ML => "ML"
    case Cyber => "Cyber"
  }

  function LevelName(l: Level): string
  {
    match l
    case Beginner => "Beginner"
    case Intermediate => "Intermediate"
    case Advanced => "Advanced"
  }

  /** The schema's enum check for `domain`: only the three names pass. */
  function ParseDomain(s: string): (r: Option<Domain>)
    ensures r.Some? <==> s == "AI" || s == "ML" || s == "Cyber"
    ensures r.Some? ==> DomainName(r.value) == s
  {
    if s == "AI" then Some(AI)
    else if s == "ML" then Some(ML)
    else if s == "Cyber" then Some(Cyber)
    else None
  }

  /** The schema's enum check for `level`: only the three names pass. */
  function ParseLevel(s: string): (r: Option<Level>)
    ensures r.Some? <==> s == "Beginner" || s == "Intermediate" || s == "Advanced"
    ensures r.Some? ==> LevelName(r.value) == s
  {
    if s == "Beginner" then Some(Beginner)
    else if s == "Intermediate" then Some(Intermediate)
    else if s == "Advanced" then Some(Advanced)
    else None
  }

  /** Every domain's name passes the enum check and names that domain. */
  lemma DomainRoundTrip(d: Domain)
    ensures ParseDomain(DomainName(d)) == Some(d)
  {
  }

  /** Every level's name passes the enum check and names that level. */
  lemma LevelRoundTrip(l: Level)
    ensures ParseLevel(LevelName(l)) == Some(l)
  {
  }
}

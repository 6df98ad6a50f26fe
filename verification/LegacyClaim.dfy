/** The one-time assignment of data from before accounts existed to one named account. */
module LegacyClaim {
  import opened Prelude

  // ---- the database ----

  datatype Value = Text(text: string) | Flag(flag: bool)

  /** Columns of the per-account rows and of an education entry. A null column is absent from the record. */
  datatype Column =
    | LegalFirstName | MiddleName | LegalLastName | PreferredName | ApplicationEmail | AlternateEmail
    | Phone | PhoneCountryCode | AddressLine1 | AddressLine2 | City | State | PostalCode | Country
    | LinkedinUrl | GithubUrl | PortfolioUrl
    | WillingToRelocate | RemotePreference | EarliestStartDate | SalaryPreference | HasDriversLicense
    | SecurityClearanceStatus | UsualJobSource | RequiresSponsorshipNow
    | LegallyAuthorizedToWork | MayRequireSponsorshipLater
    | Gender | RaceEthnicity | VeteranStatus | DisabilityStatus | Pronouns | DeclineDemographics
    | School | Degree | Major | Minor | Gpa | EducationLevel | RelevantCoursework
    | StartYear | StartMonth | GraduationYear | GraduationMonth

  type Record = map<Column, Value>

  /** Columns of the singleton profile, as far as they are copied. */
  datatype Old =
    | OldFirstName | OldMiddleName | OldLastName | OldPreferredName | OldEmail | OldApplicationEmail | OldAlternateEmail
    | OldPhone | OldPhoneCountryCode | OldStreet | OldLine2 | OldCity | OldState | OldZip | OldCountry
    | OldLinkedin | OldGithub | OldPortfolio | OldWebsite
    | OldRelocate | OldRemote | OldStartDate | OldSalary | OldDriversLicense | OldClearance | OldReferral
    | OldSponsorship
    | OldGender | OldRace | OldVeteran | OldDisability | OldPronouns
    | OldSchool | OldDegreeType | OldMajor | OldMinor | OldGpa | OldEducationLevel | OldCoursework
    | OldEducationStart | OldGraduation

  type Singleton = map<Old, Value>

  /** The three one-row-per-account tables the singleton is split into. */
  datatype Section = Profile | Preferences | Sensitive

  datatype Content = Data(data: string) | Entry(columns: Record)

  /** `unique` is the row's value under the table's unique constraint next to `userId`, when the table has one. */
  datatype PrivateRow = PrivateRow(owner: Option<string>, unique: Option<string>, content: Content)

  type Table = map<string, PrivateRow>

  datatype Job = Job(id: string, status: string, matchScore: Option<int>, eligibility: Option<string>)

  datatype JobState = JobState(status: string, matchScore: Option<int>, eligibility: Option<string>)

  /** What the script writes: the fifteen claimable tables, the tracker states, the per-account rows. */
  datatype Db = Db(tables: seq<Table>, states: map<(string, string), JobState>,
      sections: map<(Section, string), Record>)

  /** What it only reads, and the account it was given. */
  datatype Legacy = Legacy(target: string, jobs: seq<Job>, singleton: Option<Singleton>)

  const CLAIMABLE := 15

  /** The position of `education` among the claimable tables. */
  const EDUCATION := 11

  /** The unique constraint over owner and value. As in PostgreSQL, rows without an owner never collide. */
  predicate Unique(table: Table) {
    forall j, k :: j in table && k in table && j != k && table[j].owner.Some? && table[j].unique.Some?
      ==> table[j].owner != table[k].owner || table[j].unique != table[k].unique
  }

  ghost predicate Valid(db: Db) {
    |db.tables| == CLAIMABLE && forall t :: 0 <= t < CLAIMABLE ==> Unique(db.tables[t])
  }

  // ---- the steps ----

  function ClaimedRow(row: PrivateRow, target: string): PrivateRow {
    if row.owner.None? then row.(owner := Some(target)) else row
  }

  /** `updateMany({ where: { userId: null }, data: { userId: target } })`. */
  function Claimed(table: Table, target: string): Table {
    map k | k in table :: ClaimedRow(table[k], target)
  }

  /** A job row that carries personal state. */
  predicate Carries(job: Job) {
    job.status != "DISCOVERED" || job.matchScore.Some? || job.eligibility.Some?
  }

  function StateOf(job: Job): JobState {
    JobState(job.status, job.matchScore, job.eligibility)
  }

  function FirstOf(singleton: Singleton, columns: seq<Old>): Option<Value> {
    if columns == [] then None
    else if columns[0] in singleton then Some(singleton[columns[0]])
    else FirstOf(singleton, columns[1..])
  }

  /** Which section a column is copied into, and the legacy columns it may come from, first one first. */
  function Origin(column: Column): (o: (Option<Section>, seq<Old>)) {
    match column
    case LegalFirstName => (Some(Profile), [OldFirstName])
    case MiddleName => (Some(Profile), [OldMiddleName])
    case LegalLastName => (Some(Profile), [OldLastName])
    case PreferredName => (Some(Profile), [OldPreferredName])
    case ApplicationEmail => (Some(Profile), [OldEmail, OldApplicationEmail])
    case AlternateEmail => (Some(Profile), [OldAlternateEmail])
    case Phone => (Some(Profile), [OldPhone])
    case PhoneCountryCode => (Some(Profile), [OldPhoneCountryCode])
    case AddressLine1 => (Some(Profile), [OldStreet])
    case AddressLine2 => (Some(Profile), [OldLine2])
    case City => (Some(Profile), [OldCity])
    case State => (Some(Profile), [OldState])
    case PostalCode => (Some(Profile), [OldZip])
    case Country => (Some(Profile), [OldCountry])
    case LinkedinUrl => (Some(Profile), [OldLinkedin])
    case GithubUrl => (Some(Profile), [OldGithub])
    case PortfolioUrl => (Some(Profile), [OldPortfolio, OldWebsite])
    case WillingToRelocate => (Some(Preferences), [OldRelocate])
    case RemotePreference => (Some(Preferences), [OldRemote])
    case EarliestStartDate => (Some(Preferences), [OldStartDate])
    case SalaryPreference => (Some(Preferences), [OldSalary])
    case HasDriversLicense => (Some(Preferences), [OldDriversLicense])
    case SecurityClearanceStatus => (Some(Preferences), [OldClearance])
    case UsualJobSource => (Some(Preferences), [OldReferral])
    case RequiresSponsorshipNow => (Some(Preferences), [OldSponsorship])
    case Gender => (Some(Sensitive), [OldGender])
    case RaceEthnicity => (Some(Sensitive), [OldRace])
    case VeteranStatus => (Some(Sensitive), [OldVeteran])
    case DisabilityStatus => (Some(Sensitive), [OldDisability])
    case Pronouns => (Some(Sensitive), [OldPronouns])
    case _ => (None, [])
  }

  /** What the singleton offers for a column of a section. */
  function Offered(singleton: Singleton, section: Section, column: Column): Option<Value> {
    if Origin(column).0 == Some(section) then FirstOf(singleton, Origin(column).1) else None
  }

  /** The upsert: `keep(current, legacy)` on every copied column, every other column as it was. */
  function Kept(current: Record, singleton: Singleton, section: Section): Record {
    map c: Column | c in current || Offered(singleton, section, c).Some?
      :: if c in current then current[c] else Offered(singleton, section, c).value
  }

  /** A row that is created starts from the schema's defaults. */
  function Current(db: Db, section: Section, target: string): Record {
    if (section, target) in db.sections then db.sections[(section, target)]
    else if section == Sensitive then map[DeclineDemographics := Flag(true)]
    else map[]
  }

  predicate HasEducation(db: Db, target: string)
    requires |db.tables| == CLAIMABLE
  {
    exists k :: k in db.tables[EDUCATION] && db.tables[EDUCATION][k].owner == Some(target)
  }

  /** JavaScript truthiness: a missing and an empty school count alike. */
  predicate NamesSchool(singleton: Singleton) {
    OldSchool in singleton && singleton[OldSchool] != Text("")
  }

  function Slice(s: string, from: nat, to: nat): string
    requires from <= to
  {
    s[if from <= |s| then from else |s|..if to <= |s| then to else |s|]
  }

  function Part(singleton: Singleton, column: Old, from: nat, to: nat): Option<Value>
    requires from <= to
  {
    if column in singleton && singleton[column].Text? then Some(Text(Slice(singleton[column].text, from, to))) else None
  }

  function EducationColumn(singleton: Singleton, column: Column): Option<Value> {
    match column
    case School => FirstOf(singleton, [OldSchool])
    case Degree => FirstOf(singleton, [OldDegreeType])
    case Major => FirstOf(singleton, [OldMajor])
    case Minor => FirstOf(singleton, [OldMinor])
    case Gpa => FirstOf(singleton, [OldGpa])
    case EducationLevel => FirstOf(singleton, [OldEducationLevel])
    case RelevantCoursework => FirstOf(singleton, [OldCoursework])
    case StartYear => Part(singleton, OldEducationStart, 0, 4)
    case StartMonth => Part(singleton, OldEducationStart, 5, 7)
    case GraduationYear => Part(singleton, OldGraduation, 0, 4)
    case GraduationMonth => Part(singleton, OldGraduation, 5, 7)
    case _ => None
  }

  function EducationRow(singleton: Singleton, target: string): PrivateRow {
    PrivateRow(Some(target), None,
               Entry(map c: Column | EducationColumn(singleton, c).Some? :: EducationColumn(singleton, c).value))
  }

  /** The script's writes, each one statement of its own. `id` is the key the database gives a new row. */
  datatype Step = ClaimTable(t: nat) | WriteState(job: Job) | CopySection(section: Section) | AddEducation(id: string)

  function Do(db: Db, legacy: Legacy, step: Step): (after: Db)
    requires |db.tables| == CLAIMABLE
    ensures |after.tables| == CLAIMABLE
  {
    match step
    case ClaimTable(t) =>
      if t < CLAIMABLE then db.(tables := db.tables[t := Claimed(db.tables[t], legacy.target)]) else db
    case WriteState(job) =>
      if (legacy.target, job.id) in db.states then db
      else db.(states := db.states[(legacy.target, job.id) := StateOf(job)])
    case CopySection(section) =>
      if legacy.singleton.None? then db
      else db.(sections := db.sections[(section, legacy.target) :=
                                       Kept(Current(db, section, legacy.target), legacy.singleton.value, section)])
    case AddEducation(id) =>
      if legacy.singleton.None? || !NamesSchool(legacy.singleton.value) || HasEducation(db, legacy.target) then db
      else
        var row := EducationRow(legacy.singleton.value, legacy.target);
        db.(tables := db.tables[EDUCATION := db.tables[EDUCATION][id := row]])
  }

  /** The database refuses a claim that would break the table's unique constraint. */
  ghost predicate Refused(db: Db, legacy: Legacy, step: Step)
    requires |db.tables| == CLAIMABLE
  {
    step.ClaimTable? && step.t < CLAIMABLE && !Unique(Claimed(db.tables[step.t], legacy.target))
  }

  datatype Outcome = Outcome(db: Db, ok: bool)

  /** Steps in order, stopping at the first refusal. */
  ghost function Run(db: Db, legacy: Legacy, steps: seq<Step>): (o: Outcome)
    requires |db.tables| == CLAIMABLE
    ensures |o.db.tables| == CLAIMABLE
  {
    if steps == [] then Outcome(db, true)
    else
      var before := Run(db, legacy, steps[..|steps| - 1]);
      Next(before, legacy, steps[|steps| - 1])
  }

  ghost function Next(before: Outcome, legacy: Legacy, step: Step): (o: Outcome)
    requires |before.db.tables| == CLAIMABLE
    ensures |o.db.tables| == CLAIMABLE
  {
    if !before.ok || Refused(before.db, legacy, step) then before.(ok := false)
    else Outcome(Do(before.db, legacy, step), true)
  }

  function ClaimSteps(n: nat): (steps: seq<Step>)
    ensures |steps| == n
    ensures forall i :: 0 <= i < n ==> steps[i] == ClaimTable(i)
  {
    seq(n, i requires 0 <= i < n => ClaimTable(i))
  }

  function StateSteps(jobs: seq<Job>): (steps: seq<Step>)
    ensures |steps| == |jobs|
    ensures forall i :: 0 <= i < |jobs| ==> steps[i] == WriteState(jobs[i])
  {
    seq(|jobs|, i requires 0 <= i < |jobs| => WriteState(jobs[i]))
  }

  function ProfileSteps(legacy: Legacy, id: string): seq<Step> {
    if legacy.singleton.None? then []
    else [CopySection(Profile), CopySection(Preferences), CopySection(Sensitive), AddEducation(id)]
  }

  /** Everything `--apply` does, in order. */
  function Plan(legacy: Legacy, id: string): seq<Step> {
    ClaimSteps(CLAIMABLE) + StateSteps(Filter(legacy.jobs, Carries)) + ProfileSteps(legacy, id)
  }

  // ---- a step once done stays done ----

  ghost predicate Done(db: Db, legacy: Legacy, step: Step)
    requires |db.tables| == CLAIMABLE
  {
    !Refused(db, legacy, step) && Do(db, legacy, step) == db
  }

  ghost predicate AllDone(db: Db, legacy: Legacy, steps: seq<Step>)
    requires |db.tables| == CLAIMABLE
  {
    forall s :: s in steps ==> Done(db, legacy, s)
  }

  lemma ClaimedTwice(table: Table, target: string)
    ensures Claimed(Claimed(table, target), target) == Claimed(table, target)
  {
  }

  lemma KeptTwice(current: Record, singleton: Singleton, section: Section)
    ensures Kept(Kept(current, singleton, section), singleton, section) == Kept(current, singleton, section)
  {
  }

  lemma EducationStays(db: Db, legacy: Legacy, step: Step)
    requires |db.tables| == CLAIMABLE && HasEducation(db, legacy.target)
    ensures HasEducation(Do(db, legacy, step), legacy.target)
  {
    var k :| k in db.tables[EDUCATION] && db.tables[EDUCATION][k].owner == Some(legacy.target);
    assert k in Do(db, legacy, step).tables[EDUCATION];
  }

  lemma EducationIsDone(db: Db, legacy: Legacy, id: string)
    requires |db.tables| == CLAIMABLE
    ensures Done(Do(db, legacy, AddEducation(id)), legacy, AddEducation(id))
  {
    var after := Do(db, legacy, AddEducation(id));
    if after != db {
      assert after.tables[EDUCATION][id].owner == Some(legacy.target);
    }
  }

  lemma EducationDone(db: Db, legacy: Legacy, id: string)
    requires |db.tables| == CLAIMABLE && Done(db, legacy, AddEducation(id))
    ensures legacy.singleton.Some? && NamesSchool(legacy.singleton.value) ==> HasEducation(db, legacy.target)
  {
    var after := Do(db, legacy, AddEducation(id));
    if legacy.singleton.Some? && NamesSchool(legacy.singleton.value) && id in after.tables[EDUCATION] {
      assert after.tables[EDUCATION][id].owner == Some(legacy.target) || HasEducation(db, legacy.target);
    }
  }

  lemma StepIsDone(db: Db, legacy: Legacy, step: Step)
    requires |db.tables| == CLAIMABLE && !Refused(db, legacy, step)
    ensures Done(Do(db, legacy, step), legacy, step)
  {
    match step
    case ClaimTable(t) =>
      if t < CLAIMABLE {
        ClaimedTwice(db.tables[t], legacy.target);
      }
    case WriteState(job) =>
    case CopySection(section) =>
      if legacy.singleton.Some? {
        KeptTwice(Current(db, section, legacy.target), legacy.singleton.value, section);
      }
    case AddEducation(id) =>
      EducationIsDone(db, legacy, id);
  }

  lemma ClaimDoneIff(db: Db, legacy: Legacy, t: nat)
    requires |db.tables| == CLAIMABLE && t < CLAIMABLE
    ensures Done(db, legacy, ClaimTable(t)) <==>
      Unique(db.tables[t]) && Claimed(db.tables[t], legacy.target) == db.tables[t]
  {
    var after := Claimed(db.tables[t], legacy.target);
    assert db.tables[t := after][t] == after;
    assert db.tables[t := db.tables[t]] == db.tables;
  }

  lemma AddedRowIsOwned(table: Table, target: string, id: string, row: PrivateRow)
    requires Unique(table) && Claimed(table, target) == table && row.owner == Some(target) && row.unique.None?
    ensures Unique(table[id := row]) && Claimed(table[id := row], target) == table[id := row]
  {
    assert forall k :: k in table ==> table[k] == ClaimedRow(table[k], target);
  }

  lemma ClaimStays(db: Db, legacy: Legacy, t: nat, step: Step)
    requires |db.tables| == CLAIMABLE && t < CLAIMABLE && Done(db, legacy, ClaimTable(t))
    ensures Done(Do(db, legacy, step), legacy, ClaimTable(t))
  {
    ClaimDoneIff(db, legacy, t);
    ClaimDoneIff(Do(db, legacy, step), legacy, t);
    if step.AddEducation? && Do(db, legacy, step) != db && t == EDUCATION {
      AddedRowIsOwned(db.tables[t], legacy.target, step.id, EducationRow(legacy.singleton.value, legacy.target));
    }
  }

  lemma DoneStays(db: Db, legacy: Legacy, done: Step, step: Step)
    requires |db.tables| == CLAIMABLE && Done(db, legacy, done)
    ensures Done(Do(db, legacy, step), legacy, done)
  {
    match done
    case ClaimTable(t) =>
      if t < CLAIMABLE {
        ClaimStays(db, legacy, t, step);
      }
    case WriteState(job) =>
      assert (legacy.target, job.id) in db.states;
    case CopySection(section) =>
      SectionStays(db, legacy, section, step);
    case AddEducation(id) =>
      EducationDone(db, legacy, id);
      if HasEducation(db, legacy.target) {
        EducationStays(db, legacy, step);
      }
  }

  lemma SectionStays(db: Db, legacy: Legacy, section: Section, step: Step)
    requires |db.tables| == CLAIMABLE && Done(db, legacy, CopySection(section))
    ensures Done(Do(db, legacy, step), legacy, CopySection(section))
  {
    if legacy.singleton.Some? {
      var after := Do(db, legacy, CopySection(section));
      assert (section, legacy.target) in after.sections;
      if step == CopySection(section) {
        assert Do(db, legacy, step) == db;
      }
    }
  }

  // ---- one run, two runs, interrupted runs ----

  lemma {:induction false} RunConcat(db: Db, legacy: Legacy, a: seq<Step>, b: seq<Step>)
    requires |db.tables| == CLAIMABLE
    ensures Run(db, legacy, a + b) ==
            if Run(db, legacy, a).ok then Run(Run(db, legacy, a).db, legacy, b) else Run(db, legacy, a)
    decreases |b|
  {
    if b == [] {
      assert a + b == a;
    } else {
      assert (a + b)[..|a + b| - 1] == a + b[..|b| - 1];
      RunConcat(db, legacy, a, b[..|b| - 1]);
    }
  }

  lemma {:induction false} RunAllDone(db: Db, legacy: Legacy, steps: seq<Step>)
    requires |db.tables| == CLAIMABLE && AllDone(db, legacy, steps)
    ensures Run(db, legacy, steps) == Outcome(db, true)
  {
    if steps != [] {
      assert steps[|steps| - 1] in steps;
      RunAllDone(db, legacy, steps[..|steps| - 1]);
    }
  }

  lemma {:induction false} RunIsDone(db: Db, legacy: Legacy, steps: seq<Step>)
    requires |db.tables| == CLAIMABLE && Run(db, legacy, steps).ok
    ensures AllDone(Run(db, legacy, steps).db, legacy, steps)
  {
    if steps != [] {
      var front, last := steps[..|steps| - 1], steps[|steps| - 1];
      var before := Run(db, legacy, front).db;
      RunIsDone(db, legacy, front);
      StepIsDone(before, legacy, last);
      forall s | s in front ensures Done(Do(before, legacy, last), legacy, s) {
        DoneStays(before, legacy, s, last);
      }
      assert forall s :: s in steps ==> s in front || s == last;
    }
  }

  /** A run that was refused stopped at some step, with everything before it done. */
  lemma {:induction false} RefusedAt(db: Db, legacy: Legacy, steps: seq<Step>) returns (i: nat)
    requires |db.tables| == CLAIMABLE && !Run(db, legacy, steps).ok
    ensures i < |steps| && Run(db, legacy, steps[..i]) == Outcome(Run(db, legacy, steps).db, true)
    ensures Refused(Run(db, legacy, steps).db, legacy, steps[i])
  {
    var front := steps[..|steps| - 1];
    if Run(db, legacy, front).ok {
      i := |steps| - 1;
    } else {
      i := RefusedAt(db, legacy, front);
      assert front[..i] == steps[..i];
    }
  }

  /** The same steps again change nothing and end the same way. */
  lemma RunTwice(db: Db, legacy: Legacy, steps: seq<Step>)
    requires |db.tables| == CLAIMABLE
    ensures Run(Run(db, legacy, steps).db, legacy, steps) == Run(db, legacy, steps)
  {
    var after := Run(db, legacy, steps).db;
    if Run(db, legacy, steps).ok {
      RunIsDone(db, legacy, steps);
      RunAllDone(after, legacy, steps);
    } else {
      var i := RefusedAt(db, legacy, steps);
      RunIsDone(db, legacy, steps[..i]);
      RunAllDone(after, legacy, steps[..i]);
      RefusedStops(after, legacy, steps, i);
    }
  }

  lemma RefusedStops(db: Db, legacy: Legacy, steps: seq<Step>, i: nat)
    requires |db.tables| == CLAIMABLE && i < |steps|
    requires Run(db, legacy, steps[..i]) == Outcome(db, true) && Refused(db, legacy, steps[i])
    ensures Run(db, legacy, steps) == Outcome(db, false)
  {
    assert steps[..i + 1][..i] == steps[..i] && steps == steps[..i + 1] + steps[i + 1..];
    RunConcat(db, legacy, steps[..i + 1], steps[i + 1..]);
  }

  /** Killed after any number of steps and started again, the script ends where an undisturbed run ends. */
  lemma ResumedRunIsOneRun(db: Db, legacy: Legacy, done: seq<Step>, rest: seq<Step>)
    requires |db.tables| == CLAIMABLE
    ensures Run(Run(db, legacy, done).db, legacy, done + rest) == Run(db, legacy, done + rest)
  {
    RunTwice(db, legacy, done);
    RunConcat(db, legacy, done, rest);
    RunConcat(Run(db, legacy, done).db, legacy, done, rest);
  }

  function Base(legacy: Legacy): seq<Step> {
    ClaimSteps(CLAIMABLE) + StateSteps(Filter(legacy.jobs, Carries)) + Sections(legacy)
  }

  function Sections(legacy: Legacy): seq<Step> {
    if legacy.singleton.None? then [] else [CopySection(Profile), CopySection(Preferences), CopySection(Sensitive)]
  }

  lemma PlanIsBaseAndEducation(legacy: Legacy, id: string)
    ensures Plan(legacy, id) == Base(legacy) + if legacy.singleton.None? then [] else [AddEducation(id)]
  {
  }

  lemma RunThen(db: Db, legacy: Legacy, base: seq<Step>, last: Step)
    requires |db.tables| == CLAIMABLE
    ensures Run(db, legacy, base + [last]) == Next(Run(db, legacy, base), legacy, last)
  {
    assert (base + [last])[..|base|] == base;
  }

  /** A finished run leaves all but the last of its steps nothing to do. */
  lemma BaseIsDone(db: Db, legacy: Legacy, base: seq<Step>, last: Step)
    requires |db.tables| == CLAIMABLE && Run(db, legacy, base + [last]).ok
    ensures var after := Run(db, legacy, base + [last]).db; Run(after, legacy, base) == Outcome(after, true)
  {
    var after := Run(db, legacy, base + [last]).db;
    RunIsDone(db, legacy, base + [last]);
    assert forall s :: s in base ==> s in base + [last];
    RunAllDone(after, legacy, base);
  }

  lemma SecondEducation(db: Db, legacy: Legacy, id: string, again: string)
    requires |db.tables| == CLAIMABLE && Done(db, legacy, AddEducation(id))
    ensures Do(db, legacy, AddEducation(again)) == db
  {
    EducationDone(db, legacy, id);
  }

  lemma EducationOnce(db: Db, legacy: Legacy, base: seq<Step>, id: string, again: string)
    requires |db.tables| == CLAIMABLE
    ensures var o := Run(db, legacy, base + [AddEducation(id)]); Run(o.db, legacy, base + [AddEducation(again)]) == o
  {
    var before, after := Run(db, legacy, base), Run(db, legacy, base + [AddEducation(id)]);
    RunThen(db, legacy, base, AddEducation(id));
    RunThen(after.db, legacy, base, AddEducation(again));
    if before.ok {
      BaseIsDone(db, legacy, base, AddEducation(id));
      EducationIsDone(before.db, legacy, id);
      SecondEducation(after.db, legacy, id, again);
    } else {
      RunTwice(db, legacy, base);
    }
  }

  /**
   * `--apply` again after `--apply`: the same data and the same verdict, whatever keys the database would hand out the
   * second time.
   */
  lemma ClaimTwiceIsClaimOnce(db: Db, legacy: Legacy, id: string, again: string)
    requires |db.tables| == CLAIMABLE
    ensures Run(Run(db, legacy, Plan(legacy, id)).db, legacy, Plan(legacy, again)) == Run(db, legacy, Plan(legacy, id))
  {
    PlanIsBaseAndEducation(legacy, id);
    PlanIsBaseAndEducation(legacy, again);
    if legacy.singleton.None? {
      RunTwice(db, legacy, Plan(legacy, id));
    } else {
      EducationOnce(db, legacy, Base(legacy), id, again);
    }
  }

  /** Killed after `k` statements and run again, the script ends exactly where an undisturbed run ends. */
  lemma ClaimSurvivesACrash(db: Db, legacy: Legacy, id: string, again: string, k: nat)
    requires |db.tables| == CLAIMABLE && k < |Plan(legacy, id)|
    ensures Run(Run(db, legacy, Plan(legacy, id)[..k]).db, legacy, Plan(legacy, again))
        == Run(db, legacy, Plan(legacy, again))
  {
    PlanIsBaseAndEducation(legacy, id);
    PlanIsBaseAndEducation(legacy, again);
    var plan := Plan(legacy, again);
    assert k <= |Base(legacy)|;
    assert Plan(legacy, id)[..k] == Base(legacy)[..k] == plan[..k];
    assert plan == plan[..k] + plan[k..];
    ResumedRunIsOneRun(db, legacy, plan[..k], plan[k..]);
  }

  // ---- when the claim goes through ----

  /** No unowned row shares its unique value with another unowned row or with a row of the target. */
  ghost predicate CollisionFree(table: Table, target: string) {
    forall j, k :: j in table && k in table && j != k && table[j].owner.None? && table[j].unique.Some?
                   && (table[k].owner.None? || table[k].owner == Some(target))
      ==> table[j].unique != table[k].unique
  }

  lemma UniqueAfterClaimIff(table: Table, target: string)
    requires Unique(table)
    ensures Unique(Claimed(table, target)) <==> CollisionFree(table, target)
  {
    var after := Claimed(table, target);
    if Unique(after) {
      forall j, k | j in table && k in table && j != k && table[j].owner.None? && table[j].unique.Some?
                    && (table[k].owner.None? || table[k].owner == Some(target))
        ensures table[j].unique != table[k].unique
      {
        assert after[j].owner == after[k].owner == Some(target);
      }
    }
  }

  lemma RunClaimStep(db: Db, legacy: Legacy, t: nat)
    requires |db.tables| == CLAIMABLE
    ensures Run(db, legacy, ClaimSteps(t + 1)) == Next(Run(db, legacy, ClaimSteps(t)), legacy, ClaimTable(t))
  {
    assert ClaimSteps(t + 1)[..t] == ClaimSteps(t);
  }

  /** The first `n` claims: each table on its own, refused exactly when the claimed table breaks its constraint. */
  ghost predicate ClaimedUpTo(db: Db, o: Outcome, target: string, n: nat)
    requires |db.tables| == |o.db.tables| == CLAIMABLE && n <= CLAIMABLE
  {
    && (o.ok <==> forall t :: 0 <= t < n ==> Unique(Claimed(db.tables[t], target)))
    && (o.ok ==> o.db.states == db.states && o.db.sections == db.sections)
    && (o.ok ==> forall t :: 0 <= t < CLAIMABLE ==>
          o.db.tables[t] == if t < n then Claimed(db.tables[t], target) else db.tables[t])
  }

  lemma NextClaim(db: Db, o: Outcome, legacy: Legacy, n: nat)
    requires |db.tables| == |o.db.tables| == CLAIMABLE && n < CLAIMABLE && ClaimedUpTo(db, o, legacy.target, n)
    ensures ClaimedUpTo(db, Next(o, legacy, ClaimTable(n)), legacy.target, n + 1)
  {
    assert o.ok ==> o.db.tables[n] == db.tables[n];
  }

  lemma {:induction false} RunClaims(db: Db, legacy: Legacy, n: nat)
    requires |db.tables| == CLAIMABLE && n <= CLAIMABLE
    ensures ClaimedUpTo(db, Run(db, legacy, ClaimSteps(n)), legacy.target, n)
  {
    if n > 0 {
      RunClaims(db, legacy, n - 1);
      NextClaim(db, Run(db, legacy, ClaimSteps(n - 1)), legacy, n - 1);
      RunClaimStep(db, legacy, n - 1);
    }
  }

  lemma {:induction false} NeverRefused(db: Db, legacy: Legacy, steps: seq<Step>)
    requires |db.tables| == CLAIMABLE && forall s: Step :: s in steps ==> !s.ClaimTable?
    ensures Run(db, legacy, steps).ok
  {
    if steps != [] {
      assert steps[|steps| - 1] in steps;
      NeverRefused(db, legacy, steps[..|steps| - 1]);
    }
  }

  lemma RunPlanFromClaims(db: Db, legacy: Legacy, id: string)
    requires |db.tables| == CLAIMABLE
    ensures var claims := Run(db, legacy, ClaimSteps(CLAIMABLE));
            var rest := StateSteps(Filter(legacy.jobs, Carries)) + ProfileSteps(legacy, id);
            && Run(db, legacy, Plan(legacy, id)) == (if claims.ok then Run(claims.db, legacy, rest) else claims)
            && Run(claims.db, legacy, rest).ok
  {
    var rest := StateSteps(Filter(legacy.jobs, Carries)) + ProfileSteps(legacy, id);
    assert Plan(legacy, id) == ClaimSteps(CLAIMABLE) + rest;
    RunConcat(db, legacy, ClaimSteps(CLAIMABLE), rest);
    NeverRefused(Run(db, legacy, ClaimSteps(CLAIMABLE)).db, legacy, rest);
  }

  /** The claim goes through exactly when no table holds two rows that would collide under one owner. */
  lemma ClaimSucceedsIff(db: Db, legacy: Legacy, id: string)
    requires Valid(db)
    ensures Run(db, legacy, Plan(legacy, id)).ok <==>
            forall t :: 0 <= t < CLAIMABLE ==> CollisionFree(db.tables[t], legacy.target)
  {
    RunPlanFromClaims(db, legacy, id);
    RunClaims(db, legacy, CLAIMABLE);
    forall t | 0 <= t < CLAIMABLE
      ensures Unique(Claimed(db.tables[t], legacy.target)) <==> CollisionFree(db.tables[t], legacy.target)
    {
      UniqueAfterClaimIff(db.tables[t], legacy.target);
    }
  }

  /** Two unowned answers to one question are legal rows, and no number of runs will ever claim them. */
  lemma TwoUnownedAnswersAreNeverClaimed(db: Db, legacy: Legacy, id: string, t: nat, j: string, k: string)
    requires Valid(db) && t < CLAIMABLE && j != k
    requires db.tables[t] == map[j := PrivateRow(None, Some("question"), Data("a")),
        k := PrivateRow(None, Some("question"), Data("b"))]
    ensures !Run(db, legacy, Plan(legacy, id)).ok
    ensures !Run(Run(db, legacy, Plan(legacy, id)).db, legacy, Plan(legacy, id)).ok
  {
    assert db.tables[t][j].unique == db.tables[t][k].unique;
    ClaimSucceedsIff(db, legacy, id);
    RunTwice(db, legacy, Plan(legacy, id));
  }

  // ---- what no run ever does, finished or not ----

  /** Rows stay, with at most a missing owner filled in; at most one row is new, the education entry. */
  ghost predicate RowsKept(before: Table, after: Table, legacy: Legacy, t: nat, id: string) {
    && (forall k :: k in before ==>
      k in after && (after[k] == before[k] || after[k] == ClaimedRow(before[k], legacy.target)))
    && (forall k :: k in after && k !in before ==>
          t == EDUCATION && k == id && legacy.singleton.Some?
            && after[k] == EducationRow(legacy.singleton.value, legacy.target))
  }

  /** Tracker states stay; new ones are the target's, copied off a job row. */
  ghost predicate StatesKept(before: map<(string, string), JobState>, after: map<(string, string), JobState>,
      legacy: Legacy) {
    && (forall key :: key in before ==> key in after && after[key] == before[key])
    && (forall key :: key in after && key !in before ==>
      key.0 == legacy.target && CopiedOff(legacy.jobs, key.1, after[key]))
  }

  ghost predicate CopiedOff(jobs: seq<Job>, id: string, state: JobState) {
    exists job :: job in jobs && Carries(job) && job.id == id && state == StateOf(job)
  }

  /** A per-account row is as it was, or is the target's with the legacy values filled in where it had none. */
  ghost predicate SectionKept(before: Db, after: Db, legacy: Legacy, section: Section, user: string) {
    var key := (section, user);
    || (key !in before.sections && key !in after.sections)
    || (key in before.sections && key in after.sections && after.sections[key] == before.sections[key])
    || (user == legacy.target && legacy.singleton.Some? && key in after.sections
        && after.sections[key] == Kept(Current(before, section, user), legacy.singleton.value, section))
  }

  ghost predicate Kind(legacy: Legacy, step: Step, id: string) {
    match step
    case AddEducation(key) => key == id
    case WriteState(job) => job in legacy.jobs && Carries(job)
    case _ => true
  }

  lemma StepKeepsRows(start: Db, db: Db, legacy: Legacy, step: Step, t: nat, id: string)
    requires |start.tables| == |db.tables| == CLAIMABLE && t < CLAIMABLE && Kind(legacy, step, id)
    requires RowsKept(start.tables[t], db.tables[t], legacy, t, id) && id !in start.tables[EDUCATION]
    ensures RowsKept(start.tables[t], Do(db, legacy, step).tables[t], legacy, t, id)
  {
  }

  lemma StepKeepsStates(start: Db, db: Db, legacy: Legacy, step: Step, id: string)
    requires |db.tables| == CLAIMABLE && Kind(legacy, step, id)
    requires StatesKept(start.states, db.states, legacy)
    ensures StatesKept(start.states, Do(db, legacy, step).states, legacy)
  {
    if step.WriteState? {
      assert CopiedOff(legacy.jobs, step.job.id, StateOf(step.job));
    }
  }

  lemma StepKeepsSection(start: Db, db: Db, legacy: Legacy, step: Step, section: Section, user: string)
    requires |db.tables| == CLAIMABLE && SectionKept(start, db, legacy, section, user)
    ensures SectionKept(start, Do(db, legacy, step), legacy, section, user)
  {
    if step == CopySection(section) && user == legacy.target && legacy.singleton.Some? {
      KeptTwice(Current(start, section, user), legacy.singleton.value, section);
    }
  }

  /**
   * After any number of steps, refused or killed: no row is lost, nobody else's data changes, no filled-in field and no
   * tracker state is overwritten.
   */
  lemma {:induction false} NothingIsLost(db: Db, legacy: Legacy, steps: seq<Step>, id: string, t: nat,
      section: Section, user: string)
    requires |db.tables| == CLAIMABLE && t < CLAIMABLE && id !in db.tables[EDUCATION]
    requires forall s :: s in steps ==> Kind(legacy, s, id)
    ensures var u := Run(db, legacy, steps).db;
            && RowsKept(db.tables[t], u.tables[t], legacy, t, id)
            && StatesKept(db.states, u.states, legacy)
            && SectionKept(db, u, legacy, section, user)
  {
    if steps != [] {
      var front, last := steps[..|steps| - 1], steps[|steps| - 1];
      assert last in steps && forall s :: s in front ==> s in steps;
      NothingIsLost(db, legacy, front, id, t, section, user);
      var before := Run(db, legacy, front).db;
      StepKeepsRows(db, before, legacy, last, t, id);
      StepKeepsStates(db, before, legacy, last, id);
      StepKeepsSection(db, before, legacy, last, section, user);
    }
  }

  lemma PlanKinds(legacy: Legacy, id: string)
    ensures forall s :: s in Plan(legacy, id) ==> Kind(legacy, s, id)
  {
  }

  /**
   * `keep` in plain words: a value that is there stays, and a missing one is filled from the first legacy column that
   * has one.
   */
  lemma KeptMeans(current: Record, singleton: Singleton, section: Section, column: Column)
    ensures column in current ==>
      column in Kept(current, singleton, section) && Kept(current, singleton, section)[column] == current[column]
    ensures column in Kept(current, singleton, section) && column !in current ==>
      Origin(column).0 == Some(section)
        && exists o ::
             o in Origin(column).1 && o in singleton && Kept(current, singleton, section)[column] == singleton[o]
    ensures column !in Kept(current, singleton, section) && Origin(column).0 == Some(section) ==>
      forall o :: o in Origin(column).1 ==> o !in singleton
  {
    FirstOfMeans(singleton, Origin(column).1);
  }

  lemma {:induction false} FirstOfMeans(singleton: Singleton, columns: seq<Old>)
    ensures var v := FirstOf(singleton, columns);
            && (v.Some? ==> exists o :: o in columns && o in singleton && singleton[o] == v.value)
            && (v.None? ==> forall o :: o in columns ==> o !in singleton)
  {
    if columns != [] && columns[0] !in singleton {
      FirstOfMeans(singleton, columns[1..]);
    }
  }

  // ---- what a finished claim has done ----

  lemma {:induction false} TablesUntouched(db: Db, legacy: Legacy, steps: seq<Step>)
    requires |db.tables| == CLAIMABLE && forall s: Step :: s in steps ==> s.WriteState? || s.CopySection?
    ensures Run(db, legacy, steps).ok && Run(db, legacy, steps).db.tables == db.tables
  {
    if steps != [] {
      assert steps[|steps| - 1] in steps;
      TablesUntouched(db, legacy, steps[..|steps| - 1]);
    }
  }

  lemma RunUntouched(db: Db, legacy: Legacy, claims: seq<Step>, rest: seq<Step>, plan: seq<Step>)
    requires |db.tables| == CLAIMABLE && plan == claims + rest && Run(db, legacy, plan).ok
    requires forall s: Step :: s in rest ==> s.WriteState? || s.CopySection?
    ensures Run(db, legacy, claims).ok && Run(db, legacy, plan).db.tables == Run(db, legacy, claims).db.tables
  {
    RunConcat(db, legacy, claims, rest);
    TablesUntouched(Run(db, legacy, claims).db, legacy, rest);
  }

  function AfterClaims(legacy: Legacy): seq<Step> {
    StateSteps(Filter(legacy.jobs, Carries)) + Sections(legacy)
  }

  lemma BaseIsClaimsThenUntouched(legacy: Legacy)
    ensures Base(legacy) == ClaimSteps(CLAIMABLE) + AfterClaims(legacy)
    ensures forall s :: s in AfterClaims(legacy) ==> s.WriteState? || s.CopySection?
  {
  }

  lemma ClaimedOnce(db: Db, legacy: Legacy, plan: seq<Step>, t: nat)
    requires |db.tables| == CLAIMABLE && t < CLAIMABLE && Run(db, legacy, plan).ok
    requires plan == ClaimSteps(CLAIMABLE) + AfterClaims(legacy)
    ensures Run(db, legacy, plan).db.tables[t] == Claimed(db.tables[t], legacy.target)
  {
    BaseIsClaimsThenUntouched(legacy);
    RunUntouched(db, legacy, ClaimSteps(CLAIMABLE), AfterClaims(legacy), plan);
    RunClaims(db, legacy, CLAIMABLE);
  }

  lemma BaseTables(db: Db, legacy: Legacy, t: nat)
    requires |db.tables| == CLAIMABLE && t < CLAIMABLE && Run(db, legacy, Base(legacy)).ok
    ensures Run(db, legacy, Base(legacy)).db.tables[t] == Claimed(db.tables[t], legacy.target)
  {
    BaseIsClaimsThenUntouched(legacy);
    ClaimedOnce(db, legacy, Base(legacy), t);
  }

  /** An education entry is due: the singleton names a school, and the target neither has nor is about to claim one. */
  ghost predicate EducationDue(db: Db, legacy: Legacy)
    requires |db.tables| == CLAIMABLE
  {
    && legacy.singleton.Some? && NamesSchool(legacy.singleton.value)
    && forall k :: k in db.tables[EDUCATION] ==>
         db.tables[EDUCATION][k].owner.Some? && db.tables[EDUCATION][k].owner != Some(legacy.target)
  }

  lemma HasEducationAfterBase(db: Db, legacy: Legacy)
    requires |db.tables| == CLAIMABLE && Run(db, legacy, Base(legacy)).ok
    requires legacy.singleton.Some? && NamesSchool(legacy.singleton.value)
    ensures HasEducation(Run(db, legacy, Base(legacy)).db, legacy.target) <==> !EducationDue(db, legacy)
  {
    BaseTables(db, legacy, EDUCATION);
    var table, after := db.tables[EDUCATION], Claimed(db.tables[EDUCATION], legacy.target);
    if k :| k in table && (table[k].owner.None? || table[k].owner == Some(legacy.target)) {
      assert after[k].owner == Some(legacy.target);
    }
  }

  /** Every table afterwards: every unowned row is the target's, and one education entry is added exactly when due. */
  lemma FinishedTables(db: Db, legacy: Legacy, id: string, t: nat)
    requires |db.tables| == CLAIMABLE && t < CLAIMABLE && Run(db, legacy, Plan(legacy, id)).ok
    ensures Run(db, legacy, Plan(legacy, id)).db.tables[t] ==
            if t == EDUCATION && EducationDue(db, legacy)
            then Claimed(db.tables[t], legacy.target)[id := EducationRow(legacy.singleton.value, legacy.target)]
            else Claimed(db.tables[t], legacy.target)
  {
    PlanIsBaseAndEducation(legacy, id);
    if legacy.singleton.None? {
      BaseTables(db, legacy, t);
    } else {
      RunThen(db, legacy, Base(legacy), AddEducation(id));
      BaseTables(db, legacy, t);
      if NamesSchool(legacy.singleton.value) {
        HasEducationAfterBase(db, legacy);
      }
    }
  }

  /** The tracker and the per-account rows afterwards. */
  lemma FinishedStatesAndSections(db: Db, legacy: Legacy, id: string, job: Job, section: Section)
    requires |db.tables| == CLAIMABLE && id !in db.tables[EDUCATION] && Run(db, legacy, Plan(legacy, id)).ok
    ensures var u := Run(db, legacy, Plan(legacy, id)).db;
            && (job in legacy.jobs && Carries(job) ==> (legacy.target, job.id) in u.states)
            && (legacy.singleton.Some? ==>
                  (section, legacy.target) in u.sections
                  && u.sections[(section, legacy.target)]
                    == Kept(Current(db, section, legacy.target), legacy.singleton.value, section))
  {
    var u := Run(db, legacy, Plan(legacy, id)).db;
    RunIsDone(db, legacy, Plan(legacy, id));
    if job in legacy.jobs && Carries(job) {
      WritesState(legacy, id, job);
      assert Done(u, legacy, WriteState(job));
    }
    if legacy.singleton.Some? {
      CopiesSection(legacy, id, section);
      assert Done(u, legacy, CopySection(section));
      PlanKinds(legacy, id);
      NothingIsLost(db, legacy, Plan(legacy, id), id, 0, section, legacy.target);
      DoneSection(db, u, legacy, section);
    }
  }

  lemma WritesState(legacy: Legacy, id: string, job: Job)
    requires job in legacy.jobs && Carries(job)
    ensures WriteState(job) in Plan(legacy, id)
  {
    var listed := Filter(legacy.jobs, Carries);
    var i :| 0 <= i < |listed| && listed[i] == job;
    assert Plan(legacy, id)[CLAIMABLE + i] == WriteState(job);
  }

  lemma CopiesSection(legacy: Legacy, id: string, section: Section)
    requires legacy.singleton.Some?
    ensures CopySection(section) in Plan(legacy, id)
  {
    var n := CLAIMABLE + |Filter(legacy.jobs, Carries)|;
    assert Plan(legacy, id)[n] == CopySection(Profile);
    assert Plan(legacy, id)[n + 1] == CopySection(Preferences);
    assert Plan(legacy, id)[n + 2] == CopySection(Sensitive);
  }

  lemma DoneSection(db: Db, u: Db, legacy: Legacy, section: Section)
    requires |u.tables| == CLAIMABLE && legacy.singleton.Some? && Done(u, legacy, CopySection(section))
    requires SectionKept(db, u, legacy, section, legacy.target)
    ensures (section, legacy.target) in u.sections
    ensures u.sections[(section, legacy.target)]
         == Kept(Current(db, section, legacy.target), legacy.singleton.value, section)
  {
    assert (section, legacy.target) in Do(u, legacy, CopySection(section)).sections;
  }

  // ---- the finished claim in columns ----

  /** The job has a status other than DISCOVERED, a score, or an eligibility. */
  ghost predicate HasPersonalState(job: Job) {
    job.status != "DISCOVERED" || job.matchScore != None || job.eligibility != None
  }

  ghost predicate DistinctIds(jobs: seq<Job>) {
    forall i, j :: 0 <= i < j < |jobs| ==> jobs[i].id != jobs[j].id
  }

  /** The tracker: `after` is `before` and one state of the target for each job with personal state that had none. */
  ghost predicate TrackerClaimed(before: map<(string, string), JobState>, after: map<(string, string), JobState>,
      legacy: Legacy) {
    && (forall key :: key in before ==> key in after && after[key] == before[key])
    && (forall job :: job in legacy.jobs && HasPersonalState(job) && (legacy.target, job.id) !in before ==>
          (legacy.target, job.id) in after
          && after[(legacy.target, job.id)] == JobState(job.status, job.matchScore, job.eligibility))
    && (forall key :: key in after && key !in before ==>
          key.0 == legacy.target && exists job :: job in legacy.jobs && HasPersonalState(job) && job.id == key.1)
  }

  lemma SameIdSameJob(jobs: seq<Job>, a: Job, b: Job)
    requires DistinctIds(jobs) && a in jobs && b in jobs && a.id == b.id
    ensures a == b
  {
    var i :| 0 <= i < |jobs| && jobs[i] == a;
    var j :| 0 <= j < |jobs| && jobs[j] == b;
  }

  /**
   * The tracker after a finished claim: for every job with a status other than DISCOVERED, a score or an eligibility,
   * the target has that job's own status, score and eligibility, unless it had a state of the job before, which stays.
   * No other state is added, and none is changed.
   */
  lemma TrackerInColumns(db: Db, legacy: Legacy, id: string)
    requires |db.tables| == CLAIMABLE && id !in db.tables[EDUCATION] && DistinctIds(legacy.jobs)
    requires Run(db, legacy, Plan(legacy, id)).ok
    ensures TrackerClaimed(db.states, Run(db, legacy, Plan(legacy, id)).db.states, legacy)
  {
    var u := Run(db, legacy, Plan(legacy, id)).db;
    StatesAreKept(db, legacy, id);
    forall job | job in legacy.jobs && HasPersonalState(job) && (legacy.target, job.id) !in db.states
      ensures (legacy.target, job.id) in u.states
      ensures u.states[(legacy.target, job.id)] == JobState(job.status, job.matchScore, job.eligibility)
    {
      FinishedStatesAndSections(db, legacy, id, job, Profile);
      StateIsTheJobs(db.states, u.states, legacy, job);
    }
  }

  lemma StatesAreKept(db: Db, legacy: Legacy, id: string)
    requires |db.tables| == CLAIMABLE && id !in db.tables[EDUCATION]
    ensures StatesKept(db.states, Run(db, legacy, Plan(legacy, id)).db.states, legacy)
  {
    PlanKinds(legacy, id);
    NothingIsLost(db, legacy, Plan(legacy, id), id, 0, Profile, legacy.target);
  }

  lemma StateIsTheJobs(before: map<(string, string), JobState>, after: map<(string, string), JobState>,
      legacy: Legacy, job: Job)
    requires StatesKept(before, after, legacy) && DistinctIds(legacy.jobs) && job in legacy.jobs
    requires (legacy.target, job.id) !in before && (legacy.target, job.id) in after
    ensures after[(legacy.target, job.id)] == JobState(job.status, job.matchScore, job.eligibility)
  {
    var from :| from in legacy.jobs && Carries(from) && from.id == job.id
      && after[(legacy.target, job.id)] == StateOf(from);
    SameIdSameJob(legacy.jobs, from, job);
  }

  /** The value of a column, if it is not null. */
  ghost function At(r: Record, c: Column): Option<Value> {
    if c in r then Some(r[c]) else None
  }

  ghost function Was(s: Singleton, o: Old): Option<Value> {
    if o in s then Some(s[o]) else None
  }

  /** `x ?? y`. */
  ghost function Or(x: Option<Value>, y: Option<Value>): Option<Value> {
    if x == None then y else x
  }

  /** A column of a row: what was there stays, and a missing value is the legacy one, if there is one. */
  ghost predicate Filled(before: Record, after: Record, s: Singleton, column: Column, from: Old) {
    At(after, column) == Or(At(before, column), Was(s, from))
  }

  /** The same with a second legacy column to fall back on. */
  ghost predicate FilledFromTwo(before: Record, after: Record, s: Singleton, column: Column, first: Old, second: Old) {
    At(after, column) == Or(At(before, column), Or(Was(s, first), Was(s, second)))
  }

  ghost predicate Untouched(before: Record, after: Record, columns: set<Column>) {
    forall c :: c !in columns ==> At(after, c) == At(before, c)
  }

  const PROFILE_COLUMNS := {LegalFirstName, MiddleName, LegalLastName, PreferredName, ApplicationEmail, AlternateEmail,
    Phone, PhoneCountryCode, AddressLine1, AddressLine2, City, State, PostalCode, Country, LinkedinUrl, GithubUrl,
    PortfolioUrl}

  const PREFERENCES_COLUMNS := {WillingToRelocate, RemotePreference, EarliestStartDate, SalaryPreference,
    HasDriversLicense, SecurityClearanceStatus, UsualJobSource, RequiresSponsorshipNow}

  const SENSITIVE_COLUMNS := {Gender, RaceEthnicity, VeteranStatus, DisabilityStatus, Pronouns}

  ghost predicate NamesClaimed(b: Record, a: Record, s: Singleton) {
    && Filled(b, a, s, LegalFirstName, OldFirstName) && Filled(b, a, s, MiddleName, OldMiddleName)
    && Filled(b, a, s, LegalLastName, OldLastName) && Filled(b, a, s, PreferredName, OldPreferredName)
    && FilledFromTwo(b, a, s, ApplicationEmail, OldEmail, OldApplicationEmail)
    && Filled(b, a, s, AlternateEmail, OldAlternateEmail)
  }

  ghost predicate AddressClaimed(b: Record, a: Record, s: Singleton) {
    && Filled(b, a, s, Phone, OldPhone) && Filled(b, a, s, PhoneCountryCode, OldPhoneCountryCode)
    && Filled(b, a, s, AddressLine1, OldStreet) && Filled(b, a, s, AddressLine2, OldLine2)
    && Filled(b, a, s, City, OldCity) && Filled(b, a, s, State, OldState) && Filled(b, a, s, PostalCode, OldZip)
    && Filled(b, a, s, Country, OldCountry) && Filled(b, a, s, LinkedinUrl, OldLinkedin)
    && Filled(b, a, s, GithubUrl, OldGithub) && FilledFromTwo(b, a, s, PortfolioUrl, OldPortfolio, OldWebsite)
  }

  /** The profile after the claim, column by column. */
  ghost predicate ProfileClaimed(b: Record, a: Record, s: Singleton) {
    NamesClaimed(b, a, s) && AddressClaimed(b, a, s) && Untouched(b, a, PROFILE_COLUMNS)
  }

  ghost predicate PreferencesClaimed(b: Record, a: Record, s: Singleton) {
    && Filled(b, a, s, WillingToRelocate, OldRelocate) && Filled(b, a, s, RemotePreference, OldRemote)
    && Filled(b, a, s, EarliestStartDate, OldStartDate) && Filled(b, a, s, SalaryPreference, OldSalary)
    && Filled(b, a, s, HasDriversLicense, OldDriversLicense)
    && Filled(b, a, s, SecurityClearanceStatus, OldClearance) && Filled(b, a, s, UsualJobSource, OldReferral)
    && Filled(b, a, s, RequiresSponsorshipNow, OldSponsorship) && Untouched(b, a, PREFERENCES_COLUMNS)
  }

  ghost predicate SensitiveClaimed(b: Record, a: Record, s: Singleton) {
    && Filled(b, a, s, Gender, OldGender) && Filled(b, a, s, RaceEthnicity, OldRace)
    && Filled(b, a, s, VeteranStatus, OldVeteran) && Filled(b, a, s, DisabilityStatus, OldDisability)
    && Filled(b, a, s, Pronouns, OldPronouns) && Untouched(b, a, SENSITIVE_COLUMNS)
  }

  /** A record that has exactly what `keep` gives. */
  ghost predicate IsKept(b: Record, a: Record, s: Singleton, section: Section) {
    forall c: Column :: At(a, c) == Or(At(b, c), Offered(s, section, c))
  }

  lemma KeptIsKept(b: Record, s: Singleton, section: Section)
    ensures IsKept(b, Kept(b, s, section), s, section)
  {
  }

  lemma FirstOfOne(s: Singleton, from: Old)
    ensures FirstOf(s, [from]) == Was(s, from)
  {
  }

  lemma FirstOfTwo(s: Singleton, first: Old, second: Old)
    ensures FirstOf(s, [first, second]) == Or(Was(s, first), Was(s, second))
  {
    assert [first, second][1..] == [second];
    FirstOfOne(s, second);
  }

  lemma KeptFills(b: Record, a: Record, s: Singleton, section: Section, column: Column, from: Old)
    requires IsKept(b, a, s, section) && Origin(column) == (Some(section), [from])
    ensures Filled(b, a, s, column, from)
  {
    FirstOfOne(s, from);
    assert At(a, column) == Or(At(b, column), Offered(s, section, column));
  }

  lemma KeptFillsFromTwo(b: Record, a: Record, s: Singleton, section: Section, column: Column, first: Old, second: Old)
    requires IsKept(b, a, s, section) && Origin(column) == (Some(section), [first, second])
    ensures FilledFromTwo(b, a, s, column, first, second)
  {
    FirstOfTwo(s, first, second);
    assert At(a, column) == Or(At(b, column), Offered(s, section, column));
  }

  ghost function ColumnsOf(section: Section): set<Column> {
    match section
    case Profile => PROFILE_COLUMNS
    case Preferences => PREFERENCES_COLUMNS
    case Sensitive => SENSITIVE_COLUMNS
  }

  lemma CopiedColumnsAreListed(c: Column)
    requires Origin(c).0.Some?
    ensures c in ColumnsOf(Origin(c).0.value)
  {
  }

  lemma KeptTouches(b: Record, a: Record, s: Singleton, section: Section)
    requires IsKept(b, a, s, section)
    ensures Untouched(b, a, ColumnsOf(section))
  {
    forall c | c !in ColumnsOf(section) ensures At(a, c) == At(b, c) {
      if Origin(c).0.Some? {
        CopiedColumnsAreListed(c);
      }
      assert Offered(s, section, c) == None && At(a, c) == Or(At(b, c), Offered(s, section, c));
    }
  }

  lemma KeptNames(b: Record, a: Record, s: Singleton)
    requires IsKept(b, a, s, Profile)
    ensures NamesClaimed(b, a, s)
  {
    KeptFills(b, a, s, Profile, LegalFirstName, OldFirstName);
    KeptFills(b, a, s, Profile, MiddleName, OldMiddleName);
    KeptFills(b, a, s, Profile, LegalLastName, OldLastName);
    KeptFills(b, a, s, Profile, PreferredName, OldPreferredName);
    KeptFillsFromTwo(b, a, s, Profile, ApplicationEmail, OldEmail, OldApplicationEmail);
    KeptFills(b, a, s, Profile, AlternateEmail, OldAlternateEmail);
  }

  lemma KeptAddress(b: Record, a: Record, s: Singleton)
    requires IsKept(b, a, s, Profile)
    ensures AddressClaimed(b, a, s)
  {
    KeptFills(b, a, s, Profile, Phone, OldPhone);
    KeptFills(b, a, s, Profile, PhoneCountryCode, OldPhoneCountryCode);
    KeptFills(b, a, s, Profile, AddressLine1, OldStreet);
    KeptFills(b, a, s, Profile, AddressLine2, OldLine2);
    KeptFills(b, a, s, Profile, City, OldCity);
    KeptFills(b, a, s, Profile, State, OldState);
    KeptFills(b, a, s, Profile, PostalCode, OldZip);
    KeptFills(b, a, s, Profile, Country, OldCountry);
    KeptFills(b, a, s, Profile, LinkedinUrl, OldLinkedin);
    KeptFills(b, a, s, Profile, GithubUrl, OldGithub);
    KeptFillsFromTwo(b, a, s, Profile, PortfolioUrl, OldPortfolio, OldWebsite);
  }

  lemma KeptProfile(b: Record, a: Record, s: Singleton)
    requires IsKept(b, a, s, Profile)
    ensures ProfileClaimed(b, a, s)
  {
    KeptNames(b, a, s);
    KeptAddress(b, a, s);
    KeptTouches(b, a, s, Profile);
  }

  lemma KeptPreferences(b: Record, a: Record, s: Singleton)
    requires IsKept(b, a, s, Preferences)
    ensures PreferencesClaimed(b, a, s)
  {
    KeptTouches(b, a, s, Preferences);
    KeptFills(b, a, s, Preferences, WillingToRelocate, OldRelocate);
    KeptFills(b, a, s, Preferences, RemotePreference, OldRemote);
    KeptFills(b, a, s, Preferences, EarliestStartDate, OldStartDate);
    KeptFills(b, a, s, Preferences, SalaryPreference, OldSalary);
    KeptFills(b, a, s, Preferences, HasDriversLicense, OldDriversLicense);
    KeptFills(b, a, s, Preferences, SecurityClearanceStatus, OldClearance);
    KeptFills(b, a, s, Preferences, UsualJobSource, OldReferral);
    KeptFills(b, a, s, Preferences, RequiresSponsorshipNow, OldSponsorship);
  }

  lemma KeptSensitive(b: Record, a: Record, s: Singleton)
    requires IsKept(b, a, s, Sensitive)
    ensures SensitiveClaimed(b, a, s)
  {
    KeptTouches(b, a, s, Sensitive);
    KeptFills(b, a, s, Sensitive, Gender, OldGender);
    KeptFills(b, a, s, Sensitive, RaceEthnicity, OldRace);
    KeptFills(b, a, s, Sensitive, VeteranStatus, OldVeteran);
    KeptFills(b, a, s, Sensitive, DisabilityStatus, OldDisability);
    KeptFills(b, a, s, Sensitive, Pronouns, OldPronouns);
  }

  /** The row before the claim; one that is created starts from `blank`. */
  ghost function RowOr(db: Db, section: Section, user: string, blank: Record): Record {
    if (section, user) in db.sections then db.sections[(section, user)] else blank
  }

  /** The three rows of the target after a finished claim, column by column. */
  lemma SectionsInColumns(db: Db, legacy: Legacy, id: string)
    requires |db.tables| == CLAIMABLE && id !in db.tables[EDUCATION] && Run(db, legacy, Plan(legacy, id)).ok
    requires legacy.singleton.Some?
    ensures var u := Run(db, legacy, Plan(legacy, id)).db.sections; var s := legacy.singleton.value;
            && (Profile, legacy.target) in u && (Preferences, legacy.target) in u && (Sensitive, legacy.target) in u
            && ProfileClaimed(RowOr(db, Profile, legacy.target, map[]), u[(Profile, legacy.target)], s)
            && PreferencesClaimed(RowOr(db, Preferences, legacy.target, map[]), u[(Preferences, legacy.target)], s)
            && SensitiveClaimed(RowOr(db, Sensitive, legacy.target, map[DeclineDemographics := Flag(true)]),
                 u[(Sensitive, legacy.target)], s)
  {
    SectionKeptInColumns(db, legacy, id, Profile);
    SectionKeptInColumns(db, legacy, id, Preferences);
    SectionKeptInColumns(db, legacy, id, Sensitive);
    var u := Run(db, legacy, Plan(legacy, id)).db.sections;
    KeptProfile(Current(db, Profile, legacy.target), u[(Profile, legacy.target)], legacy.singleton.value);
    KeptPreferences(Current(db, Preferences, legacy.target), u[(Preferences, legacy.target)], legacy.singleton.value);
    KeptSensitive(Current(db, Sensitive, legacy.target), u[(Sensitive, legacy.target)], legacy.singleton.value);
  }

  lemma SectionKeptInColumns(db: Db, legacy: Legacy, id: string, section: Section)
    requires |db.tables| == CLAIMABLE && id !in db.tables[EDUCATION] && Run(db, legacy, Plan(legacy, id)).ok
    requires legacy.singleton.Some?
    ensures var u := Run(db, legacy, Plan(legacy, id)).db.sections;
            (section, legacy.target) in u
            && IsKept(Current(db, section, legacy.target), u[(section, legacy.target)], legacy.singleton.value, section)
  {
    FinishedStatesAndSections(db, legacy, id, Job("", "", None, None), section);
    KeptIsKept(Current(db, section, legacy.target), legacy.singleton.value, section);
  }

  /** The characters `from..to` of a legacy date, as many of them as it has. */
  ghost predicate Cut(part: Option<Value>, date: Option<Value>, from: nat, to: nat) {
    if date.Some? && date.value.Text? then
      part.Some? && part.value.Text?
      && (from <= to <= |date.value.text| ==> part.value.text == date.value.text[from..to])
      && (from <= |date.value.text| < to ==> part.value.text == date.value.text[from..])
      && (|date.value.text| < from ==> part.value.text == "")
    else part == None
  }

  ghost predicate EducationValues(entry: Record, s: Singleton) {
    && At(entry, School) == Was(s, OldSchool) && At(entry, Degree) == Was(s, OldDegreeType)
    && At(entry, Major) == Was(s, OldMajor) && At(entry, Minor) == Was(s, OldMinor) && At(entry, Gpa) == Was(s, OldGpa)
    && At(entry, EducationLevel) == Was(s, OldEducationLevel)
    && At(entry, RelevantCoursework) == Was(s, OldCoursework)
  }

  ghost predicate EducationDates(entry: Record, s: Singleton) {
    && Cut(At(entry, StartYear), Was(s, OldEducationStart), 0, 4)
    && Cut(At(entry, StartMonth), Was(s, OldEducationStart), 5, 7)
    && Cut(At(entry, GraduationYear), Was(s, OldGraduation), 0, 4)
    && Cut(At(entry, GraduationMonth), Was(s, OldGraduation), 5, 7)
  }

  /** The education entry, column by column. */
  ghost predicate EducationCopied(entry: Record, s: Singleton) {
    EducationValues(entry, s) && EducationDates(entry, s) && entry.Keys <= EDUCATION_COLUMNS
  }

  const EDUCATION_COLUMNS := {School, Degree, Major, Minor, Gpa, EducationLevel, RelevantCoursework, StartYear,
    StartMonth, GraduationYear, GraduationMonth}

  /** The record has what each column is given, and nothing else. */
  ghost predicate IsEntry(s: Singleton, entry: Record) {
    forall c: Column :: At(entry, c) == EducationColumn(s, c)
  }

  lemma PartIsCut(s: Singleton, date: Old, from: nat, to: nat)
    requires from <= to
    ensures Cut(Part(s, date, from, to), Was(s, date), from, to)
  {
  }

  lemma EntryColumnsAreListed(s: Singleton, c: Column)
    requires EducationColumn(s, c).Some?
    ensures c in EDUCATION_COLUMNS
  {
  }

  lemma ValueColumns(s: Singleton)
    ensures EducationColumn(s, School) == Was(s, OldSchool) && EducationColumn(s, Degree) == Was(s, OldDegreeType)
    ensures EducationColumn(s, Major) == Was(s, OldMajor) && EducationColumn(s, Minor) == Was(s, OldMinor)
  {
    FirstOfOne(s, OldSchool);
    FirstOfOne(s, OldDegreeType);
    FirstOfOne(s, OldMajor);
    FirstOfOne(s, OldMinor);
  }

  lemma MoreValueColumns(s: Singleton)
    ensures EducationColumn(s, Gpa) == Was(s, OldGpa)
    ensures EducationColumn(s, EducationLevel) == Was(s, OldEducationLevel)
    ensures EducationColumn(s, RelevantCoursework) == Was(s, OldCoursework)
  {
    FirstOfOne(s, OldGpa);
    FirstOfOne(s, OldEducationLevel);
    FirstOfOne(s, OldCoursework);
  }

  lemma EntryValues(s: Singleton, entry: Record)
    requires IsEntry(s, entry)
    ensures EducationValues(entry, s)
  {
    ValueColumns(s);
    MoreValueColumns(s);
  }

  lemma StartColumns(s: Singleton)
    ensures Cut(EducationColumn(s, StartYear), Was(s, OldEducationStart), 0, 4)
    ensures Cut(EducationColumn(s, StartMonth), Was(s, OldEducationStart), 5, 7)
  {
    PartIsCut(s, OldEducationStart, 0, 4);
    PartIsCut(s, OldEducationStart, 5, 7);
  }

  lemma GraduationColumns(s: Singleton)
    ensures Cut(EducationColumn(s, GraduationYear), Was(s, OldGraduation), 0, 4)
    ensures Cut(EducationColumn(s, GraduationMonth), Was(s, OldGraduation), 5, 7)
  {
    PartIsCut(s, OldGraduation, 0, 4);
    PartIsCut(s, OldGraduation, 5, 7);
  }

  lemma EntryDates(s: Singleton, entry: Record)
    requires IsEntry(s, entry)
    ensures EducationDates(entry, s)
  {
    StartColumns(s);
    GraduationColumns(s);
  }

  lemma EntryInColumns(s: Singleton, entry: Record)
    requires IsEntry(s, entry)
    ensures EducationCopied(entry, s)
  {
    EntryValues(s, entry);
    EntryDates(s, entry);
    forall c | c in entry ensures c in EDUCATION_COLUMNS {
      assert At(entry, c) == EducationColumn(s, c);
      EntryColumnsAreListed(s, c);
    }
  }

  lemma EducationRowInColumns(s: Singleton, target: string)
    ensures var row := EducationRow(s, target);
            row.owner == Some(target) && row.unique == None && row.content.Entry?
            && EducationCopied(row.content.columns, s)
  {
    EntryInColumns(s, EducationRow(s, target).content.columns);
  }

  /** The target has no education entry and claims none, and the singleton names a school. */
  ghost predicate SchoolIsMissing(table: Table, legacy: Legacy) {
    && legacy.singleton.Some? && OldSchool in legacy.singleton.value && legacy.singleton.value[OldSchool] != Text("")
    && forall k :: k in table ==> table[k].owner != None && table[k].owner != Some(legacy.target)
  }

  /** Every row is there, the unowned ones are the target's, and nothing else about a row has changed. */
  ghost predicate RowsClaimed(before: Table, after: Table, target: string) {
    forall k :: k in before ==> k in after && after[k] == before[k].(
      owner := if before[k].owner == None then Some(target) else before[k].owner)
  }

  /** An education entry of the target with the legacy values. */
  ghost predicate EntryAdded(after: Table, legacy: Legacy, id: string) {
    && legacy.singleton.Some? && id in after && after[id].owner == Some(legacy.target) && after[id].unique == None
    && after[id].content.Entry? && EducationCopied(after[id].content.columns, legacy.singleton.value)
  }

  lemma ClaimedInColumns(table: Table, target: string)
    ensures RowsClaimed(table, Claimed(table, target), target) && Claimed(table, target).Keys == table.Keys
  {
  }

  lemma MissingMeansDue(db: Db, legacy: Legacy)
    requires |db.tables| == CLAIMABLE
    ensures SchoolIsMissing(db.tables[11], legacy) <==> EducationDue(db, legacy)
  {
  }

  lemma EntryAddedToClaimed(table: Table, legacy: Legacy, id: string)
    requires legacy.singleton.Some? && id !in table
    ensures var after := Claimed(table, legacy.target)[id := EducationRow(legacy.singleton.value, legacy.target)];
            && RowsClaimed(table, after, legacy.target) && after.Keys == table.Keys + {id}
            && EntryAdded(after, legacy, id)
  {
    ClaimedInColumns(table, legacy.target);
    EducationRowInColumns(legacy.singleton.value, legacy.target);
  }

  /**
   * The fifteen claimable tables after a finished claim: every row is there, the unowned ones are the target's, and
   * nothing else about a row has changed. The only new row is an education entry of the target with the legacy values,
   * when it had and claimed none and a school is named.
   */
  lemma TablesInColumns(db: Db, legacy: Legacy, id: string, t: nat)
    requires |db.tables| == 15 && id !in db.tables[11] && t < 15 && Run(db, legacy, Plan(legacy, id)).ok
    ensures var before, after := db.tables[t], Run(db, legacy, Plan(legacy, id)).db.tables[t];
            var due := t == 11 && SchoolIsMissing(db.tables[11], legacy);
            && RowsClaimed(before, after, legacy.target)
            && after.Keys == before.Keys + (if due then {id} else {}) && (due ==> EntryAdded(after, legacy, id))
  {
    FinishedTables(db, legacy, id, t);
    MissingMeansDue(db, legacy);
    ClaimedInColumns(db.tables[t], legacy.target);
    if t == 11 && SchoolIsMissing(db.tables[11], legacy) {
      EntryAddedToClaimed(db.tables[t], legacy, id);
    }
  }

  // ---- the script ----

  function Unowned(table: Table): set<string> {
    set k | k in table && table[k].owner.None?
  }

  function TotalUnowned(tables: seq<Table>, n: nat): nat
    requires n <= |tables|
  {
    if n == 0 then 0 else TotalUnowned(tables, n - 1) + |Unowned(tables[n - 1])|
  }

  /** The rows without an owner, over the first `n` tables. */
  ghost function UnownedRows(tables: seq<Table>, n: nat): set<(nat, string)>
    requires n <= |tables|
  {
    set t: nat, k | t < n && k in tables[t] && tables[t][k].owner == None :: (t, k)
  }

  lemma {:induction false} TaggedSize(t: nat, keys: set<string>)
    ensures |set k | k in keys :: (t, k)| == |keys|
  {
    var tagged := set k | k in keys :: (t, k);
    if keys != {} {
      var x :| x in keys;
      TaggedSize(t, keys - {x});
      assert tagged == (set k | k in keys - {x} :: (t, k)) + {(t, x)};
    } else {
      assert tagged == {};
    }
  }

  lemma OneMoreTable(tables: seq<Table>, m: nat)
    requires m < |tables|
    ensures |UnownedRows(tables, m + 1)| == |UnownedRows(tables, m)| + |Unowned(tables[m])|
  {
    var last: set<(nat, string)> := set k | k in Unowned(tables[m]) :: (m, k);
    TaggedSize(m, Unowned(tables[m]));
    assert UnownedRows(tables, m + 1) == UnownedRows(tables, m) + last;
  }

  lemma {:induction false} UnownedAreCounted(tables: seq<Table>, n: nat)
    requires n <= |tables|
    ensures TotalUnowned(tables, n) == |UnownedRows(tables, n)|
  {
    if n == 0 {
      assert UnownedRows(tables, 0) == {};
    } else {
      UnownedAreCounted(tables, n - 1);
      OneMoreTable(tables, n - 1);
    }
  }

  predicate OwnedByOthers(table: Table, target: string) {
    exists k :: k in table && table[k].owner.Some? && table[k].owner != Some(target)
  }

  lemma PlanInThree(db: Db, legacy: Legacy, id: string)
    requires |db.tables| == CLAIMABLE
    ensures var claims := Run(db, legacy, ClaimSteps(CLAIMABLE));
            var states := Run(claims.db, legacy, StateSteps(Filter(legacy.jobs, Carries)));
            && Run(db, legacy, Plan(legacy, id)) ==
                (if claims.ok then Run(states.db, legacy, ProfileSteps(legacy, id)) else claims)
            && states.ok
  {
    RunPlanFromClaims(db, legacy, id);
    StatesThenProfile(Run(db, legacy, ClaimSteps(CLAIMABLE)).db, legacy, StateSteps(Filter(legacy.jobs, Carries)),
      ProfileSteps(legacy, id));
  }

  lemma StatesThenProfile(db: Db, legacy: Legacy, states: seq<Step>, rest: seq<Step>)
    requires |db.tables| == CLAIMABLE && forall s: Step :: s in states ==> !s.ClaimTable?
    ensures Run(db, legacy, states).ok && Run(db, legacy, states + rest)
        == Run(Run(db, legacy, states).db, legacy, rest)
  {
    NeverRefused(db, legacy, states);
    RunConcat(db, legacy, states, rest);
  }

  lemma RunStateStep(db: Db, legacy: Legacy, jobs: seq<Job>, i: nat)
    requires |db.tables| == CLAIMABLE && i < |jobs|
    ensures Run(db, legacy, StateSteps(jobs[..i + 1]))
         == Next(Run(db, legacy, StateSteps(jobs[..i])), legacy, WriteState(jobs[i]))
  {
    assert StateSteps(jobs[..i + 1])[..i] == StateSteps(jobs[..i]);
  }

  lemma RunProfileSteps(db: Db, legacy: Legacy, id: string)
    requires |db.tables| == CLAIMABLE && legacy.singleton.Some?
    ensures var a := Do(db, legacy, CopySection(Profile));
            var b := Do(a, legacy, CopySection(Preferences));
            var c := Do(b, legacy, CopySection(Sensitive));
            Run(db, legacy, ProfileSteps(legacy, id)) == Outcome(Do(c, legacy, AddEducation(id)), true)
  {
    RunThen(db, legacy, [], CopySection(Profile));
    RunThen(db, legacy, [CopySection(Profile)], CopySection(Preferences));
    RunThen(db, legacy, [CopySection(Profile), CopySection(Preferences)], CopySection(Sensitive));
    RunThen(db, legacy, [CopySection(Profile), CopySection(Preferences), CopySection(Sensitive)], AddEducation(id));
    assert [] + [CopySection(Profile)] == [CopySection(Profile)];
    assert [CopySection(Profile)] + [CopySection(Preferences)] == [CopySection(Profile), CopySection(Preferences)];
    assert [CopySection(Profile), CopySection(Preferences)] + [CopySection(Sensitive)]
        == [CopySection(Profile), CopySection(Preferences), CopySection(Sensitive)];
    assert [CopySection(Profile), CopySection(Preferences), CopySection(Sensitive)] + [AddEducation(id)]
      == ProfileSteps(legacy, id);
  }

  datatype Exit = NoTarget | Ambiguous | DryRun(states: nat) | Applied(claimed: nat, written: nat) | Failed

  class Store {
    var tables: seq<Table>
    var states: map<(string, string), JobState>
    var sections: map<(Section, string), Record>

    constructor (db: Db)
      ensures Contents() == db
    {
      tables, states, sections := db.tables, db.states, db.sections;
    }

    ghost function Contents(): Db
      reads this
    {
      Db(tables, states, sections)
    }

    /** One `updateMany`; `None` when the database refuses it. */
    method UpdateMany(t: nat, legacy: Legacy) returns (count: Option<nat>)
      requires |tables| == CLAIMABLE && t < CLAIMABLE
      modifies this`tables
      ensures Outcome(Contents(), count.Some?) == Next(Outcome(old(Contents()), true), legacy, ClaimTable(t))
      ensures count.Some? ==> count.value == |Unowned(old(tables)[t])|
    {
      var after := Claimed(tables[t], legacy.target);
      if !Unique(after) {
        return None;
      }
      count := Some(|Unowned(tables[t])|);
      tables := tables[t := after];
    }

    /** The loop over the claimable tables. */
    method ClaimTables(legacy: Legacy) returns (ok: bool, claimed: nat)
      requires |tables| == CLAIMABLE
      modifies this`tables
      ensures Outcome(Contents(), ok) == Run(old(Contents()), legacy, ClaimSteps(CLAIMABLE))
      ensures ok ==> claimed == TotalUnowned(old(tables), CLAIMABLE)
    {
      ghost var start := Contents();
      ok, claimed := true, 0;
      var t: nat := 0;
      while ok && t < CLAIMABLE
        invariant t <= CLAIMABLE && |tables| == CLAIMABLE
            && Outcome(Contents(), ok) == Run(start, legacy, ClaimSteps(t))
        invariant ok ==> claimed == TotalUnowned(start.tables, t)
        decreases CLAIMABLE - t, ok
      {
        RunClaimStep(start, legacy, t);
        RunClaims(start, legacy, t);
        var count := UpdateMany(t, legacy);
        ok := count.Some?;
        if ok {
          claimed := claimed + count.value;
        }
        t := t + 1;
      }
      if !ok {
        RefusedClaims(start, legacy, t);
      }
    }

    /** `claimJobState` with `apply`. */
    method ClaimJobState(legacy: Legacy) returns (written: nat)
      requires |tables| == CLAIMABLE
      modifies this`states
      ensures Outcome(Contents(), true) == Run(old(Contents()), legacy, StateSteps(Filter(legacy.jobs, Carries)))
      ensures |states| == |old(states)| + written
    {
      ghost var start := Contents();
      var jobs := Filter(legacy.jobs, Carries);
      written := 0;
      var i: nat := 0;
      while i < |jobs|
        invariant i <= |jobs| && Outcome(Contents(), true) == Run(start, legacy, StateSteps(jobs[..i]))
        invariant tables == start.tables && |states| == |start.states| + written
      {
        RunStateStep(start, legacy, jobs, i);
        var key := (legacy.target, jobs[i].id);
        if key !in states {
          AddedKeyCounts(states, key, StateOf(jobs[i]));
          states := states[key := StateOf(jobs[i])];
          written := written + 1;
        }
        i := i + 1;
      }
      assert jobs[..i] == jobs;
    }

    method Upsert(section: Section, legacy: Legacy)
      requires |tables| == CLAIMABLE && legacy.singleton.Some?
      modifies this`sections
      ensures Contents() == Do(old(Contents()), legacy, CopySection(section))
    {
      var key := (section, legacy.target);
      var current: Record :=
        if key in sections then sections[key]
          else if section == Sensitive then map[DeclineDemographics := Flag(true)] else map[];
      sections := sections[key := Kept(current, legacy.singleton.value, section)];
    }

    /** `claimApplicationProfile` with `apply`; `id` is the key the database gives a new education row. */
    method ClaimApplicationProfile(legacy: Legacy, id: string)
      requires |tables| == CLAIMABLE
      modifies this`tables, this`sections
      ensures Outcome(Contents(), true) == Run(old(Contents()), legacy, ProfileSteps(legacy, id))
    {
      if legacy.singleton.None? {
        return;
      }
      RunProfileSteps(Contents(), legacy, id);
      Upsert(Profile, legacy);
      Upsert(Preferences, legacy);
      Upsert(Sensitive, legacy);
      var owned := exists k :: k in tables[EDUCATION] && tables[EDUCATION][k].owner == Some(legacy.target);
      if !owned && NamesSchool(legacy.singleton.value) {
        tables := tables[EDUCATION := tables[EDUCATION][id := EducationRow(legacy.singleton.value, legacy.target)]];
      }
    }

    /** The part of `main` behind `--apply`. */
    method Apply(legacy: Legacy, id: string) returns (ok: bool, claimed: nat, written: nat)
      requires |tables| == CLAIMABLE
      modifies this
      ensures Outcome(Contents(), ok) == Run(old(Contents()), legacy, Plan(legacy, id))
      ensures ok ==> claimed == TotalUnowned(old(tables), CLAIMABLE) && |states| == |old(states)| + written
    {
      PlanInThree(Contents(), legacy, id);
      RunClaims(Contents(), legacy, CLAIMABLE);
      ok, claimed := ClaimTables(legacy);
      written := 0;
      if ok {
        written := ClaimJobState(legacy);
        ClaimApplicationProfile(legacy, id);
      }
    }

    /** `main` without `--verify`; `target` is the account the arguments resolved to. */
    method Claim(target: Option<string>, jobs: seq<Job>, singleton: Option<Singleton>, apply: bool, id: string)
        returns (exit: Exit)
      requires |tables| == CLAIMABLE
      modifies this
      ensures exit.NoTarget? <==> target.None?
      ensures exit.Ambiguous? <==>
        target.Some? && exists t, k :: 0 <= t < 15 && k in old(tables)[t] && old(tables)[t][k].owner.Some?
                          && old(tables)[t][k].owner != target
      ensures exit.NoTarget? || exit.Ambiguous? || !apply ==> Contents() == old(Contents())
      ensures exit.DryRun? ==> !apply && exit.states == |Filter(jobs, (job: Job) =>
        job.status != "DISCOVERED" || job.matchScore != None || job.eligibility != None)|
      ensures exit.Applied? || exit.Failed? ==>
        target.Some? && apply
        && Outcome(Contents(), exit.Applied?) == Run(old(Contents()), Legacy(target.value, jobs, singleton),
          Plan(Legacy(target.value, jobs, singleton), id))
      ensures exit.Applied? ==>
        exit.claimed == |UnownedRows(old(tables), 15)| && |states| == |old(states)| + exit.written
    {
      UnownedAreCounted(tables, 15);
      FilterSame(jobs, Carries, (job: Job) =>
        job.status != "DISCOVERED" || job.matchScore != None || job.eligibility != None);
      if target.None? {
        return NoTarget;
      }
      if exists t :: 0 <= t < CLAIMABLE && OwnedByOthers(tables[t], target.value) {
        return Ambiguous;
      }
      if !apply {
        return DryRun(|Filter(jobs, Carries)|);
      }
      var ok, claimed, written := Apply(Legacy(target.value, jobs, singleton), id);
      exit := if ok then Applied(claimed, written) else Failed;
    }
  }

  lemma AddedKeyCounts(states: map<(string, string), JobState>, key: (string, string), state: JobState)
    requires key !in states
    ensures |states[key := state]| == |states| + 1
  {
    assert states[key := state].Keys == states.Keys + {key};
  }

  lemma {:induction false} RefusedClaims(db: Db, legacy: Legacy, t: nat)
    requires |db.tables| == CLAIMABLE && t <= CLAIMABLE && !Run(db, legacy, ClaimSteps(t)).ok
    ensures Run(db, legacy, ClaimSteps(CLAIMABLE)) == Run(db, legacy, ClaimSteps(t))
    decreases CLAIMABLE - t
  {
    if t < CLAIMABLE {
      RunClaimStep(db, legacy, t);
      RefusedClaims(db, legacy, t + 1);
    }
  }

  /** A finished claim leaves nothing to claim and nobody else's rows, so the next pass claims and writes nothing. */
  lemma {:induction false} SecondPassClaimsNothing(db: Db, legacy: Legacy, id: string, n: nat)
    requires |db.tables| == CLAIMABLE && n <= CLAIMABLE && Run(db, legacy, Plan(legacy, id)).ok
    ensures TotalUnowned(Run(db, legacy, Plan(legacy, id)).db.tables, n) == 0
  {
    if n > 0 {
      SecondPassClaimsNothing(db, legacy, id, n - 1);
      FinishedTables(db, legacy, id, n - 1);
      assert Unowned(Run(db, legacy, Plan(legacy, id)).db.tables[n - 1]) == {};
    }
  }

  /** The ambiguity check still passes after a run, finished or not. */
  lemma SoleOwnerStays(db: Db, legacy: Legacy, id: string, k: nat, t: nat)
    requires |db.tables| == CLAIMABLE && t < CLAIMABLE && id !in db.tables[EDUCATION] && k <= |Plan(legacy, id)|
    requires !OwnedByOthers(db.tables[t], legacy.target)
    ensures !OwnedByOthers(Run(db, legacy, Plan(legacy, id)[..k]).db.tables[t], legacy.target)
  {
    PlanKinds(legacy, id);
    NothingIsLost(db, legacy, Plan(legacy, id)[..k], id, t, Profile, legacy.target);
  }
}

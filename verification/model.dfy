/** The data shapes of the harness: the nine memory-test clusters and the
    classifier's flags for them, the scoring rubric, and the records that flow
    through the clustering and evaluation stages. */
module Model {
  import opened Outcomes

  /** The fixed cluster taxonomy, in the order the classifier schema declares it. */
  datatype Cluster =
    | PersonalInformation
    | HabitsAndPreferences
    | SignificantEvents
    | RelationshipsAndConnections
    | PlansAndGoals
    | AppointmentsAndTimeSpecificInformation
    | OwnershipAndPossessions
    | LocationsAndPlaces
    | ContextualAndMultiSessionMemory

  /** The clusters in schema order. */
  const Clusters: seq<Cluster> := [
    PersonalInformation, HabitsAndPreferences, SignificantEvents, RelationshipsAndConnections,
    PlansAndGoals, AppointmentsAndTimeSpecificInformation, OwnershipAndPossessions,
    LocationsAndPlaces, ContextualAndMultiSessionMemory]

  /** The position of a cluster in the schema. */
  function ClusterIndex(c: Cluster): (i: nat)
    ensures i < |Clusters| && Clusters[i] == c
  {
    match c
    case PersonalInformation => 0
    case HabitsAndPreferences => 1
    case SignificantEvents => 2
    case RelationshipsAndConnections => 3
    case PlansAndGoals => 4
    case AppointmentsAndTimeSpecificInformation => 5
    case OwnershipAndPossessions => 6
    case LocationsAndPlaces => 7
    case ContextualAndMultiSessionMemory => 8
  }

  /** Positions and clusters correspond one to one. */
  lemma ClustersIndexed()
    ensures forall i :: 0 <= i < |Clusters| ==> ClusterIndex(Clusters[i]) == i
  {
  }

  /** The JSON key of a cluster; distinct clusters have distinct keys. */
  function Name(c: Cluster): (s: string)
    ensures ClusterNamed(s) == Some(c)
  {
    match c
    case PersonalInformation => "Personal_Information"
    case HabitsAndPreferences => "Habits_and_Preferences"
    case SignificantEvents => "Significant_Events"
    case RelationshipsAndConnections => "Relationships_and_Connections"
    case PlansAndGoals => "Plans_and_Goals"
    case AppointmentsAndTimeSpecificInformation => "Appointments_and_Time_Specific_Information"
    case OwnershipAndPossessions => "Ownership_and_Possessions"
    case LocationsAndPlaces => "Locations_and_Places"
    case ContextualAndMultiSessionMemory => "Contextual_and_Multi_Session_Memory"
  }

  /** The cluster a JSON key names, if any. */
  function ClusterNamed(s: string): Option<Cluster> {
    if s == "Personal_Information" then Some(PersonalInformation)
    else if s == "Habits_and_Preferences" then Some(HabitsAndPreferences)
    else if s == "Significant_Events" then Some(SignificantEvents)
    else if s == "Relationships_and_Connections" then Some(RelationshipsAndConnections)
    else if s == "Plans_and_Goals" then Some(PlansAndGoals)
    else if s == "Appointments_and_Time_Specific_Information" then Some(AppointmentsAndTimeSpecificInformation)
    else if s == "Ownership_and_Possessions" then Some(OwnershipAndPossessions)
    else if s == "Locations_and_Places" then Some(LocationsAndPlaces)
    else if s == "Contextual_and_Multi_Session_Memory" then Some(ContextualAndMultiSessionMemory)
    else None
  }

  /** The classifier's answer: one flag per cluster, non-exclusive. */
  datatype Membership = Membership(
    personalInformation: bool,
    habitsAndPreferences: bool,
    significantEvents: bool,
    relationshipsAndConnections: bool,
    plansAndGoals: bool,
    appointmentsAndTimeSpecificInformation: bool,
    ownershipAndPossessions: bool,
    locationsAndPlaces: bool,
    contextualAndMultiSessionMemory: bool)

  function Flag(m: Membership, c: Cluster): bool {
    match c
    case PersonalInformation => m.personalInformation
    case HabitsAndPreferences => m.habitsAndPreferences
    case SignificantEvents => m.significantEvents
    case RelationshipsAndConnections => m.relationshipsAndConnections
    case PlansAndGoals => m.plansAndGoals
    case AppointmentsAndTimeSpecificInformation => m.appointmentsAndTimeSpecificInformation
    case OwnershipAndPossessions => m.ownershipAndPossessions
    case LocationsAndPlaces => m.locationsAndPlaces
    case ContextualAndMultiSessionMemory => m.contextualAndMultiSessionMemory
  }

  /** A spreadsheet cell as the dataset delivers it: text, or empty (NaN). */
  datatype Cell = Text(s: string) | Blank

  /** Python's `str()` of a cell; an empty cell is the float NaN, printed "nan". */
  function Str(c: Cell): string {
    match c
    case Text(s) => s
    case Blank => "nan"
  }

  /** One test case of the clustered store: `{tell, question, expected}`. */
  datatype Record = Record(tell: string, question: string, expected: string)

  /** One item handed to the evaluation stage; only `tell` is ever checked for NaN. */
  datatype EvalItem = EvalItem(tell: Cell, question: string, expected: string)

  /** A record read back from the clustered store, as an evaluation item. */
  function FromRecord(r: Record): EvalItem {
    EvalItem(Text(r.tell), r.question, r.expected)
  }

  /** The four numeric rubric dimensions. */
  datatype Field = Accuracy | Relevance | Coherence | Fluency

  /** The scorer's structured output. */
  datatype RubricScore = RubricScore(accuracy: int, relevance: int, coherence: int, fluency: int, comments: string) {
    function Get(f: Field): int {
      match f
      case Accuracy => accuracy
      case Relevance => relevance
      case Coherence => coherence
      case Fluency => fluency
    }
  }

  /** What `evaluate_response` returns: the parsed rubric, or `{"error": message}`. */
  datatype Evaluation = Scored(rubric: RubricScore) | ErrorEntry(error: string)

  /** `entry.get(key, 0)`: an error entry has none of the rubric fields. */
  function FieldValue(e: Evaluation, f: Field): int {
    match e
    case Scored(s) => s.Get(f)
    case ErrorEntry(_) => 0
  }

  /** Per-field means, kept exact. */
  datatype Averages = Averages(accuracy: real, relevance: real, coherence: real, fluency: real) {
    function Get(f: Field): real {
      match f
      case Accuracy => accuracy
      case Relevance => relevance
      case Coherence => coherence
      case Fluency => fluency
    }
  }

  const ZeroAverages := Averages(0.0, 0.0, 0.0, 0.0)

  /** One entry of the per-category detail log: `{dataset, evaluate}`. */
  datatype Detail = Detail(dataset: EvalItem, evaluate: Evaluation)

  /** One entry of the results list: `{name, result}`. */
  datatype NamedResult = NamedResult(name: string, result: Averages)

  /** The clustered dataset file: cluster name to its bucket of records. */
  type ClusteredStore = map<string, seq<Record>>

  /** The detail log file: category to its entries in processing order. */
  type DetailLog = map<string, seq<Detail>>
}

/** The record types of the commitment ledger: the two closed enumerations,
    an update-log entry, a commitment, and the result of a pattern analysis. */
module Types {

  /** An optional value; used for the one optional field of a commitment
      (its deadline), for the note a user may cancel, and for an analysis
      that has not been generated yet. */
  datatype Option<+T> = None | Some(value: T)

  /** Lifecycle stage of a commitment. */
  datatype Status = Pending | Met | Breached | Disputed

  /** The string each status carries as its enum value (and shows on a card). */
  function StatusName(s: Status): string
  {
    match s
    case Pending => "PENDING"
    case Met => "MET"
    case Breached => "BREACHED"
    case Disputed => "DISPUTED"
  }

  /** The kind of relationship a commitment belongs to. */
  datatype Category = Couple | CoParenting | Freelance | Recovery | Personal

  /** The display string each category carries as its enum value. */
  function CategoryName(c: Category): string
  {
    match c
    case Couple => "Relationship"
    case CoParenting => "Co-Parenting"
    case Freelance => "Professional"
    case Recovery => "Recovery"
    case Personal => "Personal Growth"
  }

  /** An entry of a commitment's update log. Timestamps are milliseconds
      since the epoch. */
  datatype Update = Update(id: string, timestamp: int, author: string, note: string)

  /** A tracked promise. `deadline` is the only optional field; `updates` is
      ordered, newest first by convention. */
  datatype Commitment = Commitment(
    id: string,
    title: string,
    description: string,
    promisor: string,
    promisee: string,
    category: Category,
    createdAt: int,
    deadline: Option<int>,
    definitionOfDone: string,
    status: Status,
    updates: seq<Update>)

  /** What a pattern analysis returns: a reliability score, a summary, the
      patterns found in order, and a recommendation. */
  datatype AnalysisResult = AnalysisResult(
    reliabilityScore: real,
    summary: string,
    patterns: seq<string>,
    recommendation: string)

  /** The enum strings of the four statuses are pairwise distinct, so a
      status can be recovered from the string it is shown as. */
  lemma StatusNameInjective(s: Status, t: Status)
    ensures StatusName(s) == StatusName(t) <==> s == t
  {
    if s != t {
      assert StatusName(s)[0] != StatusName(t)[0];
    }
  }

  /** The display strings of the five categories are pairwise distinct. */
  lemma CategoryNameInjective(c: Category, d: Category)
    ensures CategoryName(c) == CategoryName(d) <==> c == d
  {
    if c != d {
      assert CategoryName(c)[2] != CategoryName(d)[2];
    }
  }
}

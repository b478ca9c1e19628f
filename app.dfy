/** The commitment ledger held by the application root: the handlers that
    replace the `commitments` list (add, change status, add a log entry) and
    the five fields of the new-commitment form.

    Each handler builds a new list from the old one without touching the old
    one; the pure functions below are those new lists, and class `AppState`
    holds the state that the handlers reassign. Random ids, the clock and
    the text typed into the browser's prompt dialog are parameters. */
module App {
  import opened Types
  import Constants

  /** The author recorded on every update added through the log dialog. */
  const CURRENT_USER: string := "Current User"

  /** The values of the five text fields of the new-commitment form. */
  datatype Form = Form(
    title: string,
    description: string,
    promisor: string,
    promisee: string,
    definitionOfDone: string)

  /** The form after it has been cleared. */
  const EMPTY_FORM: Form := Form("", "", "", "", "")

  /** The ids of a ledger, in list order. */
  function Ids(ledger: seq<Commitment>): (r: seq<string>)
    ensures |r| == |ledger|
    ensures forall i :: 0 <= i < |ledger| ==> r[i] == ledger[i].id
  {
    if ledger == [] then [] else [ledger[0].id] + Ids(ledger[1..])
  }

  /** The statuses of a ledger, in list order. */
  function Statuses(ledger: seq<Commitment>): (r: seq<Status>)
    ensures |r| == |ledger|
    ensures forall i :: 0 <= i < |ledger| ==> r[i] == ledger[i].status
  {
    if ledger == [] then [] else [ledger[0].status] + Statuses(ledger[1..])
  }

  /** No two records of the ledger share an id. The handlers do not rely on
      it: they act on every record whose id matches. */
  predicate UniqueIds(ledger: seq<Commitment>)
  {
    forall i, j :: 0 <= i < j < |ledger| ==> ledger[i].id != ledger[j].id
  }

  /** The list built on form submission: a fresh PENDING record made of the
      form values, in front of the previous list. */
  function AddCommitment(ledger: seq<Commitment>, form: Form, id: string, now: int): (r: seq<Commitment>)
    ensures |r| == |ledger| + 1 && r[1..] == ledger
    ensures r[0].id == id && r[0].createdAt == now
    ensures r[0].title == form.title && r[0].description == form.description
    ensures r[0].promisor == form.promisor && r[0].promisee == form.promisee
    ensures r[0].definitionOfDone == form.definitionOfDone
    ensures r[0].status == Pending && r[0].updates == []
    ensures r[0].category == Personal && r[0].deadline == None
  {
    var entry := Commitment(id, form.title, form.description, form.promisor, form.promisee,
                            Personal, now, None, form.definitionOfDone, Pending, []);
    [entry] + ledger
  }

  /** The list after a status change: every record whose id matches gets
      the new status, and nothing else changes. */
  function SetStatus(ledger: seq<Commitment>, id: string, status: Status): (r: seq<Commitment>)
    ensures |r| == |ledger|
    ensures forall i :: 0 <= i < |ledger| && ledger[i].id == id ==> r[i] == ledger[i].(status := status)
    ensures forall i :: 0 <= i < |ledger| && ledger[i].id != id ==> r[i] == ledger[i]
  {
    if ledger == [] then []
    else
      var c := ledger[0];
      [if c.id == id then c.(status := status) else c] + SetStatus(ledger[1..], id, status)
  }

  /** Whether the text returned by the log dialog is used: a cancelled
      dialog (None) and an empty note are both rejected. */
  predicate Accepted(note: Option<string>)
    ensures note == None ==> !Accepted(note)
    ensures Accepted(note) ==> note.Some? && |note.value| > 0
  {
    note.Some? && note.value != ""
  }

  /** The update that the record at position `pos` receives. The id
      generator and the clock are called once per matching record, so both
      are given as functions of the position. */
  function LogEntry(note: string, pos: nat, newId: nat -> string, clock: nat -> int): (u: Update)
    ensures u.author == CURRENT_USER && u.note == note
    ensures u.id == newId(pos) && u.timestamp == clock(pos)
  {
    Update(newId(pos), clock(pos), CURRENT_USER, note)
  }

  /** Prepends a log entry to every record of `ledger` whose id matches;
      `ledger` starts at position `from` of the whole list. */
  function PrependLog(ledger: seq<Commitment>, id: string, note: string,
                      newId: nat -> string, clock: nat -> int, from: nat): (r: seq<Commitment>)
    ensures |r| == |ledger|
    ensures forall i :: 0 <= i < |ledger| && ledger[i].id == id ==>
      r[i] == ledger[i].(updates := [LogEntry(note, from + i, newId, clock)] + ledger[i].updates)
    ensures forall i :: 0 <= i < |ledger| && ledger[i].id != id ==> r[i] == ledger[i]
  {
    if ledger == [] then []
    else
      var c := ledger[0];
      var c' := if c.id == id then c.(updates := [LogEntry(note, from, newId, clock)] + c.updates) else c;
      [c'] + PrependLog(ledger[1..], id, note, newId, clock, from + 1)
  }

  /** The list after the log dialog returns `note`: unchanged when the
      dialog was cancelled or left empty, otherwise every matching record
      gets a new update, newest first. */
  function AddLog(ledger: seq<Commitment>, id: string, note: Option<string>,
                  newId: nat -> string, clock: nat -> int): (r: seq<Commitment>)
    ensures |r| == |ledger|
    ensures forall i :: 0 <= i < |ledger| && Accepted(note) && ledger[i].id == id ==>
      r[i] == ledger[i].(updates := [Update(newId(i), clock(i), CURRENT_USER, note.value)] + ledger[i].updates)
    ensures forall i :: 0 <= i < |ledger| && !(Accepted(note) && ledger[i].id == id) ==> r[i] == ledger[i]
  {
    if !Accepted(note) then ledger
    else PrependLog(ledger, id, note.value, newId, clock, 0)
  }

  /** A status change leaves a ledger that holds no record with that id
      exactly as it was. */
  lemma SetStatusAbsent(ledger: seq<Commitment>, id: string, status: Status)
    requires id !in Ids(ledger)
    ensures SetStatus(ledger, id, status) == ledger
  {
    var r := SetStatus(ledger, id, status);
    forall i | 0 <= i < |ledger|
      ensures r[i] == ledger[i]
    {
      assert Ids(ledger)[i] == ledger[i].id;
    }
  }

  /** Setting the same status twice gives the same list as setting it once. */
  lemma SetStatusIdempotent(ledger: seq<Commitment>, id: string, status: Status)
    ensures SetStatus(SetStatus(ledger, id, status), id, status) == SetStatus(ledger, id, status)
  {
  }

  /** After a status change, every record with that id has the new status,
      and the ids (hence their order) are those of the old list. */
  lemma SetStatusLookup(ledger: seq<Commitment>, id: string, status: Status)
    ensures Ids(SetStatus(ledger, id, status)) == Ids(ledger)
    ensures forall c :: c in SetStatus(ledger, id, status) && c.id == id ==> c.status == status
  {
  }

  /** A cancelled or empty note leaves the ledger as it was. */
  lemma AddLogRejected(ledger: seq<Commitment>, id: string, note: Option<string>,
                       newId: nat -> string, clock: nat -> int)
    requires note == None || note == Some("")
    ensures AddLog(ledger, id, note, newId, clock) == ledger
  {
  }

  /** An accepted note adds exactly one update, by the current user and
      carrying the note, in front of each matching record's previous
      updates; the record's status and other fields are kept, and the other
      records and the ids do not change. */
  lemma AddLogPrependsOne(ledger: seq<Commitment>, id: string, note: string,
                          newId: nat -> string, clock: nat -> int, i: nat)
    requires note != "" && i < |ledger|
    ensures var r := AddLog(ledger, id, Some(note), newId, clock);
      && Ids(r) == Ids(ledger)
      && Statuses(r) == Statuses(ledger)
      && (ledger[i].id == id ==>
            && |r[i].updates| == |ledger[i].updates| + 1
            && r[i].updates[1..] == ledger[i].updates
            && r[i].updates[0].author == CURRENT_USER
            && r[i].updates[0].note == note
            && r[i].(updates := ledger[i].updates) == ledger[i])
      && (ledger[i].id != id ==> r[i] == ledger[i])
  {
  }

  /** Adding a log entry never changes a status or an id, whatever the note. */
  lemma AddLogKeepsStatuses(ledger: seq<Commitment>, id: string, note: Option<string>,
                            newId: nat -> string, clock: nat -> int)
    ensures Statuses(AddLog(ledger, id, note, newId, clock)) == Statuses(ledger)
    ensures Ids(AddLog(ledger, id, note, newId, clock)) == Ids(ledger)
  {
  }

  /** Two ledgers with the same ids in the same order are alike in having
      unique ids. */
  lemma UniqueIdsFromIds(a: seq<Commitment>, b: seq<Commitment>)
    requires Ids(a) == Ids(b) && UniqueIds(b)
    ensures UniqueIds(a)
  {
    forall i, j | 0 <= i < j < |a|
      ensures a[i].id != a[j].id
    {
      assert a[i].id == Ids(a)[i] == Ids(b)[i] == b[i].id;
      assert a[j].id == Ids(a)[j] == Ids(b)[j] == b[j].id;
    }
  }

  /** Adding a record under an id not yet in use keeps the ids unique. */
  lemma AddCommitmentKeepsUniqueIds(ledger: seq<Commitment>, form: Form, id: string, now: int)
    requires UniqueIds(ledger) && id !in Ids(ledger)
    ensures UniqueIds(AddCommitment(ledger, form, id, now))
  {
    var r := AddCommitment(ledger, form, id, now);
    forall i, j | 0 <= i < j < |r|
      ensures r[i].id != r[j].id
    {
      assert r[j] == ledger[j - 1];
      if i == 0 {
        assert Ids(ledger)[j - 1] == ledger[j - 1].id;
      } else {
        assert r[i] == ledger[i - 1];
      }
    }
  }

  /** Status changes and log entries never change an id, so they keep the
      ids unique. */
  lemma UpdatesKeepUniqueIds(ledger: seq<Commitment>, id: string, status: Status,
                             note: Option<string>, newId: nat -> string, clock: nat -> int)
    requires UniqueIds(ledger)
    ensures Ids(AddLog(ledger, id, note, newId, clock)) == Ids(ledger)
    ensures UniqueIds(SetStatus(ledger, id, status))
    ensures UniqueIds(AddLog(ledger, id, note, newId, clock))
  {
    SetStatusLookup(ledger, id, status);
    UniqueIdsFromIds(SetStatus(ledger, id, status), ledger);
    UniqueIdsFromIds(AddLog(ledger, id, note, newId, clock), ledger);
  }

  /** The state of the application root: the ledger and the new-commitment
      form with its modal. */
  class AppState {
    var commitments: seq<Commitment>
    var isModalOpen: bool
    var newTitle: string
    var newDescription: string
    var newPromisor: string
    var newPromisee: string
    var newDod: string

    /** The current values of the form fields. */
    function FormValues(): Form
      reads this
    {
      Form(newTitle, newDescription, newPromisor, newPromisee, newDod)
    }

    /** Initial state: the seed ledger built at `loadTime`, the modal
        closed and every form field empty. */
    constructor (loadTime: nat)
      ensures commitments == Constants.InitialCommitments(loadTime)
      ensures !isModalOpen && FormValues() == EMPTY_FORM
    {
      commitments := Constants.InitialCommitments(loadTime);
      isModalOpen := false;
      newTitle, newDescription, newPromisor, newPromisee, newDod := "", "", "", "", "";
    }

    /** Clears the five form fields and nothing else. */
    method ResetForm()
      modifies this`newTitle, this`newDescription, this`newPromisor, this`newPromisee, this`newDod
      ensures FormValues() == EMPTY_FORM
    {
      newTitle := "";
      newDescription := "";
      newPromisor := "";
      newPromisee := "";
      newDod := "";
    }

    /** Form submission: prepends a PENDING record made of the form values,
        with id `id` and creation time `now`, then closes the modal and
        clears the form. */
    method HandleAddCommitment(id: string, now: int)
      modifies this
      ensures commitments == AddCommitment(old(commitments), old(FormValues()), id, now)
      ensures !isModalOpen && FormValues() == EMPTY_FORM
    {
      commitments := AddCommitment(commitments, FormValues(), id, now);
      isModalOpen := false;
      ResetForm();
    }

    /** Gives every record with id `id` the status `status`. */
    method HandleStatusChange(id: string, status: Status)
      modifies this`commitments
      ensures commitments == SetStatus(old(commitments), id, status)
    {
      commitments := SetStatus(commitments, id, status);
    }

    /** Handles the text returned by the log dialog (`None` when it was
        cancelled). A rejected note returns before the ledger is touched. */
    method HandleAddLog(id: string, note: Option<string>, newId: nat -> string, clock: nat -> int)
      modifies this`commitments
      ensures commitments == AddLog(old(commitments), id, note, newId, clock)
    {
      if !Accepted(note) {
        return;
      }
      commitments := AddLog(commitments, id, note, newId, clock);
    }
  }
}

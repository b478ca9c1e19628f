/** The rules of one commitment card: the colour class of its status badge,
    the PAST DUE marker, the buttons it offers and what pressing them does
    to the ledger, and its list of recent updates. */
module CommitmentCard {
  import opened Types
  import App

  const PENDING_COLOR: string := "bg-amber-100 text-amber-800 border-amber-200"
  // Written as a concatenation only so that the verifier, which does not
  // unfold a literal this long, can read off its characters.
  const MET_COLOR: string := "bg-emerald-100 " + "text-emerald-800 border-emerald-200"
  const BREACHED_COLOR: string := "bg-rose-100 text-rose-800 border-rose-200"
  const DISPUTED_COLOR: string := "bg-indigo-100 text-indigo-800 border-indigo-200"
  /** The class of the switch's default branch, which no status reaches. */
  const FALLBACK_COLOR: string := "bg-slate-100 text-slate-800 border-slate-200"

  /** The classes of a card's status badge; every status has a case of its
      own, so the default branch is never taken. */
  function StatusColor(s: Status): (r: string)
    ensures r != FALLBACK_COLOR
  {
    match s
    case Pending => PENDING_COLOR
    case Met => MET_COLOR
    case Breached => BREACHED_COLOR
    case Disputed => DISPUTED_COLOR
  }

  /** The four statuses get four distinct badge classes, none of them the
      default branch's. */
  lemma StatusColorDistinct(s: Status, t: Status)
    ensures StatusColor(s) == StatusColor(t) <==> s == t
    ensures StatusColor(s) != FALLBACK_COLOR
  {
    // The fourth character tells the five class strings apart.
    assert PENDING_COLOR[3] == 'a';
    assert MET_COLOR[3] == 'e';
    assert BREACHED_COLOR[3] == 'r';
    assert DISPUTED_COLOR[3] == 'i';
    assert FALLBACK_COLOR[3] == 's';
  }

  /** Whether a deadline is present in the sense of `commitment.deadline &&`:
      an absent deadline and a deadline of 0 are both falsy. */
  predicate HasDeadline(c: Commitment)
    ensures HasDeadline(c) ==> c.deadline.Some?
    ensures c.deadline == Some(0) ==> !HasDeadline(c)
  {
    c.deadline.Some? && c.deadline.value != 0
  }

  /** The PAST DUE marker, at time `now`: a truthy deadline strictly before
      now on a record that is still PENDING. */
  predicate IsExpired(c: Commitment, now: int)
    ensures c.deadline == None || c.status != Pending ==> !IsExpired(c, now)
    ensures IsExpired(c, now) ==> c.deadline.value < now
  {
    HasDeadline(c) && c.deadline.value < now && c.status == Pending
  }

  /** The past-due marker decided case by case: never without a truthy
      deadline, never on a record that is not PENDING, and otherwise exactly
      when the deadline lies before now. */
  lemma IsExpiredCases(c: Commitment, now: int)
    ensures c.deadline == None ==> !IsExpired(c, now)
    ensures c.deadline == Some(0) ==> !IsExpired(c, now)
    ensures c.status != Pending ==> !IsExpired(c, now)
    ensures c.status == Pending && c.deadline.Some? && c.deadline.value != 0 ==>
      (IsExpired(c, now) <==> c.deadline.value < now)
  {
  }

  /** Once a PENDING record is past due it stays past due as time goes on. */
  lemma IsExpiredMonotone(c: Commitment, now: int, later: int)
    requires now <= later && IsExpired(c, now)
    ensures IsExpired(c, later)
  {
  }

  /** The buttons of a card. */
  datatype Action = MarkMet | MarkBreached | AddLog

  /** The buttons a card offers, left to right: the two status buttons only
      for a PENDING record, "Add Log" always. */
  function Actions(c: Commitment): (r: seq<Action>)
    ensures AddLog in r
    ensures MarkMet in r <==> c.status == Pending
    ensures MarkBreached in r <==> c.status == Pending
  {
    if c.status == Pending then [MarkMet, MarkBreached, AddLog] else [AddLog]
  }

  /** What pressing a button of the card for `c` does to the ledger: the
      status buttons call the status handler with the card's id, "Add Log"
      calls the log handler with the card's id and the dialog's text. */
  function Press(ledger: seq<Commitment>, c: Commitment, action: Action, note: Option<string>,
                 newId: nat -> string, clock: nat -> int): (r: seq<Commitment>)
    ensures |r| == |ledger| && App.Ids(r) == App.Ids(ledger)
    ensures action == AddLog ==> App.Statuses(r) == App.Statuses(ledger)
    ensures forall i :: 0 <= i < |ledger| && r[i].status != ledger[i].status ==>
      ledger[i].id == c.id && r[i].status == (if action == MarkMet then Met else Breached)
  {
    match action
    case MarkMet =>
      App.SetStatusLookup(ledger, c.id, Met);
      App.SetStatus(ledger, c.id, Met)
    case MarkBreached =>
      App.SetStatusLookup(ledger, c.id, Breached);
      App.SetStatus(ledger, c.id, Breached)
    case AddLog =>
      App.AddLogKeepsStatuses(ledger, c.id, note, newId, clock);
      App.AddLog(ledger, c.id, note, newId, clock)
  }

  /** With unique ids, pressing an offered button on the card of record `k`
      changes no status but record `k`'s, and changes that one only from
      PENDING to MET or BREACHED. */
  lemma PressTransitions(ledger: seq<Commitment>, k: nat, action: Action, note: Option<string>,
                         newId: nat -> string, clock: nat -> int)
    requires App.UniqueIds(ledger) && k < |ledger| && action in Actions(ledger[k])
    ensures var r := Press(ledger, ledger[k], action, note, newId, clock);
      && |r| == |ledger|
      && App.Ids(r) == App.Ids(ledger)
      && forall i :: 0 <= i < |ledger| && r[i].status != ledger[i].status ==>
           i == k && ledger[i].status == Pending && (r[i].status == Met || r[i].status == Breached)
  {
    var id := ledger[k].id;
    var r := Press(ledger, ledger[k], action, note, newId, clock);
    if action == AddLog {
      App.AddLogKeepsStatuses(ledger, id, note, newId, clock);
      forall i | 0 <= i < |ledger|
        ensures r[i].status == ledger[i].status
      {
        assert App.Statuses(r)[i] == App.Statuses(ledger)[i];
      }
    } else {
      App.SetStatusLookup(ledger, id, if action == MarkMet then Met else Breached);
      forall i | 0 <= i < |ledger| && r[i].status != ledger[i].status
        ensures i == k
      {
        assert ledger[i].id == id;
      }
    }
  }

  /** Without unique ids the guard is not enough: the status buttons of a
      PENDING card also rewrite a settled record that shares its id. */
  lemma SharedIdRewritesSettled()
    ensures var pending := Commitment("x", "", "", "", "", Personal, 0, None, "", Pending, []);
      var settled := pending.(status := Breached);
      var r := Press([pending, settled], pending, MarkMet, None, _ => "", _ => 0);
      MarkMet in Actions(pending) && r[1].status == Met && settled.status == Breached
  {
  }

  /** One button press in a sequence: the card pressed (by position in the
      current ledger), the button, the text of the log dialog, and the id
      generator and clock that this press draws from, so that every press
      gets fresh ids and times. */
  datatype Click = Click(card: nat, action: Action, note: Option<string>,
                         newId: nat -> string, clock: nat -> int)

  /** The ledger after a sequence of presses, each on an offered button of
      an existing card; `None` as soon as a press is not possible. */
  function Run(ledger: seq<Commitment>, presses: seq<Click>): Option<seq<Commitment>>
    decreases |presses|
  {
    if presses == [] then Some(ledger)
    else
      var p := presses[0];
      if p.card < |ledger| && p.action in Actions(ledger[p.card]) then
        Run(Press(ledger, ledger[p.card], p.action, p.note, p.newId, p.clock), presses[1..])
      else None
  }

  /** One press of an offered button turns no record into a DISPUTED one. */
  lemma PressNeverDisputes(ledger: seq<Commitment>, k: nat, action: Action, note: Option<string>,
                           newId: nat -> string, clock: nat -> int)
    requires k < |ledger| && action in Actions(ledger[k])
    requires forall c :: c in ledger ==> c.status != Disputed
    ensures forall c :: c in Press(ledger, ledger[k], action, note, newId, clock) ==> c.status != Disputed
  {
    var next := Press(ledger, ledger[k], action, note, newId, clock);
    forall c | c in next
      ensures c.status != Disputed
    {
      var i :| 0 <= i < |next| && next[i] == c;
      assert ledger[i] in ledger;
      if action == AddLog {
        App.AddLogKeepsStatuses(ledger, ledger[k].id, note, newId, clock);
        assert App.Statuses(next)[i] == App.Statuses(ledger)[i];
      }
    }
  }

  /** No card button ever makes a record DISPUTED: starting from a ledger
      without DISPUTED records, every run of presses ends in one. */
  lemma {:induction false} DisputedUnreachable(ledger: seq<Commitment>, presses: seq<Click>)
    requires forall c :: c in ledger ==> c.status != Disputed
    ensures Run(ledger, presses).Some? ==>
      forall c :: c in Run(ledger, presses).value ==> c.status != Disputed
    decreases |presses|
  {
    if presses != [] {
      var p := presses[0];
      if p.card < |ledger| && p.action in Actions(ledger[p.card]) {
        PressNeverDisputes(ledger, p.card, p.action, p.note, p.newId, p.clock);
        DisputedUnreachable(Press(ledger, ledger[p.card], p.action, p.note, p.newId, p.clock),
                            presses[1..]);
      }
    }
  }

  /** At most two updates are listed on the card. */
  const RECENT_LIMIT: nat := 2

  /** The updates listed under "Recent Updates": the first two, in list
      order (all of them when there are fewer). */
  function RecentUpdates(c: Commitment): (r: seq<Update>)
    ensures |r| <= RECENT_LIMIT && |r| <= |c.updates|
    ensures |r| == RECENT_LIMIT || r == c.updates
    ensures r == c.updates[..|r|]
  {
    if |c.updates| <= RECENT_LIMIT then c.updates else c.updates[..RECENT_LIMIT]
  }

  /** Whether the card shows a "Recent Updates" section. */
  predicate ShowsRecent(c: Commitment)
  {
    |c.updates| > 0
  }

  /** The section is shown exactly when it has something to list, and the
      newest update (the first in the list) is always listed first. */
  lemma RecentSection(c: Commitment)
    ensures ShowsRecent(c) <==> RecentUpdates(c) != []
    ensures ShowsRecent(c) ==> RecentUpdates(c)[0] == c.updates[0]
  {
  }
}

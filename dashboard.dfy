/** The dashboard's derived statistics: how many records there are and how
    many are MET, BREACHED and PENDING (DISPUTED records are not tallied),
    and the three slices of the pie chart built from those counts. */
module Dashboard {
  import opened Types
  import App

  /** The four counts shown on the dashboard. */
  datatype Stats = Stats(total: nat, met: nat, breached: nat, pending: nat)

  /** One slice of the pie chart: its label, its value and its colour. */
  datatype Slice = Slice(name: string, value: nat, color: string)

  /** The records of `ledger` whose status is `s`, in list order: each
      record with that status is kept as often as it occurs, every other
      record is dropped. */
  function WithStatus(ledger: seq<Commitment>, s: Status): (r: seq<Commitment>)
    ensures |r| <= |ledger|
    ensures forall c :: c in r ==> c in ledger && c.status == s
    ensures forall c :: c in ledger && c.status == s ==> c in r
  {
    if ledger == [] then []
    else if ledger[0].status == s then [ledger[0]] + WithStatus(ledger[1..], s)
    else WithStatus(ledger[1..], s)
  }

  /** The filter keeps every record with status `s` as many times as it
      occurs in the ledger, so its length is the number of such records. */
  lemma {:induction false} WithStatusMultiplicity(ledger: seq<Commitment>, s: Status)
    ensures forall c :: multiset(WithStatus(ledger, s))[c] == (if c.status == s then multiset(ledger)[c] else 0)
  {
    if ledger != [] {
      assert ledger == [ledger[0]] + ledger[1..];
      WithStatusMultiplicity(ledger[1..], s);
    }
  }

  /** The number of records of `ledger` with status `s`: the length of the
      filter, so at most the length of the ledger. */
  function CountStatus(ledger: seq<Commitment>, s: Status): (n: nat)
    ensures n <= |ledger|
  {
    |WithStatus(ledger, s)|
  }

  /** A count is zero exactly when no record has that status. */
  lemma CountStatusZero(ledger: seq<Commitment>, s: Status)
    ensures CountStatus(ledger, s) == 0 <==> forall c :: c in ledger ==> c.status != s
  {
    var r := WithStatus(ledger, s);
    if r != [] {
      assert r[0] in r;
    }
  }

  /** A count peels off the first record. */
  lemma CountStatusHead(ledger: seq<Commitment>, s: Status)
    requires ledger != []
    ensures CountStatus(ledger, s) == (if ledger[0].status == s then 1 else 0) + CountStatus(ledger[1..], s)
  {
  }

  /** The dashboard's statistics of a ledger: the total is the length, and
      the three tallies together with the untallied DISPUTED records make up
      the total. */
  function ComputeStats(ledger: seq<Commitment>): (st: Stats)
    ensures st.total == |ledger|
    ensures st.met + st.breached + st.pending + CountStatus(ledger, Disputed) == st.total
  {
    CountsPartition(ledger);
    Stats(|ledger|, CountStatus(ledger, Met), CountStatus(ledger, Breached), CountStatus(ledger, Pending))
  }

  /** The pie chart's data: three slices with distinct labels and colours,
      carrying the met, breached and pending tallies in that order. */
  function ChartData(stats: Stats): (r: seq<Slice>)
    ensures |r| == 3
    ensures forall i, j :: 0 <= i < j < 3 ==> r[i].name != r[j].name && r[i].color != r[j].color
    ensures r[0].value == stats.met && r[1].value == stats.breached && r[2].value == stats.pending
  {
    [ Slice("Met", stats.met, "#10b981"),
      Slice("Breached", stats.breached, "#f43f5e"),
      Slice("Pending", stats.pending, "#f59e0b") ]
  }

  /** Every record has exactly one of the four statuses, so the four
      counts add up to the length of the ledger. */
  lemma {:induction false} CountsPartition(ledger: seq<Commitment>)
    ensures CountStatus(ledger, Pending) + CountStatus(ledger, Met)
          + CountStatus(ledger, Breached) + CountStatus(ledger, Disputed) == |ledger|
  {
    if ledger != [] {
      CountsPartition(ledger[1..]);
    }
  }

  /** The tallied counts never exceed the total, and they reach it exactly
      when no record is DISPUTED. */
  lemma StatsBound(ledger: seq<Commitment>)
    ensures var st := ComputeStats(ledger);
      && st.total == |ledger|
      && st.met + st.breached + st.pending <= st.total
      && (st.met + st.breached + st.pending == st.total <==> CountStatus(ledger, Disputed) == 0)
      && (CountStatus(ledger, Disputed) == 0 <==> forall c :: c in ledger ==> c.status != Disputed)
  {
    CountsPartition(ledger);
    CountStatusZero(ledger, Disputed);
  }

  /** An empty ledger gives all four counts zero. */
  lemma EmptyStats()
    ensures ComputeStats([]) == Stats(0, 0, 0, 0)
  {
  }

  /** The chart has three slices, labelled Met, Breached and Pending in that
      order, whose values add up to the number of records that are not
      DISPUTED. */
  lemma ChartDataSlices(ledger: seq<Commitment>)
    ensures var chart := ChartData(ComputeStats(ledger));
      && |chart| == 3
      && chart[0].name == "Met" && chart[0].value == CountStatus(ledger, Met)
      && chart[1].name == "Breached" && chart[1].value == CountStatus(ledger, Breached)
      && chart[2].name == "Pending" && chart[2].value == CountStatus(ledger, Pending)
      && chart[0].value + chart[1].value + chart[2].value == |ledger| - CountStatus(ledger, Disputed)
  {
    CountsPartition(ledger);
  }

  /** A count depends only on the statuses of the records, in order. */
  lemma {:induction false} CountDependsOnStatuses(a: seq<Commitment>, b: seq<Commitment>, s: Status)
    requires App.Statuses(a) == App.Statuses(b)
    ensures CountStatus(a, s) == CountStatus(b, s)
  {
    if a != [] {
      assert a[0].status == App.Statuses(a)[0] == App.Statuses(b)[0] == b[0].status;
      assert App.Statuses(a[1..]) == App.Statuses(a)[1..];
      assert App.Statuses(b[1..]) == App.Statuses(b)[1..];
      CountDependsOnStatuses(a[1..], b[1..], s);
    }
  }

  /** Adding a log entry leaves the statistics unchanged. */
  lemma AddLogKeepsStats(ledger: seq<Commitment>, id: string, note: Option<string>,
                         newId: nat -> string, clock: nat -> int)
    ensures ComputeStats(App.AddLog(ledger, id, note, newId, clock)) == ComputeStats(ledger)
  {
    var r := App.AddLog(ledger, id, note, newId, clock);
    App.AddLogKeepsStatuses(ledger, id, note, newId, clock);
    CountDependsOnStatuses(r, ledger, Met);
    CountDependsOnStatuses(r, ledger, Breached);
    CountDependsOnStatuses(r, ledger, Pending);
  }

  /** Adding a commitment raises the total and the pending count by one. */
  lemma AddCommitmentStats(ledger: seq<Commitment>, form: App.Form, id: string, now: int)
    ensures var st := ComputeStats(ledger);
      ComputeStats(App.AddCommitment(ledger, form, id, now))
        == Stats(st.total + 1, st.met, st.breached, st.pending + 1)
  {
    var r := App.AddCommitment(ledger, form, id, now);
    assert r == [r[0]] + ledger;
  }

  /** The number of records with id `id` and status `s`. */
  function CountIdStatus(ledger: seq<Commitment>, id: string, s: Status): nat
  {
    if ledger == [] then 0
    else (if ledger[0].id == id && ledger[0].status == s then 1 else 0) + CountIdStatus(ledger[1..], id, s)
  }

  /** The number of records with id `id`. */
  function CountId(ledger: seq<Commitment>, id: string): nat
  {
    if ledger == [] then 0
    else (if ledger[0].id == id then 1 else 0) + CountId(ledger[1..], id)
  }

  /** A status change moves every record with that id out of the count of
      its old status and into the count of the new status. */
  lemma {:induction false} SetStatusCount(ledger: seq<Commitment>, id: string, status: Status, s: Status)
    ensures CountStatus(App.SetStatus(ledger, id, status), s) + CountIdStatus(ledger, id, s)
         == CountStatus(ledger, s) + (if s == status then CountId(ledger, id) else 0)
  {
    if ledger != [] {
      var r := App.SetStatus(ledger, id, status);
      assert r[1..] == App.SetStatus(ledger[1..], id, status);
      SetStatusCount(ledger[1..], id, status, s);
    }
  }

  /** With unique ids, record `k` is the only record with its id: it is
      counted once, under its own status. */
  lemma {:induction false} CountIdUnique(ledger: seq<Commitment>, k: nat, s: Status)
    requires App.UniqueIds(ledger) && k < |ledger|
    ensures CountId(ledger, ledger[k].id) == 1
    ensures CountIdStatus(ledger, ledger[k].id, s) == (if ledger[k].status == s then 1 else 0)
  {
    if k == 0 {
      CountIdAbsent(ledger[1..], ledger[0].id, s);
    } else {
      assert ledger[0].id != ledger[k].id;
      CountIdUnique(ledger[1..], k - 1, s);
    }
  }

  /** With no record of id `id`, both id counts are zero. */
  lemma {:induction false} CountIdAbsent(ledger: seq<Commitment>, id: string, s: Status)
    requires forall c :: c in ledger ==> c.id != id
    ensures CountId(ledger, id) == 0
    ensures CountIdStatus(ledger, id, s) == 0
  {
    if ledger != [] {
      assert ledger[0] in ledger;
      CountIdAbsent(ledger[1..], id, s);
    }
  }

  /** Marking the one PENDING record with a given id as MET lowers the
      pending count by one and raises the met count by one; the total and
      the breached count stay. */
  lemma MarkMetStats(ledger: seq<Commitment>, k: nat)
    requires App.UniqueIds(ledger) && k < |ledger| && ledger[k].status == Pending
    ensures var before := ComputeStats(ledger);
      ComputeStats(App.SetStatus(ledger, ledger[k].id, Met))
        == Stats(before.total, before.met + 1, before.breached, before.pending - 1)
  {
    var id := ledger[k].id;
    CountIdUnique(ledger, k, Met);
    SetStatusCount(ledger, id, Met, Met);
    CountIdUnique(ledger, k, Breached);
    SetStatusCount(ledger, id, Met, Breached);
    CountIdUnique(ledger, k, Pending);
    SetStatusCount(ledger, id, Met, Pending);
  }
}

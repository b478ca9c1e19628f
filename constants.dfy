/** The seed ledger the application starts with. Its timestamps are offsets
    from the moment the module is loaded, given here as `loadTime`
    (milliseconds since the epoch). */
module Constants {
  import opened Types

  const MS_PER_HOUR: int := 1000 * 60 * 60
  const MS_PER_DAY: int := MS_PER_HOUR * 24

  /** The four example commitments, in list order. */
  function InitialCommitments(loadTime: nat): (r: seq<Commitment>)
    ensures |r| == 4
  {
    [ Commitment(
        "1", "No Work Talk After 8 PM",
        "Protecting evening quality time by removing professional distractions.",
        "Alex", "Jordan", Couple,
        loadTime - MS_PER_DAY * 7, None,
        "Phones away, no mentions of Slack or projects until 8 AM next day.",
        Met,
        [Update("u1", loadTime - MS_PER_DAY * 3, "Jordan", "Consistent for 3 days.")]),
      Commitment(
        "2", "Therapy Appointment Booking",
        "Commitment to finding a specialist and booking the first intake session.",
        "Jordan", "Alex", Couple,
        loadTime - MS_PER_DAY * 5, Some(loadTime + MS_PER_DAY * 2),
        "Proof of booking and date shared.",
        Pending, []),
      Commitment(
        "3", "Child Pickup - Friday",
        "Handle soccer practice pickup and dinner.",
        "Sam", "Taylor", CoParenting,
        loadTime - MS_PER_DAY * 10, Some(loadTime - MS_PER_DAY * 1),
        "Child is home by 7 PM fed and ready for sleep.",
        Breached,
        [Update("u2", loadTime - MS_PER_HOUR * 22, "Taylor", "Sam was 45 mins late. Child was distressed.")]),
      Commitment(
        "4", "Weekly Budget Review",
        "Review expenses and upcoming bills for the month.",
        "Both", "Household", Personal,
        loadTime - MS_PER_DAY * 30, Some(loadTime + MS_PER_HOUR * 2),
        "Spreadsheet updated and consensus reached on discretionary spending.",
        Pending, [])
    ]
  }
}

/** What the seed ledger gives for the dashboard and the cards. */
module SeedFacts {
  import opened Types
  import opened Constants
  import App
  import Dashboard
  import CommitmentCard

  /** The seed's ids are '1' to '4' in order, so they are distinct, and its
      two updates have the distinct ids 'u1' and 'u2'. */
  lemma SeedIds(loadTime: nat)
    ensures var seed := InitialCommitments(loadTime);
      && App.Ids(seed) == ["1", "2", "3", "4"]
      && App.UniqueIds(seed)
      && seed[0].updates[0].id == "u1" && seed[2].updates[0].id == "u2"
      && seed[0].updates[0].id != seed[2].updates[0].id
  {
    var seed := InitialCommitments(loadTime);
    assert App.Ids(seed) == [seed[0].id] + App.Ids(seed[1..]);
    assert App.Ids(seed[1..]) == [seed[1].id] + App.Ids(seed[2..]);
  }

  /** The seed's statistics: four records, one MET, one BREACHED, two
      PENDING and none DISPUTED. */
  lemma SeedStats(loadTime: nat)
    ensures Dashboard.ComputeStats(InitialCommitments(loadTime)) == Dashboard.Stats(4, 1, 1, 2)
    ensures Dashboard.CountStatus(InitialCommitments(loadTime), Disputed) == 0
  {
    SeedCount(loadTime, Met);
    SeedCount(loadTime, Breached);
    SeedCount(loadTime, Pending);
    SeedCount(loadTime, Disputed);
  }

  /** The count of one status over the seed, record by record. */
  lemma SeedCount(loadTime: nat, s: Status)
    ensures Dashboard.CountStatus(InitialCommitments(loadTime), s)
         == match s case Met => 1 case Breached => 1 case Pending => 2 case Disputed => 0
  {
    var seed := InitialCommitments(loadTime);
    Dashboard.CountStatusHead(seed, s);
    Dashboard.CountStatusHead(seed[1..], s);
    Dashboard.CountStatusHead(seed[2..], s);
    Dashboard.CountStatusHead(seed[3..], s);
    assert seed[1..][1..] == seed[2..] && seed[2..][1..] == seed[3..] && seed[3..][1..] == [];
  }

  /** Record '1' has no deadline, and record '3' lies a day past its
      deadline but is BREACHED: neither is ever past due. */
  lemma SeedSettledNeverExpired(loadTime: nat, now: int)
    ensures var seed := InitialCommitments(loadTime);
      && seed[0].deadline == None
      && seed[2].deadline.Some? && seed[2].deadline.value < loadTime
      && !CommitmentCard.IsExpired(seed[0], now)
      && !CommitmentCard.IsExpired(seed[2], now)
  {
  }

  /** Records '2' and '4' are PENDING with deadlines two days and two hours
      after loading: each is past due exactly once its deadline has passed,
      so neither is at load time. */
  lemma SeedPendingExpiry(loadTime: nat, now: int)
    ensures var seed := InitialCommitments(loadTime);
      && seed[1].status == Pending && seed[3].status == Pending
      && (CommitmentCard.IsExpired(seed[1], now) <==> now > loadTime + 2 * MS_PER_DAY)
      && (CommitmentCard.IsExpired(seed[3], now) <==> now > loadTime + 2 * MS_PER_HOUR)
      && !CommitmentCard.IsExpired(seed[1], loadTime)
      && !CommitmentCard.IsExpired(seed[3], loadTime)
  {
  }

  /** Every seed record was created before the seed was loaded. */
  lemma SeedCreatedInPast(loadTime: nat)
    ensures forall c :: c in InitialCommitments(loadTime) ==> c.createdAt < loadTime
  {
  }
}

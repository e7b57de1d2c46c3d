/** The tables whose rows stay as inserted, and the solutions, told by the logs alone (indexer/src/project.ts). */
module RowsInserted {
  import opened Common
  import opened Projection
  import opened Replay
  import opened Rows

  /** The tables no later event updates. */
  predicate InsertOnly(t: Table) { t != Batches && t != Auctions && t != BatchSolutions && t != Solutions }

  function LogKey(l: DecodedLog): Row
  {
    map[ChainId := Number(l.chainId), TxHash := Number(l.txHash), LogIndex := Number(l.logIndex)]
  }

  /** The log inserts a row with this key. */
  function Inserts(t: Table, key: Row): DecodedLog -> bool
  {
    (l: DecodedLog) => l.event != SolutionRejected && Writes(l.event) == Some(t) && LogKey(l) == key
  }

  /** The row holds the log's own figures, each in its own column. */
  predicate Shows(row: Row, l: DecodedLog)
  {
    && From(row, l)
    && match l.event
       case IntentSettled =>
         && Says(row, BatchId, l.Arg("batchId")) && Says(row, IntentHash, l.Arg("intentHash"))
         && Says(row, Owner, l.Arg("owner")) && Says(row, SellToken, l.Arg("sellToken"))
         && Says(row, BuyToken, l.Arg("buyToken")) && Says(row, ExecutedSell, l.Arg("executedSell"))
         && Says(row, ExecutedBuy, l.Arg("executedBuy")) && Says(row, BaselineBuy, l.Arg("baselineBuy"))
         && Says(row, SavingsUsd, l.Arg("savingsUsd"))
       case VenueRouted =>
         && Says(row, BatchId, l.Arg("batchId")) && Says(row, Adapter, l.Arg("adapter"))
         && Says(row, TokenIn, l.Arg("tokenIn")) && Says(row, TokenOut, l.Arg("tokenOut"))
         && Says(row, AmountIn, l.Arg("amountIn")) && Says(row, AmountOut, l.Arg("amountOut"))
       case ClearingPrice =>
         && Says(row, BatchId, l.Arg("batchId")) && Says(row, Token, l.Arg("token"))
         && Says(row, Price, l.Arg("price")) && Says(row, RefPrice, l.Arg("refPrice"))
         && DeviationBps in row && row[DeviationBps].Number?
         && DeviationIs(l.Amount("price"), l.Amount("refPrice"), row[DeviationBps].number)
       case SolutionSubmitted =>
         && Says(row, BatchId, l.Arg("batchId")) && Says(row, Solver, l.Arg("solver"))
         && Says(row, SolutionHash, l.Arg("hash")) && Says(row, ClaimedSavings, l.Arg("claimedSavings"))
       case IntentCollectionFailed =>
         && Says(row, BatchId, l.Arg("batchId")) && Says(row, Owner, l.Arg("owner"))
         && Says(row, IntentIndex, l.Arg("intentIndex"))
       case IndicativePublished =>
         && Says(row, AuctionId, l.Arg("auctionId")) && Says(row, Token, l.Arg("token"))
         && Says(row, Ts, Number(l.blockTimestamp)) && Says(row, Price, l.Arg("indicativePrice"))
         && Says(row, Imbalance, l.Arg("imbalance")) && Says(row, MatchedVolume, l.Arg("matchedVolume"))
       case ClosingPrintPublished =>
         && Says(row, Token, l.Arg("token")) && Says(row, Day, l.Arg("day")) && Says(row, Price, l.Arg("price"))
         && Says(row, Volume, l.Arg("volume")) && Says(row, Participants, l.Arg("participants"))
         && Says(row, Sufficient, l.Arg("sufficient"))
       case ClosingPrintWithheld =>
         && Says(row, Token, l.Arg("token")) && Says(row, Day, l.Arg("day")) && Says(row, Reason, l.Arg("reason"))
         && Says(row, Volume, l.Arg("volume")) && Says(row, Participants, l.Arg("participants"))
       case SessionChanged =>
         && Says(row, Kind, Text("changed")) && Says(row, Ts, l.Arg("timestamp"))
         && Says(row, FromSession, l.Arg("from")) && Says(row, ToSession, l.Arg("to"))
       case TokenProtective =>
         && Says(row, Kind, Text("protective")) && Says(row, Ts, Number(l.blockTimestamp))
         && Says(row, Token, l.Arg("token")) && Says(row, Reason, l.Arg("reason"))
       case TokenProtectiveCleared =>
         && Says(row, Kind, Text("cleared")) && Says(row, Ts, Number(l.blockTimestamp))
         && Says(row, Token, l.Arg("token")) && Says(row, HealthyUpdates, l.Arg("healthyUpdates"))
       case SolverBonded =>
         && Says(row, Solver, l.Arg("solver")) && Says(row, Event, Text("bonded"))
         && Says(row, BondedTotal, l.Arg("total"))
       case SolverScoreUpdated =>
         && Says(row, Solver, l.Arg("solver")) && Says(row, Event, Text("score"))
         && Says(row, BatchesWon, l.Arg("batchesWon")) && Says(row, SavingsUsd, l.Arg("savingsGeneratedUsd"))
       case SolverSlashed =>
         && Says(row, Solver, l.Arg("solver")) && Says(row, Event, Text("slashed"))
         && Says(row, SlashAmount, l.Arg("amount")) && Says(row, SlashReason, l.Arg("reason"))
       case SolverUnbondRequested =>
         Says(row, Solver, l.Arg("solver")) && Says(row, Event, Text("unbond_requested"))
       case _ => false
  }

  /** The distance from the reference in basis points, rounded down, and zero without a reference. */
  predicate DeviationIs(price: nat, refPrice: nat, bps: int)
  {
    if refPrice == 0 then bps == 0
    else
      var off := Abs(price - refPrice) * 10_000;
      bps * refPrice <= off < bps * refPrice + refPrice
  }

  // the record of each event shows its figures

  lemma FillShows(l: DecodedLog)
    requires l.event == IntentSettled
    ensures Shows(Record(l, FillFields(l)), l)
  {
    hide DecodedLog.Arg, Record, From;
    RecordSays(l, FillFields(l));
  }

  lemma RouteShows(l: DecodedLog)
    requires l.event == VenueRouted
    ensures Shows(Record(l, RouteFields(l)), l)
  {
    hide DecodedLog.Arg, Record, From;
    RecordSays(l, RouteFields(l));
  }

  lemma SubmissionShows(l: DecodedLog)
    requires l.event == SolutionSubmitted
    ensures Shows(Record(l, SubmissionFields(l)), l)
  {
    hide DecodedLog.Arg, Record, From;
    RecordSays(l, SubmissionFields(l));
  }

  lemma FailureShows(l: DecodedLog)
    requires l.event == IntentCollectionFailed
    ensures Shows(Record(l, FailureFields(l)), l)
  {
    hide DecodedLog.Arg, Record, From;
    RecordSays(l, FailureFields(l));
  }

  lemma IndicativeShows(l: DecodedLog)
    requires l.event == IndicativePublished
    ensures Shows(Record(l, IndicativeFields(l)), l)
  {
    hide DecodedLog.Arg, Record, From;
    RecordSays(l, IndicativeFields(l));
  }

  lemma PrintShows(l: DecodedLog)
    requires l.event == ClosingPrintPublished
    ensures Shows(Record(l, PrintFields(l)), l)
  {
    hide DecodedLog.Arg, Record, From;
    RecordSays(l, PrintFields(l));
  }

  lemma WithheldShows(l: DecodedLog)
    requires l.event == ClosingPrintWithheld
    ensures Shows(Record(l, WithheldFields(l)), l)
  {
    hide DecodedLog.Arg, Record, From;
    RecordSays(l, WithheldFields(l));
  }

  lemma SessionShows(l: DecodedLog)
    requires l.event == SessionChanged
    ensures Shows(Record(l, SessionFields(l)), l)
  {
    hide DecodedLog.Arg, Record, From;
    RecordSays(l, SessionFields(l));
  }

  lemma ProtectiveShows(l: DecodedLog)
    requires l.event == TokenProtective
    ensures Shows(Record(l, ProtectiveFields(l)), l)
  {
    hide DecodedLog.Arg, Record, From;
    RecordSays(l, ProtectiveFields(l));
  }

  lemma ClearedShows(l: DecodedLog)
    requires l.event == TokenProtectiveCleared
    ensures Shows(Record(l, ClearedFields(l)), l)
  {
    hide DecodedLog.Arg, Record, From;
    RecordSays(l, ClearedFields(l));
  }

  lemma PriceShows(l: DecodedLog)
    requires l.event == ClearingPrice
    ensures Shows(Record(l, PriceFields(l)), l)
  {
    hide DecodedLog.Arg, DecodedLog.Amount, Record, From, DeviationOf, DeviationIs;
    RecordSays(l, PriceFields(l));
    DeviationFloors(l.Amount("price"), l.Amount("refPrice"));
  }

  lemma DeviationFloors(price: nat, refPrice: nat)
    ensures DeviationIs(price, refPrice, DeviationOf(price, refPrice))
  {
    if refPrice > 0 {
      FloorDiv(Abs(price - refPrice) * 10_000, refPrice, 0);
    }
  }

  lemma SolverShows(l: DecodedLog)
    requires Writes(l.event) == Some(Solvers)
    ensures |RegistryOps(l)| == 1 && RegistryOps(l)[0].Insert? && Shows(RegistryOps(l)[0].row, l)
  {
    hide DecodedLog.Arg, Record, SolverFields, BondedFields, ScoreFields, SlashedFields, SessionFields,
      ProtectiveFields, ClearedFields, Shows;
    match l.event {
      case SolverBonded => BondedShows(l);
      case SolverScoreUpdated => ScoreShows(l);
      case SolverSlashed => SlashedShows(l);
      case _ => UnbondShows(l);
    }
  }

  lemma BondedShows(l: DecodedLog)
    requires l.event == SolverBonded
    ensures Shows(Record(l, SolverFields(l, "bonded", BondedFields(l))), l)
  {
    hide DecodedLog.Arg, Record, From, SolverFields;
    RecordSays(l, SolverFields(l, "bonded", BondedFields(l)));
  }

  lemma ScoreShows(l: DecodedLog)
    requires l.event == SolverScoreUpdated
    ensures Shows(Record(l, SolverFields(l, "score", ScoreFields(l))), l)
  {
    hide DecodedLog.Arg, Record, From, SolverFields;
    RecordSays(l, SolverFields(l, "score", ScoreFields(l)));
  }

  lemma SlashedShows(l: DecodedLog)
    requires l.event == SolverSlashed
    ensures Shows(Record(l, SolverFields(l, "slashed", SlashedFields(l))), l)
  {
    hide DecodedLog.Arg, Record, From, SolverFields;
    RecordSays(l, SolverFields(l, "slashed", SlashedFields(l)));
  }

  lemma UnbondShows(l: DecodedLog)
    requires l.event == SolverUnbondRequested
    ensures Shows(Record(l, SolverFields(l, "unbond_requested", map[])), l)
  {
    hide DecodedLog.Arg, Record, From, SolverFields;
    RecordSays(l, SolverFields(l, "unbond_requested", map[]));
  }

  /** A row that shows a log has the log's key. */
  lemma OwnKey(row: Row, l: DecodedLog, t: Table)
    requires Shows(row, l) && Keys(t) == {ChainId, TxHash, LogIndex}
    ensures KeyOf(t, row) == LogKey(l)
  {
    hide DecodedLog.Arg, DecodedLog.Amount;
    assert From(row, l);
    hide Shows;
  }

  /** An event that inserts does so with its own record. */
  lemma InsertOp(l: DecodedLog) returns (row: Row)
    requires Writes(l.event).Some? && l.event != SolutionRejected
    requires InsertOnly(Writes(l.event).value) || l.event == SolutionSubmitted
    ensures Project(l) == [Insert(Writes(l.event).value, row)] && Shows(row, l)
    ensures l.event == SolutionSubmitted ==> Says(row, Accepted, Flag(true)) && Says(row, RejectionReason, Null)
  {
    hide DecodedLog.Arg, DecodedLog.Amount, Record, Shows, FillFields, RouteFields, SubmissionFields, FailureFields,
      IndicativeFields, PrintFields, WithheldFields, SessionFields, ProtectiveFields, ClearedFields, PriceFields,
      SolverRow, AuctionMerge, SettledFields, PassthroughFields, OpenedFields, ExtendedFields, FrozenFields,
      CrossedFields, AbortedFields, BondedFields, ScoreFields, SlashedFields;
    row := Project(l)[0].row;
    match l.event {
      case IntentSettled => FillShows(l);
      case VenueRouted => RouteShows(l);
      case ClearingPrice => PriceShows(l);
      case SolutionSubmitted => SubmissionShows(l); SubmissionStands(l);
      case IntentCollectionFailed => FailureShows(l);
      case IndicativePublished => IndicativeShows(l);
      case ClosingPrintPublished => PrintShows(l);
      case ClosingPrintWithheld => WithheldShows(l);
      case SessionChanged => SessionShows(l);
      case TokenProtective => ProtectiveShows(l);
      case TokenProtectiveCleared => ClearedShows(l);
      case _ => SolverShows(l);
    }
  }

  lemma SubmissionStands(l: DecodedLog)
    ensures var row := Record(l, SubmissionFields(l));
      Says(row, Accepted, Flag(true)) && Says(row, RejectionReason, Null)
  {
    hide DecodedLog.Arg, Record, From;
    RecordSays(l, SubmissionFields(l));
  }

  /** What a row of such a table says: the first log with its key that inserts into the table. */
  predicate InsertedTold(logs: seq<DecodedLog>, t: Table, key: Row, row: Option<Row>)
  {
    match First(logs, Inserts(t, key))
    case Some(l) => row.Some? && Shows(row.value, l)
    case None => row.None?
  }

  lemma InsertedStep(init: seq<DecodedLog>, l: DecodedLog, t: Table, key: Row, row: Option<Row>)
    requires InsertOnly(t) && InsertedTold(init, t, key, row)
    ensures InsertedTold(init + [l], t, key, Changed(row, Project(l), t, key))
  {
    hide DecodedLog.Arg, First, Project, Shows, KeyOf, LogKey;
    OneMore(init, l, Inserts(t, key));
    OwnTable(l);
    if Writes(l.event) == Some(t) {
      var r := InsertOp(l);
      OwnKey(r, l, t);
    }
  }

  /** Over every list of logs of a deployment, every row of a table that is only inserted into shows the first log with
      its key, and there is one for every such log. */
  lemma {:induction false} InsertedRows(logs: seq<DecodedLog>, deployment: nat, t: Table, key: Row)
    requires Owned(logs, deployment) && InsertOnly(t) && key.Keys == Keys(t)
    ensures InsertedTold(logs, t, key, RowOf(Folded(logs), t, key))
  {
    hide Folded, RowOf, Changed, Project, DecodedLog.Arg, Owned, Shows;
    if logs == [] {
      FoldedStart(t, key);
    } else {
      var init, l := logs[..|logs| - 1], logs[|logs| - 1];
      assert logs == init + [l];
      FoldedStep(logs, deployment, t, key);
      InsertedRows(init, deployment, t, key);
      hide InsertedTold;
      InsertedStep(init, l, t, key, RowOf(Folded(init), t, key));
    }
  }

  // ----- solutions

  /** The log rejects what the other one submitted, in the same transaction by the same solver. */
  function Rejects(submission: DecodedLog): DecodedLog -> bool
  {
    (l: DecodedLog) =>
      l.event == SolutionRejected && l.txHash == submission.txHash && l.Arg("solver") == submission.Arg("solver")
  }

  predicate VerdictTold(row: Row, rejection: Option<DecodedLog>)
  {
    match rejection
    case None => Says(row, Accepted, Flag(true)) && Says(row, RejectionReason, Null)
    case Some(l) => Says(row, Accepted, Flag(false)) && Says(row, RejectionReason, l.Arg("reason"))
  }

  /** What a solution's row says: its submission, and the last rejection of it that came later, if any. */
  predicate SolutionTold(logs: seq<DecodedLog>, key: Row, row: Option<Row>)
  {
    match First(logs, Inserts(Solutions, key))
    case None => row.None?
    case Some(l) =>
      && row.Some? && Shows(row.value, l)
      && VerdictTold(row.value, Last(After(logs, Inserts(Solutions, key)), Rejects(l)))
  }

  lemma RejectionOp(l: DecodedLog) returns (which: Row, fields: Row)
    requires l.event == SolutionRejected
    ensures Project(l) == [Merge(Solutions, which, fields)]
    ensures which == map[Deployment := Number(l.deployment), TxHash := Number(l.txHash), Solver := l.Arg("solver")]
    ensures fields == map[Accepted := Flag(false), RejectionReason := l.Arg("reason")]
  {
    hide DecodedLog.Arg;
    which, fields := SettlementOps(l)[0].key, SettlementOps(l)[0].set_;
    SettlementOnly(l);
    hide Project;
  }

  lemma RejectedMatches(row: Row, l: DecodedLog, submission: DecodedLog)
    requires submission.event == SolutionSubmitted && Shows(row, submission)
    requires submission.deployment == l.deployment && l.event == SolutionRejected
    ensures var which := map[Deployment := Number(l.deployment), TxHash := Number(l.txHash), Solver := l.Arg("solver")];
      Matches(row, which) <==> Rejects(submission)(l)
  {
    hide DecodedLog.Arg;
    var which := map[Deployment := Number(l.deployment), TxHash := Number(l.txHash), Solver := l.Arg("solver")];
    assert which[TxHash] == Number(l.txHash) && which[Solver] == l.Arg("solver");
  }

  lemma RejectedOver(row: Row, l: DecodedLog, submission: DecodedLog)
    requires submission.event == SolutionSubmitted && Shows(row, submission)
    ensures var after := row + map[Accepted := Flag(false), RejectionReason := l.Arg("reason")];
      Shows(after, submission) && VerdictTold(after, Some(l))
  {
    hide DecodedLog.Arg;
  }

  /** What one log makes of the row of a solution submitted before. */
  lemma VerdictStep(row: Row, l: DecodedLog, submission: DecodedLog, later: seq<DecodedLog>, key: Row)
    requires submission.event == SolutionSubmitted && submission.deployment == l.deployment
    requires Shows(row, submission) && VerdictTold(row, Last(later, Rejects(submission)))
    ensures var after := Changed(Some(row), Project(l), Solutions, key);
      && after.Some? && Shows(after.value, submission)
      && VerdictTold(after.value, Last(later + [l], Rejects(submission)))
  {
    hide DecodedLog.Arg, First, Last, After, Project, Shows, KeyOf, LogKey, VerdictTold, Matches, Rejects;
    OneMore(later, l, Rejects(submission));
    NotRejection(l, submission);
    if l.event == SolutionRejected {
      var which, fields := RejectionOp(l);
      RejectedMatches(row, l, submission);
      RejectedOver(row, l, submission);
    } else if l.event == SolutionSubmitted {
      var r := InsertOp(l);
    } else {
      OwnTable(l);
    }
  }

  /** What one log makes of the row of a solution not submitted yet. */
  lemma SubmissionStep(init: seq<DecodedLog>, l: DecodedLog, key: Row)
    requires First(init, Inserts(Solutions, key)).None?
    ensures SolutionTold(init + [l], key, Changed(None, Project(l), Solutions, key))
  {
    hide DecodedLog.Arg, First, Last, After, Project, Shows, KeyOf, LogKey, VerdictTold, Matches, Rejects;
    OneMore(init, l, Inserts(Solutions, key));
    if l.event == SolutionRejected {
      var which, fields := RejectionOp(l);
    } else if l.event == SolutionSubmitted {
      var r := InsertOp(l);
      OwnKey(r, l, Solutions);
      StandsAtFirst(r, l);
    } else {
      OwnTable(l);
    }
  }

  lemma SolutionStep(init: seq<DecodedLog>, l: DecodedLog, key: Row, row: Option<Row>)
    requires Owned(init, l.deployment) && SolutionTold(init, key, row)
    ensures SolutionTold(init + [l], key, Changed(row, Project(l), Solutions, key))
  {
    hide DecodedLog.Arg, First, Last, After, Project, Shows, VerdictTold, Changed, LogKey;
    OneMore(init, l, Inserts(Solutions, key));
    var first := First(init, Inserts(Solutions, key));
    if first.Some? {
      VerdictStep(row.value, l, first.value, After(init, Inserts(Solutions, key)), key);
    } else {
      SubmissionStep(init, l, key);
    }
  }

  lemma NotRejection(l: DecodedLog, submission: DecodedLog)
    ensures Rejects(submission)(l) ==> l.event == SolutionRejected
  {
    hide DecodedLog.Arg;
  }

  lemma StandsAtFirst(row: Row, l: DecodedLog)
    requires Says(row, Accepted, Flag(true)) && Says(row, RejectionReason, Null)
    ensures VerdictTold(row, Last([], Rejects(l)))
  {
    hide DecodedLog.Arg;
  }

  /** Over every list of logs of a deployment, every solution's row shows its submission, accepted unless a later event
      rejects it. */
  lemma {:induction false} SolutionRowsTold(logs: seq<DecodedLog>, deployment: nat, key: Row)
    requires Owned(logs, deployment) && key.Keys == Keys(Solutions)
    ensures SolutionTold(logs, key, RowOf(Folded(logs), Solutions, key))
  {
    hide Folded, RowOf, Changed, Project, DecodedLog.Arg, Owned, Shows, VerdictTold;
    if logs == [] {
      FoldedStart(Solutions, key);
    } else {
      var init, l := logs[..|logs| - 1], logs[|logs| - 1];
      assert logs == init + [l];
      FoldedStep(logs, deployment, Solutions, key);
      SolutionRowsTold(init, deployment, key);
      hide SolutionTold;
      SolutionStep(init, l, key, RowOf(Folded(init), Solutions, key));
    }
  }
}

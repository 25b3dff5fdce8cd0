/** scripts/backfill_active_roster_ufcstats.py: which scraped fights are complete enough to enter the canonical
    files. Rows are dictionaries of text; a missing value is "". */
module FightAdmission {
  import opened Common
  import opened TextLaws

  type Row = map<string, string>

  /** The parts of the reading that are elsewhere: name normalisation, splitting a bout into its participants,
      the result policy's quarantine, and the check of an already classified result. */
  datatype Reader = Reader(normal: string -> string, participants: string -> seq<string>,
                           quarantine: (string, string) -> Option<string>, policyBroken: Row -> bool)

  datatype Reason =
    | MissingResult(field: string) | InvalidParticipants | Quarantined(text: string) | InvalidPolicy | InvalidResultRound
    | InvalidStatRound | MissingStat(field: string) | IncompleteRoundSet | IncompleteRound(round: nat)
    | EventMismatch | BoutMismatch

  function RequiredResultFields(): seq<string> {
    ["EVENT", "BOUT", "OUTCOME", "WEIGHTCLASS", "METHOD", "ROUND", "TIME", "TIME FORMAT", "URL", "fighter_a_id", "fighter_b_id"]
  }

  function RequiredStatFields(): seq<string> {
    ["EVENT", "BOUT", "ROUND", "FIGHTER", "KD", "SIG.STR.", "SIG.STR. %", "TOTAL STR.", "TD", "TD %", "SUB.ATT", "REV.", "CTRL",
     "HEAD", "BODY", "LEG", "DISTANCE", "CLINCH", "GROUND"]
  }

  function Get(row: Row, field: string): string {
    if field in row then row[field] else ""
  }

  predicate Observed(value: string) {
    Lower(Trim(value)) !in {"", "nan", "none", "<na>"}
  }

  /** `_round_number`: "1" and "Round 1" alike. */
  function RoundNumber(text: string): (n: Option<nat>)
    ensures n.Some? ==> n.value >= 1
  {
    var s := Lower(Trim(text));
    var number := if |s| > 5 && s[..5] == "round" && Space(s[5]) then TrimLeft(s[5..]) else s;
    if Digits(number) && Decimal(number) >= 1 then Some(Decimal(number)) else None
  }

  /** A number, alone or behind the word and a gap. */
  ghost predicate RoundText(s: string, number: string) {
    s == number || exists gap :: gap != "" && Blank(gap) && s == "round" + gap + number
  }

  /** Exactly which texts are rounds: whole numbers from 1 on, after the word "round" in any case or alone. */
  lemma RoundNumberExactly(text: string, n: nat)
    ensures RoundNumber(text) == Some(n)
            <==> n >= 1 && exists number :: Digits(number) && Decimal(number) == n && RoundText(Lower(Trim(text)), number)
  {
    hide Decimal, Trim, Lower;
    var s := Lower(Trim(text));
    if |s| > 5 && s[..5] == "round" && Space(s[5]) {
      var gap := LeftPart(s[5..]);
      var number := TrimLeft(s[5..]);
      assert s == s[..5] + s[5..];
      assert s == "round" + gap + number;
      assert s[5..][0] == s[5];
      assert RoundText(s, number);
      assert !Digits(s);
      forall other | Digits(other) && RoundText(s, other) ensures other == number { BehindGap(s, other); }
    } else {
      assert RoundText(s, s);
      forall other | Digits(other) && RoundText(s, other) ensures other == s { NoGap(s, other); }
    }
  }

  lemma BehindGap(s: string, number: string)
    requires |s| > 5 && s[..5] == "round" && Digits(number) && RoundText(s, number)
    ensures TrimLeft(s[5..]) == number
  {
    assert s[0] == 'r' && s != number;
    var gap :| gap != "" && Blank(gap) && s == "round" + gap + number;
    assert s[5..] == gap + number;
    TrimLeftSkips(gap, number);
  }

  lemma NoGap(s: string, number: string)
    requires !(|s| > 5 && s[..5] == "round" && Space(s[5])) && Digits(number) && RoundText(s, number)
    ensures s == number
  {
    if s != number {
      var gap :| gap != "" && Blank(gap) && s == "round" + gap + number;
      GapShows(gap, number);
    }
  }

  lemma GapShows(gap: string, number: string)
    requires gap != "" && Blank(gap)
    ensures var s := "round" + gap + number; |s| > 5 && s[..5] == "round" && Space(s[5])
  {
  }

  /** So a round reads as its number in a result ("2") and in a table heading ("Round 2"), between any blanks. */
  lemma RoundsAsPrinted(n: nat, a: string, b: string)
    requires n >= 1 && Blank(a) && Blank(b)
    ensures RoundNumber(a + Printed(n) + b) == Some(n) == RoundNumber(a + ("Round " + Printed(n)) + b)
  {
    hide RoundNumber, Decimal, Trim, Printed;
    var number := Printed(n);
    PrintedReads(n);
    TrimIs(a, number, b);
    assert Lower(number) == number;
    RoundNumberExactly(a + number + b, n);
    assert RoundText(number, number);
    var heading := "Round " + number;
    TrimIs(a, heading, b);
    assert Lower(heading) == "round" + " " + number by { assert Lower("Round ") == "round "; LowerConcat("Round ", number); }
    RoundNumberExactly(a + heading + b, n);
    assert RoundText(Lower(heading), number);
  }

  lemma LowerConcat(a: string, b: string)
    ensures Lower(a + b) == Lower(a) + Lower(b)
  {
  }

  function Finish(result: Row): Option<nat> {
    RoundNumber(Get(result, "ROUND"))
  }

  function Keys(rd: Reader, names: seq<string>): set<string> {
    set i | 0 <= i < |names| :: rd.normal(names[i])
  }

  function Participants(rd: Reader, result: Row): set<string> {
    Keys(rd, rd.participants(Get(result, "BOUT")))
  }

  predicate PairOK(rd: Reader, result: Row) {
    |rd.participants(Get(result, "BOUT"))| == 2 && |Participants(rd, result)| == 2
  }

  /** The stat rows of one round. */
  function RowsOf(stats: seq<Row>, round: nat): seq<Row> {
    if stats == [] then [] else
      var last := stats[|stats| - 1];
      RowsOf(stats[..|stats| - 1], round) + if RoundNumber(Get(last, "ROUND")) == Some(round) then [last] else []
  }

  function Fighters(rd: Reader, rows: seq<Row>): set<string> {
    set i | 0 <= i < |rows| && rd.normal(Get(rows[i], "FIGHTER")) != "" :: rd.normal(Get(rows[i], "FIGHTER"))
  }

  predicate RoundOK(rd: Reader, result: Row, stats: seq<Row>, round: nat) {
    |RowsOf(stats, round)| == 2 && Fighters(rd, RowsOf(stats, round)) == Participants(rd, result)
  }

  ghost predicate RoundsAre(stats: seq<Row>, last: nat) {
    forall r: nat :: RowsOf(stats, r) != [] <==> 1 <= r <= last
  }

  /** What each reason says about the page. */
  ghost predicate Applies(rd: Reader, result: Row, stats: seq<Row>, reason: Reason) {
    match reason
    case MissingResult(f) => f in RequiredResultFields() && !Observed(Get(result, f))
    case InvalidParticipants => !PairOK(rd, result)
    case Quarantined(text) => rd.quarantine(Get(result, "OUTCOME"), Get(result, "METHOD")) == Some(text)
    case InvalidPolicy => rd.quarantine(Get(result, "OUTCOME"), Get(result, "METHOD")).None? && rd.policyBroken(result)
    case InvalidResultRound => Finish(result).None?
    case InvalidStatRound => exists i :: 0 <= i < |stats| && RoundNumber(Get(stats[i], "ROUND")).None?
    case MissingStat(f) => exists i :: 0 <= i < |stats| && RoundNumber(Get(stats[i], "ROUND")).Some? && Lacks(stats[i], f)
    case IncompleteRoundSet => Finish(result).Some? && !RoundsAre(stats, Finish(result).value)
    case IncompleteRound(n) => Finish(result).Some? && 1 <= n <= Finish(result).value && !RoundOK(rd, result, stats, n)
    case EventMismatch => exists i :: 0 <= i < |stats| && !SameText(rd, stats[i], result, "EVENT")
    case BoutMismatch => exists i :: 0 <= i < |stats| && !SameText(rd, stats[i], result, "BOUT")
  }

  predicate Lacks(row: Row, field: string) {
    field in RequiredStatFields() && !Observed(Get(row, field))
  }

  predicate SameText(rd: Reader, a: Row, b: Row, field: string) {
    rd.normal(Get(a, field)) == rd.normal(Get(b, field))
  }

  /** The reasons that concern the result row alone. */
  predicate OfResult(reason: Reason) {
    reason.MissingResult? || reason.InvalidParticipants? || reason.Quarantined? || reason.InvalidPolicy? || reason.InvalidResultRound?
  }

  // ---- finding the reasons ----

  method ResultReasons(rd: Reader, result: Row, ghost stats: seq<Row>) returns (reasons: set<Reason>)
    ensures forall reason :: reason in reasons <==> OfResult(reason) && Applies(rd, result, stats, reason)
  {
    hide Observed, RequiredResultFields, PairOK, RoundNumber;
    reasons := {};
    var fields := RequiredResultFields();
    for i := 0 to |fields|
      invariant forall reason :: reason in reasons <==> reason.MissingResult? && reason.field in fields[..i] && !Observed(Get(result, reason.field))
    {
      assert fields[..i + 1] == fields[..i] + [fields[i]];
      if !Observed(Get(result, fields[i])) { reasons := reasons + {MissingResult(fields[i])}; }
    }
    assert fields[..|fields|] == fields;
    if !PairOK(rd, result) { reasons := reasons + {InvalidParticipants}; }
    var quarantine := rd.quarantine(Get(result, "OUTCOME"), Get(result, "METHOD"));
    if quarantine.Some? {
      reasons := reasons + {Quarantined(quarantine.value)};
    } else if rd.policyBroken(result) {
      reasons := reasons + {InvalidPolicy};
    }
    if Finish(result).None? { reasons := reasons + {InvalidResultRound}; }
  }

  method MissingFields(row: Row) returns (reasons: set<Reason>)
    ensures forall reason :: reason in reasons <==> reason.MissingStat? && Lacks(row, reason.field)
  {
    hide Observed, RequiredStatFields;
    reasons := {};
    var fields := RequiredStatFields();
    for i := 0 to |fields|
      invariant forall reason :: reason in reasons <==> reason.MissingStat? && reason.field in fields[..i] && !Observed(Get(row, reason.field))
    {
      assert fields[..i + 1] == fields[..i] + [fields[i]];
      if !Observed(Get(row, fields[i])) { reasons := reasons + {MissingStat(fields[i])}; }
    }
    assert fields[..|fields|] == fields;
  }

  /** The stat rows sorted into their rounds, and what is wrong with single rows. */
  method SortRounds(rd: Reader, ghost result: Row, stats: seq<Row>) returns (byRound: map<nat, seq<Row>>, reasons: set<Reason>)
    ensures forall r :: r in byRound <==> RowsOf(stats, r) != []
    ensures forall r | r in byRound :: byRound[r] == RowsOf(stats, r)
    ensures forall reason :: reason in reasons <==> (reason.InvalidStatRound? || reason.MissingStat?) && Applies(rd, result, stats, reason)
  {
    hide Lacks, RoundNumber, RowsOf;
    byRound, reasons := map[], {};
    NoRowsYet(rd, result);
    for i := 0 to |stats|
      invariant forall r :: r in byRound <==> RowsOf(stats[..i], r) != []
      invariant forall r | r in byRound :: byRound[r] == RowsOf(stats[..i], r)
      invariant forall reason :: reason in reasons <==> (reason.InvalidStatRound? || reason.MissingStat?) && Applies(rd, result, stats[..i], reason)
    {
      hide Applies;
      var row := stats[i];
      OneMoreRow(stats, i);
      var round := RoundNumber(Get(row, "ROUND"));
      StatReasonAdded(rd, result, stats, i);
      if round.None? {
        reasons := reasons + {InvalidStatRound};
        continue;
      }
      byRound := byRound[round.value := (if round.value in byRound then byRound[round.value] else []) + [row]];
      var missing := MissingFields(row);
      reasons := reasons + missing;
    }
    assert stats[..|stats|] == stats;
  }

  lemma NoRowsYet(rd: Reader, result: Row)
    ensures forall r :: RowsOf([], r) == []
    ensures forall reason: Reason | reason.InvalidStatRound? || reason.MissingStat? :: !Applies(rd, result, [], reason)
  {
  }

  lemma OneMoreRow(stats: seq<Row>, i: nat)
    requires i < |stats|
    ensures forall r: nat :: RowsOf(stats[..i + 1], r)
                             == RowsOf(stats[..i], r) + if RoundNumber(Get(stats[i], "ROUND")) == Some(r) then [stats[i]] else []
  {
    hide RoundNumber;
    assert stats[..i + 1][..i] == stats[..i];
  }

  lemma StatReasonAdded(rd: Reader, result: Row, stats: seq<Row>, i: nat)
    requires i < |stats|
    ensures Applies(rd, result, stats[..i + 1], InvalidStatRound)
            <==> Applies(rd, result, stats[..i], InvalidStatRound) || RoundNumber(Get(stats[i], "ROUND")).None?
    ensures forall f ::
              Applies(rd, result, stats[..i + 1], MissingStat(f))
              <==> Applies(rd, result, stats[..i], MissingStat(f)) || (RoundNumber(Get(stats[i], "ROUND")).Some? && Lacks(stats[i], f))
  {
    hide Lacks, RoundNumber;
    var a, b := stats[..i], stats[..i + 1];
    assert b[i] == stats[i] && forall k | 0 <= k < i :: b[k] == a[k];
  }

  function RoundsTo(last: nat): (rounds: set<nat>)
    ensures forall r: nat :: r in rounds <==> 1 <= r <= last
  {
    if last == 0 then {} else RoundsTo(last - 1) + {last}
  }

  /** Each expected round has its two rows, one per participant; no other round has any. */
  method RoundReasons(rd: Reader, result: Row, stats: seq<Row>, byRound: map<nat, seq<Row>>) returns (reasons: set<Reason>)
    requires forall r :: r in byRound <==> RowsOf(stats, r) != []
    requires forall r | r in byRound :: byRound[r] == RowsOf(stats, r)
    ensures forall reason :: reason in reasons <==> (reason.IncompleteRoundSet? || reason.IncompleteRound?) && Applies(rd, result, stats, reason)
  {
    hide RowsOf, RoundNumber, Participants, Fighters;
    reasons := {};
    var finish := Finish(result);
    if finish.None? { return; }
    var expected := RoundsTo(finish.value);
    assert byRound.Keys == expected <==> RoundsAre(stats, finish.value) by { RoundSet(stats, byRound, finish.value); }
    if byRound.Keys != expected { reasons := {IncompleteRoundSet}; }
    for n := 1 to finish.value + 1
      invariant forall reason :: reason in reasons <==>
                  (reason.IncompleteRoundSet? && Applies(rd, result, stats, reason))
                  || (reason.IncompleteRound? && reason.round < n && Applies(rd, result, stats, reason))
    {
      var rows := if n in byRound then byRound[n] else [];
      if |rows| != 2 || Fighters(rd, rows) != Participants(rd, result) { reasons := reasons + {IncompleteRound(n)}; }
    }
  }

  lemma RoundSet(stats: seq<Row>, byRound: map<nat, seq<Row>>, last: nat)
    requires forall r :: r in byRound <==> RowsOf(stats, r) != []
    ensures byRound.Keys == RoundsTo(last) <==> RoundsAre(stats, last)
  {
    hide RowsOf;
    var expected := RoundsTo(last);
    if byRound.Keys == expected {
      forall r: nat ensures RowsOf(stats, r) != [] <==> 1 <= r <= last { assert r in byRound <==> r in expected; }
    }
  }

  method PageReasons(rd: Reader, result: Row, stats: seq<Row>) returns (reasons: set<Reason>)
    ensures forall reason :: reason in reasons <==> (reason.EventMismatch? || reason.BoutMismatch?) && Applies(rd, result, stats, reason)
  {
    hide SameText;
    reasons := {};
    for i := 0 to |stats|
      invariant forall reason :: reason in reasons <==>
                  (reason.EventMismatch? && exists k :: 0 <= k < i && !SameText(rd, stats[k], result, "EVENT"))
                  || (reason.BoutMismatch? && exists k :: 0 <= k < i && !SameText(rd, stats[k], result, "BOUT"))
    {
      if !SameText(rd, stats[i], result, "EVENT") { reasons := reasons + {EventMismatch}; }
      if !SameText(rd, stats[i], result, "BOUT") { reasons := reasons + {BoutMismatch}; }
    }
  }

  /** `_fight_observation_completeness`: every reason there is, and complete when there is none. */
  method FightCompleteness(rd: Reader, result: Row, stats: seq<Row>) returns (complete: bool, reasons: set<Reason>)
    ensures forall reason :: reason in reasons <==> Applies(rd, result, stats, reason)
    ensures complete <==> reasons == {}
  {
    hide Applies;
    var ofResult := ResultReasons(rd, result, stats);
    var byRound, ofRows := SortRounds(rd, result, stats);
    var ofRounds := RoundReasons(rd, result, stats, byRound);
    var ofPage := PageReasons(rd, result, stats);
    reasons := ofResult + ofRows + ofRounds + ofPage;
    complete := reasons == {};
  }

  // ---- complete means a full grid ----

  predicate Cell(rd: Reader, row: Row, round: nat, fighter: string) {
    RoundNumber(Get(row, "ROUND")) == Some(round) && rd.normal(Get(row, "FIGHTER")) == fighter
  }

  ghost predicate InGrid(rd: Reader, result: Row, row: Row, last: nat) {
    var round := RoundNumber(Get(row, "ROUND"));
    round.Some? && 1 <= round.value <= last && rd.normal(Get(row, "FIGHTER")) in Participants(rd, result)
  }

  ghost predicate Filled(rd: Reader, stats: seq<Row>, round: nat, fighter: string) {
    exists i :: 0 <= i < |stats| && Cell(rd, stats[i], round, fighter)
  }

  ghost predicate NoCellTwice(rd: Reader, stats: seq<Row>) {
    forall i, j, round: nat, fighter | 0 <= i < j < |stats| && Cell(rd, stats[i], round, fighter) :: !Cell(rd, stats[j], round, fighter)
  }

  /** Exactly one row per round and participant: each row is a cell, each cell is filled, none twice. */
  ghost predicate FullGrid(rd: Reader, result: Row, stats: seq<Row>, last: nat) {
    && |stats| == 2 * last && "" !in Participants(rd, result)
    && (forall i | 0 <= i < |stats| :: InGrid(rd, result, stats[i], last))
    && (forall round: nat, fighter :: 1 <= round <= last && fighter in Participants(rd, result) ==> Filled(rd, stats, round, fighter))
    && NoCellTwice(rd, stats)
  }

  /** A complete observation: a result with nothing against it, and the full grid of its participants over its
      rounds, every row whole and of this very bout. */
  ghost predicate CompleteShape(rd: Reader, result: Row, stats: seq<Row>) {
    && (forall reason | OfResult(reason) :: !Applies(rd, result, stats, reason))
    && (forall i | 0 <= i < |stats| :: Whole(rd, result, stats[i]))
    && Finish(result).Some? && FullGrid(rd, result, stats, Finish(result).value)
  }

  ghost predicate Whole(rd: Reader, result: Row, row: Row) {
    (forall f :: !Lacks(row, f)) && SameText(rd, row, result, "EVENT") && SameText(rd, row, result, "BOUT")
  }

  lemma {:induction false} RowsOfIs(stats: seq<Row>, round: nat, row: Row)
    ensures row in RowsOf(stats, round) <==> row in stats && RoundNumber(Get(row, "ROUND")) == Some(round)
  {
    if stats != [] {
      RowsOfIs(stats[..|stats| - 1], round, row);
      assert stats == stats[..|stats| - 1] + [stats[|stats| - 1]];
    }
  }

  /** Where the rows of a round are: two positions are two rows of it. */
  lemma {:induction false} TwoInRound(stats: seq<Row>, round: nat, i: nat, j: nat) returns (k: nat, l: nat)
    requires i < j < |stats| && RoundNumber(Get(stats[i], "ROUND")) == Some(round) == RoundNumber(Get(stats[j], "ROUND"))
    ensures k < l < |RowsOf(stats, round)| && RowsOf(stats, round)[k] == stats[i] && RowsOf(stats, round)[l] == stats[j]
  {
    hide RoundNumber;
    var n := |stats| - 1;
    if j < n {
      k, l := TwoInRound(stats[..n], round, i, j);
    } else {
      k := OneInRound(stats[..n], round, i);
      l := |RowsOf(stats[..n], round)|;
    }
  }

  lemma {:induction false} OneInRound(stats: seq<Row>, round: nat, i: nat) returns (k: nat)
    requires i < |stats| && RoundNumber(Get(stats[i], "ROUND")) == Some(round)
    ensures k < |RowsOf(stats, round)| && RowsOf(stats, round)[k] == stats[i]
  {
    hide RoundNumber;
    var n := |stats| - 1;
    if i < n { k := OneInRound(stats[..n], round, i); } else { k := |RowsOf(stats[..n], round)|; }
  }

  /** The rows of rounds 1 to last, counted. */
  function Total(stats: seq<Row>, last: nat): nat {
    if last == 0 then 0 else Total(stats, last - 1) + |RowsOf(stats, last)|
  }

  lemma {:induction false} TotalStep(stats: seq<Row>, row: Row, last: nat)
    ensures var round := RoundNumber(Get(row, "ROUND"));
            Total(stats + [row], last) == Total(stats, last) + if round.Some? && 1 <= round.value <= last then 1 else 0
  {
    hide RoundNumber;
    assert (stats + [row])[..|stats|] == stats;
    if last > 0 { TotalStep(stats, row, last - 1); }
  }

  /** If every row is in a round from 1 to last, the rounds' rows are all the rows. */
  lemma {:induction false} TotalIsAll(stats: seq<Row>, last: nat)
    requires forall i | 0 <= i < |stats| :: var r := RoundNumber(Get(stats[i], "ROUND")); r.Some? && 1 <= r.value <= last
    ensures Total(stats, last) == |stats|
  {
    hide RoundNumber;
    if stats == [] {
      TotalOfNone(last);
    } else {
      var n := |stats| - 1;
      TotalIsAll(stats[..n], last);
      TotalStep(stats[..n], stats[n], last);
      assert stats == stats[..n] + [stats[n]];
    }
  }

  lemma {:induction false} TotalOfNone(last: nat)
    ensures Total([], last) == 0
  {
    if last > 0 { TotalOfNone(last - 1); }
  }

  lemma {:induction false} TotalOfPairs(stats: seq<Row>, last: nat)
    requires forall r: nat | 1 <= r <= last :: |RowsOf(stats, r)| == 2
    ensures Total(stats, last) == 2 * last
  {
    hide RowsOf;
    if last > 0 { TotalOfPairs(stats, last - 1); }
  }

  /** Two rows whose names are exactly two fighters carry one each. */
  lemma PairOfRows(rd: Reader, rows: seq<Row>, pair: set<string>)
    requires |rows| == 2 && |pair| == 2
    ensures Fighters(rd, rows) == pair ==>
              && rd.normal(Get(rows[0], "FIGHTER")) != rd.normal(Get(rows[1], "FIGHTER"))
              && pair == {rd.normal(Get(rows[0], "FIGHTER")), rd.normal(Get(rows[1], "FIGHTER"))}
  {
    var x, y := rd.normal(Get(rows[0], "FIGHTER")), rd.normal(Get(rows[1], "FIGHTER"));
    assert Fighters(rd, rows) <= {x, y};
    assert x == y ==> {x, y} == {x};
    if Fighters(rd, rows) == pair {
      SubsetOfPair(pair, x, y);
    }
  }

  lemma SubsetOfPair(pair: set<string>, x: string, y: string)
    requires pair <= {x, y} && |pair| == 2
    ensures x != y && pair == {x, y}
  {
    if x == y || x !in pair || y !in pair {
      var z := if x in pair then x else y;
      assert pair <= {z};
      SingletonBound(pair, z);
    }
  }

  lemma SingletonBound(s: set<string>, z: string)
    requires s <= {z}
    ensures |s| <= 1
  {
    if s != {} { assert s == {z}; }
  }

  /** The converse of TwoInRound. */
  lemma {:induction false} PlacesOf(stats: seq<Row>, round: nat, k: nat, l: nat) returns (i: nat, j: nat)
    requires k < l < |RowsOf(stats, round)|
    ensures i < j < |stats| && RowsOf(stats, round)[k] == stats[i] && RowsOf(stats, round)[l] == stats[j]
    ensures RoundNumber(Get(stats[i], "ROUND")) == Some(round) == RoundNumber(Get(stats[j], "ROUND"))
  {
    hide RoundNumber;
    var n := |stats| - 1;
    if l < |RowsOf(stats[..n], round)| {
      i, j := PlacesOf(stats[..n], round, k, l);
    } else {
      RowsOfIs(stats[..n], round, RowsOf(stats[..n], round)[k]);
      i :| 0 <= i < n && stats[i] == RowsOf(stats[..n], round)[k];
      j := n;
    }
  }

  function Names(rd: Reader, rows: seq<Row>): set<string> {
    set i | 0 <= i < |rows| :: rd.normal(Get(rows[i], "FIGHTER"))
  }

  lemma NameAdded(rd: Reader, rows: seq<Row>, row: Row)
    ensures Names(rd, rows + [row]) == Names(rd, rows) + {rd.normal(Get(row, "FIGHTER"))}
  {
    hide Get;
    var all := rows + [row];
    assert all[|rows|] == row && forall i | 0 <= i < |rows| :: all[i] == rows[i];
  }

  lemma {:induction false} DistinctNames(rd: Reader, rows: seq<Row>)
    requires forall k, l | 0 <= k < l < |rows| :: rd.normal(Get(rows[k], "FIGHTER")) != rd.normal(Get(rows[l], "FIGHTER"))
    ensures |Names(rd, rows)| == |rows|
  {
    hide Get;
    if rows == [] {
      assert Names(rd, rows) == {};
    } else {
      var n := |rows| - 1;
      DistinctNames(rd, rows[..n]);
      assert rows == rows[..n] + [rows[n]];
      NameAdded(rd, rows[..n], rows[n]);
      assert rd.normal(Get(rows[n], "FIGHTER")) !in Names(rd, rows[..n]);
    }
  }

  /** The rows of one round of a full grid are two, and name the participants. */
  lemma GridRound(rd: Reader, result: Row, stats: seq<Row>, last: nat, round: nat)
    requires FullGrid(rd, result, stats, last) && 1 <= round <= last && |Participants(rd, result)| == 2
    ensures RoundOK(rd, result, stats, round)
  {
    hide RoundNumber, Participants, RowsOf;
    var rows := RowsOf(stats, round);
    forall k: nat, l: nat | k < l < |rows| ensures rd.normal(Get(rows[k], "FIGHTER")) != rd.normal(Get(rows[l], "FIGHTER")) {
      var i, j := PlacesOf(stats, round, k, l);
      assert Cell(rd, stats[i], round, rd.normal(Get(rows[k], "FIGHTER")));
      assert !Cell(rd, stats[j], round, rd.normal(Get(rows[k], "FIGHTER")));
    }
    DistinctNames(rd, rows);
    forall name ensures name in Names(rd, rows) <==> name in Participants(rd, result) {
      NamesOfRound(rd, result, stats, last, round, name);
    }
    assert Names(rd, rows) == Participants(rd, result);
    assert Fighters(rd, rows) == Names(rd, rows);
  }

  lemma NamesOfRound(rd: Reader, result: Row, stats: seq<Row>, last: nat, round: nat, name: string)
    requires FullGrid(rd, result, stats, last) && 1 <= round <= last
    ensures name in Names(rd, RowsOf(stats, round)) <==> name in Participants(rd, result)
  {
    hide RoundNumber, Participants, RowsOf, NoCellTwice;
    var rows := RowsOf(stats, round);
    if name in Names(rd, rows) {
      var k :| 0 <= k < |rows| && rd.normal(Get(rows[k], "FIGHTER")) == name;
      RowsOfIs(stats, round, rows[k]);
      var i :| 0 <= i < |stats| && stats[i] == rows[k];
      assert InGrid(rd, result, stats[i], last);
    }
    if name in Participants(rd, result) {
      assert Filled(rd, stats, round, name);
      var i :| 0 <= i < |stats| && Cell(rd, stats[i], round, name);
      RowsOfIs(stats, round, stats[i]);
      assert stats[i] in rows;
      var k :| 0 <= k < |rows| && rows[k] == stats[i];
    }
  }

  /** A full grid leaves no reason standing. */
  lemma GridHasNoReasons(rd: Reader, result: Row, stats: seq<Row>, reason: Reason)
    requires CompleteShape(rd, result, stats)
    ensures !Applies(rd, result, stats, reason)
  {
    hide RoundNumber, Participants, RowsOf, Lacks, SameText, NoCellTwice, RoundOK, Filled, RequiredResultFields, RequiredStatFields;
    var last := Finish(result).value;
    assert PairOK(rd, result) by { assert OfResult(InvalidParticipants) && !Applies(rd, result, stats, InvalidParticipants); }
    if reason.IncompleteRound? {
      if 1 <= reason.round <= last { GridRound(rd, result, stats, last, reason.round); }
    } else if reason.IncompleteRoundSet? {
      forall r: nat ensures RowsOf(stats, r) != [] <==> 1 <= r <= last { GridRounds(rd, result, stats, last, r); }
    } else if !OfResult(reason) {
      forall i | 0 <= i < |stats| ensures Whole(rd, result, stats[i]) && InGrid(rd, result, stats[i], last) {
      }
    }
  }

  lemma EmptyOrMember(rows: seq<Row>)
    ensures rows == [] || exists row :: row in rows
  {
    if rows != [] { assert rows[0] in rows; }
  }

  lemma GridRounds(rd: Reader, result: Row, stats: seq<Row>, last: nat, round: nat)
    requires FullGrid(rd, result, stats, last) && |Participants(rd, result)| == 2
    ensures RowsOf(stats, round) != [] <==> 1 <= round <= last
  {
    hide RoundNumber, Participants, RowsOf, NoCellTwice;
    if 1 <= round <= last {
      GridRound(rd, result, stats, last, round);
    } else {
      forall row ensures row !in RowsOf(stats, round) { RowsOfIs(stats, round, row); }
      EmptyOrMember(RowsOf(stats, round));
    }
  }

  ghost predicate RoundsWhole(rd: Reader, result: Row, stats: seq<Row>, last: nat) {
    && RoundsAre(stats, last) && (forall r: nat :: 1 <= r <= last ==> RoundOK(rd, result, stats, r))
    && (forall i | 0 <= i < |stats| :: RoundNumber(Get(stats[i], "ROUND")).Some?)
    && |Participants(rd, result)| == 2
  }

  lemma RowInGrid(rd: Reader, result: Row, stats: seq<Row>, last: nat, i: nat)
    requires RoundsWhole(rd, result, stats, last) && i < |stats|
    ensures InGrid(rd, result, stats[i], last)
  {
    hide RoundNumber, Participants, RowsOf, Fighters;
    var r := RoundNumber(Get(stats[i], "ROUND")).value;
    var k := OneInRound(stats, r, i);
    assert RowsOf(stats, r) != [] && RoundOK(rd, result, stats, r);
    PairOfRows(rd, RowsOf(stats, r), Participants(rd, result));
  }

  lemma CellFilled(rd: Reader, result: Row, stats: seq<Row>, last: nat, round: nat, fighter: string)
    requires RoundsWhole(rd, result, stats, last) && 1 <= round <= last && fighter in Participants(rd, result)
    ensures Filled(rd, stats, round, fighter) && fighter != ""
  {
    hide RoundNumber, Participants, RowsOf;
    assert RoundOK(rd, result, stats, round);
    var rows := RowsOf(stats, round);
    var k :| 0 <= k < |rows| && rd.normal(Get(rows[k], "FIGHTER")) != "" && rd.normal(Get(rows[k], "FIGHTER")) == fighter;
    RowsOfIs(stats, round, rows[k]);
    var i :| 0 <= i < |stats| && stats[i] == rows[k];
    assert Cell(rd, stats[i], round, fighter);
  }

  lemma CellsDiffer(rd: Reader, result: Row, stats: seq<Row>, last: nat, i: nat, j: nat, round: nat, fighter: string)
    requires RoundsWhole(rd, result, stats, last) && i < j < |stats| && Cell(rd, stats[i], round, fighter)
    ensures !Cell(rd, stats[j], round, fighter)
  {
    hide RoundNumber, Participants, RowsOf, Fighters;
    if RoundNumber(Get(stats[j], "ROUND")) == Some(round) {
      var k, l := TwoInRound(stats, round, i, j);
      assert RoundOK(rd, result, stats, round);
      PairOfRows(rd, RowsOf(stats, round), Participants(rd, result));
    }
  }

  lemma RoundsWholeIsGrid(rd: Reader, result: Row, stats: seq<Row>, last: nat)
    requires RoundsWhole(rd, result, stats, last) && last >= 1
    ensures FullGrid(rd, result, stats, last)
  {
    hide RoundNumber, Participants, RowsOf, Filled, Cell, InGrid, RoundsWhole;
    forall i: nat | i < |stats| ensures InGrid(rd, result, stats[i], last) { RowInGrid(rd, result, stats, last, i); }
    forall round: nat, fighter | 1 <= round <= last && fighter in Participants(rd, result)
      ensures Filled(rd, stats, round, fighter) && fighter != ""
    {
      CellFilled(rd, result, stats, last, round, fighter);
    }
    assert "" !in Participants(rd, result) by { if "" in Participants(rd, result) { CellFilled(rd, result, stats, last, 1, ""); } }
    forall i: nat, j: nat, round: nat, fighter | i < j < |stats| && Cell(rd, stats[i], round, fighter) ensures !Cell(rd, stats[j], round, fighter) {
      CellsDiffer(rd, result, stats, last, i, j, round, fighter);
    }
    GridSize(rd, result, stats, last);
  }

  lemma GridSize(rd: Reader, result: Row, stats: seq<Row>, last: nat)
    requires RoundsWhole(rd, result, stats, last)
    ensures |stats| == 2 * last
  {
    hide RoundNumber, Participants, RowsOf, Fighters;
    forall i: nat | i < |stats| ensures 1 <= RoundNumber(Get(stats[i], "ROUND")).value <= last {
      RowInGrid(rd, result, stats, last, i);
    }
    TotalIsAll(stats, last);
    forall r: nat | 1 <= r <= last ensures |RowsOf(stats, r)| == 2 { assert RoundOK(rd, result, stats, r); }
    TotalOfPairs(stats, last);
  }

  /** A fight is judged complete exactly when its result stands and its stat rows are the full grid of its two
      participants over its rounds. */
  lemma CompleteIsFullGrid(rd: Reader, result: Row, stats: seq<Row>)
    ensures (forall reason :: !Applies(rd, result, stats, reason)) <==> CompleteShape(rd, result, stats)
  {
    hide RoundNumber, Participants, RowsOf, Lacks, SameText, FullGrid, RoundOK, RequiredResultFields, RequiredStatFields;
    if CompleteShape(rd, result, stats) {
      forall reason ensures !Applies(rd, result, stats, reason) { GridHasNoReasons(rd, result, stats, reason); }
    }
    if forall reason :: !Applies(rd, result, stats, reason) {
      NoReasonsIsGrid(rd, result, stats);
    }
  }

  lemma NoReasonsIsGrid(rd: Reader, result: Row, stats: seq<Row>)
    requires forall reason :: !Applies(rd, result, stats, reason)
    ensures CompleteShape(rd, result, stats)
  {
    hide RoundNumber, Participants, RowsOf, Lacks, SameText, FullGrid, RoundOK, RequiredResultFields, RequiredStatFields;
    assert !Applies(rd, result, stats, InvalidResultRound) && !Applies(rd, result, stats, InvalidParticipants);
    assert !Applies(rd, result, stats, IncompleteRoundSet) && !Applies(rd, result, stats, InvalidStatRound);
    assert !Applies(rd, result, stats, EventMismatch) && !Applies(rd, result, stats, BoutMismatch);
    var last := Finish(result).value;
    forall r: nat | 1 <= r <= last ensures RoundOK(rd, result, stats, r) {
      assert !Applies(rd, result, stats, IncompleteRound(r));
    }
    forall i: nat, f | i < |stats| ensures !Lacks(stats[i], f) {
      assert !Applies(rd, result, stats, MissingStat(f));
    }
    RoundsWholeIsGrid(rd, result, stats, last);
  }

  // ---- complete, field by field ----

  /** A value that is not observed: nothing, or a missing value's name in any case, between blanks. */
  lemma ObservedExactly(value: string)
    ensures Observed(value) <==> !exists a, w, b :: Blank(a) && Blank(b) && value == a + w + b && Bare(w) && Lower(w) in {"", "nan", "none", "<na>"}
  {
    hide Trim, Lower;
    var a, b := TrimSplits(value);
    assert value == a + Trim(value) + b;
    forall a, w, b | Blank(a) && Blank(b) && value == a + w + b && Bare(w) ensures Trim(value) == w { TrimIs(a, w, b); }
  }

  predicate ResultInFull(row: Row) {
    forall f | f in {"EVENT", "BOUT", "OUTCOME", "WEIGHTCLASS", "METHOD", "ROUND", "TIME", "TIME FORMAT", "URL", "fighter_a_id", "fighter_b_id"} ::
      Observed(Get(row, f))
  }

  predicate StatInFull(row: Row) {
    forall f | f in {"EVENT", "BOUT", "ROUND", "FIGHTER", "KD", "SIG.STR.", "SIG.STR. %", "TOTAL STR.", "TD", "TD %",
                     "SUB.ATT", "REV.", "CTRL", "HEAD", "BODY", "LEG", "DISTANCE", "CLINCH", "GROUND"} ::
      Observed(Get(row, f))
  }

  lemma InFull(row: Row)
    ensures ResultInFull(row) <==> forall f | f in RequiredResultFields() :: Observed(Get(row, f))
    ensures StatInFull(row) <==> forall f :: !Lacks(row, f)
  {
    hide Observed, Get;
    if StatInFull(row) {
      forall f ensures !Lacks(row, f) {}
    }
    if forall f :: !Lacks(row, f) {
      forall f | f in {"EVENT", "BOUT", "ROUND", "FIGHTER", "KD", "SIG.STR.", "SIG.STR. %", "TOTAL STR.", "TD", "TD %",
                       "SUB.ATT", "REV.", "CTRL", "HEAD", "BODY", "LEG", "DISTANCE", "CLINCH", "GROUND"}
        ensures Observed(Get(row, f))
      {
        assert f in RequiredStatFields() && !Lacks(row, f);
      }
    }
  }

  lemma ResultStands(rd: Reader, result: Row, stats: seq<Row>)
    ensures (forall reason | OfResult(reason) :: !Applies(rd, result, stats, reason))
            <==> && (forall f | f in RequiredResultFields() :: Observed(Get(result, f))) && PairOK(rd, result)
                 && rd.quarantine(Get(result, "OUTCOME"), Get(result, "METHOD")).None? && !rd.policyBroken(result) && Finish(result).Some?
  {
    hide RequiredResultFields, RequiredStatFields, Observed, PairOK, RoundNumber, RowsOf;
    if forall reason | OfResult(reason) :: !Applies(rd, result, stats, reason) {
      forall f | f in RequiredResultFields() ensures Observed(Get(result, f)) {
        assert OfResult(MissingResult(f)) && !Applies(rd, result, stats, MissingResult(f));
      }
      assert OfResult(InvalidParticipants) && OfResult(InvalidPolicy) && OfResult(InvalidResultRound);
      var quarantine := rd.quarantine(Get(result, "OUTCOME"), Get(result, "METHOD"));
      if quarantine.Some? { assert OfResult(Quarantined(quarantine.value)); }
    }
  }

  lemma TwoNames(rd: Reader, result: Row)
    ensures var names := rd.participants(Get(result, "BOUT"));
            PairOK(rd, result) <==> |names| == 2 && rd.normal(names[0]) != rd.normal(names[1])
  {
    hide Get;
    var names := rd.participants(Get(result, "BOUT"));
    if |names| == 2 {
      var x, y := rd.normal(names[0]), rd.normal(names[1]);
      assert Participants(rd, result) == {x, y};
      assert x == y ==> {x, y} == {x};
    }
  }

  /** A fight is complete exactly when its result is written in full and accepted by the policy, its bout names two
      fighters, every stat row is written in full and of its event and bout, and the rows are the full grid. */
  lemma CompleteExactly(rd: Reader, result: Row, stats: seq<Row>)
    ensures var names := rd.participants(Get(result, "BOUT"));
            CompleteShape(rd, result, stats)
            <==> && ResultInFull(result)
                 && |names| == 2 && rd.normal(names[0]) != rd.normal(names[1])
                 && rd.quarantine(Get(result, "OUTCOME"), Get(result, "METHOD")).None? && !rd.policyBroken(result)
                 && (forall i | 0 <= i < |stats| ::
                       && StatInFull(stats[i])
                       && rd.normal(Get(stats[i], "EVENT")) == rd.normal(Get(result, "EVENT"))
                       && rd.normal(Get(stats[i], "BOUT")) == rd.normal(Get(result, "BOUT")))
                 && var last := RoundNumber(Get(result, "ROUND"));
                    last.Some? && FullGrid(rd, result, stats, last.value)
  {
    hide ResultInFull, StatInFull, Lacks, Observed, PairOK, FullGrid, Applies, Get, RequiredResultFields, RoundNumber;
    InFull(result);
    ResultStands(rd, result, stats);
    TwoNames(rd, result);
    forall i | 0 <= i < |stats| ensures StatInFull(stats[i]) <==> forall f :: !Lacks(stats[i], f) { InFull(stats[i]); }
  }
}

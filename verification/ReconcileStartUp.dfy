/** scripts/reconcile_positions.py: a whole start-up, the repair and then the import of untracked positions. */
module ReconcileStartUp {
  import opened Common
  import opened Reconcile
  import ReconcileShadows

  /** What the import writes for one position. */
  function Synthetic(id: int, p: Position, at: int, cents: real -> real): Bet {
    Bet("S", true, Number(id), p.token, "open", true, "imported", "filled", "", cents(p.size), 0.0, 0.0, Some(at))
  }

  function HighestId(rows: seq<Bet>): (id: int)
    ensures id >= 0
    ensures forall i | 0 <= i < |rows| && rows[i].single && rows[i].id.Number? :: rows[i].id.value <= id
    ensures id == 0 || exists i :: 0 <= i < |rows| && rows[i].single && rows[i].id == Number(id)
  {
    if rows == [] then 0
    else
      var rest, last := HighestId(rows[..|rows| - 1]), rows[|rows| - 1];
      assert forall i | 0 <= i < |rows| - 1 :: rows[..|rows| - 1][i] == rows[i];
      if last.single && last.id.Number? && last.id.value > rest then last.id.value else rest
  }

  /** `add_bet` counts on from the highest id of the S ledger, and raises when one is not a number. */
  predicate Numbered(rows: seq<Bet>) {
    forall i | 0 <= i < |rows| && rows[i].single :: rows[i].id.Number?
  }

  /** The token metadata: whether each token's entry is complete, with a side and both fighters. */
  type Lookup = map<string, bool>

  predicate Supported(lookup: Lookup, token: string) {
    token in lookup && lookup[token]
  }

  predicate Untracked(p: Position, tracked: set<string>, lookup: Lookup) {
    p.token != "" && p.token !in tracked && Supported(lookup, p.token)
  }

  /** The rows after the first n positions have been looked at. */
  function Imported(rows: seq<Bet>, positions: seq<Position>, tracked: set<string>, lookup: Lookup, at: int, cents: real -> real, n: nat): seq<Bet>
    requires n <= |positions|
  {
    if n == 0 then rows
    else
      var before := Imported(rows, positions, tracked, lookup, at, cents, n - 1);
      if Untracked(positions[n - 1], tracked, lookup)
      then before + [Synthetic(HighestId(before) + 1, positions[n - 1], at, cents)] else before
  }

  function TrackedTokens(rows: seq<Bet>): (tokens: set<string>)
    ensures forall t :: t in tokens <==> Tracked(rows, t)
  {
    set i | 0 <= i < |rows| && Open(rows[i]) :: rows[i].token
  }

  predicate Held(p: Position) {
    p.size > 0.0
  }

  function HeldOnly(positions: seq<Position>): seq<Position> {
    if positions == [] then [] else
      var last := positions[|positions| - 1];
      HeldOnly(positions[..|positions| - 1]) + if Held(last) then [last] else []
  }

  /** Some position is to be imported. */
  predicate Wanting(positions: seq<Position>, tracked: set<string>, lookup: Lookup) {
    exists i | 0 <= i < |positions| :: Untracked(positions[i], tracked, lookup)
  }

  /** A start-up raises after the repair when there is no token metadata at all, or when a position is to be
      imported into a ledger whose ids cannot be counted on. */
  ghost predicate Raises(rows: seq<Bet>, positions: seq<Position>, lookup: Lookup) {
    var live := HeldOnly(positions);
    var repaired := Repaired(rows, live);
    live != [] && (lookup == map[] || (!Numbered(repaired) && Wanting(live, TrackedTokens(repaired), lookup)))
  }

  /** What a start-up makes of the ledgers. */
  ghost function AfterStartUp(rows: seq<Bet>, positions: seq<Position>, lookup: Lookup, at: int, cents: real -> real): seq<Bet> {
    var live := HeldOnly(positions);
    if live == [] then rows
    else
      var repaired := Repaired(rows, live);
      if Raises(rows, positions, lookup) then repaired
      else Imported(repaired, live, TrackedTokens(repaired), lookup, at, cents, |live|)
  }

  /** `main`, the wallet's positions and the token metadata already fetched. */
  method StartUp(ledgers: Ledgers, positions: seq<Position>, lookup: Lookup, at: int, cents: real -> real) returns (raised: bool)
    modifies ledgers
    ensures ledgers.rows == AfterStartUp(old(ledgers.rows), positions, lookup, at, cents)
    ensures raised <==> Raises(old(ledgers.rows), positions, lookup)
  {
    hide Repaired, TrackedTokens, Wanting, Numbered, Imported;
    var live := [];
    for i := 0 to |positions|
      invariant live == HeldOnly(positions[..i])
    {
      assert positions[..i + 1][..i] == positions[..i];
      if Held(positions[i]) { live := live + [positions[i]]; }
    }
    assert positions[..|positions|] == positions;
    if live == [] { return false; }
    var repaired := ledgers.Repair(live);
    if lookup == map[] { return true; }
    raised := ImportUntracked(ledgers, live, lookup, at, cents);
  }

  /** `_reconcile_import_positions`. */
  method ImportUntracked(ledgers: Ledgers, positions: seq<Position>, lookup: Lookup, at: int, cents: real -> real) returns (raised: bool)
    modifies ledgers
    ensures var was, tracked := old(ledgers.rows), TrackedTokens(old(ledgers.rows));
            && (raised <==> !Numbered(was) && Wanting(positions, tracked, lookup))
            && ledgers.rows == if raised then was else Imported(was, positions, tracked, lookup, at, cents, |positions|)
  {
    hide TrackedTokens, Untracked, Numbered;
    var tracked := TrackedTokens(ledgers.rows);
    ghost var was := ledgers.rows;
    for i := 0 to |positions|
      invariant ledgers.rows == Imported(was, positions, tracked, lookup, at, cents, i)
      invariant Numbered(ledgers.rows) <==> Numbered(was)
      invariant Numbered(was) || forall k | 0 <= k < i :: !Untracked(positions[k], tracked, lookup)
    {
      if Untracked(positions[i], tracked, lookup) {
        if !Numbered(ledgers.rows) {
          NothingYet(was, positions, tracked, lookup, at, cents, i);
          return true;
        }
        var bet := Synthetic(HighestId(ledgers.rows) + 1, positions[i], at, cents);
        NumberedMore(ledgers.rows, bet);
        ledgers.rows := ledgers.rows + [bet];
      }
    }
    raised := false;
  }

  // ---- a start-up, from the fields of rows and positions ----

  /** A held position of a token that is in no open row, and whose metadata is complete. */
  ghost predicate Missed(rows: seq<Bet>, p: Position, lookup: Lookup) {
    && p.size > 0.0 && p.token != "" && p.token in lookup && lookup[p.token]
    && forall b | b in rows && b.status == "open" && b.live :: b.token != p.token
  }

  lemma {:induction false} HeldOnlyExactly(positions: seq<Position>)
    ensures forall p :: p in HeldOnly(positions) <==> p in positions && p.size > 0.0
    ensures forall token :: LiveSize(HeldOnly(positions), token) == LiveSize(positions, token)
  {
    if positions != [] {
      var front, last := positions[..|positions| - 1], positions[|positions| - 1];
      HeldOnlyExactly(front);
      assert positions == front + [last];
      var held := HeldOnly(front);
      assert HeldOnly(positions) == if last.size > 0.0 then held + [last] else held;
      forall token ensures LiveSize(HeldOnly(positions), token) == LiveSize(positions, token) {
        SizeIsPositive(front, token);
        assert (held + [last])[..|held|] == held;
      }
    }
  }

  lemma {:induction false} SizeIsPositive(positions: seq<Position>, token: string)
    ensures LiveSize(positions, token) >= 0.0
  {
    if positions != [] { SizeIsPositive(positions[..|positions| - 1], token); }
  }

  /** The repair looks at held positions only, so it can as well be given all of them. */
  lemma RepairedOverAll(rows: seq<Bet>, positions: seq<Position>)
    ensures Repaired(rows, HeldOnly(positions)) == Repaired(rows, positions)
  {
    hide HeldOnly, LiveSize, ImportsOf, TrackersOf, Shadow, ParsedId, Cancellable;
    HeldOnlyExactly(positions);
    assert forall token :: TokenShadowed(rows, HeldOnly(positions), token) == TokenShadowed(rows, positions, token);
    assert forall i: nat, token :: CancelledBy(rows, HeldOnly(positions), i, token) == CancelledBy(rows, positions, i, token);
    assert forall i: nat :: Cancelled(rows, HeldOnly(positions), i) == Cancelled(rows, positions, i);
  }

  lemma MissedIs(rows: seq<Bet>, p: Position, lookup: Lookup)
    ensures p.size > 0.0 && Untracked(p, TrackedTokens(rows), lookup) <==> Missed(rows, p, lookup)
  {
    hide TrackedTokens;
    if Tracked(rows, p.token) {
      var i :| 0 <= i < |rows| && Open(rows[i]) && rows[i].token == p.token;
      assert rows[i] in rows;
    }
  }

  /** Exactly when a start-up raises after the repair: something is held, and there is no metadata at all, or a
      position was missed while an id of the S ledger is no number. */
  lemma RaisesExactly(rows: seq<Bet>, positions: seq<Position>, lookup: Lookup)
    ensures var repaired := Repaired(rows, positions);
            Raises(rows, positions, lookup)
            <==> && (exists p :: p in positions && p.size > 0.0)
                 && (lookup == map[] || ((exists b :: b in repaired && b.single && !b.id.Number?) && exists p :: p in positions && Missed(repaired, p, lookup)))
  {
    hide Repaired, TrackedTokens, Untracked, HeldOnly, Missed, LiveSize;
    var repaired, live := Repaired(rows, positions), HeldOnly(positions);
    RepairedOverAll(rows, positions);
    HeldOnlyExactly(positions);
    assert live != [] ==> live[0] in live;
    assert Numbered(repaired) <==> !exists b :: b in repaired && b.single && !b.id.Number? by { NumberedExactly(repaired); }
    forall p: Position ensures p.size > 0.0 && Untracked(p, TrackedTokens(repaired), lookup) <==> Missed(repaired, p, lookup) { MissedIs(repaired, p, lookup); }
    if Wanting(live, TrackedTokens(repaired), lookup) {
      var i :| 0 <= i < |live| && Untracked(live[i], TrackedTokens(repaired), lookup);
      assert live[i] in live;
    }
    if p :| p in positions && Missed(repaired, p, lookup) {
      assert p.size > 0.0;
      var i :| 0 <= i < |live| && live[i] == p;
    }
  }

  lemma NumberedExactly(rows: seq<Bet>)
    ensures Numbered(rows) <==> !exists b :: b in rows && b.single && !b.id.Number?
  {
    if !Numbered(rows) {
      var i :| 0 <= i < |rows| && rows[i].single && !rows[i].id.Number?;
      assert rows[i] in rows;
    }
  }

  /** What the import writes into the S ledger for a position: a live open row of imported type, filled, without an
      order, of the position's shares, numbered one above the highest number there, or one. */
  ghost predicate WrittenFor(before: seq<Bet>, b: Bet, p: Position, at: int, cents: real -> real) {
    && b.trader == "S" && b.single && b.token == p.token && b.status == "open" && b.live && b.orderType == "imported" && b.placement == "filled"
    && b.orderId == "" && b.shares == cents(p.size) && b.actualFilled == 0.0 == b.filled && b.placedAt == Some(at)
    && b.id.Number? && b.id.value >= 1
    && (forall r | r in before && r.single && r.id.Number? :: r.id.value < b.id.value)
    && (b.id.value > 1 ==> exists r :: r in before && r.single && r.id == Number(b.id.value - 1))
  }

  /** Position by position: one that was missed adds its row behind the others, any other adds nothing. */
  lemma ImportedExactly(rows: seq<Bet>, positions: seq<Position>, lookup: Lookup, at: int, cents: real -> real, n: nat)
    requires n < |positions| && positions[n].size > 0.0
    ensures var before := Imported(rows, positions, TrackedTokens(rows), lookup, at, cents, n);
            var after := Imported(rows, positions, TrackedTokens(rows), lookup, at, cents, n + 1);
            if Missed(rows, positions[n], lookup) then
              |after| == |before| + 1 && after[..|before|] == before && WrittenFor(before, after[|before|], positions[n], at, cents)
            else after == before
  {
    hide TrackedTokens, Untracked, Missed, HighestId;
    MissedIs(rows, positions[n], lookup);
    var before := Imported(rows, positions, TrackedTokens(rows), lookup, at, cents, n);
    NextNumber(before);
  }

  lemma NextNumber(rows: seq<Bet>)
    ensures var v := HighestId(rows) + 1;
            && v >= 1 && (forall r | r in rows && r.single && r.id.Number? :: r.id.value < v)
            && (v > 1 ==> exists r :: r in rows && r.single && r.id == Number(v - 1))
  {
    hide HighestId;
    if HighestId(rows) > 0 {
      var i :| 0 <= i < |rows| && rows[i].single && rows[i].id == Number(HighestId(rows));
      assert rows[i] in rows;
    }
  }

  lemma {:induction false} NothingYet(rows: seq<Bet>, positions: seq<Position>, tracked: set<string>, lookup: Lookup, at: int, cents: real -> real, n: nat)
    requires n <= |positions| && forall k | 0 <= k < n :: !Untracked(positions[k], tracked, lookup)
    ensures Imported(rows, positions, tracked, lookup, at, cents, n) == rows
  {
    hide Untracked;
    if n > 0 { NothingYet(rows, positions, tracked, lookup, at, cents, n - 1); }
  }

  lemma NumberedMore(rows: seq<Bet>, b: Bet)
    requires Numbered(rows) && b.id.Number?
    ensures Numbered(rows + [b])
  {
  }

  // ---- a second start-up ----

  lemma SyntheticIsImport(id: int, p: Position, at: int, cents: real -> real)
    ensures p.token != "" ==> Import(Synthetic(id, p, at, cents))
    ensures !Tracker(Synthetic(id, p, at, cents))
  {
    TagImported();
  }

  /** Imports of tokens nobody tracked. */
  ghost predicate Fresh(rows: seq<Bet>, added: seq<Bet>) {
    forall k | 0 <= k < |added| :: Import(added[k]) && !Tracker(added[k]) && !Tracked(rows, added[k].token)
  }

  /** One of the first n positions is of the token. */
  ghost predicate Among(positions: seq<Position>, n: nat, token: string) {
    exists m :: 0 <= m < n && m < |positions| && positions[m].token == token
  }

  ghost predicate HasRow(rows: seq<Bet>, token: string) {
    exists j :: 0 <= j < |rows| && rows[j].token == token
  }

  /** The rows an import adds: of the supported tokens among the positions that nobody tracked, and of all of them. */
  ghost predicate Additions(rows: seq<Bet>, added: seq<Bet>, positions: seq<Position>, lookup: Lookup, n: nat)
    requires n <= |positions|
  {
    && Fresh(rows, added)
    && forall token :: HasRow(added, token) <==>
         token != "" && Supported(lookup, token) && !Tracked(rows, token) && Among(positions, n, token)
  }

  lemma AmongMore(positions: seq<Position>, n: nat, token: string)
    requires n < |positions|
    ensures Among(positions, n + 1, token) <==> Among(positions, n, token) || positions[n].token == token
  {
  }

  lemma OneRowMore(rows: seq<Bet>, b: Bet, token: string)
    ensures HasRow(rows + [b], token) <==> HasRow(rows, token) || b.token == token
  {
    var all := rows + [b];
    assert all[|rows|] == b && forall k | 0 <= k < |rows| :: all[k] == rows[k];
    if HasRow(rows, token) {
      var j :| 0 <= j < |rows| && rows[j].token == token;
      assert all[j] == rows[j];
    }
  }

  lemma AdditionsPassed(rows: seq<Bet>, added: seq<Bet>, positions: seq<Position>, lookup: Lookup, n: nat)
    requires n < |positions| && Additions(rows, added, positions, lookup, n)
    requires !Untracked(positions[n], TrackedTokens(rows), lookup)
    ensures Additions(rows, added, positions, lookup, n + 1)
  {
    hide Fresh, Tracked, Supported, Among, HasRow;
    forall token ensures Among(positions, n + 1, token) <==> Among(positions, n, token) || positions[n].token == token {
      AmongMore(positions, n, token);
    }
  }

  lemma AdditionsMore(rows: seq<Bet>, before: seq<Bet>, b: Bet, positions: seq<Position>, lookup: Lookup, n: nat)
    requires n < |positions| && Additions(rows, before, positions, lookup, n)
    requires Untracked(positions[n], TrackedTokens(rows), lookup) && Import(b) && !Tracker(b) && b.token == positions[n].token
    ensures Additions(rows, before + [b], positions, lookup, n + 1)
  {
    hide Import, Tracker, Tracked, Supported, Among, HasRow;
    forall token
      ensures Among(positions, n + 1, token) <==> Among(positions, n, token) || positions[n].token == token
      ensures HasRow(before + [b], token) <==> HasRow(before, token) || b.token == token
    {
      AmongMore(positions, n, token);
      OneRowMore(before, b, token);
    }
  }

  lemma NothingAmong(rows: seq<Bet>, positions: seq<Position>, lookup: Lookup)
    ensures Additions(rows, [], positions, lookup, 0)
  {
    hide Supported, Tracked;
  }

  lemma {:induction false} ImportedAdds(rows: seq<Bet>, positions: seq<Position>, lookup: Lookup, at: int, cents: real -> real, n: nat)
    returns (added: seq<Bet>)
    requires n <= |positions|
    ensures Imported(rows, positions, TrackedTokens(rows), lookup, at, cents, n) == rows + added
    ensures Additions(rows, added, positions, lookup, n)
  {
    hide Import, Tracker, Tracked, TrackedTokens, Untracked, Additions;
    if n == 0 {
      added := [];
      NothingAmong(rows, positions, lookup);
    } else {
      var before := ImportedAdds(rows, positions, lookup, at, cents, n - 1);
      var p := positions[n - 1];
      if Untracked(p, TrackedTokens(rows), lookup) {
        var b := Synthetic(HighestId(rows + before) + 1, p, at, cents);
        SyntheticIsImport(HighestId(rows + before) + 1, p, at, cents);
        WantedHasToken(p, TrackedTokens(rows), lookup);
        AdditionsMore(rows, before, b, positions, lookup, n - 1);
        added := before + [b];
      } else {
        AdditionsPassed(rows, before, positions, lookup, n - 1);
        added := before;
      }
    }
  }

  lemma WantedHasToken(p: Position, tracked: set<string>, lookup: Lookup)
    ensures Untracked(p, tracked, lookup) ==> p.token != ""
  {
  }

  lemma NoRows(rows: seq<Bet>, token: string)
    requires forall k | 0 <= k < |rows| :: rows[k].token != token
    ensures ImportsOf(rows, token) == [] && TrackersOf(rows, token) == []
  {
    hide Import, Tracker, ImportsOf, TrackersOf;
    if ImportsOf(rows, token) != [] { ImportsIn(rows, token, ImportsOf(rows, token)[0]); }
    if TrackersOf(rows, token) != [] { TrackersIn(rows, token, TrackersOf(rows, token)[0]); }
  }

  lemma NoTrackers(rows: seq<Bet>, token: string)
    requires !Tracked(rows, token)
    ensures TrackersOf(rows, token) == []
  {
    hide Tracker, TrackersOf, Open;
    forall b: Bet ensures b !in TrackersOf(rows, token) {
      TrackersIn(rows, token, b);
      OpenIfTracker(b);
    }
    NoMembers(TrackersOf(rows, token));
  }

  lemma OpenIfTracker(b: Bet)
    ensures Tracker(b) ==> Open(b)
  {
  }

  lemma NoMembers(rows: seq<Bet>)
    ensures rows == [] || exists b :: b in rows
  {
    if rows != [] { assert rows[0] in rows; }
  }

  lemma NoTrackersAmong(rows: seq<Bet>, token: string)
    requires forall k | 0 <= k < |rows| :: !Tracker(rows[k])
    ensures TrackersOf(rows, token) == []
  {
    hide Tracker, TrackersOf;
    if TrackersOf(rows, token) != [] { TrackersIn(rows, token, TrackersOf(rows, token)[0]); }
  }

  /** Adding imports of untracked tokens makes and takes no shadow. */
  lemma AdditionsAskNothing(rows: seq<Bet>, added: seq<Bet>, positions: seq<Position>, token: string, v: int)
    requires Fresh(rows, added)
    ensures Asks(rows + added, positions, token, v) <==> Asks(rows, positions, token, v)
  {
    hide Import, Tracker, Tracked, ImportsOf, TrackersOf, LiveSize, Earlier, ParsedId;
    ReconcileShadows.PickedConcat(rows, added, token);
    NoTrackersAmong(added, token);
    assert TrackersOf(rows + added, token) == TrackersOf(rows, token);
    if exists k :: 0 <= k < |added| && added[k].token == token {
      NoTrackers(rows, token);
      forall at, t ensures Earlier([], at, t) == [] { ReconcileShadows.NoneEarlier(at, t); }
    } else {
      NoRows(added, token);
      assert ImportsOf(rows + added, token) == ImportsOf(rows, token);
    }
  }

  lemma FirstInFront(rows: seq<Bet>, added: seq<Bet>, v: int, i: nat)
    ensures i < |rows| ==> (FirstWithId(rows + added, v, i) <==> FirstWithId(rows, v, i))
    ensures (exists m :: 0 <= m < |rows| && NumberedAs(rows[m], v)) && |rows| <= i ==> !FirstWithId(rows + added, v, i)
  {
    assert forall m | 0 <= m < |rows| :: (rows + added)[m] == rows[m];
  }

  /** A number asked for is the id of an import, where all ids are numbers. */
  lemma AskedIsThere(rows: seq<Bet>, positions: seq<Position>, token: string, v: int)
    requires Numbered(rows) && Asks(rows, positions, token, v)
    ensures exists m :: 0 <= m < |rows| && NumberedAs(rows[m], v)
  {
    hide Import, ImportsOf, TrackersOf, LiveSize;
    var m := OnlyImport(rows, token);
    ImportIsOpen(rows[m]);
    assert NumberedAs(rows[m], v);
  }

  lemma CancelledInFront(rows: seq<Bet>, added: seq<Bet>, positions: seq<Position>, i: nat, token: string)
    requires Fresh(rows, added) && (added == [] || Numbered(rows))
    ensures CancelledBy(rows + added, positions, i, token) <==> CancelledBy(rows, positions, i, token)
  {
    hide Asks, FirstWithId, Fresh, Numbered;
    var all := rows + added;
    assert i < |rows| ==> all[i] == rows[i];
    if i < |all| && all[i].id.Number? {
      var v := all[i].id.value;
      AdditionsAskNothing(rows, added, positions, token, v);
      FirstInFront(rows, added, v, i);
      if |rows| <= i && Asks(rows, positions, token, v) { AskedIsThere(rows, positions, token, v); }
    }
  }

  /** A repair of ledgers with such additions is a repair of what was there before them. */
  lemma RepairOfMore(rows: seq<Bet>, added: seq<Bet>, positions: seq<Position>)
    requires Fresh(rows, added) && (added == [] || Numbered(rows))
    ensures Repaired(rows + added, positions) == Repaired(rows, positions) + added
  {
    hide Fresh, Numbered, Repaired, CancelledBy;
    var all := rows + added;
    RepairedLength(all, positions);
    RepairedLength(rows, positions);
    forall i: nat | i < |all| ensures Repaired(all, positions)[i] == (Repaired(rows, positions) + added)[i] {
      forall token ensures CancelledBy(all, positions, i, token) <==> CancelledBy(rows, positions, i, token) {
        CancelledInFront(rows, added, positions, i, token);
      }
      RepairedAt(all, positions, i);
      if i < |rows| { RepairedAt(rows, positions, i); } else { NotThere(rows, positions, i); }
    }
  }

  lemma NotThere(rows: seq<Bet>, positions: seq<Position>, i: nat)
    requires |rows| <= i
    ensures !Cancelled(rows, positions, i)
  {
  }

  /** Counting on from the highest id keeps the ids apart. */
  lemma OneMoreId(rows: seq<Bet>, b: Bet)
    requires UniqueIds(rows) && Numbered(rows) && b.id == Number(HighestId(rows) + 1)
    ensures UniqueIds(rows + [b])
  {
  }

  lemma {:induction false} ImportedUnique(rows: seq<Bet>, positions: seq<Position>, tracked: set<string>, lookup: Lookup, at: int, cents: real -> real, n: nat)
    requires n <= |positions| && UniqueIds(rows) && Numbered(rows)
    ensures var after := Imported(rows, positions, tracked, lookup, at, cents, n); UniqueIds(after) && Numbered(after)
  {
    hide UniqueIds, Numbered, Untracked;
    if n > 0 {
      ImportedUnique(rows, positions, tracked, lookup, at, cents, n - 1);
      var before := Imported(rows, positions, tracked, lookup, at, cents, n - 1);
      var b := Synthetic(HighestId(before) + 1, positions[n - 1], at, cents);
      OneMoreId(before, b);
      NumberedMore(before, b);
    }
  }

  /** A start-up keeps the ids of the S ledger apart. */
  lemma StartUpKeepsIds(rows: seq<Bet>, positions: seq<Position>, lookup: Lookup, at: int, cents: real -> real)
    requires UniqueIds(rows)
    ensures UniqueIds(AfterStartUp(rows, positions, lookup, at, cents))
  {
    hide UniqueIds, Numbered, TrackedTokens, Imported, Repaired, HeldOnly, Wanting;
    var live := HeldOnly(positions);
    var repaired := Repaired(rows, live);
    RepairKeepsIds(rows, live);
    if live != [] && !Raises(rows, positions, lookup) {
      if Numbered(repaired) {
        ImportedUnique(repaired, live, TrackedTokens(repaired), lookup, at, cents, |live|);
      } else {
        NothingWantedYet(repaired, live, lookup, at, cents);
      }
    }
  }

  lemma TrackedMore(rows: seq<Bet>, added: seq<Bet>, token: string)
    ensures Tracked(rows, token) ==> Tracked(rows + added, token)
    ensures (exists j :: 0 <= j < |added| && Import(added[j]) && added[j].token == token) ==> Tracked(rows + added, token)
  {
    if Tracked(rows, token) {
      var i :| 0 <= i < |rows| && Open(rows[i]) && rows[i].token == token;
      assert (rows + added)[i] == rows[i];
    }
    if exists j :: 0 <= j < |added| && Import(added[j]) && added[j].token == token {
      var j :| 0 <= j < |added| && Import(added[j]) && added[j].token == token;
      assert (rows + added)[|rows| + j] == added[j];
    }
  }

  lemma {:induction false} NothingToImport(rows: seq<Bet>, positions: seq<Position>, lookup: Lookup, at: int, cents: real -> real, n: nat)
    requires n <= |positions|
    requires forall k | 0 <= k < |positions| && positions[k].token != "" && Supported(lookup, positions[k].token) :: Tracked(rows, positions[k].token)
    ensures Imported(rows, positions, TrackedTokens(rows), lookup, at, cents, n) == rows
  {
    hide Tracked, TrackedTokens;
    if n > 0 { NothingToImport(rows, positions, lookup, at, cents, n - 1); }
  }

  lemma NothingWanted(rows: seq<Bet>, positions: seq<Position>, lookup: Lookup)
    requires forall k | 0 <= k < |positions| && positions[k].token != "" && Supported(lookup, positions[k].token) :: Tracked(rows, positions[k].token)
    ensures !Wanting(positions, TrackedTokens(rows), lookup)
  {
    hide Tracked, TrackedTokens;
  }

  /** Where a start-up over a wallet that holds something leads: the repaired rows, and what is imported behind. */
  lemma StartUpAppends(rows: seq<Bet>, positions: seq<Position>, lookup: Lookup, at: int, cents: real -> real) returns (added: seq<Bet>)
    requires HeldOnly(positions) != []
    ensures var live := HeldOnly(positions);
            var repaired := Repaired(rows, live);
            && |repaired| == |rows| && AfterStartUp(rows, positions, lookup, at, cents) == repaired + added
            && Fresh(repaired, added) && (added == [] || Numbered(repaired))
            && (Raises(rows, positions, lookup) ==> added == [])
            && (!Raises(rows, positions, lookup) ==> Additions(repaired, added, live, lookup, |live|))
  {
    hide Repaired, TrackedTokens, HeldOnly, Imported, Numbered, Wanting, Import, Tracker, Tracked;
    var live := HeldOnly(positions);
    var repaired := Repaired(rows, live);
    RepairedLength(rows, live);
    if Raises(rows, positions, lookup) {
      added := [];
    } else {
      added := ImportedAdds(repaired, live, lookup, at, cents, |live|);
      if !Numbered(repaired) {
        NothingWantedYet(repaired, live, lookup, at, cents);
        assert repaired + added == repaired;
      }
    }
  }

  lemma NothingWantedYet(rows: seq<Bet>, positions: seq<Position>, lookup: Lookup, at: int, cents: real -> real)
    requires !Wanting(positions, TrackedTokens(rows), lookup)
    ensures Imported(rows, positions, TrackedTokens(rows), lookup, at, cents, |positions|) == rows
  {
    hide TrackedTokens, Untracked, Imported;
    NothingYet(rows, positions, TrackedTokens(rows), lookup, at, cents, |positions|);
  }

  /** After an import nothing is left to import. */
  lemma NothingLeft(rows: seq<Bet>, added: seq<Bet>, positions: seq<Position>, lookup: Lookup, at: int, cents: real -> real)
    requires Additions(rows, added, positions, lookup, |positions|)
    ensures !Wanting(positions, TrackedTokens(rows + added), lookup)
    ensures Imported(rows + added, positions, TrackedTokens(rows + added), lookup, at, cents, |positions|) == rows + added
  {
    hide Import, Tracker, Tracked, TrackedTokens, Wanting, Imported, Supported;
    var after := rows + added;
    forall k | 0 <= k < |positions| && positions[k].token != "" && Supported(lookup, positions[k].token) ensures Tracked(after, positions[k].token) {
      assert Among(positions, |positions|, positions[k].token);
      TrackedMore(rows, added, positions[k].token);
      if j :| 0 <= j < |added| && added[j].token == positions[k].token { assert Import(added[j]); }
    }
    NothingToImport(after, positions, lookup, at, cents, |positions|);
    NothingWanted(after, positions, lookup);
  }

  /** Exactly when starting up again over the same wallet, with nothing new in the ledgers, cancels nothing and
      imports nothing: when the repair has settled. Then it raises if the first did. */
  lemma SecondStartUpIsIdle(rows: seq<Bet>, positions: seq<Position>, lookup: Lookup, at: int, at': int, cents: real -> real)
    ensures var after, live := AfterStartUp(rows, positions, lookup, at, cents), HeldOnly(positions);
            && (AfterStartUp(after, positions, lookup, at', cents) == after <==> live == [] || Settled(rows, live))
            && (live == [] || Settled(rows, live) ==> (Raises(after, positions, lookup) <==> Raises(rows, positions, lookup)))
  {
    hide Repaired, Import, Tracker, Tracked, TrackedTokens, HeldOnly, Imported, Numbered, Wanting, Settled, Fresh, AfterStartUp;
    var live := HeldOnly(positions);
    if live == [] {
      NothingHeld(rows, positions, lookup, at, cents);
      NothingHeld(rows, positions, lookup, at', cents);
    } else {
      var added := StartUpAppends(rows, positions, lookup, at, cents);
      var repaired := Repaired(rows, live);
      var after := repaired + added;
      RepairSettlesExactly(rows, live);
      RepairOfMore(repaired, added, live);
      var more := StartUpAppends(after, positions, lookup, at', cents);
      RepairedLength(repaired, live);
      if Repaired(repaired, live) == repaired {
        SecondAddsNothing(rows, repaired, added, positions, lookup, at', cents);
      } else {
        FrontDiffers(Repaired(repaired, live), repaired, added, more);
      }
    }
  }

  lemma FrontDiffers(a: seq<Bet>, b: seq<Bet>, added: seq<Bet>, more: seq<Bet>)
    requires |a| == |b| && a != b
    ensures (a + added) + more != b + added
  {
    assert ((a + added) + more)[..|a|] == a && (b + added)[..|b|] == b;
  }

  lemma NothingHeld(rows: seq<Bet>, positions: seq<Position>, lookup: Lookup, at: int, cents: real -> real)
    requires HeldOnly(positions) == []
    ensures AfterStartUp(rows, positions, lookup, at, cents) == rows && !Raises(rows, positions, lookup)
  {
    hide Repaired, HeldOnly, Imported, Numbered, Wanting, TrackedTokens;
  }

  lemma SecondAddsNothing(rows: seq<Bet>, repaired: seq<Bet>, added: seq<Bet>, positions: seq<Position>, lookup: Lookup, at: int, cents: real -> real)
    requires var live := HeldOnly(positions);
             && live != [] && repaired == Repaired(rows, live) && Repaired(repaired + added, live) == repaired + added
             && (Raises(rows, positions, lookup) ==> added == [])
             && (!Raises(rows, positions, lookup) ==> Additions(repaired, added, live, lookup, |live|))
    ensures AfterStartUp(repaired + added, positions, lookup, at, cents) == repaired + added
    ensures Raises(repaired + added, positions, lookup) <==> Raises(rows, positions, lookup)
  {
    hide Repaired, HeldOnly, Imported, Numbered, Wanting, TrackedTokens, Additions;
    var live := HeldOnly(positions);
    if Raises(rows, positions, lookup) {
      assert repaired + added == repaired;
    } else {
      NothingLeft(repaired, added, live, lookup, at, cents);
    }
  }

  /** Exactly when an open row that a start-up cancels is not replaced by a new one of its token: when the repair
      leaves the token tracked, or the import does not come to it. */
  lemma CancelledStaysCancelled(rows: seq<Bet>, positions: seq<Position>, lookup: Lookup, at: int, cents: real -> real, i: nat)
    requires HeldOnly(positions) != [] && i < |rows| && Open(rows[i]) && Cancelled(rows, HeldOnly(positions), i)
    ensures var after, live, token := AfterStartUp(rows, positions, lookup, at, cents), HeldOnly(positions), rows[i].token;
            && |rows| <= |after| && after[i] == rows[i].(status := "cancelled")
            && ((forall j | |rows| <= j < |after| :: after[j].token != token)
                <==> Spared(rows, live, token) || Raises(rows, positions, lookup) || !Supported(lookup, token)
                     || forall k | 0 <= k < |live| :: live[k].token != token)
  {
    hide Repaired, HeldOnly, Cancelled, Spared, Raises, AfterStartUp, Supported, Fresh, Tracked, Among, HasRow, Open;
    var live, token := HeldOnly(positions), rows[i].token;
    var repaired := Repaired(rows, live);
    RepairedAt(rows, live, i);
    var added := StartUpAppends(rows, positions, lookup, at, cents);
    RepairKeepsTrackedExactly(rows, live, token);
    OpenTracks(rows, i);
    NewRows(repaired, added, token);
    NoneAmong(live, token);
  }

  lemma NewRows(rows: seq<Bet>, added: seq<Bet>, token: string)
    ensures (forall j | |rows| <= j < |rows + added| :: (rows + added)[j].token != token) <==> !HasRow(added, token)
    ensures added == [] ==> !HasRow(added, token)
  {
    assert forall j | 0 <= j < |added| :: (rows + added)[|rows| + j] == added[j];
    assert forall j | |rows| <= j < |rows + added| :: (rows + added)[j] == added[j - |rows|];
  }

  lemma NoneAmong(positions: seq<Position>, token: string)
    ensures !Among(positions, |positions|, token) <==> forall k | 0 <= k < |positions| :: positions[k].token != token
  {
  }

  /** With ids of their own it never is. */
  lemma OwnIdStaysCancelled(rows: seq<Bet>, positions: seq<Position>, lookup: Lookup, at: int, cents: real -> real, i: nat)
    requires UniqueIds(rows) && HeldOnly(positions) != [] && i < |rows| && Cancelled(rows, HeldOnly(positions), i)
    ensures var after := AfterStartUp(rows, positions, lookup, at, cents);
            && |rows| <= |after| && after[i] == rows[i].(status := "cancelled")
            && forall j | |rows| <= j < |after| :: after[j].token != rows[i].token
  {
    hide Repaired, HeldOnly, Cancelled, UniqueIds, Spared, Raises, AfterStartUp, Tracked, TokenShadowed;
    var live := HeldOnly(positions);
    ShadowsAreCancelled(rows, live, i);
    RepairKeepsTracked(rows, live, rows[i].token);
    RepairKeepsTrackedExactly(rows, live, rows[i].token);
    CancelledStaysCancelled(rows, positions, lookup, at, cents, i);
  }

  lemma OpenTracks(rows: seq<Bet>, i: nat)
    requires i < |rows| && Open(rows[i])
    ensures Tracked(rows, rows[i].token) && rows[i].token != ""
  {
  }
}

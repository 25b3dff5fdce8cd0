/** scripts/reconcile_positions.py: cancelling imports that only mirror shares another trader's ledger already
    tracks, then importing wallet positions nobody tracks. Shares are reals; tokens and traders are clean text. */
module Reconcile {
  import opened Common

  const TOLERANCE: real := 0.020000001

  /** What a ledger holds as a row's id: null, a whole number, or text. */
  datatype RowId = Missing | Number(value: int) | Text(text: string)

  /** `_positive_int`: text is read as a number here, but nowhere else. */
  function ParsedId(id: RowId): Option<int> {
    match id
    case Missing => None
    case Number(v) => if v > 0 then Some(v) else None
    case Text(s) => var t := Trim(s); if Digits(t) && Decimal(t) > 0 then Some(Decimal(t)) else None
  }

  /** A row of any trader's ledger. `single` marks the S ledger; `live` is an explicit dry_run of false. */
  datatype Bet = Bet(trader: string, single: bool, id: RowId, token: string, status: string, live: bool, orderType: string,
                     placement: string, orderId: string, shares: real, actualFilled: real, filled: real, placedAt: Option<int>)

  datatype Position = Position(token: string, size: real)

  function Positive(x: real): real {
    if x > 0.0 then x else 0.0
  }

  function Tag(s: string): string {
    Lower(Trim(s))
  }

  predicate Open(b: Bet) {
    b.token != "" && b.status == "open" && b.live
  }

  /** A synthetic row the start-up import made. */
  predicate Import(b: Bet) {
    Open(b) && b.single && Tag(b.orderType) == "imported" && Tag(b.placement) == "filled" && Trim(b.orderId) == ""
  }

  /** `_confirmed_tracker_shares`. */
  function Confirmed(b: Bet): real {
    if Tag(b.orderType) == "imported" then 0.0
    else if Positive(b.actualFilled) > 0.0 then Positive(b.actualFilled)
    else if Positive(b.filled) > 0.0 then Positive(b.filled)
    else if Tag(b.orderType) == "filled_limit" || Tag(b.placement) in {"filled", "matched"} then Positive(b.shares)
    else 0.0
  }

  predicate Tracker(b: Bet) {
    Open(b) && (b.trader == "M" || b.trader == "G") && Confirmed(b) > 0.0
  }

  function ImportsOf(rows: seq<Bet>, token: string): seq<Bet> {
    if rows == [] then [] else
      var last := rows[|rows| - 1];
      ImportsOf(rows[..|rows| - 1], token) + if Import(last) && last.token == token then [last] else []
  }

  function TrackersOf(rows: seq<Bet>, token: string): seq<Bet> {
    if rows == [] then [] else
      var last := rows[|rows| - 1];
      TrackersOf(rows[..|rows| - 1], token) + if Tracker(last) && last.token == token then [last] else []
  }

  predicate PlacedBefore(b: Bet, at: int) {
    b.placedAt.Some? && b.placedAt.value < at
  }

  function Earlier(trackers: seq<Bet>, at: int, trader: string): seq<Bet> {
    if trackers == [] then [] else
      var last := trackers[|trackers| - 1];
      Earlier(trackers[..|trackers| - 1], at, trader) + if PlacedBefore(last, at) && last.trader == trader then [last] else []
  }

  function LiveSize(positions: seq<Position>, token: string): real {
    if positions == [] then 0.0
    else
      var size, last := LiveSize(positions[..|positions| - 1], token), positions[|positions| - 1];
      if last.token == token && token != "" && last.size > size then last.size else size
  }

  predicate Close(a: real, b: real) {
    -TOLERANCE <= a - b <= TOLERANCE
  }

  function SharesOf(one: seq<Bet>): real {
    if |one| == 1 then Confirmed(one[0]) else 0.0
  }

  /** The one import of a token is a shadow: it matches the wallet, and each tracking trader has at most one
      earlier row, one at least has, and together they cover it. */
  predicate Shadow(imports: seq<Bet>, trackers: seq<Bet>, size: real) {
    && |imports| == 1
    && imports[0].placedAt.Some? && imports[0].shares > 0.0 && ParsedId(imports[0].id).Some?
    && Close(size, imports[0].shares)
    && var m, g := Earlier(trackers, imports[0].placedAt.value, "M"), Earlier(trackers, imports[0].placedAt.value, "G");
       |m| <= 1 && |g| <= 1 && |m| + |g| >= 1 && Close(SharesOf(m) + SharesOf(g), imports[0].shares)
  }

  predicate TokenShadowed(rows: seq<Bet>, positions: seq<Position>, token: string) {
    Shadow(ImportsOf(rows, token), TrackersOf(rows, token), LiveSize(positions, token))
  }

  /** The repair asks for the number v to be cancelled on behalf of the token. */
  predicate Asks(rows: seq<Bet>, positions: seq<Position>, token: string, v: int) {
    TokenShadowed(rows, positions, token) && ParsedId(ImportsOf(rows, token)[0].id) == Some(v)
  }

  predicate NumberedAs(b: Bet, v: int) {
    b.single && b.id == Number(v)
  }

  /** The row `cancel_bet` finds: ids are compared as they stand. */
  predicate FirstWithId(rows: seq<Bet>, v: int, i: int) {
    0 <= i < |rows| && NumberedAs(rows[i], v) && forall j | 0 <= j < i :: !NumberedAs(rows[j], v)
  }

  /** Row i is cancelled: it is the first with a number some token asks for, open, and of the expected type. */
  ghost predicate Cancelled(rows: seq<Bet>, positions: seq<Position>, i: nat) {
    exists token :: CancelledBy(rows, positions, i, token)
  }

  predicate CancelledBy(rows: seq<Bet>, positions: seq<Position>, i: nat, token: string) {
    Cancellable(rows, i) && Asks(rows, positions, token, rows[i].id.value)
  }

  predicate Cancellable(rows: seq<Bet>, i: nat) {
    && i < |rows| && rows[i].id.Number? && FirstWithId(rows, rows[i].id.value, i)
    && rows[i].status == "open" && rows[i].orderType == "imported"
  }

  ghost function Repaired(rows: seq<Bet>, positions: seq<Position>): seq<Bet> {
    seq(|rows|, i requires 0 <= i < |rows| => if Cancelled(rows, positions, i) then rows[i].(status := "cancelled") else rows[i])
  }

  // ---- the repair ----

  method LiveSizes(positions: seq<Position>) returns (sizes: map<string, real>)
    ensures forall t :: (if t in sizes then sizes[t] else 0.0) == LiveSize(positions, t)
  {
    sizes := map[];
    for i := 0 to |positions|
      invariant forall t :: (if t in sizes then sizes[t] else 0.0) == LiveSize(positions[..i], t)
      invariant forall t | t in sizes :: sizes[t] > 0.0
    {
      var p := positions[i];
      assert positions[..i + 1][..i] == positions[..i];
      if p.token != "" && p.size > 0.0 {
        var was := if p.token in sizes then sizes[p.token] else 0.0;
        sizes := sizes[p.token := if p.size > was then p.size else was];
      }
    }
    assert positions[..|positions|] == positions;
  }

  /** The earlier rows of each tracking trader. */
  method QualifyingByTrader(trackers: seq<Bet>, at: int) returns (byTrader: map<string, seq<Bet>>)
    requires forall k | 0 <= k < |trackers| :: Tracker(trackers[k])
    ensures forall t :: t in byTrader <==> Earlier(trackers, at, t) != []
    ensures forall t | t in byTrader :: byTrader[t] == Earlier(trackers, at, t) && (t == "M" || t == "G")
  {
    hide Confirmed, Tag;
    byTrader := map[];
    for i := 0 to |trackers|
      invariant forall t :: t in byTrader <==> Earlier(trackers[..i], at, t) != []
      invariant forall t | t in byTrader :: byTrader[t] == Earlier(trackers[..i], at, t) && (t == "M" || t == "G")
    {
      var b := trackers[i];
      assert trackers[..i + 1][..i] == trackers[..i];
      if PlacedBefore(b, at) {
        byTrader := byTrader[b.trader := (if b.trader in byTrader then byTrader[b.trader] else []) + [b]];
      }
    }
    assert trackers[..|trackers|] == trackers;
  }

  /** Whether one token's import is a shadow. */
  method IsShadow(imports: seq<Bet>, trackers: seq<Bet>, size: real) returns (shadow: bool)
    requires forall k | 0 <= k < |trackers| :: Tracker(trackers[k])
    ensures shadow <==> Shadow(imports, trackers, size)
  {
    hide Confirmed, Tag, Earlier, Tracker;
    if |imports| != 1 { return false; }
    var imported := imports[0];
    if imported.placedAt.None? || imported.shares <= 0.0 || ParsedId(imported.id).None? || !Close(size, imported.shares) {
      return false;
    }
    var at := imported.placedAt.value;
    var byTrader := QualifyingByTrader(trackers, at);
    var m := if "M" in byTrader then byTrader["M"] else [];
    var g := if "G" in byTrader then byTrader["G"] else [];
    assert m == Earlier(trackers, at, "M") && g == Earlier(trackers, at, "G");
    if (m == [] && g == []) || |m| > 1 || |g| > 1 { return false; }
    var covered := (if m != [] then Confirmed(m[0]) else 0.0) + (if g != [] then Confirmed(g[0]) else 0.0);
    shadow := Close(covered, imported.shares);
  }

  /** All traders' ledgers. */
  class Ledgers {
    var rows: seq<Bet>

    constructor (rows: seq<Bet>)
      ensures this.rows == rows
    {
      this.rows := rows;
    }

    /** `cancel_bet` on the S ledger: the first row with the id, if it is open and of the expected type. */
    method CancelBet(id: int) returns (ok: bool)
      modifies this
      ensures forall i | 0 <= i < |old(rows)| && FirstWithId(old(rows), id, i) ::
                && (ok <==> old(rows)[i].status == "open" && old(rows)[i].orderType == "imported")
                && rows == if ok then old(rows)[i := old(rows)[i].(status := "cancelled")] else old(rows)
      ensures (forall i | 0 <= i < |old(rows)| :: !FirstWithId(old(rows), id, i)) ==> !ok && rows == old(rows)
    {
      for i := 0 to |rows|
        invariant rows == old(rows)
        invariant forall j | 0 <= j < i :: !NumberedAs(rows[j], id)
      {
        if NumberedAs(rows[i], id) {
          assert FirstWithId(rows, id, i);
          if rows[i].status != "open" || rows[i].orderType != "imported" { return false; }
          rows := rows[i := rows[i].(status := "cancelled")];
          return true;
        }
      }
      ok := false;
    }

    /** One token's turn. */
    method RepairToken(ghost was: seq<Bet>, ghost positions: seq<Position>, ghost done: set<string>, token: string,
                       imports: seq<Bet>, trackers: seq<Bet>, size: real) returns (ok: bool)
      requires rows == RepairedFor(was, positions, done) && token !in done
      requires imports == ImportsOf(was, token) && trackers == TrackersOf(was, token) && size == LiveSize(positions, token)
      modifies this
      ensures rows == RepairedFor(was, positions, done + {token})
      ensures |CancelledFor(was, positions, done + {token})| == |CancelledFor(was, positions, done)| + (if ok then 1 else 0)
    {
      hide Shadow, Tracker, TrackersOf, ImportsOf, Cancelled, RepairedFor, CancelledFor, FirstWithId, Asks, TokenShadowed, LiveSize;
      var id := CheckToken(was, positions, token, imports, trackers, size);
      if id.None? {
        SkipStep(was, positions, done, token);
        return false;
      }
      SameIds(was, positions, done, id.value);
      CancelStep(was, positions, done, token, id.value);
      ok := CancelBet(id.value);
    }

    /** One token's turn, its rows looked up. */
    method RepairGrouped(ghost was: seq<Bet>, ghost positions: seq<Position>, ghost done: set<string>, token: string,
                         imports: map<string, seq<Bet>>, trackers: map<string, seq<Bet>>, sizes: map<string, real>) returns (ok: bool)
      requires rows == RepairedFor(was, positions, done) && token in imports && token !in done
      requires ImportsGrouped(was, imports) && TrackersGrouped(was, trackers)
      requires (if token in sizes then sizes[token] else 0.0) == LiveSize(positions, token)
      modifies this
      ensures rows == RepairedFor(was, positions, done + {token})
      ensures |CancelledFor(was, positions, done + {token})| == |CancelledFor(was, positions, done)| + (if ok then 1 else 0)
    {
      hide ImportsGrouped, TrackersGrouped, RepairedFor, CancelledFor, LiveSize, ImportsOf, TrackersOf;
      var mine := if token in trackers then trackers[token] else [];
      GroupsAt(was, imports, trackers, token);
      ok := RepairToken(was, positions, done, token, imports[token], mine, if token in sizes then sizes[token] else 0.0);
    }

    /** `_repair_tracker_shadow_imports`: exactly the rows a shadow's number finds are cancelled, and counted. */
    method Repair(positions: seq<Position>) returns (repaired: nat)
      modifies this
      ensures rows == Repaired(old(rows), positions)
      ensures repaired == |CancelledRows(old(rows), positions)|
    {
      hide Shadow, Import, Tracker, TrackersOf, ImportsOf, Cancelled, RepairedFor, CancelledFor, FirstWithId, TokenShadowed,
        Repaired, CancelledRows, LiveSize, ImportsGrouped, TrackersGrouped, Asks, Cancellable, CancelledAmong, Confirmed, Tag, Earlier;
      ghost var was := rows;
      var sizes := LiveSizes(positions);
      var imports, trackers := GroupRows(rows);
      repaired := 0;
      ghost var done: set<string> := {};
      var left := imports.Keys;
      NoneDone(was, positions);
      while left != {}
        invariant done + left == imports.Keys && done !! left
        invariant rows == RepairedFor(was, positions, done)
        invariant repaired == |CancelledFor(was, positions, done)|
        decreases |left|
      {
        var token :| token in left;
        left := left - {token};
        var ok := RepairGrouped(was, positions, done, token, imports, trackers, sizes);
        if ok { repaired := repaired + 1; }
        done := done + {token};
      }
      assert done == imports.Keys;
      AllDone(was, positions, imports);
    }
  }

  /** The id to cancel for one token, if its import is a shadow. */
  method CheckToken(ghost rows: seq<Bet>, ghost positions: seq<Position>, token: string, imports: seq<Bet>, trackers: seq<Bet>, size: real)
    returns (id: Option<int>)
    requires imports == ImportsOf(rows, token) && trackers == TrackersOf(rows, token) && size == LiveSize(positions, token)
    ensures id.Some? ==> Asks(rows, positions, token, id.value)
    ensures id.None? ==> !TokenShadowed(rows, positions, token)
  {
    hide Tracker, ImportsOf, TrackersOf, Confirmed, Tag, Earlier, LiveSize, ParsedId;
    AllTrackers(rows, token);
    var shadow := IsShadow(imports, trackers, size);
    id := if shadow then ParsedId(imports[0].id) else None;
  }

  ghost predicate ImportsGrouped(rows: seq<Bet>, groups: map<string, seq<Bet>>) {
    forall t :: (t in groups <==> ImportsOf(rows, t) != []) && (t in groups ==> groups[t] == ImportsOf(rows, t))
  }

  ghost predicate TrackersGrouped(rows: seq<Bet>, groups: map<string, seq<Bet>>) {
    forall t :: (t in groups <==> TrackersOf(rows, t) != []) && (t in groups ==> groups[t] == TrackersOf(rows, t))
  }

  function Grow(groups: map<string, seq<Bet>>, b: Bet): map<string, seq<Bet>> {
    groups[b.token := (if b.token in groups then groups[b.token] else []) + [b]]
  }

  lemma OneMoreImport(rows: seq<Bet>, i: nat, groups: map<string, seq<Bet>>)
    requires i < |rows| && ImportsGrouped(rows[..i], groups)
    ensures ImportsGrouped(rows[..i + 1], if Import(rows[i]) then Grow(groups, rows[i]) else groups)
  {
    hide Import;
    assert rows[..i + 1][..i] == rows[..i];
  }

  lemma OneMoreTracker(rows: seq<Bet>, i: nat, groups: map<string, seq<Bet>>)
    requires i < |rows| && TrackersGrouped(rows[..i], groups)
    ensures TrackersGrouped(rows[..i + 1], if Tracker(rows[i]) then Grow(groups, rows[i]) else groups)
  {
    hide Tracker;
    assert rows[..i + 1][..i] == rows[..i];
  }

  method GroupRows(rows: seq<Bet>) returns (imports: map<string, seq<Bet>>, trackers: map<string, seq<Bet>>)
    ensures ImportsGrouped(rows, imports) && TrackersGrouped(rows, trackers)
  {
    hide Import, Tracker, ImportsGrouped, TrackersGrouped;
    imports, trackers := map[], map[];
    NoGroups();
    for i := 0 to |rows|
      invariant ImportsGrouped(rows[..i], imports) && TrackersGrouped(rows[..i], trackers)
    {
      OneMoreImport(rows, i, imports);
      OneMoreTracker(rows, i, trackers);
      ImportIsNoTracker(rows[i]);
      if Import(rows[i]) {
        imports := Grow(imports, rows[i]);
      } else if Tracker(rows[i]) {
        trackers := Grow(trackers, rows[i]);
      }
    }
    assert rows[..|rows|] == rows;
  }

  lemma NoGroups()
    ensures ImportsGrouped([], map[]) && TrackersGrouped([], map[])
  {
  }

  lemma ImportIsOpen(b: Bet)
    requires Import(b)
    ensures b.status == "open" && b.single && b.token != ""
  {
  }

  lemma ImportIsNoTracker(b: Bet)
    ensures !(Import(b) && Tracker(b))
  {
  }

  ghost function CancelledRows(rows: seq<Bet>, positions: seq<Position>): set<nat> {
    set i: nat | i < |rows| && Cancelled(rows, positions, i)
  }

  /** Row i is cancelled on behalf of one of the tokens in `done`. */
  ghost predicate CancelledAmong(rows: seq<Bet>, positions: seq<Position>, done: set<string>, i: nat) {
    exists token :: token in done && CancelledBy(rows, positions, i, token)
  }

  /** The repair of the tokens in `done`. */
  ghost function RepairedFor(rows: seq<Bet>, positions: seq<Position>, done: set<string>): seq<Bet> {
    seq(|rows|, i requires 0 <= i < |rows| =>
      if CancelledAmong(rows, positions, done, i) then rows[i].(status := "cancelled") else rows[i])
  }

  ghost function CancelledFor(rows: seq<Bet>, positions: seq<Position>, done: set<string>): set<nat> {
    set i: nat | i < |rows| && CancelledAmong(rows, positions, done, i)
  }

  lemma {:induction false} ImportsIn(rows: seq<Bet>, token: string, b: Bet)
    ensures b in ImportsOf(rows, token) <==> b in rows && Import(b) && b.token == token
  {
    hide Import;
    if rows != [] {
      ImportsIn(rows[..|rows| - 1], token, b);
      assert rows == rows[..|rows| - 1] + [rows[|rows| - 1]];
    }
  }

  lemma {:induction false} TrackersIn(rows: seq<Bet>, token: string, b: Bet)
    ensures b in TrackersOf(rows, token) <==> b in rows && Tracker(b) && b.token == token
  {
    hide Tracker;
    if rows != [] {
      TrackersIn(rows[..|rows| - 1], token, b);
      assert rows == rows[..|rows| - 1] + [rows[|rows| - 1]];
    }
  }

  lemma AllTrackers(rows: seq<Bet>, token: string)
    ensures forall k | 0 <= k < |TrackersOf(rows, token)| :: Tracker(TrackersOf(rows, token)[k])
  {
    hide Tracker, TrackersOf;
    forall k | 0 <= k < |TrackersOf(rows, token)| ensures Tracker(TrackersOf(rows, token)[k]) {
      TrackersIn(rows, token, TrackersOf(rows, token)[k]);
    }
  }

  /** Two imports of a token are two of its imports. */
  lemma {:induction false} TwoImports(rows: seq<Bet>, token: string, i: nat, j: nat)
    requires i < j < |rows| && Import(rows[i]) && Import(rows[j]) && rows[i].token == token == rows[j].token
    ensures |ImportsOf(rows, token)| >= 2
  {
    hide Import;
    var n := |rows| - 1;
    if j < n {
      TwoImports(rows[..n], token, i, j);
    } else {
      ImportsIn(rows[..n], token, rows[i]);
      assert rows[..n][i] == rows[i];
    }
  }

  lemma OnlyImport(rows: seq<Bet>, token: string) returns (i: nat)
    requires |ImportsOf(rows, token)| == 1
    ensures i < |rows| && rows[i] == ImportsOf(rows, token)[0] && Import(rows[i]) && rows[i].token == token
    ensures forall j: nat | j < |rows| && Import(rows[j]) && rows[j].token == token :: j == i
  {
    hide Import, ImportsOf;
    var b := ImportsOf(rows, token)[0];
    ImportsIn(rows, token, b);
    i :| 0 <= i < |rows| && rows[i] == b;
    forall j: nat | j < |rows| && Import(rows[j]) && rows[j].token == token ensures j == i {
      if j < i { TwoImports(rows, token, j, i); } else if i < j { TwoImports(rows, token, i, j); }
    }
  }

  lemma NoneDone(rows: seq<Bet>, positions: seq<Position>)
    ensures RepairedFor(rows, positions, {}) == rows && CancelledFor(rows, positions, {}) == {}
  {
  }

  lemma SameIds(rows: seq<Bet>, positions: seq<Position>, done: set<string>, v: int)
    ensures forall i :: FirstWithId(RepairedFor(rows, positions, done), v, i) <==> FirstWithId(rows, v, i)
  {
    hide CancelledAmong;
    var now := RepairedFor(rows, positions, done);
    assert forall j | 0 <= j < |rows| :: NumberedAs(now[j], v) == NumberedAs(rows[j], v);
  }

  /** One token more: the row its number finds is cancelled too, unless it already was. */
  lemma CancelStep(rows: seq<Bet>, positions: seq<Position>, done: set<string>, token: string, v: int)
    requires Asks(rows, positions, token, v)
    ensures var now, next := RepairedFor(rows, positions, done), RepairedFor(rows, positions, done + {token});
            && |now| == |rows|
            && (forall i | 0 <= i < |rows| && FirstWithId(rows, v, i) ::
                  var more := now[i].status == "open" && now[i].orderType == "imported";
                  && next == (if more then now[i := now[i].(status := "cancelled")] else now)
                  && |CancelledFor(rows, positions, done + {token})| == |CancelledFor(rows, positions, done)| + (if more then 1 else 0))
            && ((forall i | 0 <= i < |rows| :: !FirstWithId(rows, v, i)) ==>
                  next == now && CancelledFor(rows, positions, done + {token}) == CancelledFor(rows, positions, done))
  {
    hide Asks, CancelledAmong, FirstWithId;
    forall k: nat | k < |rows|
      ensures CancelledAmong(rows, positions, done + {token}, k)
              <==> CancelledAmong(rows, positions, done, k) || (Cancellable(rows, k) && FirstWithId(rows, v, k))
      ensures CancelledAmong(rows, positions, done, k) ==> Cancellable(rows, k)
    {
      AmongMore(rows, positions, done, token, v, k);
    }
    forall i: nat | i < |rows| && FirstWithId(rows, v, i)
      ensures var now, next := RepairedFor(rows, positions, done), RepairedFor(rows, positions, done + {token});
              var more := now[i].status == "open" && now[i].orderType == "imported";
              && next == (if more then now[i := now[i].(status := "cancelled")] else now)
              && |CancelledFor(rows, positions, done + {token})| == |CancelledFor(rows, positions, done)| + (if more then 1 else 0)
    {
      FirstIsOne(rows, v, i);
      OneMoreCancelled(rows, positions, done, done + {token}, i);
    }
  }

  /** At most row i joins the cancelled ones, if it can be cancelled at all. */
  lemma OneMoreCancelled(rows: seq<Bet>, positions: seq<Position>, done: set<string>, done': set<string>, i: nat)
    requires i < |rows| && (Cancellable(rows, i) <==> rows[i].status == "open" && rows[i].orderType == "imported")
    requires forall k: nat | k < |rows| :: CancelledAmong(rows, positions, done', k)
                                           <==> CancelledAmong(rows, positions, done, k) || (k == i && Cancellable(rows, i))
    requires CancelledAmong(rows, positions, done, i) ==> Cancellable(rows, i)
    ensures var now, next := RepairedFor(rows, positions, done), RepairedFor(rows, positions, done');
            var more := now[i].status == "open" && now[i].orderType == "imported";
            && next == (if more then now[i := now[i].(status := "cancelled")] else now)
            && |CancelledFor(rows, positions, done')| == |CancelledFor(rows, positions, done)| + (if more then 1 else 0)
  {
    hide CancelledAmong, Cancellable;
    var before, after := CancelledFor(rows, positions, done), CancelledFor(rows, positions, done');
    if Cancellable(rows, i) && !CancelledAmong(rows, positions, done, i) {
      assert after == before + {i};
    } else {
      assert after == before;
    }
  }

  lemma AmongMore(rows: seq<Bet>, positions: seq<Position>, done: set<string>, token: string, v: int, k: nat)
    requires Asks(rows, positions, token, v) && k < |rows|
    ensures CancelledAmong(rows, positions, done + {token}, k)
            <==> CancelledAmong(rows, positions, done, k) || (Cancellable(rows, k) && FirstWithId(rows, v, k))
    ensures CancelledAmong(rows, positions, done, k) ==> Cancellable(rows, k)
  {
    hide TokenShadowed, ImportsOf, ParsedId;
    if Cancellable(rows, k) && FirstWithId(rows, v, k) {
      assert token in done + {token} && CancelledBy(rows, positions, k, token);
    }
  }

  lemma FirstIsOne(rows: seq<Bet>, v: int, i: nat)
    requires i < |rows| && FirstWithId(rows, v, i)
    ensures forall k | 0 <= k < |rows| && FirstWithId(rows, v, k) :: k == i
    ensures Cancellable(rows, i) <==> rows[i].status == "open" && rows[i].orderType == "imported"
  {
  }

  lemma SkipStep(rows: seq<Bet>, positions: seq<Position>, done: set<string>, token: string)
    requires !TokenShadowed(rows, positions, token)
    ensures RepairedFor(rows, positions, done + {token}) == RepairedFor(rows, positions, done)
    ensures CancelledFor(rows, positions, done + {token}) == CancelledFor(rows, positions, done)
  {
    hide CancelledAmong;
    forall i: nat ensures CancelledAmong(rows, positions, done + {token}, i) <==> CancelledAmong(rows, positions, done, i) {
      SkipAmong(rows, positions, done, token, i);
    }
  }

  lemma SkipAmong(rows: seq<Bet>, positions: seq<Position>, done: set<string>, token: string, i: nat)
    requires !TokenShadowed(rows, positions, token)
    ensures CancelledAmong(rows, positions, done + {token}, i) <==> CancelledAmong(rows, positions, done, i)
  {
    hide TokenShadowed, ImportsOf, Cancellable;
  }

  lemma AllDone(rows: seq<Bet>, positions: seq<Position>, imports: map<string, seq<Bet>>)
    requires ImportsGrouped(rows, imports)
    ensures RepairedFor(rows, positions, imports.Keys) == Repaired(rows, positions)
    ensures CancelledFor(rows, positions, imports.Keys) == CancelledRows(rows, positions)
  {
    hide CancelledAmong, Cancelled;
    forall i: nat ensures CancelledAmong(rows, positions, imports.Keys, i) <==> Cancelled(rows, positions, i) {
      AmongAll(rows, positions, imports, i);
    }
  }

  lemma AmongAll(rows: seq<Bet>, positions: seq<Position>, imports: map<string, seq<Bet>>, i: nat)
    requires ImportsGrouped(rows, imports)
    ensures CancelledAmong(rows, positions, imports.Keys, i) <==> Cancelled(rows, positions, i)
  {
    hide ImportsOf, TrackersOf, LiveSize, Cancellable;
    assert forall token | TokenShadowed(rows, positions, token) :: token in imports;
  }

  lemma GroupsAt(rows: seq<Bet>, imports: map<string, seq<Bet>>, trackers: map<string, seq<Bet>>, t: string)
    requires ImportsGrouped(rows, imports) && TrackersGrouped(rows, trackers)
    ensures t in imports ==> imports[t] == ImportsOf(rows, t)
    ensures (if t in trackers then trackers[t] else []) == TrackersOf(rows, t)
  {
  }

  // ---- what the repair leaves alone ----

  ghost predicate Tracked(rows: seq<Bet>, token: string) {
    exists i :: 0 <= i < |rows| && Open(rows[i]) && rows[i].token == token
  }

  lemma {:induction false} TrackersSame(a: seq<Bet>, b: seq<Bet>, token: string)
    requires |a| == |b| && forall i | 0 <= i < |a| :: a[i] == b[i] || (!Tracker(a[i]) && !Tracker(b[i]))
    ensures TrackersOf(a, token) == TrackersOf(b, token)
  {
    hide Tracker;
    if a != [] { TrackersSame(a[..|a| - 1], b[..|b| - 1], token); }
  }

  lemma CancelledIsClosed(b: Bet)
    ensures !Import(b.(status := "cancelled")) && !Tracker(b.(status := "cancelled")) && !Open(b.(status := "cancelled"))
  {
  }

  lemma RepairedLength(rows: seq<Bet>, positions: seq<Position>)
    ensures |Repaired(rows, positions)| == |rows|
  {
  }

  lemma RepairedAt(rows: seq<Bet>, positions: seq<Position>, i: nat)
    requires i < |rows|
    ensures Repaired(rows, positions)[i] == if Cancelled(rows, positions, i) then rows[i].(status := "cancelled") else rows[i]
  {
    hide Cancelled;
  }

  /** The repair never touches a tracker's row, whatever the ids. */
  lemma RepairKeepsTrackers(rows: seq<Bet>, positions: seq<Position>, token: string)
    ensures TrackersOf(Repaired(rows, positions), token) == TrackersOf(rows, token)
  {
    hide Asks, Import, Tracker, Repaired, FirstWithId;
    var after := Repaired(rows, positions);
    RepairedLength(rows, positions);
    forall i: nat | i < |rows| ensures after[i] == rows[i] || (!Tracker(rows[i]) && !Tracker(after[i])) {
      RepairedAt(rows, positions, i);
      if Cancelled(rows, positions, i) {
        ImportedIsNoTracker(rows[i]);
        CancelledIsClosed(rows[i]);
      }
    }
    TrackersSame(rows, after, token);
  }

  lemma ImportedIsNoTracker(b: Bet)
    requires b.orderType == "imported"
    ensures !Tracker(b)
  {
    TagImported();
  }

  lemma TagImported()
    ensures Tag("imported") == "imported" && Tag("filled") == "filled" && Trim("") == ""
  {
    assert Lower("imported") == "imported" && Lower("filled") == "filled";
  }

  /** A shadowed token is tracked by an open, non-dry-run row of another trader, placed before the import. */
  lemma ShadowHasTracker(rows: seq<Bet>, positions: seq<Position>, token: string) returns (i: nat)
    requires TokenShadowed(rows, positions, token)
    ensures i < |rows| && Tracker(rows[i]) && rows[i].token == token
    ensures PlacedBefore(rows[i], ImportsOf(rows, token)[0].placedAt.value)
  {
    hide Tracker, Confirmed, ImportsOf, TrackersOf, ParsedId;
    var at := ImportsOf(rows, token)[0].placedAt.value;
    var trackers := TrackersOf(rows, token);
    var t := if Earlier(trackers, at, "M") != [] then "M" else "G";
    var b := EarlierIn(trackers, at, t);
    TrackersIn(rows, token, b);
    i :| 0 <= i < |rows| && rows[i] == b;
  }

  lemma {:induction false} EarlierIn(trackers: seq<Bet>, at: int, trader: string) returns (b: Bet)
    requires Earlier(trackers, at, trader) != []
    ensures b in trackers && PlacedBefore(b, at) && b.trader == trader
  {
    var n := |trackers| - 1;
    if Earlier(trackers[..n], at, trader) != [] { b := EarlierIn(trackers[..n], at, trader); } else { b := trackers[n]; }
  }

  lemma TrackerIsOpen(b: Bet)
    requires Tracker(b)
    ensures Open(b)
  {
  }

  /** For every token cancelled for, the trackers' earlier shares are within twice the tolerance of the wallet's. */
  lemma ShadowMatchesWallet(rows: seq<Bet>, positions: seq<Position>, token: string)
    requires TokenShadowed(rows, positions, token)
    ensures var at := ImportsOf(rows, token)[0].placedAt.value;
            var covered := SharesOf(Earlier(TrackersOf(rows, token), at, "M")) + SharesOf(Earlier(TrackersOf(rows, token), at, "G"));
            -2.0 * TOLERANCE <= covered - LiveSize(positions, token) <= 2.0 * TOLERANCE
  {
    hide Earlier, TrackersOf, ImportsOf, LiveSize, SharesOf, ParsedId;
  }

  /** A number asked for closes the first row that has it, whichever token that row is of. */
  lemma NumberClosesTheFirst(rows: seq<Bet>, positions: seq<Position>, token: string, v: int, i: nat)
    requires Asks(rows, positions, token, v) && i < |rows| && FirstWithId(rows, v, i)
    ensures Repaired(rows, positions)[i].status
            == if rows[i].status == "open" && rows[i].orderType == "imported" then "cancelled" else rows[i].status
  {
    hide Asks, Repaired;
    RepairedAt(rows, positions, i);
    FirstIsOne(rows, v, i);
    if Cancellable(rows, i) { assert CancelledBy(rows, positions, i, token); }
  }

  /** A row whose id is text is never cancelled, even as its token's shadow. */
  lemma TextIdStays(rows: seq<Bet>, positions: seq<Position>, i: nat)
    requires i < |rows| && rows[i].id.Text?
    ensures Repaired(rows, positions)[i] == rows[i]
  {
    RepairedAt(rows, positions, i);
  }

  // ---- which tokens stay tracked ----

  lemma TrackerStays(rows: seq<Bet>, positions: seq<Position>, k: nat)
    requires k < |rows| && Tracker(rows[k])
    ensures !Cancelled(rows, positions, k) && Open(rows[k])
  {
    hide Tracker, Asks, FirstWithId;
    TrackerIsOpen(rows[k]);
    if rows[k].orderType == "imported" { ImportedIsNoTracker(rows[k]); }
  }

  ghost predicate OpenOf(rows: seq<Bet>, token: string, i: nat) {
    i < |rows| && Open(rows[i]) && rows[i].token == token
  }

  lemma TrackedIsOpen(rows: seq<Bet>, token: string)
    ensures Tracked(rows, token) <==> exists i: nat :: OpenOf(rows, token, i)
  {
    hide Open;
    if Tracked(rows, token) {
      var i :| 0 <= i < |rows| && Open(rows[i]) && rows[i].token == token;
      assert OpenOf(rows, token, i);
    }
  }

  /** After a repair a token is tracked exactly by the open rows that are not cancelled. */
  lemma TrackedAfter(rows: seq<Bet>, positions: seq<Position>, token: string)
    ensures Tracked(Repaired(rows, positions), token) <==> exists i: nat :: OpenOf(rows, token, i) && !Cancelled(rows, positions, i)
  {
    hide Open, Repaired, Cancelled;
    var after := Repaired(rows, positions);
    RepairedLength(rows, positions);
    forall i: nat | i < |rows| ensures OpenOf(after, token, i) <==> OpenOf(rows, token, i) && !Cancelled(rows, positions, i) {
      RepairedAt(rows, positions, i);
      CancelledIsClosed(rows[i]);
    }
    if Tracked(after, token) {
      var i :| 0 <= i < |after| && Open(after[i]) && after[i].token == token;
      assert OpenOf(after, token, i);
    }
    if i: nat :| OpenOf(rows, token, i) && !Cancelled(rows, positions, i) { assert OpenOf(after, token, i); }
  }

  /** If an open row of the token is closed on another token's number, the repair leaves one more open. */
  ghost predicate Spared(rows: seq<Bet>, positions: seq<Position>, token: string) {
    (exists i: nat, other :: OpenOf(rows, token, i) && other != token && CancelledBy(rows, positions, i, other))
    ==> exists j: nat :: OpenOf(rows, token, j) && !Cancelled(rows, positions, j)
  }

  /** Exactly when the repair leaves a token tracked as it was: a token's own shadow always leaves its tracker, so
      only another token's number can take the last open row. */
  lemma RepairKeepsTrackedExactly(rows: seq<Bet>, positions: seq<Position>, token: string)
    ensures (Tracked(Repaired(rows, positions), token) <==> Tracked(rows, token)) <==> Spared(rows, positions, token)
  {
    hide Open, Repaired, CancelledBy, Tracker, TokenShadowed;
    TrackedAfter(rows, positions, token);
    if i: nat :| OpenOf(rows, token, i) {
      if Cancelled(rows, positions, i) {
        var other :| CancelledBy(rows, positions, i, other);
        if other == token { OwnShadowStays(rows, positions, i, token); }
      }
    }
    TrackedIsOpen(rows, token);
  }

  lemma OwnShadowStays(rows: seq<Bet>, positions: seq<Position>, i: nat, token: string)
    requires CancelledBy(rows, positions, i, token)
    ensures exists j: nat :: OpenOf(rows, token, j) && !Cancelled(rows, positions, j)
  {
    hide Tracker, TokenShadowed, Cancelled, Open, Cancellable;
    var k := ShadowHasTracker(rows, positions, token);
    TrackerStays(rows, positions, k);
    assert OpenOf(rows, token, k);
  }

  // ---- a second repair ----

  /** Row k is the one import of the token that the repair leaves. */
  ghost predicate OnlyLeft(rows: seq<Bet>, positions: seq<Position>, token: string, k: nat) {
    && k < |rows| && Import(rows[k]) && rows[k].token == token && !Cancelled(rows, positions, k)
    && forall j: nat | j < |rows| && j != k && Import(rows[j]) && rows[j].token == token :: Cancelled(rows, positions, j)
  }

  /** The repair closes all but one of the several imports of the token, which shows the last as a shadow, and
      the row that its number finds is still open: a second repair closes that too. */
  ghost predicate Unmasked(rows: seq<Bet>, positions: seq<Position>, token: string, k: nat, i: nat) {
    && |ImportsOf(rows, token)| >= 2 && OnlyLeft(rows, positions, token, k)
    && Shadow([rows[k]], TrackersOf(rows, token), LiveSize(positions, token))
    && Cancellable(rows, i) && ParsedId(rows[k].id) == Some(rows[i].id.value) && !Cancelled(rows, positions, i)
  }

  ghost predicate Settled(rows: seq<Bet>, positions: seq<Position>) {
    forall token, k: nat, i: nat :: !Unmasked(rows, positions, token, k, i)
  }

  lemma {:induction false} NoImports(rows: seq<Bet>, token: string)
    requires forall j | 0 <= j < |rows| && Import(rows[j]) :: rows[j].token != token
    ensures ImportsOf(rows, token) == []
  {
    hide Import;
    if rows != [] { NoImports(rows[..|rows| - 1], token); }
  }

  lemma {:induction false} OneImport(rows: seq<Bet>, token: string, k: nat)
    requires k < |rows| && Import(rows[k]) && rows[k].token == token
    requires forall j: nat | j < |rows| && j != k && Import(rows[j]) :: rows[j].token != token
    ensures ImportsOf(rows, token) == [rows[k]]
    decreases |rows|
  {
    hide Import;
    var n := |rows| - 1;
    if k < n { OneImport(rows[..n], token, k); } else { NoImports(rows[..n], token); }
  }

  /** One import is left exactly where the repaired ledger has one. */
  lemma LeftIsOnly(rows: seq<Bet>, positions: seq<Position>, token: string)
    ensures forall k: nat | OnlyLeft(rows, positions, token, k) :: ImportsOf(Repaired(rows, positions), token) == [rows[k]]
    ensures |ImportsOf(Repaired(rows, positions), token)| == 1 ==> exists k: nat :: OnlyLeft(rows, positions, token, k)
  {
    hide Import, Repaired, Cancelled, ImportsOf;
    var after := Repaired(rows, positions);
    RepairedLength(rows, positions);
    forall j: nat | j < |rows|
      ensures Import(after[j]) <==> Import(rows[j]) && !Cancelled(rows, positions, j)
      ensures after[j].token == rows[j].token && (!Cancelled(rows, positions, j) ==> after[j] == rows[j])
    {
      RepairedAt(rows, positions, j);
      CancelledIsClosed(rows[j]);
    }
    forall k: nat | OnlyLeft(rows, positions, token, k) ensures ImportsOf(after, token) == [rows[k]] { OneImport(after, token, k); }
    if |ImportsOf(after, token)| == 1 {
      var k := OnlyImport(after, token);
      assert OnlyLeft(rows, positions, token, k);
    }
  }

  lemma CancellableAfter(rows: seq<Bet>, positions: seq<Position>, i: nat)
    ensures Cancellable(Repaired(rows, positions), i) <==> Cancellable(rows, i) && !Cancelled(rows, positions, i)
  {
    hide Cancelled, Repaired;
    var after := Repaired(rows, positions);
    RepairedLength(rows, positions);
    forall j: nat | j < |rows| ensures after[j] == if Cancelled(rows, positions, j) then rows[j].(status := "cancelled") else rows[j] {
      RepairedAt(rows, positions, j);
    }
    assert forall v: int, j | 0 <= j < |rows| :: NumberedAs(after[j], v) == NumberedAs(rows[j], v);
    assert forall v: int :: FirstWithId(after, v, i) == FirstWithId(rows, v, i);
  }

  /** A row that a second repair closes: its token had several imports, of which the first left one. */
  lemma SecondCloses(rows: seq<Bet>, positions: seq<Position>, i: nat, token: string) returns (k: nat)
    requires CancelledBy(Repaired(rows, positions), positions, i, token)
    ensures Unmasked(rows, positions, token, k, i)
  {
    hide Import, Repaired, Cancelled, ImportsOf, TrackersOf, LiveSize, Cancellable, Shadow, ParsedId;
    var after := Repaired(rows, positions);
    RepairKeepsTrackers(rows, positions, token);
    CancellableAfter(rows, positions, i);
    ShadowIsOne(after, positions, token);
    LeftIsOnly(rows, positions, token);
    k :| OnlyLeft(rows, positions, token, k);
    InRange(rows, i);
    SameId(rows, positions, i);
    ImportsIn(rows, token, rows[k]);
    if |ImportsOf(rows, token)| < 2 {
      assert ImportsOf(rows, token) == [rows[k]];
      assert CancelledBy(rows, positions, i, token);
      ByIsCancelled(rows, positions, i, token);
    }
  }

  lemma ByIsCancelled(rows: seq<Bet>, positions: seq<Position>, i: nat, token: string)
    ensures CancelledBy(rows, positions, i, token) ==> Cancelled(rows, positions, i)
  {
    hide CancelledBy;
  }

  lemma ShadowIsOne(rows: seq<Bet>, positions: seq<Position>, token: string)
    ensures TokenShadowed(rows, positions, token) ==> |ImportsOf(rows, token)| == 1
  {
    hide ImportsOf, TrackersOf, LiveSize, ParsedId;
  }

  lemma SameId(rows: seq<Bet>, positions: seq<Position>, i: nat)
    requires i < |rows|
    ensures i < |Repaired(rows, positions)| && Repaired(rows, positions)[i].id == rows[i].id
  {
    hide Cancelled;
  }

  lemma UnmaskedCloses(rows: seq<Bet>, positions: seq<Position>, token: string, k: nat, i: nat)
    requires Unmasked(rows, positions, token, k, i)
    ensures CancelledBy(Repaired(rows, positions), positions, i, token)
  {
    hide Import, Repaired, Cancelled, ImportsOf, TrackersOf, LiveSize, Cancellable, Shadow, ParsedId;
    RepairKeepsTrackers(rows, positions, token);
    CancellableAfter(rows, positions, i);
    LeftIsOnly(rows, positions, token);
    InRange(rows, i);
    SameId(rows, positions, i);
  }

  lemma InRange(rows: seq<Bet>, i: nat)
    ensures Cancellable(rows, i) ==> i < |rows| && rows[i].id.Number? && rows[i].status == "open"
  {
  }

  /** Exactly when a second repair over the same wallet changes nothing: no token has several imports of which the
      first leaves one that is then a shadow whose number finds a row still open. */
  lemma RepairSettlesExactly(rows: seq<Bet>, positions: seq<Position>)
    ensures Repaired(Repaired(rows, positions), positions) == Repaired(rows, positions) <==> Settled(rows, positions)
  {
    hide Unmasked, Repaired, CancelledBy;
    var after := Repaired(rows, positions);
    RepairedLength(after, positions);
    forall i: nat | i < |after| && Cancelled(after, positions, i) ensures !Settled(rows, positions) {
      var token :| CancelledBy(after, positions, i, token);
      var k := SecondCloses(rows, positions, i, token);
    }
    forall token, k: nat, i: nat | Unmasked(rows, positions, token, k, i)
      ensures i < |after| && Repaired(after, positions)[i] != after[i]
    {
      UnmaskedCloses(rows, positions, token, k, i);
      ClosedByDiffers(after, positions, i, token);
    }
    forall i: nat | i < |after| ensures Repaired(after, positions)[i] == if Cancelled(after, positions, i) then after[i].(status := "cancelled") else after[i] {
      RepairedAt(after, positions, i);
    }
  }

  lemma ClosedByDiffers(rows: seq<Bet>, positions: seq<Position>, i: nat, token: string)
    requires CancelledBy(rows, positions, i, token)
    ensures i < |rows| && |Repaired(rows, positions)| == |rows| && Repaired(rows, positions)[i] != rows[i]
  {
    hide Asks, FirstWithId;
    RepairedAt(rows, positions, i);
  }

  // ---- ledgers whose ids are their own ----

  /** No two rows of the S ledger have ids that read as the same number; any number of rows may have none. */
  ghost predicate UniqueIds(rows: seq<Bet>) {
    forall i, j | 0 <= i < j < |rows| && rows[i].single && rows[j].single && ParsedId(rows[i].id).Some? ::
      ParsedId(rows[i].id) != ParsedId(rows[j].id)
  }

  /** Row i is its token's shadow, numbered, and the ledger spells its type as `cancel_bet` expects. */
  ghost predicate Shadowing(rows: seq<Bet>, positions: seq<Position>, i: nat) {
    && i < |rows| && Import(rows[i]) && rows[i].orderType == "imported" && rows[i].id.Number?
    && TokenShadowed(rows, positions, rows[i].token)
  }

  /** With ids of their own, exactly the shadows are cancelled: each is the row its number finds. */
  lemma ShadowsAreCancelled(rows: seq<Bet>, positions: seq<Position>, i: nat)
    requires UniqueIds(rows)
    ensures Cancelled(rows, positions, i) <==> Shadowing(rows, positions, i)
  {
    hide Import, ImportsOf, TrackersOf, LiveSize;
    if Cancelled(rows, positions, i) {
      var token :| CancelledBy(rows, positions, i, token);
      var m := OnlyImport(rows, token);
      ImportIsOpen(rows[m]);
      assert ParsedId(rows[i].id) == ParsedId(rows[m].id);
    }
    if Shadowing(rows, positions, i) {
      var m := OnlyImport(rows, rows[i].token);
      ImportIsOpen(rows[i]);
      OwnNumber(rows, i);
      assert CancelledBy(rows, positions, i, rows[i].token);
    }
  }

  lemma OwnNumber(rows: seq<Bet>, i: nat)
    requires UniqueIds(rows) && i < |rows| && rows[i].single && rows[i].id.Number? && rows[i].id.value > 0
    ensures FirstWithId(rows, rows[i].id.value, i)
  {
    var v := rows[i].id.value;
    assert forall j | 0 <= j < i :: NumberedAs(rows[j], v) ==> ParsedId(rows[j].id) == Some(v);
  }

  lemma RepairKeepsIds(rows: seq<Bet>, positions: seq<Position>)
    requires UniqueIds(rows)
    ensures UniqueIds(Repaired(rows, positions))
  {
    hide Cancelled, ParsedId;
    var after := Repaired(rows, positions);
    assert forall i | 0 <= i < |rows| :: after[i].id == rows[i].id && after[i].single == rows[i].single;
  }

  /** Which tokens are tracked is then not changed by the repair, so what it cancels cannot come back as untracked. */
  lemma RepairKeepsTracked(rows: seq<Bet>, positions: seq<Position>, token: string)
    requires UniqueIds(rows)
    ensures Tracked(Repaired(rows, positions), token) <==> Tracked(rows, token)
  {
    hide UniqueIds, Repaired, Asks, Open, Cancellable, Import, TokenShadowed;
    RepairKeepsTrackedExactly(rows, positions, token);
    forall i: nat, other | OpenOf(rows, token, i) && CancelledBy(rows, positions, i, other) ensures other == token {
      OwnNumbersOnly(rows, positions, i, other);
    }
  }

  /** With ids of their own a row is cancelled on its own token's behalf only. */
  lemma OwnNumbersOnly(rows: seq<Bet>, positions: seq<Position>, i: nat, token: string)
    requires UniqueIds(rows) && CancelledBy(rows, positions, i, token)
    ensures rows[i].token == token
  {
    hide Import, ImportsOf, TrackersOf, LiveSize;
    var m := OnlyImport(rows, token);
    ImportIsOpen(rows[m]);
    assert ParsedId(rows[i].id) == ParsedId(rows[m].id);
  }

  /** And a second repair over the same wallet changes nothing. */
  lemma RepairSettles(rows: seq<Bet>, positions: seq<Position>)
    requires UniqueIds(rows)
    ensures Settled(rows, positions) && Repaired(Repaired(rows, positions), positions) == Repaired(rows, positions)
  {
    hide UniqueIds, Unmasked, Repaired;
    RepairSettlesExactly(rows, positions);
    forall token, k: nat, i: nat ensures !Unmasked(rows, positions, token, k, i) {
      UniqueIsSettled(rows, positions, token, k, i);
    }
  }

  lemma UniqueIsSettled(rows: seq<Bet>, positions: seq<Position>, token: string, k: nat, i: nat)
    requires UniqueIds(rows)
    ensures !Unmasked(rows, positions, token, k, i)
  {
    hide Import, ImportsOf, TrackersOf, LiveSize, Shadow, UniqueIds, Cancelled, ParsedId, Cancellable;
    if Unmasked(rows, positions, token, k, i) {
      if j: nat :| j < |rows| && j != k && Import(rows[j]) && rows[j].token == token {
        ShadowsAreCancelled(rows, positions, j);
        ShadowIsOne(rows, positions, token);
      } else {
        OneImport(rows, token, k);
      }
    }
  }

  // ---- ledgers with a doubled id ----

  function SampleBet(trader: string, id: int, token: string, orderType: string, placement: string, at: int): Bet {
    Bet(trader, trader == "S", Number(id), token, "open", true, orderType, placement, "", 10.0, 0.0, 0.0, Some(at))
  }

  function SampleImport(id: int, token: string): Bet {
    SampleBet("S", id, token, "imported", "filled", 2)
  }

  function SampleTracker(token: string): Bet {
    SampleBet("M", 1, token, "market", "filled", 1)
  }

  lemma SampleBets(id: int, token: string)
    requires token != ""
    ensures Import(SampleImport(id, token)) && !Tracker(SampleImport(id, token))
    ensures !Import(SampleBet("S", id, token, "imported", "resting", 1))
    ensures var m := SampleTracker(token); Tracker(m) && Confirmed(m) == 10.0 && !Import(m)
  {
    hide Tag, Trim;
    TagImported();
    TagOthers();
  }

  lemma TagOthers()
    ensures Tag("resting") == "resting" && Tag("market") == "market"
  {
    assert Lower("resting") == "resting" && Lower("market") == "market";
    assert Trim("resting") == "resting" && Trim("market") == "market";
    assert "resting"[0] == 'r';
  }

  /** With an id doubled, the repair of one token can close the only open row of another. */
  lemma DoubledIdUntracks(rows: seq<Bet>, positions: seq<Position>, token: string, v: int, i: nat)
    requires Asks(rows, positions, token, v) && i < |rows| && FirstWithId(rows, v, i)
    requires Open(rows[i]) && rows[i].orderType == "imported"
    requires forall j | 0 <= j < |rows| && j != i && Open(rows[j]) :: rows[j].token != rows[i].token
    ensures Tracked(rows, rows[i].token) && !Tracked(Repaired(rows, positions), rows[i].token)
  {
    hide Asks, Repaired, Open;
    TrackedAfter(rows, positions, rows[i].token);
    FirstIsOne(rows, v, i);
    OpenIsOpen(rows[i]);
    assert CancelledBy(rows, positions, i, token);
  }

  lemma OpenIsOpen(b: Bet)
    ensures Open(b) ==> b.status == "open"
  {
  }

  lemma TwoRows(b: Bet, shadow: Bet, m: Bet)
    requires b.token != "A" && shadow.token == "A" == m.token
    requires Import(shadow) && !Tracker(shadow) && Tracker(m) && !Import(m)
    ensures ImportsOf([b, shadow, m], "A") == [shadow] && TrackersOf([b, shadow, m], "A") == [m]
  {
    hide Import, Tracker;
    assert [b, shadow, m][..2] == [b, shadow] && [b, shadow][..1] == [b] && [b][..0] == [];
    assert ImportsOf([], "A") == [] && TrackersOf([], "A") == [];
    assert ImportsOf([b], "A") == [] && TrackersOf([b], "A") == [];
    assert ImportsOf([b, shadow], "A") == [shadow] && TrackersOf([b, shadow], "A") == [];
  }

  lemma SizeOfOne(p: Position)
    requires p.token != "" && p.size > 0.0
    ensures LiveSize([p], p.token) == p.size
  {
    assert [p][..0] == [];
  }

  lemma EarlierOfOne(m: Bet, at: int)
    requires PlacedBefore(m, at)
    ensures forall t :: Earlier([m], at, t) == if m.trader == t then [m] else []
  {
    assert [m][..0] == [];
  }

  lemma TenShares(id: int, token: string)
    requires token != "" && id > 0 && Confirmed(SampleTracker(token)) == 10.0
    ensures Shadow([SampleImport(id, token)], [SampleTracker(token)], 10.0)
  {
    hide Confirmed, Earlier;
    EarlierOfOne(SampleTracker(token), 2);
  }

  /** Such ledgers exist. */
  lemma DoubledIdExists()
    ensures var rows := [SampleBet("S", 5, "B", "imported", "resting", 1), SampleImport(5, "A"), SampleTracker("A")];
            Tracked(rows, "B") && !Tracked(Repaired(rows, [Position("A", 10.0)]), "B")
  {
    hide Import, Tracker, Confirmed, Repaired, ImportsOf, TrackersOf, Cancelled, Shadow, LiveSize, Tracked;
    var other, shadow, m := SampleBet("S", 5, "B", "imported", "resting", 1), SampleImport(5, "A"), SampleTracker("A");
    var rows, positions := [other, shadow, m], [Position("A", 10.0)];
    SampleBets(5, "A");
    SampleBets(5, "B");
    TwoRows(other, shadow, m);
    TenShares(5, "A");
    SizeOfOne(Position("A", 10.0));
    DoubledIdUntracks(rows, positions, "A", 5, 0);
  }

  /** Two imports of B, the first with the id of A's shadow, and a tracker of each. */
  function MaskedRows(): seq<Bet> {
    [SampleImport(5, "B"), SampleImport(5, "A"), SampleTracker("A"), SampleImport(7, "B"), SampleTracker("B")]
  }

  function PickImport(b: Bet, token: string): seq<Bet> {
    if Import(b) && b.token == token then [b] else []
  }

  function PickTracker(b: Bet, token: string): seq<Bet> {
    if Tracker(b) && b.token == token then [b] else []
  }

  lemma LastOf(rows: seq<Bet>, b: Bet, token: string)
    ensures ImportsOf(rows + [b], token) == ImportsOf(rows, token) + PickImport(b, token)
    ensures TrackersOf(rows + [b], token) == TrackersOf(rows, token) + PickTracker(b, token)
  {
    hide Import, Tracker;
    assert (rows + [b])[..|rows|] == rows;
  }

  lemma FiveRows(a: Bet, b: Bet, c: Bet, d: Bet, e: Bet, token: string)
    ensures ImportsOf([a, b, c, d, e], token)
            == PickImport(a, token) + PickImport(b, token) + PickImport(c, token) + PickImport(d, token) + PickImport(e, token)
    ensures TrackersOf([a, b, c, d, e], token)
            == PickTracker(a, token) + PickTracker(b, token) + PickTracker(c, token) + PickTracker(d, token) + PickTracker(e, token)
  {
    hide ImportsOf, TrackersOf, PickImport, PickTracker;
    NoneOf(token);
    LastOf([], a, token);
    LastOf([a], b, token);
    LastOf([a, b], c, token);
    LastOf([a, b, c], d, token);
    LastOf([a, b, c, d], e, token);
    assert [] + [a] == [a] && [a] + [b] == [a, b] && [a, b] + [c] == [a, b, c] && [a, b, c] + [d] == [a, b, c, d];
    assert [a, b, c, d] + [e] == [a, b, c, d, e];
  }

  lemma NoneOf(token: string)
    ensures ImportsOf([], token) == [] && TrackersOf([], token) == []
  {
  }

  lemma MaskedGroups(token: string)
    ensures ImportsOf(MaskedRows(), token)
            == if token == "A" then [SampleImport(5, "A")] else if token == "B" then [SampleImport(5, "B"), SampleImport(7, "B")] else []
    ensures TrackersOf(MaskedRows(), token)
            == if token == "A" || token == "B" then [SampleTracker(token)] else []
  {
    hide Import, Tracker, ImportsOf, TrackersOf, Confirmed;
    SampleBets(5, "A");
    SampleBets(5, "B");
    SampleBets(7, "B");
    FiveRows(SampleImport(5, "B"), SampleImport(5, "A"), SampleTracker("A"), SampleImport(7, "B"), SampleTracker("B"), token);
  }

  const MASKED_WALLET := [Position("A", 10.0), Position("B", 10.0)]

  lemma MaskedSizes()
    ensures LiveSize(MASKED_WALLET, "A") == 10.0 == LiveSize(MASKED_WALLET, "B")
  {
    assert MASKED_WALLET[..1] == [Position("A", 10.0)] && [Position("A", 10.0)][..0] == [];
    SizeOfOne(Position("A", 10.0));
    assert LiveSize([], "B") == 0.0;
    assert LiveSize([Position("A", 10.0)], "B") == 0.0;
  }

  /** The first repair passes B over, which has two imports, and closes B's first on A's number. */
  lemma MaskedFirst()
    ensures var rows := MaskedRows(); Cancelled(rows, MASKED_WALLET, 0) && !Cancelled(rows, MASKED_WALLET, 3)
  {
    hide Import, Tracker, Confirmed, ImportsOf, TrackersOf, LiveSize, Shadow;
    var rows := MaskedRows();
    SampleBets(5, "A");
    MaskedGroups("A");
    MaskedSizes();
    TenShares(5, "A");
    assert CancelledBy(rows, MASKED_WALLET, 0, "A");
    forall token ensures !Asks(rows, MASKED_WALLET, token, 7) {
      MaskedGroups(token);
      ShadowIsOne(rows, MASKED_WALLET, token);
    }
  }

  /** Then B's other import is alone, and a second repair closes it: with an id doubled a repair may not settle. */
  lemma DoubledIdUnsettles()
    ensures var first := Repaired(MaskedRows(), MASKED_WALLET); Repaired(first, MASKED_WALLET) != first
  {
    hide Import, Tracker, Confirmed, ImportsOf, TrackersOf, LiveSize, Shadow, Cancelled, Repaired;
    var rows := MaskedRows();
    SampleBets(7, "B");
    SampleBets(5, "B");
    MaskedGroups("B");
    MaskedSizes();
    TenShares(7, "B");
    MaskedFirst();
    assert Unmasked(rows, MASKED_WALLET, "B", 3, 3);
    RepairSettlesExactly(rows, MASKED_WALLET);
  }
}

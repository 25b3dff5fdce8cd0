/** scripts/reconcile_positions.py: which rows the repair cancels, said of the rows' own fields. */
module ReconcileShadows {
  import opened Common
  import opened TextLaws
  import opened Reconcile

  // ---- ids ----

  /** Which ids the repair reads, and as what: positive numbers, and texts that are one in digits, blanks aside. */
  lemma ParsedExactly(id: RowId, v: int)
    ensures ParsedId(id) == Some(v)
            <==> v > 0 && (id == Number(v) || (id.Text? && Digits(Trim(id.text)) && Decimal(Trim(id.text)) == v))
  {
    hide Trim, Decimal;
  }

  lemma TextReadsAsPrinted(a: string, n: nat, b: string)
    requires Blank(a) && Blank(b) && n > 0
    ensures ParsedId(Text(a + Printed(n) + b)) == Some(n)
  {
    hide Trim, Decimal, Printed;
    PrintedReads(n);
    TrimIs(a, Printed(n), b);
  }

  // ---- a shadow, from the fields of the rows ----

  /** Row i is one of the token's imports. */
  ghost predicate ImportAt(rows: seq<Bet>, token: string, i: nat) {
    && i < |rows| && rows[i].token == token != "" && rows[i].status == "open" && rows[i].live && rows[i].single
    && Tag(rows[i].orderType) == "imported" && Tag(rows[i].placement) == "filled" && Trim(rows[i].orderId) == ""
  }

  /** A row that is no import is evidence of s shares: what was actually filled; failing that what the row calls
      filled; failing both its shares, but only of an order whose type or placement says that it was filled. */
  ghost predicate Amount(b: Bet, s: real) {
    && Tag(b.orderType) != "imported" && s > 0.0
    && (|| s == b.actualFilled
        || (b.actualFilled <= 0.0 && s == b.filled)
        || (b.actualFilled <= 0.0 && b.filled <= 0.0 && s == b.shares
            && (Tag(b.orderType) == "filled_limit" || Tag(b.placement) == "filled" || Tag(b.placement) == "matched")))
  }

  /** Row i is the trader's, open, placed before `at`, and evidence of s shares of the token. */
  ghost predicate CoverAt(rows: seq<Bet>, token: string, trader: string, at: int, i: nat, s: real) {
    && i < |rows| && rows[i].token == token != "" && rows[i].status == "open" && rows[i].live && rows[i].trader == trader
    && rows[i].placedAt.Some? && rows[i].placedAt.value < at && Amount(rows[i], s)
  }

  /** The trader has one such row, of s shares, or none, and s is nothing. */
  ghost predicate Covers(rows: seq<Bet>, token: string, trader: string, at: int, s: real) {
    if s == 0.0 then forall i, x :: !CoverAt(rows, token, trader, at, i, x)
    else exists i :: SoleCover(rows, token, trader, at, s, i)
  }

  ghost predicate SoleCover(rows: seq<Bet>, token: string, trader: string, at: int, s: real, i: nat) {
    CoverAt(rows, token, trader, at, i, s) && forall j, x | CoverAt(rows, token, trader, at, j, x) :: j == i
  }

  /** The wallet has s shares of the token: its largest position, or nothing. */
  ghost predicate WalletHas(positions: seq<Position>, token: string, s: real) {
    && (forall p | p in positions && p.token == token :: p.size <= s)
    && (s == 0.0 || (s > 0.0 && Position(token, s) in positions))
  }

  ghost predicate Covered(rows: seq<Bet>, token: string, at: int, shares: real) {
    exists m, g :: Together(rows, token, at, shares, m, g)
  }

  ghost predicate Together(rows: seq<Bet>, token: string, at: int, shares: real, m: real, g: real) {
    && Covers(rows, token, "M", at, m) && Covers(rows, token, "G", at, g) && m + g > 0.0
    && -0.020000001 <= m + g - shares <= 0.020000001
  }

  ghost predicate InWallet(positions: seq<Position>, token: string, shares: real) {
    exists w :: WalletHas(positions, token, w) && -0.020000001 <= w - shares <= 0.020000001
  }

  /** Row i is the token's only import, readable, in the wallet, and covered by what M and G held before it. */
  ghost predicate ShadowAt(rows: seq<Bet>, positions: seq<Position>, token: string, i: nat) {
    && ImportAt(rows, token, i) && (forall j | ImportAt(rows, token, j) :: j == i)
    && rows[i].placedAt.Some? && rows[i].shares > 0.0 && ParsedId(rows[i].id).Some?
    && InWallet(positions, token, rows[i].shares)
    && Covered(rows, token, rows[i].placedAt.value, rows[i].shares)
  }

  /** The two ways of saying how much a row is evidence of. */
  lemma AmountIsConfirmed(b: Bet)
    ensures forall s :: Amount(b, s) <==> s > 0.0 && Confirmed(b) == s
  {
    hide Tag;
  }

  predicate Covering(b: Bet, token: string, trader: string, at: int) {
    Tracker(b) && b.token == token && PlacedBefore(b, at) && b.trader == trader
  }

  lemma CoverIsCovering(rows: seq<Bet>, token: string, trader: string, at: int, i: nat)
    requires trader == "M" || trader == "G"
    ensures forall s :: CoverAt(rows, token, trader, at, i, s)
                        <==> i < |rows| && Covering(rows[i], token, trader, at) && s == Confirmed(rows[i])
  {
    hide Tag, Confirmed, Amount;
    if i < |rows| { AmountIsConfirmed(rows[i]); }
  }

  /** The trader's earlier rows, picked in one pass. */
  function CoverRows(rows: seq<Bet>, token: string, trader: string, at: int): seq<Bet> {
    if rows == [] then [] else
      var last := rows[|rows| - 1];
      CoverRows(rows[..|rows| - 1], token, trader, at) + if Covering(last, token, trader, at) then [last] else []
  }

  lemma OneMoreEarlier(trackers: seq<Bet>, b: Bet, at: int, trader: string)
    ensures Earlier(trackers + [b], at, trader)
            == Earlier(trackers, at, trader) + if PlacedBefore(b, at) && b.trader == trader then [b] else []
  {
    assert (trackers + [b])[..|trackers|] == trackers;
  }

  lemma {:induction false} EarlierInOnePass(rows: seq<Bet>, token: string, trader: string, at: int)
    ensures Earlier(TrackersOf(rows, token), at, trader) == CoverRows(rows, token, trader, at)
  {
    hide Tracker, Earlier;
    if rows == [] {
      assert Earlier([], at, trader) == [] by { NoneEarlier(at, trader); }
    } else {
      var front, last := rows[..|rows| - 1], rows[|rows| - 1];
      EarlierInOnePass(front, token, trader, at);
      var trackers := TrackersOf(front, token);
      if Tracker(last) && last.token == token {
        OneMoreEarlier(trackers, last, at, trader);
        assert TrackersOf(rows, token) == trackers + [last];
      } else {
        assert TrackersOf(rows, token) == trackers;
      }
    }
  }

  lemma NoneEarlier(at: int, trader: string)
    ensures Earlier([], at, trader) == []
  {
  }

  /** None, one or more of the rows are picked: which. */
  lemma {:induction false} Picked(rows: seq<Bet>, token: string, trader: string, at: int) returns (i: nat, j: nat)
    ensures var e := CoverRows(rows, token, trader, at);
            && (|e| >= 1 ==> i < |rows| && Covering(rows[i], token, trader, at))
            && (|e| == 1 ==> e[0] == rows[i] && forall k | 0 <= k < |rows| && Covering(rows[k], token, trader, at) :: k == i)
            && (|e| >= 2 ==> j < |rows| && j != i && Covering(rows[j], token, trader, at))
            && (|e| == 0 ==> forall k | 0 <= k < |rows| :: !Covering(rows[k], token, trader, at))
  {
    hide Covering;
    i, j := 0, 0;
    if rows != [] {
      var front, n := rows[..|rows| - 1], |rows| - 1;
      i, j := Picked(front, token, trader, at);
      assert forall k | 0 <= k < n :: front[k] == rows[k];
      if Covering(rows[n], token, trader, at) {
        if CoverRows(front, token, trader, at) == [] { i := n; } else { j := n; }
      }
    }
  }

  lemma CoversIs(rows: seq<Bet>, token: string, trader: string, at: int)
    requires trader == "M" || trader == "G"
    ensures var e := Earlier(TrackersOf(rows, token), at, trader);
            && (|e| == 1 ==> SharesOf(e) > 0.0) && (|e| == 0 ==> SharesOf(e) == 0.0)
            && forall s :: Covers(rows, token, trader, at, s) <==> |e| <= 1 && s == SharesOf(e)
  {
    hide Covering, CoverAt, Earlier, TrackersOf, Confirmed, CoverRows;
    EarlierInOnePass(rows, token, trader, at);
    var e := CoverRows(rows, token, trader, at);
    var i, j := Picked(rows, token, trader, at);
    forall k: nat, s: real
      ensures CoverAt(rows, token, trader, at, k, s)
              <==> k < |rows| && Covering(rows[k], token, trader, at) && s == Confirmed(rows[k])
    {
      CoverIsCovering(rows, token, trader, at, k);
    }
    forall k: nat, s: real | CoverAt(rows, token, trader, at, k, s) ensures s > 0.0 {
      CoveringIsPositive(rows[k], token, trader, at);
    }
    if |e| == 1 {
      CoveringIsPositive(rows[i], token, trader, at);
      assert SoleCover(rows, token, trader, at, Confirmed(rows[i]), i);
    }
    if |e| >= 1 { assert CoverAt(rows, token, trader, at, i, Confirmed(rows[i])); }
    if |e| >= 2 { assert CoverAt(rows, token, trader, at, j, Confirmed(rows[j])); }
  }

  lemma CoveringIsPositive(b: Bet, token: string, trader: string, at: int)
    requires Covering(b, token, trader, at)
    ensures Confirmed(b) > 0.0
  {
  }

  lemma {:induction false} WalletIs(positions: seq<Position>, token: string)
    requires token != ""
    ensures WalletHas(positions, token, LiveSize(positions, token))
  {
    if positions != [] {
      var front, last := positions[..|positions| - 1], positions[|positions| - 1];
      WalletIs(front, token);
      assert positions == front + [last];
    }
  }

  lemma WalletIsOne(positions: seq<Position>, token: string)
    requires token != ""
    ensures forall s :: WalletHas(positions, token, s) <==> s == LiveSize(positions, token)
  {
    hide LiveSize;
    WalletIs(positions, token);
  }

  lemma ImportAtIs(rows: seq<Bet>, token: string)
    ensures forall i: nat :: ImportAt(rows, token, i) <==> i < |rows| && Import(rows[i]) && rows[i].token == token
  {
    hide Tag, Trim;
  }

  lemma CoveredIs(rows: seq<Bet>, token: string, at: int, shares: real)
    ensures var m, g := Earlier(TrackersOf(rows, token), at, "M"), Earlier(TrackersOf(rows, token), at, "G");
            Covered(rows, token, at, shares) <==> |m| <= 1 && |g| <= 1 && |m| + |g| >= 1 && Close(SharesOf(m) + SharesOf(g), shares)
  {
    hide Covers, Earlier, TrackersOf, SharesOf;
    var m, g := Earlier(TrackersOf(rows, token), at, "M"), Earlier(TrackersOf(rows, token), at, "G");
    CoversIs(rows, token, "M", at);
    CoversIs(rows, token, "G", at);
    if |m| <= 1 && |g| <= 1 { assert Covered(rows, token, at, shares) <==> Together(rows, token, at, shares, SharesOf(m), SharesOf(g)); }
  }

  /** Exactly which import is a shadow, and so whose number is cancelled. */
  lemma ShadowedExactly(rows: seq<Bet>, positions: seq<Position>, token: string)
    ensures TokenShadowed(rows, positions, token) <==> exists i :: ShadowAt(rows, positions, token, i)
    ensures forall i: nat | ShadowAt(rows, positions, token, i) :: ImportsOf(rows, token) == [rows[i]]
  {
    hide Import, ImportsOf, TrackersOf, Earlier, ImportAt, LiveSize, SharesOf, ParsedId, WalletHas, Covered;
    ImportAtIs(rows, token);
    forall i: nat | ShadowAt(rows, positions, token, i) ensures ImportsOf(rows, token) == [rows[i]] && TokenShadowed(rows, positions, token) {
      OneImport(rows, token, i);
      ShadowOfOne(rows, positions, token, i);
    }
    if TokenShadowed(rows, positions, token) {
      ShadowIsOne(rows, positions, token);
      var i := OnlyImport(rows, token);
      assert ImportsOf(rows, token) == [rows[i]];
      ShadowOfOne(rows, positions, token, i);
    }
  }

  lemma ShadowOfOne(rows: seq<Bet>, positions: seq<Position>, token: string, i: nat)
    requires ImportAt(rows, token, i) && ImportsOf(rows, token) == [rows[i]] && forall j | ImportAt(rows, token, j) :: j == i
    ensures TokenShadowed(rows, positions, token) <==> ShadowAt(rows, positions, token, i)
  {
    hide Import, ImportsOf, TrackersOf, Earlier, LiveSize, SharesOf, ParsedId, WalletHas, Covered, Tag, Trim;
    WalletIsOne(positions, token);
    assert WalletHas(positions, token, LiveSize(positions, token));
    assert InWallet(positions, token, rows[i].shares) <==> Close(LiveSize(positions, token), rows[i].shares);
    if rows[i].placedAt.Some? { CoveredIs(rows, token, rows[i].placedAt.value, rows[i].shares); }
  }

  // ---- what is cancelled ----

  /** Row k is the token's shadow, and its id reads as v. */
  ghost predicate ShadowNumbered(rows: seq<Bet>, positions: seq<Position>, token: string, k: nat, v: int) {
    ShadowAt(rows, positions, token, k) && ParsedId(rows[k].id) == Some(v)
  }

  ghost predicate NumberShadowed(rows: seq<Bet>, positions: seq<Position>, v: int) {
    exists token, k :: ShadowNumbered(rows, positions, token, k, v)
  }

  /** Row i is an open single-ledger row, typed as an import in so many letters, and the first with its number. */
  ghost predicate FoundFirst(rows: seq<Bet>, i: nat) {
    && i < |rows| && rows[i].single && rows[i].id.Number? && rows[i].status == "open" && rows[i].orderType == "imported"
    && forall j | 0 <= j < i && rows[j].single :: rows[j].id != rows[i].id
  }

  /** Exactly which rows the repair cancels: those found first by the number that a shadow, of whatever token,
      has for its id. */
  lemma CancelledExactly(rows: seq<Bet>, positions: seq<Position>, i: nat)
    ensures Cancelled(rows, positions, i) <==> FoundFirst(rows, i) && NumberShadowed(rows, positions, rows[i].id.value)
  {
    hide ShadowNumbered, Asks, Cancellable, FoundFirst;
    CancellableExactly(rows, i);
    forall token, v ensures Asks(rows, positions, token, v) <==> exists k :: ShadowNumbered(rows, positions, token, k, v) {
      AskedExactly(rows, positions, token, v);
    }
    if Cancelled(rows, positions, i) {
      var token :| CancelledBy(rows, positions, i, token);
      var k :| ShadowNumbered(rows, positions, token, k, rows[i].id.value);
    }
    if FoundFirst(rows, i) && NumberShadowed(rows, positions, rows[i].id.value) {
      var token, k :| ShadowNumbered(rows, positions, token, k, rows[i].id.value);
      assert CancelledBy(rows, positions, i, token);
    }
  }

  lemma CancellableExactly(rows: seq<Bet>, i: nat)
    ensures Cancellable(rows, i) <==> FoundFirst(rows, i)
    ensures FoundFirst(rows, i) ==> i < |rows| && rows[i].id.Number?
  {
  }

  lemma AskedExactly(rows: seq<Bet>, positions: seq<Position>, token: string, v: int)
    ensures Asks(rows, positions, token, v) <==> exists k :: ShadowNumbered(rows, positions, token, k, v)
  {
    hide ShadowAt, TokenShadowed, ImportsOf, ParsedId;
    ShadowedExactly(rows, positions, token);
    if Asks(rows, positions, token, v) {
      var k: nat :| ShadowAt(rows, positions, token, k);
      ShadowInRange(rows, positions, token, k);
      assert ShadowNumbered(rows, positions, token, k, v);
    }
  }

  lemma ShadowInRange(rows: seq<Bet>, positions: seq<Position>, token: string, k: nat)
    requires ShadowAt(rows, positions, token, k)
    ensures k < |rows|
  {
  }

  // ---- which amounts matter ----

  /** b' differs from b only in amounts that are no evidence: behind an amount actually filled both the others,
      behind one called filled the shares, and the shares of an order that nothing says was filled. */
  ghost predicate SameEvidence(b: Bet, b': Bet) {
    && b' == b.(filled := b'.filled, shares := b'.shares) && Tag(b.orderType) != "imported"
    && (|| b.actualFilled > 0.0
        || (b'.filled == b.filled
            && (b.filled > 0.0 || (Tag(b.orderType) != "filled_limit" && Tag(b.placement) != "filled" && Tag(b.placement) != "matched"))))
  }

  lemma SameAmount(b: Bet, b': Bet)
    requires SameEvidence(b, b')
    ensures forall s :: Amount(b, s) <==> Amount(b', s)
  {
    hide Tag;
    AmountIsConfirmed(b);
    AmountIsConfirmed(b');
  }

  lemma SameShadow(rows: seq<Bet>, positions: seq<Position>, i: nat, b': Bet, token: string, k: nat)
    requires i < |rows| && SameEvidence(rows[i], b')
    ensures ShadowAt(rows[i := b'], positions, token, k) <==> ShadowAt(rows, positions, token, k)
  {
    hide Tag, InWallet, Covered, ParsedId, Amount;
    var rows' := rows[i := b'];
    SameAmount(rows[i], b');
    forall j: nat ensures ImportAt(rows', token, j) <==> ImportAt(rows, token, j) {}
    if ImportAt(rows, token, k) && rows[k].placedAt.Some? { SameCovered(rows, rows', token, rows[k].placedAt.value, rows[k].shares); }
  }

  ghost predicate SameCover(a: seq<Bet>, b: seq<Bet>, token: string, at: int) {
    forall trader, j, s :: CoverAt(a, token, trader, at, j, s) <==> CoverAt(b, token, trader, at, j, s)
  }

  lemma SameCovered(a: seq<Bet>, b: seq<Bet>, token: string, at: int, shares: real)
    requires |a| == |b| && forall j | 0 <= j < |a| :: a[j] == b[j] || (SameEvidence(a[j], b[j]))
    ensures Covered(a, token, at, shares) <==> Covered(b, token, at, shares)
  {
    hide Tag, Amount, Covers;
    forall j | 0 <= j < |a| ensures forall s :: Amount(a[j], s) <==> Amount(b[j], s) {
      if a[j] != b[j] { SameAmount(a[j], b[j]); }
    }
    assert SameCover(a, b, token, at);
    forall trader, s ensures Covers(a, token, trader, at, s) <==> Covers(b, token, trader, at, s) { SameCovers(a, b, token, trader, at, s); }
    assert forall m, g :: Together(a, token, at, shares, m, g) <==> Together(b, token, at, shares, m, g);
  }

  lemma SameCovers(a: seq<Bet>, b: seq<Bet>, token: string, trader: string, at: int, s: real)
    requires SameCover(a, b, token, at)
    ensures Covers(a, token, trader, at, s) <==> Covers(b, token, trader, at, s)
  {
    hide CoverAt;
    assert forall i: nat :: SoleCover(a, token, trader, at, s, i) <==> SoleCover(b, token, trader, at, s, i);
  }

  /** Amounts that are no evidence can be anything: the same rows are cancelled. */
  lemma OnlyEvidenceCounts(rows: seq<Bet>, positions: seq<Position>, i: nat, b': Bet)
    requires i < |rows| && SameEvidence(rows[i], b')
    ensures forall k: nat :: Cancelled(rows[i := b'], positions, k) <==> Cancelled(rows, positions, k)
  {
    hide ShadowNumbered, SameEvidence, Cancelled;
    var rows' := rows[i := b'];
    SameElsewhere(rows[i], b');
    forall k: nat ensures FoundFirst(rows', k) <==> FoundFirst(rows, k) { SameFirst(rows, rows', k); }
    forall token, k: nat, v ensures ShadowNumbered(rows', positions, token, k, v) <==> ShadowNumbered(rows, positions, token, k, v) {
      SameNumbered(rows, positions, i, b', token, k, v);
    }
    forall k: nat ensures Cancelled(rows', positions, k) <==> Cancelled(rows, positions, k) {
      CancelledExactly(rows, positions, k);
      CancelledExactly(rows', positions, k);
    }
  }

  lemma SameNumbered(rows: seq<Bet>, positions: seq<Position>, i: nat, b': Bet, token: string, k: nat, v: int)
    requires i < |rows| && SameEvidence(rows[i], b')
    ensures ShadowNumbered(rows[i := b'], positions, token, k, v) <==> ShadowNumbered(rows, positions, token, k, v)
  {
    hide ShadowAt, SameEvidence, ParsedId;
    SameElsewhere(rows[i], b');
    SameShadow(rows, positions, i, b', token, k);
    if ShadowAt(rows, positions, token, k) { ShadowInRange(rows, positions, token, k); }
  }

  lemma SameFirst(a: seq<Bet>, b: seq<Bet>, k: nat)
    requires |a| == |b|
    requires forall j | 0 <= j < |a| :: a[j].single == b[j].single && a[j].id == b[j].id && a[j].status == b[j].status && a[j].orderType == b[j].orderType
    ensures FoundFirst(a, k) <==> FoundFirst(b, k)
  {
  }

  lemma SameElsewhere(b: Bet, b': Bet)
    requires SameEvidence(b, b')
    ensures b'.single == b.single && b'.id == b.id && b'.status == b.status && b'.orderType == b.orderType
  {
  }

  // ---- an order nobody filled ----

  /** A row of another ledger that is no evidence of any shares. */
  ghost predicate Unfilled(b: Bet) {
    && !b.single && b.actualFilled <= 0.0 && b.filled <= 0.0
    && Tag(b.orderType) != "filled_limit" && Tag(b.placement) != "filled" && Tag(b.placement) != "matched"
  }

  lemma UnfilledIsNothing(b: Bet)
    requires Unfilled(b)
    ensures !Import(b) && !Tracker(b)
  {
    hide Tag;
  }

  lemma {:induction false} PickedConcat(a: seq<Bet>, b: seq<Bet>, token: string)
    ensures ImportsOf(a + b, token) == ImportsOf(a, token) + ImportsOf(b, token)
    ensures TrackersOf(a + b, token) == TrackersOf(a, token) + TrackersOf(b, token)
  {
    hide ImportsOf, TrackersOf, PickImport, PickTracker;
    if b == [] {
      assert a + b == a;
      NoneOf(token);
    } else {
      var front, last := b[..|b| - 1], b[|b| - 1];
      PickedConcat(a, front, token);
      LastOf(a + front, last, token);
      LastOf(front, last, token);
      assert a + b == a + front + [last] && b == front + [last];
    }
  }

  lemma PickedWithout(rows: seq<Bet>, i: nat, token: string)
    requires i < |rows| && Unfilled(rows[i])
    ensures ImportsOf(rows[..i] + rows[i + 1..], token) == ImportsOf(rows, token)
    ensures TrackersOf(rows[..i] + rows[i + 1..], token) == TrackersOf(rows, token)
  {
    hide Import, Tracker, Unfilled, ImportsOf, TrackersOf, PickImport, PickTracker;
    var a, b := rows[..i], rows[i + 1..];
    UnfilledIsNothing(rows[i]);
    PickedConcat(a, b, token);
    PickedConcat(a + [rows[i]], b, token);
    LastOf(a, rows[i], token);
    PickNothing(rows[i], token);
    assert rows == a + [rows[i]] + b;
  }

  lemma PickNothing(b: Bet, token: string)
    requires !Import(b) && !Tracker(b)
    ensures PickImport(b, token) == [] == PickTracker(b, token)
  {
  }

  /** A resting or cancelled order that nothing says was filled has no part in the repair: without it the same
      rows are cancelled. */
  lemma UnfilledOrdersDoNotMatter(rows: seq<Bet>, positions: seq<Position>, i: nat)
    requires i < |rows| && Unfilled(rows[i])
    ensures !Cancelled(rows, positions, i)
    ensures forall k: nat | k != i :: Cancelled(rows, positions, k) <==> Cancelled(rows[..i] + rows[i + 1..], positions, if k < i then k else k - 1)
  {
    hide ImportsOf, TrackersOf, Shadow, LiveSize, ParsedId, Unfilled;
    var rows' := rows[..i] + rows[i + 1..];
    NotSingle(rows[i]);
    forall token, v ensures Asks(rows', positions, token, v) <==> Asks(rows, positions, token, v) { PickedWithout(rows, i, token); }
    forall k: nat | k != i ensures Cancellable(rows, k) <==> Cancellable(rows', if k < i then k else k - 1) { CancellableWithout(rows, i, k); }
    forall k: nat | k != i ensures Cancelled(rows, positions, k) <==> Cancelled(rows', positions, if k < i then k else k - 1) {
      WithoutIt(rows, positions, i, k);
    }
  }

  lemma WithoutIt(rows: seq<Bet>, positions: seq<Position>, i: nat, k: nat)
    requires i < |rows| && k != i
    requires forall token, v :: Asks(rows[..i] + rows[i + 1..], positions, token, v) <==> Asks(rows, positions, token, v)
    requires Cancellable(rows, k) <==> Cancellable(rows[..i] + rows[i + 1..], if k < i then k else k - 1)
    ensures Cancelled(rows, positions, k) <==> Cancelled(rows[..i] + rows[i + 1..], positions, if k < i then k else k - 1)
  {
    hide Asks, FirstWithId;
    var rows', k' := rows[..i] + rows[i + 1..], if k < i then k else k - 1;
    if k < |rows| { assert rows'[k'] == rows[k]; }
    forall token ensures CancelledBy(rows, positions, k, token) <==> CancelledBy(rows', positions, k', token) {}
  }

  lemma NotSingle(b: Bet)
    requires Unfilled(b)
    ensures !b.single
  {
  }

  lemma CancellableWithout(rows: seq<Bet>, i: nat, k: nat)
    requires i < |rows| && !rows[i].single && k != i
    ensures Cancellable(rows, k) <==> Cancellable(rows[..i] + rows[i + 1..], if k < i then k else k - 1)
  {
    hide NumberedAs;
    var rows', k' := rows[..i] + rows[i + 1..], if k < i then k else k - 1;
    if k < |rows| && rows[k].id.Number? {
      var v := rows[k].id.value;
      assert rows'[k'] == rows[k];
      if FirstWithId(rows, v, k) {
        forall j | 0 <= j < k' ensures !NumberedAs(rows'[j], v) { assert rows'[j] == rows[if j < i then j else j + 1]; }
      }
      if FirstWithId(rows', v, k') {
        forall j | 0 <= j < k ensures !NumberedAs(rows[j], v) {
          if j == i { NotNumbered(rows[i], v); } else { assert rows[j] == rows'[if j < i then j else j - 1]; }
        }
      }
    }
  }

  lemma NotNumbered(b: Bet, v: int)
    ensures !b.single ==> !NumberedAs(b, v)
  {
  }
}

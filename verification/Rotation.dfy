/** scripts/build_profile_supplement_from_external_profiles.py: which candidates one refresh run attempts.
    Candidates come in two classes, explicit priorities and the ordinary backlog, each in its sorted order. */
module Rotation {
  import opened Common

  /** How a run divides its limit: rows of each class, the turn each class is at, and whether the offset
      stood in for the turn. */
  datatype Shares = Shares(priority: nat, backlog: nat, priorityTurn: nat, backlogTurn: nat, offsetIsTurn: bool)

  datatype Selection<T> = Selection(selected: seq<T>, shares: Shares, priorityOffset: nat, backlogOffset: nat)

  function NonNegative(x: int): nat {
    if x < 0 then 0 else x
  }

  function Min(a: nat, b: nat): nat {
    if a < b then a else b
  }

  function Turn(rotation: Option<int>): nat {
    match rotation case None => 0 case Some(i) => NonNegative(i)
  }

  function SharesOf(p: nat, b: nat, limit: Option<int>, offset: int, rotation: Option<int>): Shares {
    var turn := Turn(rotation);
    match limit
    case None => Shares(p, b, turn, turn, false)
    case Some(wanted) =>
      var n := NonNegative(wanted);
      if n == 1 && p > 0 && b > 0 then
        var t := if rotation.Some? then turn else NonNegative(offset);
        if t % 2 == 0 then Shares(1, 0, t / 2, turn, rotation.None?)
        else Shares(0, 1, turn, t / 2, rotation.None?)
      else if n == 0 then Shares(0, 0, turn, turn, false)
      else if p > 0 && b > 0 then
        var forPriority := Min(p, n - 1);
        Shares(forPriority, Min(b, n - forPriority), turn, turn, false)
      else if p > 0 then Shares(Min(p, n), 0, turn, turn, false)
      else Shares(0, Min(b, n), turn, turn, false)
  }

  function Offsets(s: Shares, offset: int, rotation: Option<int>): (nat, nat) {
    var explicit := NonNegative(offset);
    if rotation.Some? then (s.priorityTurn * s.priority, explicit + s.backlogTurn * s.backlog)
    else if s.offsetIsTurn then (s.priorityTurn * s.priority, s.backlogTurn * s.backlog)
    else (0, explicit)
  }

  function Wrapped<T>(rows: seq<T>, slots: nat, offset: nat): (k: nat)
    ensures k <= |rows|
  {
    if rows != [] && slots > 0 then offset % |rows| else 0
  }

  /** The first `slots` rows once the list has been rotated. */
  function Head<T>(rows: seq<T>, slots: nat, start: nat): seq<T>
    requires start <= |rows|
  {
    (rows[start..] + rows[..start])[..Min(slots, |rows|)]
  }

  /** The rows one class contributes when its circle is entered at `offset`. */
  function Arc<T>(rows: seq<T>, slots: nat, offset: nat): seq<T> {
    Head(rows, slots, Wrapped(rows, slots, offset))
  }

  function Select<T>(priority: seq<T>, backlog: seq<T>, limit: Option<int>, offset: int, rotation: Option<int>): Selection<T> {
    var s := SharesOf(|priority|, |backlog|, limit, offset, rotation);
    var (forPriority, forBacklog) := Offsets(s, offset, rotation);
    var po, bo := Wrapped(priority, s.priority, forPriority), Wrapped(backlog, s.backlog, forBacklog);
    Selection(Head(priority, s.priority, po) + Head(backlog, s.backlog, bo), s, po, bo)
  }

  // ---- one run ----

  ghost predicate Distinct<T>(s: seq<T>) {
    forall i, j | 0 <= i < j < |s| :: s[i] != s[j]
  }

  lemma HeadAt<T>(rows: seq<T>, slots: nat, offset: nat, i: nat)
    requires i < slots <= |rows|
    ensures Arc(rows, slots, offset)[i] == rows[(offset + i) % |rows|]
  {
    var n := |rows|;
    var k := offset % n;
    ModOf(k + i, offset / n, n);
    assert offset + i == (k + i) + n * (offset / n);
    if k + i < n { SmallMod(k + i, n); } else {
      SmallMod(k + i - n, n);
      ModOf(k + i - n, 1, n);
    }
  }

  lemma HeadDistinct<T>(rows: seq<T>, slots: nat, start: nat)
    requires Distinct(rows) && start <= |rows| && slots <= |rows|
    ensures Distinct(Head(rows, slots, start)) && |Head(rows, slots, start)| == slots
    ensures forall x | x in Head(rows, slots, start) :: x in rows
  {
    var h := Head(rows, slots, start);
    forall i | 0 <= i < |h| ensures h[i] == rows[if start + i < |rows| then start + i else start + i - |rows|] {
    }
  }

  /** One run takes exactly as many candidates as the limit allows, each once, priorities first; from a limit of
      two on both classes progress, and the backlog gets a second slot only when every priority has one. */
  lemma SelectsTheLimit<T>(priority: seq<T>, backlog: seq<T>, limit: Option<int>, offset: int, rotation: Option<int>)
    requires Distinct(priority + backlog)
    ensures var r := Select(priority, backlog, limit, offset, rotation);
            && |r.selected| == (if limit.None? then |priority| + |backlog|
                                else Min(NonNegative(limit.value), |priority| + |backlog|))
            && Distinct(r.selected)
            && (forall x | x in r.selected :: x in priority || x in backlog)
            && |r.selected| == r.shares.priority + r.shares.backlog
            && (priority != [] && backlog != [] && (limit.None? || limit.value >= 2) ==>
                  r.shares.priority >= 1 && r.shares.backlog >= 1)
            && (priority != [] && r.shares.backlog > 1 ==> r.shares.priority == |priority|)
            && (forall i | 0 <= i < r.shares.priority :: r.selected[i] in priority)
  {
    var r := Select(priority, backlog, limit, offset, rotation);
    SharesAddUp(|priority|, |backlog|, limit, offset, rotation);
    DistinctParts(priority, backlog);
    HeadDistinct(priority, r.shares.priority, r.priorityOffset);
    HeadDistinct(backlog, r.shares.backlog, r.backlogOffset);
    DistinctJoin(Head(priority, r.shares.priority, r.priorityOffset), Head(backlog, r.shares.backlog, r.backlogOffset));
  }

  lemma SharesAddUp(p: nat, b: nat, limit: Option<int>, offset: int, rotation: Option<int>)
    ensures var s := SharesOf(p, b, limit, offset, rotation);
            && s.priority <= p && s.backlog <= b
            && s.priority + s.backlog == (if limit.None? then p + b else Min(NonNegative(limit.value), p + b))
            && (p > 0 && b > 0 && (limit.None? || limit.value >= 2) ==> s.priority >= 1 && s.backlog >= 1)
            && (p > 0 && s.backlog > 1 ==> s.priority == p)
  {
  }

  lemma DistinctParts<T>(a: seq<T>, b: seq<T>)
    requires Distinct(a + b)
    ensures Distinct(a) && Distinct(b) && forall x | x in a :: x !in b
  {
    var all := a + b;
    assert forall i | 0 <= i < |a| :: a[i] == all[i];
    assert forall j | 0 <= j < |b| :: b[j] == all[|a| + j];
  }

  lemma DistinctJoin<T>(a: seq<T>, b: seq<T>)
    requires Distinct(a) && Distinct(b) && forall x | x in a :: x !in b
    ensures Distinct(a + b)
  {
    var all := a + b;
    forall i, j | 0 <= i < j < |all| ensures all[i] != all[j] {
      if i < |a| <= j { assert a[i] in a && b[j - |a|] in b; }
    }
  }

  // ---- arithmetic ----

  lemma SmallMod(m: nat, n: nat)
    requires m < n
    ensures m % n == m
  {
  }

  lemma {:induction false} ModOf(m: int, q: nat, n: nat)
    requires n > 0
    ensures (m + n * q) % n == m % n
    decreases q
  {
    if q > 0 {
      ModOf(m, q - 1, n);
      assert m + n * q == (m + n * (q - 1)) + n;
      AddModulus(m + n * (q - 1), n);
    }
  }

  lemma AddModulus(x: int, n: nat)
    requires n > 0
    ensures (x + n) % n == x % n
  {
    var q, r := x / n, x % n;
    assert x + n == (q + 1) * n + r;
    DivUnique(x + n, q + 1, r, n);
  }

  lemma RemainderUnique(q: int, r: int, q': int, r': int, n: nat)
    requires 0 <= r < n && 0 <= r' < n && q * n + r == q' * n + r'
    ensures r == r'
  {
    var d := q - q';
    assert d * n == r' - r;
    Multiple(d, n);
  }

  lemma Multiple(d: int, n: nat)
    ensures d >= 1 ==> d * n >= n
    ensures d <= -1 ==> d * n <= -(n as int)
  {
    if d >= 1 { assert (d - 1) * n >= 0; }
    if d <= -1 { assert (-d - 1) * n >= 0; }
  }

  lemma DivUnique(x: int, q: int, r: int, n: nat)
    requires n > 0 && x == q * n + r && 0 <= r < n
    ensures x % n == r
  {
    var q', r' := x / n, x % n;
    assert x == q' * n + r';
    RemainderUnique(q, r, q', r', n);
  }

  /** How far ahead of `from` the position m is on a circle of n. */
  function Ahead(from: nat, m: nat, n: nat): (j: nat)
    requires m < n
    ensures j < n && (from + j) % n == m
  {
    var k := from % n;
    ModOf(m, from / n, n);
    ModOf(m, from / n + 1, n);
    assert from == k + n * (from / n);
    SmallMod(m, n);
    var j := if k <= m then m - k else m - k + n;
    assert from + j == m + n * (if k <= m then from / n else from / n + 1);
    j
  }

  // ---- fairness ----

  /** The row that the run at turn `start + turn` takes i-th. */
  lemma TurnAt<T>(rows: seq<T>, slots: nat, base: nat, start: nat, turn: nat, i: nat)
    requires i < slots <= |rows|
    ensures Arc(rows, slots, base + (start + turn) * slots)[i]
            == rows[(base + start * slots + (turn * slots + i)) % |rows|]
  {
    hide Arc;
    HeadAt(rows, slots, base + (start + turn) * slots, i);
    assert (start + turn) * slots == start * slots + turn * slots;
  }

  /** Runs that each take the next `slots` rows of the circle reach all of it exactly when together they take
      as many rows as there are. */
  lemma WindowCovers<T>(rows: seq<T>, slots: nat, base: nat, start: nat, span: nat, m: nat) returns (u: nat)
    requires m < |rows| && slots <= |rows| && span * slots >= |rows|
    ensures start <= u < start + span && rows[m] in Arc(rows, slots, base + u * slots)
  {
    hide Arc;
    var n := |rows|;
    assert slots == 0 ==> span * slots == 0;
    var j := Ahead(base + start * slots, m, n);
    var turn, i := TurnOf(j, slots, span);
    u := start + turn;
    TurnAt(rows, slots, base, start, turn, i);
    ArcLength(rows, slots, base + u * slots);
    assert rows[m] == Arc(rows, slots, base + u * slots)[i];
  }

  lemma ArcLength<T>(rows: seq<T>, slots: nat, offset: nat)
    requires slots <= |rows|
    ensures |Arc(rows, slots, offset)| == slots
  {
  }

  lemma TurnOf(j: nat, slots: nat, span: nat) returns (turn: nat, i: nat)
    requires slots > 0 && j < span * slots
    ensures turn < span && i < slots && j == turn * slots + i
  {
    turn, i := j / slots, j % slots;
    if turn >= span { MonotoneTimes(span, turn, slots); }
  }

  lemma MonotoneTimes(a: nat, b: nat, c: nat)
    requires a <= b
    ensures a * c <= b * c
  {
    assert (b - a) * c >= 0;
  }

  lemma WindowMisses<T>(rows: seq<T>, slots: nat, base: nat, start: nat, span: nat) returns (m: nat)
    requires Distinct(rows) && slots <= |rows| && span * slots < |rows|
    ensures m < |rows|
    ensures forall u: nat | start <= u < start + span ::
              rows[m] !in Arc(rows, slots, base + u * slots)
  {
    hide Arc;
    m := (base + start * slots + span * slots) % |rows|;
    forall u: nat | start <= u < start + span
      ensures rows[m] !in Arc(rows, slots, base + u * slots)
    {
      TurnMisses(rows, slots, base, start, span, u - start);
    }
  }

  /** The member k places along the circle. */
  function Around<T>(rows: seq<T>, k: nat): T
    requires rows != []
  {
    rows[k % |rows|]
  }

  lemma AroundApart<T>(rows: seq<T>, from: nat, i: nat, j: nat)
    requires Distinct(rows) && i < j < |rows|
    ensures Around(rows, from + i) != Around(rows, from + j)
  {
    ApartOnCircle(from, i, j, |rows|);
  }

  lemma TurnMisses<T>(rows: seq<T>, slots: nat, base: nat, start: nat, span: nat, turn: nat)
    requires Distinct(rows) && slots <= |rows| && span * slots < |rows| && turn < span
    ensures Around(rows, base + start * slots + span * slots) !in Arc(rows, slots, base + (start + turn) * slots)
  {
    hide Arc, Distinct, Around;
    var from, reach := base + start * slots, span * slots;
    var h := Arc(rows, slots, base + (start + turn) * slots);
    ArcLength(rows, slots, base + (start + turn) * slots);
    forall i: nat | i < |h| ensures h[i] != Around(rows, from + reach) {
      MissesAt(rows, slots, base, start, span, turn, i);
    }
  }

  lemma MissesAt<T>(rows: seq<T>, slots: nat, base: nat, start: nat, span: nat, turn: nat, i: nat)
    requires Distinct(rows) && i < slots <= |rows| && span * slots < |rows| && turn < span
    requires |Arc(rows, slots, base + (start + turn) * slots)| == slots
    ensures Arc(rows, slots, base + (start + turn) * slots)[i] != Around(rows, base + start * slots + span * slots)
  {
    hide Arc, Distinct;
    TurnAt(rows, slots, base, start, turn, i);
    EarlierInReach(turn, span, slots, i);
    AroundApart(rows, base + start * slots, turn * slots + i, span * slots);
  }

  lemma EarlierInReach(turn: nat, span: nat, slots: nat, i: nat)
    requires turn < span && i < slots
    ensures turn * slots + i < span * slots
  {
    MonotoneTimes(turn + 1, span, slots);
  }

  lemma ApartOnCircle(from: nat, i: nat, j: nat, n: nat)
    requires i < j < n
    ensures (from + i) % n != (from + j) % n
  {
    var q, q' := (from + i) / n, (from + j) / n;
    var r, r' := (from + i) % n, (from + j) % n;
    assert from + i == q * n + r && from + j == q' * n + r';
    assert (q' - q) * n == j - i + r - r' by { assert (q' - q) * n == q' * n - q * n; }
    Multiple(q' - q, n);
  }

  function PriorityRows<T>(priority: seq<T>, backlog: seq<T>, limit: Option<int>, offset: int, rotation: Option<int>): seq<T> {
    var s := SharesOf(|priority|, |backlog|, limit, offset, rotation);
    Arc(priority, s.priority, Offsets(s, offset, rotation).0)
  }

  function BacklogRows<T>(priority: seq<T>, backlog: seq<T>, limit: Option<int>, offset: int, rotation: Option<int>): seq<T> {
    var s := SharesOf(|priority|, |backlog|, limit, offset, rotation);
    Arc(backlog, s.backlog, Offsets(s, offset, rotation).1)
  }

  lemma SelectedRows<T>(priority: seq<T>, backlog: seq<T>, limit: Option<int>, offset: int, rotation: Option<int>, x: T)
    requires Distinct(priority + backlog)
    ensures var r := Select(priority, backlog, limit, offset, rotation).selected;
            && (x in priority ==> (x in r <==> x in PriorityRows(priority, backlog, limit, offset, rotation)))
            && (x in backlog ==> (x in r <==> x in BacklogRows(priority, backlog, limit, offset, rotation)))
  {
    SharesAddUp(|priority|, |backlog|, limit, offset, rotation);
    DistinctParts(priority, backlog);
    var s := SharesOf(|priority|, |backlog|, limit, offset, rotation);
    HeadDistinct(priority, s.priority, Wrapped(priority, s.priority, Offsets(s, offset, rotation).0));
    HeadDistinct(backlog, s.backlog, Wrapped(backlog, s.backlog, Offsets(s, offset, rotation).1));
  }

  function Chosen<T>(priority: seq<T>, backlog: seq<T>, limit: Option<int>, offset: int, rotation: Option<int>): seq<T> {
    Select(priority, backlog, limit, offset, rotation).selected
  }

  /** x is attempted in one of the `span` runs from rotation index `start` on. */
  ghost predicate ComesUp<T>(x: T, priority: seq<T>, backlog: seq<T>, limit: Option<int>, offset: int, start: nat, span: nat) {
    exists u: nat :: start <= u < start + span && x in Chosen(priority, backlog, limit, offset, Some(u))
  }

  ghost predicate OneSlotForTwo<T>(priority: seq<T>, backlog: seq<T>, limit: Option<int>) {
    limit == Some(1) && priority != [] && backlog != []
  }

  /** Unless one slot has to serve two classes, `span` consecutive rotation indices reach every candidate of a
      class exactly when the class's slots times the span cover its size; so ceil(n / slots) do, and fewer
      never do. */
  lemma RotationIsFair<T>(priority: seq<T>, backlog: seq<T>, limit: Option<int>, offset: int, start: nat, span: nat)
    requires Distinct(priority + backlog) && !OneSlotForTwo(priority, backlog, limit)
    ensures var s := SharesOf(|priority|, |backlog|, limit, offset, Some(start));
            && ((forall x | x in priority :: ComesUp(x, priority, backlog, limit, offset, start, span)) <==> span * s.priority >= |priority|)
            && ((forall x | x in backlog :: ComesUp(x, priority, backlog, limit, offset, start, span)) <==> span * s.backlog >= |backlog|)
  {
    hide Arc, Select, Offsets;
    SharesAddUp(|priority|, |backlog|, limit, offset, Some(start));
    DistinctParts(priority, backlog);
    var s := SharesOf(|priority|, |backlog|, limit, offset, Some(start));
    ClassIsFair(priority, priority, backlog, limit, offset, s.priority, 0, start, span);
    ClassIsFair(backlog, priority, backlog, limit, offset, s.backlog, NonNegative(offset), start, span);
  }

  lemma RotatedRows<T>(priority: seq<T>, backlog: seq<T>, limit: Option<int>, offset: int, start: nat, u: nat, x: T, p: nat, b: nat)
    requires Distinct(priority + backlog) && !OneSlotForTwo(priority, backlog, limit)
    requires var s := SharesOf(|priority|, |backlog|, limit, offset, Some(start)); p == s.priority && b == s.backlog
    ensures x in priority ==> (x in Chosen(priority, backlog, limit, offset, Some(u)) <==> x in Arc(priority, p, 0 + u * p))
    ensures x in backlog ==> (x in Chosen(priority, backlog, limit, offset, Some(u)) <==> x in Arc(backlog, b, NonNegative(offset) + u * b))
  {
    hide Arc, Select;
    SelectedRows(priority, backlog, limit, offset, Some(u), x);
  }

  lemma ClassIsFair<T>(rows: seq<T>, priority: seq<T>, backlog: seq<T>, limit: Option<int>, offset: int,
                             slots: nat, base: nat, start: nat, span: nat)
    requires Distinct(priority + backlog) && !OneSlotForTwo(priority, backlog, limit) && Distinct(rows)
    requires var s := SharesOf(|priority|, |backlog|, limit, offset, Some(start));
             || (rows == priority && slots == s.priority && base == 0)
             || (rows == backlog && slots == s.backlog && base == NonNegative(offset))
    ensures (forall x | x in rows :: ComesUp(x, priority, backlog, limit, offset, start, span)) <==> span * slots >= |rows|
  {
    hide Arc, Chosen;
    SharesAddUp(|priority|, |backlog|, limit, offset, Some(start));
    var s := SharesOf(|priority|, |backlog|, limit, offset, Some(start));
    if span * slots >= |rows| {
      forall x | x in rows
        ensures ComesUp(x, priority, backlog, limit, offset, start, span)
      {
        var m :| 0 <= m < |rows| && rows[m] == x;
        var u := WindowCovers(rows, slots, base, start, span, m);
        RotatedRows(priority, backlog, limit, offset, start, u, x, s.priority, s.backlog);
      }
    } else {
      var m := WindowMisses(rows, slots, base, start, span);
      assert rows[m] in rows;
      forall u: nat | start <= u < start + span ensures rows[m] !in Chosen(priority, backlog, limit, offset, Some(u)) {
        RotatedRows(priority, backlog, limit, offset, start, u, rows[m], s.priority, s.backlog);
      }
    }
  }

  /** Turn 2k takes the k-th priority, turn 2k + 1 the k-th of the backlog. */
  lemma OneSlotRows<T>(priority: seq<T>, backlog: seq<T>, offset: int, byOffset: bool, k: nat)
    requires priority != [] && backlog != []
    ensures (if byOffset then PriorityRows(priority, backlog, Some(1), 2 * k, None)
             else PriorityRows(priority, backlog, Some(1), offset, Some(2 * k))) == Arc(priority, 1, 0 + k * 1)
    ensures (if byOffset then BacklogRows(priority, backlog, Some(1), 2 * k + 1, None)
             else BacklogRows(priority, backlog, Some(1), offset, Some(2 * k + 1)))
            == Arc(backlog, 1, (if byOffset then 0 else NonNegative(offset)) + k * 1)
  {
    hide Arc;
    assert (2 * k) / 2 == k && (2 * k + 1) / 2 == k && (2 * k + 1) % 2 == 1;
  }

  /** With one slot for two classes the turns alternate, and each class of n comes round within any 2n turns,
      whether the turn is the rotation index or the explicit offset. */
  lemma OneSlotAlternates<T>(priority: seq<T>, backlog: seq<T>, offset: int, byOffset: bool, start: nat, x: T) returns (u: nat)
    requires Distinct(priority + backlog) && priority != [] && backlog != [] && (x in priority || x in backlog)
    ensures start <= u < start + 2 * (if x in priority then |priority| else |backlog|)
    ensures u % 2 == 0 <==> x in priority
    ensures x in if byOffset then Chosen(priority, backlog, Some(1), u, None) else Chosen(priority, backlog, Some(1), offset, Some(u))
  {
    hide Select, Arc, PriorityRows, BacklogRows, Distinct;
    if x in priority {
      var m :| 0 <= m < |priority| && priority[m] == x;
      var k := WindowCovers(priority, 1, 0, (start + 1) / 2, |priority|, m);
      OneSlotRows(priority, backlog, offset, byOffset, k);
      u := 2 * k;
    } else {
      var m :| 0 <= m < |backlog| && backlog[m] == x;
      var k := WindowCovers(backlog, 1, if byOffset then 0 else NonNegative(offset), start / 2, |backlog|, m);
      OneSlotRows(priority, backlog, offset, byOffset, k);
      u := 2 * k + 1;
    }
    SelectedRows(priority, backlog, Some(1), u, None, x);
    SelectedRows(priority, backlog, Some(1), offset, Some(u), x);
  }

  /** The explicit offset never moves the priority class: a priority candidate beyond the class's slots is not
      attempted at any offset. */
  lemma OffsetPinsPriority<T>(priority: seq<T>, backlog: seq<T>, limit: Option<int>)
    requires Distinct(priority + backlog) && !OneSlotForTwo(priority, backlog, limit)
    ensures (forall x | x in priority :: exists offset: int :: x in Chosen(priority, backlog, limit, offset, None))
            <==> |priority| <= SharesOf(|priority|, |backlog|, limit, 0, None).priority
  {
    hide Select, Arc, Chosen, SharesOf, Offsets;
    var slots := SharesOf(|priority|, |backlog|, limit, 0, None).priority;
    assert slots <= |priority| by { SharesAddUp(|priority|, |backlog|, limit, 0, None); }
    forall offset: int, x | x in priority ensures x in Chosen(priority, backlog, limit, offset, None) <==> x in priority[..slots] {
      PinnedRows(priority, backlog, limit, offset, x);
    }
    if |priority| <= slots {
      forall x | x in priority ensures exists offset: int :: x in Chosen(priority, backlog, limit, offset, None) {
        PinnedRows(priority, backlog, limit, 0, x);
        assert x in Chosen(priority, backlog, limit, 0, None);
      }
    } else {
      DistinctParts(priority, backlog);
      assert priority[slots] !in priority[..slots];
      assert priority[slots] in priority;
    }
  }

  lemma PinnedRows<T>(priority: seq<T>, backlog: seq<T>, limit: Option<int>, offset: int, x: T)
    requires Distinct(priority + backlog) && !OneSlotForTwo(priority, backlog, limit) && x in priority
    ensures var slots := SharesOf(|priority|, |backlog|, limit, 0, None).priority;
            slots <= |priority| && (x in Chosen(priority, backlog, limit, offset, None) <==> x in priority[..slots])
  {
    hide Select, Arc;
    SharesAddUp(|priority|, |backlog|, limit, 0, None);
    SelectedRows(priority, backlog, limit, offset, None, x);
    UnturnedArc(priority, SharesOf(|priority|, |backlog|, limit, 0, None).priority);
  }

  lemma UnturnedArc<T>(rows: seq<T>, slots: nat)
    requires slots <= |rows|
    ensures Arc(rows, slots, 0) == rows[..slots]
  {
    if rows != [] { SmallMod(0, |rows|); }
  }

  /** `count` members of a circle from `from` on. */
  function Circle<T>(rows: seq<T>, from: nat, count: nat): seq<T>
    requires rows != [] || count == 0
  {
    seq(count, i requires 0 <= i < count => rows[(from + i) % |rows|])
  }

  lemma ArcIsCircle<T>(rows: seq<T>, slots: nat, offset: nat)
    requires slots <= |rows|
    ensures Arc(rows, slots, offset) == Circle(rows, offset, slots)
  {
    hide Arc;
    ArcLength(rows, slots, offset);
    forall i: nat | i < slots ensures Arc(rows, slots, offset)[i] == rows[(offset + i) % |rows|] { HeadAt(rows, slots, offset, i); }
  }

  /** Which rows a run takes, and in which order. Each class is a circle. A rotation index moves both classes on,
      by their own slots each; the explicit offset moves the backlog alone, with or without a rotation index. */
  lemma SelectedInOrder<T>(priority: seq<T>, backlog: seq<T>, limit: Option<int>, offset: int, rotation: Option<int>)
    requires !OneSlotForTwo(priority, backlog, limit)
    ensures var r := Select(priority, backlog, limit, offset, rotation);
            var turn := if rotation.Some? && rotation.value > 0 then rotation.value else 0;
            var from := if offset > 0 then offset else 0;
            && r.shares.priority <= |priority| && r.shares.backlog <= |backlog|
            && r.selected == Circle(priority, turn * r.shares.priority, r.shares.priority)
                             + Circle(backlog, from + turn * r.shares.backlog, r.shares.backlog)
            && r.priorityOffset == (if r.shares.priority > 0 then (turn * r.shares.priority) % |priority| else 0)
            && r.backlogOffset == (if r.shares.backlog > 0 then (from + turn * r.shares.backlog) % |backlog| else 0)
  {
    hide Circle;
    SharesAddUp(|priority|, |backlog|, limit, offset, rotation);
    var s := SharesOf(|priority|, |backlog|, limit, offset, rotation);
    var offsets := Offsets(s, offset, rotation);
    ArcIsCircle(priority, s.priority, offsets.0);
    ArcIsCircle(backlog, s.backlog, offsets.1);
  }

  /** One slot for two classes: even turns take from the priorities and odd ones from the backlog. Without a
      rotation index the explicit offset is the turn, and no longer moves the backlog besides. */
  lemma OneSlotInOrder<T>(priority: seq<T>, backlog: seq<T>, offset: int, rotation: Option<int>)
    requires priority != [] && backlog != []
    ensures var r := Select(priority, backlog, Some(1), offset, rotation);
            var from := if offset > 0 then offset else 0;
            var turn := if rotation.None? then from else if rotation.value > 0 then rotation.value else 0;
            r.selected == if turn % 2 == 0 then Circle(priority, turn / 2, 1)
                          else Circle(backlog, turn / 2 + (if rotation.None? then 0 else from), 1)
  {
    hide Circle;
    var s := SharesOf(|priority|, |backlog|, Some(1), offset, rotation);
    var offsets := Offsets(s, offset, rotation);
    ArcIsCircle(priority, s.priority, offsets.0);
    ArcIsCircle(backlog, s.backlog, offsets.1);
    assert Circle(priority, offsets.0, 0) == [] == Circle(backlog, offsets.1, 0) by { NoneOfCircle(priority, offsets.0); NoneOfCircle(backlog, offsets.1); }
  }

  lemma NoneOfCircle<T>(rows: seq<T>, from: nat)
    ensures Circle(rows, from, 0) == []
  {
  }
}

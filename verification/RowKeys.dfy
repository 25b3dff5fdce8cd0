/** The key a source row is filed under: when its text can be taken apart again, and when filling a row from
    another of the same key leaves the key as it was. */
module RowKeys {
  import opened Common
  import opened RowMerge

  const OBSERVATION_MARK := ":observation:"

  ghost predicate At(s: string, word: string, i: int) {
    0 <= i && i + |word| <= |s| && s[i..i + |word|] == word
  }

  ghost predicate Contains(s: string, word: string) {
    exists i :: At(s, word, i)
  }

  /** The source key of the row can be taken apart: neither the source nor the observation id has a colon, and
      without an observation id the entity does not read like one. Entity ids may well have colons. */
  ghost predicate Plain(row: Row) {
    && ':' !in Get(row, "source") && ':' !in Get(row, "source_observation_id")
    && (Get(row, "source_observation_id") == "" ==> !Contains(":" + Get(row, "source_entity_id"), OBSERVATION_MARK))
  }

  ghost predicate AllPlain(rows: seq<Row>) {
    forall i | 0 <= i < |rows| :: Plain(rows[i])
  }

  /** The colons of a URL do no harm. */
  lemma UrlRowsArePlain(row: Row, rest: string)
    requires ':' !in Get(row, "source") && ':' !in Get(row, "source_observation_id")
    requires Get(row, "source_entity_id") == "https://" + rest && !Contains(rest, OBSERVATION_MARK)
    ensures Plain(row)
  {
    var head, word := ":https://", OBSERVATION_MARK;
    var s := ":" + Get(row, "source_entity_id");
    assert s == head + rest;
    assert word[0] == ':' && word[1] == 'o' && head[0] == ':' && head[1] == 'h' && head[6] == ':' && head[7] == '/';
    forall i ensures !At(s, word, i) {
      if 0 <= i && i + |word| <= |s| {
        var at := s[i..i + |word|];
        assert at[0] == s[i] && at[1] == s[i + 1];
        if i < 9 {
          assert s[i] == head[i] && (i < 8 ==> s[i + 1] == head[i + 1]);
        } else {
          assert !At(rest, word, i - 9);
          assert at == rest[i - 9..i - 9 + |word|];
        }
      }
    }
  }

  lemma NumberedRowsArePlain(row: Row)
    requires forall c | c in KEY_COLUMNS :: ':' !in Get(row, c)
    ensures Plain(row)
  {
    assert "source" in KEY_COLUMNS && "source_entity_id" in KEY_COLUMNS && "source_observation_id" in KEY_COLUMNS;
    var s, word := ":" + Get(row, "source_entity_id"), OBSERVATION_MARK;
    assert word[12] == ':' && |word| == 13;
    forall i ensures !At(s, word, i) {
      if 0 <= i && i + |word| <= |s| { assert s[i..i + |word|][12] == s[i + 12]; }
    }
  }

  /** A row as the refresh writes it: a source's name, an entity that is a number or a URL, and perhaps the
      hexadecimal digest of an observation. */
  ghost predicate Written(row: Row) {
    && ':' !in Get(row, "source") && ':' !in Get(row, "source_observation_id")
    && (':' !in Get(row, "source_entity_id")
        || exists rest :: Get(row, "source_entity_id") == "https://" + rest && !Contains(rest, OBSERVATION_MARK))
  }

  lemma WrittenIsPlain(row: Row)
    requires Written(row)
    ensures Plain(row)
  {
    hide Get, Contains;
    if ':' !in Get(row, "source_entity_id") {
      NumberedRowsArePlain(row);
    } else {
      var rest :| Get(row, "source_entity_id") == "https://" + rest && !Contains(rest, OBSERVATION_MARK);
      UrlRowsArePlain(row, rest);
    }
  }

  // ---- splitting a source key ----

  lemma {:induction false} SplitAtColon(a: string, x: string, b: string, y: string)
    requires ':' !in a && ':' !in b && a + x == b + y
    requires (x == "" || x[0] == ':') && (y == "" || y[0] == ':')
    ensures a == b && x == y
  {
    if a == "" {
      assert a + x == x;
      FrontIsNoColon(b, y);
      assert b == "" ==> b + y == y;
    } else {
      assert (a + x)[0] == a[0];
      assert b == "" ==> b + y == y;
      assert b != "" ==> (b + y)[0] == b[0];
      assert (a + x)[1..] == a[1..] + x && (b + y)[1..] == b[1..] + y;
      SplitAtColon(a[1..], x, b[1..], y);
      assert a == [a[0]] + a[1..] && b == [b[0]] + b[1..];
    }
  }

  lemma FrontIsNoColon(b: string, y: string)
    ensures b != "" && ':' !in b ==> b + y != "" && (b + y)[0] != ':'
  {
    assert b != "" ==> (b + y)[0] == b[0];
  }

  lemma LastColon(p: string, o: string)
    requires ':' !in o
    ensures var s := p + ":" + o;
            && |s| > |p| && s[|p|] == ':' && s[..|p|] == p && s[|p| + 1..] == o
            && forall i | |p| < i < |s| :: s[i] != ':'
  {
    var s := p + ":" + o;
    assert forall i | |p| < i < |s| :: s[i] == o[i - |p| - 1];
  }

  lemma SplitAtLastColon(p: string, o: string, p': string, o': string)
    requires ':' !in o && ':' !in o' && p + ":" + o == p' + ":" + o'
    ensures p == p' && o == o'
  {
    LastColon(p, o);
    LastColon(p', o');
  }

  function EntityText(e: string): string {
    if e != "" then ":" + e else ""
  }

  /** What follows the source in a source key. */
  function Tail(e: string, o: string): string {
    EntityText(e) + if o != "" then OBSERVATION_MARK + o else ""
  }

  lemma EntitiesAgree(e: string, e': string)
    requires EntityText(e) == EntityText(e')
    ensures e == e'
  {
    if e != "" { assert EntityText(e)[1..] == e; }
    if e' != "" { assert EntityText(e')[1..] == e'; }
  }

  /** With an observation id a tail never reads like a lone entity. */
  lemma ObservationShows(e: string, o: string, e': string)
    requires o != "" && !Contains(":" + e', OBSERVATION_MARK)
    ensures Tail(e, o) != Tail(e', "")
  {
    var left, n := EntityText(e) + (OBSERVATION_MARK + o), |EntityText(e)|;
    assert left[n..n + |OBSERVATION_MARK|] == OBSERVATION_MARK;
    assert At(left, OBSERVATION_MARK, n);
    assert Tail(e', "") == EntityText(e');
    assert |left| >= 13;
  }

  lemma TailsAgree(e: string, o: string, e': string, o': string)
    requires ':' !in o && ':' !in o' && Tail(e, o) == Tail(e', o')
    requires o == "" ==> !Contains(":" + e, OBSERVATION_MARK)
    requires o' == "" ==> !Contains(":" + e', OBSERVATION_MARK)
    ensures e == e' && o == o'
  {
    hide EntityText, Contains;
    if o != "" && o' != "" {
      var word := ":observation";
      assert OBSERVATION_MARK == word + ":";
      assert Tail(e, o) == (EntityText(e) + word) + ":" + o && Tail(e', o') == (EntityText(e') + word) + ":" + o';
      SplitAtLastColon(EntityText(e) + word, o, EntityText(e') + word, o');
      assert (EntityText(e) + word)[..|EntityText(e)|] == EntityText(e);
      assert (EntityText(e') + word)[..|EntityText(e')|] == EntityText(e');
      EntitiesAgree(e, e');
    } else if o == "" && o' == "" {
      assert Tail(e, o) == EntityText(e) && Tail(e', o') == EntityText(e');
      EntitiesAgree(e, e');
    } else if o == "" {
      ObservationShows(e', o', e);
    } else {
      ObservationShows(e, o, e');
    }
  }

  lemma LowerKeepsColons(s: string)
    ensures ':' in Lower(s) <==> ':' in s
  {
    assert forall i | 0 <= i < |s| :: Lower(s)[i] == ':' <==> s[i] == ':';
    if ':' in Lower(s) {
      var i :| 0 <= i < |Lower(s)| && Lower(s)[i] == ':';
      assert s[i] == ':';
    }
    if ':' in s {
      var i :| 0 <= i < |s| && s[i] == ':';
      assert Lower(s)[i] == ':';
    }
  }

  lemma KeyText(row: Row)
    ensures SourceText(row) == Lower(Get(row, "source")) + Tail(Get(row, "source_entity_id"), Get(row, "source_observation_id"))
    ensures var tail := Tail(Get(row, "source_entity_id"), Get(row, "source_observation_id")); tail == "" || tail[0] == ':'
  {
    hide Lower, Get;
  }

  lemma PlainKeyParts(a: Row, b: Row)
    requires Plain(a) && Plain(b) && SourceText(a) == SourceText(b)
    ensures Lower(Get(a, "source")) == Lower(Get(b, "source"))
    ensures Get(a, "source_entity_id") == Get(b, "source_entity_id")
    ensures Get(a, "source_observation_id") == Get(b, "source_observation_id")
  {
    hide Lower, Get, Tail, SourceText, Contains;
    LowerKeepsColons(Get(a, "source"));
    LowerKeepsColons(Get(b, "source"));
    KeyText(a);
    KeyText(b);
    var e, o, e', o' := Get(a, "source_entity_id"), Get(a, "source_observation_id"), Get(b, "source_entity_id"), Get(b, "source_observation_id");
    SplitAtColon(Lower(Get(a, "source")), Tail(e, o), Lower(Get(b, "source")), Tail(e', o'));
    TailsAgree(e, o, e', o');
  }

  // ---- a filled row keeps its key ----

  lemma FillAt(t: Reader, target: Row, row: Row, c: string)
    ensures Get(Fill(t, target, row), c) == if Fills(t, target, row, c) then Get(row, c) else Get(target, c)
  {
    assert !Held(t, c, "");
  }

  lemma FillCarried(t: Reader, target: Row, row: Row, c: string)
    requires c !in TARGET_FIELDS
    ensures var filled := Fill(t, target, row);
            && (Get(filled, c) == Get(target, c) || Get(filled, c) == Get(row, c))
            && (!Blank(Get(target, c)) ==> Get(filled, c) == Get(target, c))
  {
    FillAt(t, target, row, c);
  }

  lemma SameId(t: Reader, row: Row, c: string)
    requires Readable(t, row) && c in STRICT_CARRIERS + {"fighter_url"}
    ensures Carried(t, row, c) != "" ==> Carried(t, row, c) == StableId(t, row)
    ensures StableId(t, row) != "" ==> exists d :: d in STRICT_CARRIERS + {"fighter_url"} && Carried(t, row, d) == StableId(t, row)
  {
    assert "stable_ufcstats_id" in STRICT_CARRIERS && "fighter_id" in STRICT_CARRIERS && "ufcstats_url" in STRICT_CARRIERS;
  }

  lemma StableIdFrom(t: Reader, row: Row, id: string)
    requires forall c | c in STRICT_CARRIERS + {"fighter_url"} :: Carried(t, row, c) == "" || Carried(t, row, c) == id
    ensures StableId(t, row) == "" || StableId(t, row) == id
    ensures (exists c :: c in STRICT_CARRIERS + {"fighter_url"} && Carried(t, row, c) == id) ==> StableId(t, row) == id
  {
    assert "stable_ufcstats_id" in STRICT_CARRIERS && "fighter_id" in STRICT_CARRIERS && "ufcstats_url" in STRICT_CARRIERS;
  }

  /** One identity column of a filled row: it comes from one of the two, names nobody else, and is as well
      formed as it was. */
  lemma FilledCarrier(t: Reader, target: Row, row: Row, c: string)
    requires Readable(t, target) && Readable(t, row) && IdentityOf(t, target) == IdentityOf(t, row)
    requires c in STRICT_CARRIERS + {"fighter_url"}
    ensures var filled := Fill(t, target, row);
            && (Carried(t, filled, c) == "" || Carried(t, filled, c) == StableId(t, target))
            && (Carried(t, target, c) != "" ==> Carried(t, filled, c) == Carried(t, target, c))
            && (c in STRICT_CARRIERS && !Blank(Get(filled, c)) ==> Carried(t, filled, c) != "")
            && (c == "fighter_url" && !Blank(Get(filled, c)) && t.official(Get(filled, c)) ==> Carried(t, filled, c) != "")
  {
    hide Fill, StableId, Get, Blank;
    FillCarried(t, target, row, c);
    SameId(t, target, c);
    SameId(t, row, c);
  }

  /** Filling a row from another of the same fighter never changes whose row it is. */
  lemma FillKeepsIdentity(t: Reader, target: Row, row: Row)
    requires Readable(t, target) && Readable(t, row) && IdentityOf(t, target) == IdentityOf(t, row)
    ensures Readable(t, Fill(t, target, row)) && IdentityOf(t, Fill(t, target, row)) == IdentityOf(t, target)
  {
    hide Fill, StableId, Get, Blank, Carried;
    var filled := Fill(t, target, row);
    forall c | c in STRICT_CARRIERS + {"fighter_url"}
      ensures Carried(t, filled, c) == "" || Carried(t, filled, c) == StableId(t, target)
      ensures Carried(t, target, c) != "" ==> Carried(t, filled, c) == Carried(t, target, c)
      ensures c in STRICT_CARRIERS && !Blank(Get(filled, c)) ==> Carried(t, filled, c) != ""
      ensures c == "fighter_url" && !Blank(Get(filled, c)) && t.official(Get(filled, c)) ==> Carried(t, filled, c) != ""
    {
      FilledCarrier(t, target, row, c);
    }
    SameId(t, target, "fighter_url");
    StableIdFrom(t, filled, StableId(t, target));
    FillCarried(t, target, row, "name");
  }

  lemma FillsColumn(t: Reader, target: Row, row: Row, c: string)
    requires c in KEY_COLUMNS
    ensures Get(Fill(t, target, row), c) == if Blank(Get(target, c)) && !Blank(Get(row, c)) then Get(row, c) else Get(target, c)
  {
    hide Fill, Get, Blank;
    FillAt(t, target, row, c);
    assert c !in TARGET_FIELDS;
  }

  // ---- what a key weighs ----

  function FirstColon(s: string): (i: nat)
    requires ':' in s
    ensures i < |s| && s[i] == ':' && ':' !in s[..i]
  {
    if s[0] == ':' then 0
    else
      var rest := s[1..];
      assert s == [s[0]] + rest;
      var i := 1 + FirstColon(rest);
      assert s[..i] == [s[0]] + rest[..i - 1];
      i
  }

  /** The pieces between the colons, those that are no placeholder twice. */
  function Weight(s: string): (w: nat)
    ensures w >= 1
    decreases |s|
  {
    if ':' in s then PieceWeight(s[..FirstColon(s)]) + Weight(s[FirstColon(s) + 1..]) else PieceWeight(s)
  }

  function PieceWeight(piece: string): nat {
    if Blank(piece) then 1 else 2
  }

  lemma ColonBefore(s: string, i: nat, n: nat)
    requires i < |s| && n <= |s|
    ensures i < n && s[i] == ':' ==> ':' in s[..n]
  {
    if i < n { assert s[..n][i] == s[i]; }
  }

  lemma FirstColonIs(s: string, i: nat)
    requires i < |s| && s[i] == ':' && ':' !in s[..i]
    ensures FirstColon(s) == i
  {
    ColonBefore(s, i, FirstColon(s));
    ColonBefore(s, FirstColon(s), i);
  }

  lemma WeightAt(s: string, i: nat)
    requires i < |s| && s[i] == ':' && ':' !in s[..i]
    ensures Weight(s) == PieceWeight(s[..i]) + Weight(s[i + 1..])
  {
    hide PieceWeight;
    FirstColonIs(s, i);
  }

  lemma JoinedParts(x: string, y: string, i: nat)
    requires i <= |x|
    ensures var s := x + ":" + y;
            && s[|x|] == ':' && s[|x| + 1..] == y && s[..|x|] == x && s[..i] == x[..i]
            && (i < |x| ==> s[i] == x[i] && s[i + 1..] == x[i + 1..] + ":" + y)
  {
  }

  lemma {:induction false} WeightJoins(x: string, y: string)
    ensures Weight(x + ":" + y) == Weight(x) + Weight(y)
    decreases |x|
  {
    hide PieceWeight, Weight;
    var s := x + ":" + y;
    if ':' in x {
      var i := FirstColon(x);
      JoinedParts(x, y, i);
      WeightAt(x, i);
      WeightAt(s, i);
      WeightJoins(x[i + 1..], y);
    } else {
      JoinedParts(x, y, |x|);
      WeightAt(s, |x|);
      OnePiece(x);
    }
  }

  lemma OnePiece(s: string)
    requires ':' !in s
    ensures Weight(s) == PieceWeight(s)
  {
  }

  lemma BlankWeighs(v: string)
    ensures Blank(v) ==> Weight(v) == 1 && ':' !in v && ':' !in Lower(v)
    ensures !Blank(v) ==> Weight(v) >= 2 && v != ""
  {
    LowerKeepsColons(v);
  }

  lemma KeyWeight(row: Row)
    ensures Weight(SourceText(row)) == Weight(Lower(Get(row, "source")))
              + (if Get(row, "source_entity_id") != "" then Weight(Get(row, "source_entity_id")) else 0)
              + (if Get(row, "source_observation_id") != "" then Weight("observation") + Weight(Get(row, "source_observation_id")) else 0)
  {
    hide Get, Lower, Weight;
    var s, e, o := Lower(Get(row, "source")), Get(row, "source_entity_id"), Get(row, "source_observation_id");
    var front := if e != "" then s + ":" + e else s;
    if e != "" { WeightJoins(s, e); }
    assert s + (":" + e) == s + ":" + e;
    if o != "" {
      assert ":observation:" + o == ":" + ("observation" + ":" + o);
      assert front + (":observation:" + o) == front + ":" + ("observation" + ":" + o);
      WeightJoins(front, "observation" + ":" + o);
      WeightJoins("observation", o);
    }
    assert s + "" == s && front + "" == front;
  }

  /** A source that the key text may begin with. */
  ghost predicate Leads(source: string, text: string) {
    |source| <= |text| && text[..|source|] == source && (|source| < |text| ==> text[|source|] == ':')
  }

  lemma KeyLeads(row: Row)
    ensures Leads(Lower(Get(row, "source")), SourceText(row))
  {
    hide Get, Lower, Tail, SourceText;
    KeyText(row);
  }

  /** Of two such sources the one without a colon is the other, or lighter. */
  lemma LeadsApart(a: string, b: string, text: string)
    requires Leads(a, text) && Leads(b, text) && ':' !in a && a != b
    ensures Weight(b) > Weight(a)
  {
    hide Weight;
    if |a| < |b| {
      assert b[|a|] == text[|a|] && b[..|a|] == a;
      assert b == a + ":" + b[|a| + 1..];
      WeightJoins(a, b[|a| + 1..]);
    }
  }

  // ---- a filled row and its key ----

  /** What a column puts in the key. */
  function KeyPart(c: string, v: string): string {
    if c == "source" then Lower(v) else v
  }

  /** The row would fill the key column, with a text other than there is. */
  ghost predicate RewritesAt(target: Row, row: Row, c: string) {
    c in KEY_COLUMNS && Blank(Get(target, c)) && !Blank(Get(row, c)) && KeyPart(c, Get(row, c)) != KeyPart(c, Get(target, c))
  }

  ghost predicate RewritesColumn(target: Row, row: Row) {
    exists c :: RewritesAt(target, row, c)
  }

  lemma NothingRewrittenKeeps(t: Reader, target: Row, row: Row)
    requires !RewritesColumn(target, row)
    ensures SourceText(Fill(t, target, row)) == SourceText(target)
    ensures Lower(Get(Fill(t, target, row), "source")) == Lower(Get(target, "source"))
  {
    hide Fill, Get, Blank, Lower;
    assert "source" in KEY_COLUMNS && "source_entity_id" in KEY_COLUMNS && "source_observation_id" in KEY_COLUMNS;
    FillsColumn(t, target, row, "source");
    FillsColumn(t, target, row, "source_entity_id");
    FillsColumn(t, target, row, "source_observation_id");
    assert !RewritesAt(target, row, "source") && !RewritesAt(target, row, "source_entity_id") && !RewritesAt(target, row, "source_observation_id");
  }

  /** The source column alone: it leads the key as before, and weighs more if it is rewritten. */
  lemma FillsSource(t: Reader, target: Row, row: Row, text: string)
    requires Leads(Lower(Get(target, "source")), text) && Leads(Lower(Get(row, "source")), text)
    ensures var was, now := Lower(Get(target, "source")), Lower(Get(Fill(t, target, row), "source"));
            Leads(now, text) && Weight(now) >= Weight(was) && (RewritesAt(target, row, "source") ==> Weight(now) > Weight(was))
  {
    hide Fill, Get, Blank, Lower, Weight, Leads;
    assert "source" in KEY_COLUMNS;
    FillsColumn(t, target, row, "source");
    BlankWeighs(Get(target, "source"));
    if Blank(Get(target, "source")) && Lower(Get(row, "source")) != Lower(Get(target, "source")) {
      LeadsApart(Lower(Get(target, "source")), Lower(Get(row, "source")), text);
    }
  }

  lemma FillsOther(t: Reader, target: Row, row: Row, c: string)
    requires c in KEY_COLUMNS && c != "source"
    ensures var was, now := Get(target, c), Get(Fill(t, target, row), c);
            && Weight(now) >= Weight(was) && (was != "" ==> now != "")
            && (RewritesAt(target, row, c) ==> Weight(now) > Weight(was) && now != "")
  {
    hide Fill, Get, Weight, Blank;
    FillsColumn(t, target, row, c);
    BlankWeighs(Get(target, c));
    BlankWeighs(Get(row, c));
  }

  /** Filling leaves the key text of a row as it is, or makes it weigh more: that exactly when a key column is
      rewritten. */
  lemma FillWeighs(t: Reader, target: Row, row: Row, text: string)
    requires Leads(Lower(Get(target, "source")), text) && Leads(Lower(Get(row, "source")), text)
    ensures var filled := Fill(t, target, row);
            && Leads(Lower(Get(filled, "source")), text)
            && (if RewritesColumn(target, row) then Weight(SourceText(filled)) > Weight(SourceText(target))
                else SourceText(filled) == SourceText(target))
  {
    hide Fill, Get, Blank, Lower, Weight, Leads, RewritesAt, SourceText;
    assert "source" in KEY_COLUMNS && "source_entity_id" in KEY_COLUMNS && "source_observation_id" in KEY_COLUMNS;
    FillsSource(t, target, row, text);
    if RewritesColumn(target, row) {
      KeyWeight(target);
      KeyWeight(Fill(t, target, row));
      FillsOther(t, target, row, "source_entity_id");
      FillsOther(t, target, row, "source_observation_id");
      OneOfThree(target, row);
    } else {
      NothingRewrittenKeeps(t, target, row);
    }
  }

  lemma OneOfThree(target: Row, row: Row)
    ensures RewritesColumn(target, row) ==> RewritesAt(target, row, "source") || RewritesAt(target, row, "source_entity_id")
                                            || RewritesAt(target, row, "source_observation_id")
  {
    hide Get, Blank, KeyPart;
  }

  /** Exactly when filling one row from another of the same key leaves its key text as it was. */
  lemma KeyKeptExactly(t: Reader, target: Row, row: Row, text: string)
    requires Leads(Lower(Get(target, "source")), text) && Leads(Lower(Get(row, "source")), text)
    ensures SourceText(Fill(t, target, row)) == SourceText(target) <==> !RewritesColumn(target, row)
  {
    hide Fill, SourceText, Weight, Leads, Get;
    FillWeighs(t, target, row, text);
  }

  // ---- cleaning keeps the key ----

  /** Two rows that differ in target fields only. */
  ghost predicate SameColumns(a: Row, b: Row) {
    forall f | f !in TARGET_FIELDS :: Get(a, f) == Get(b, f)
  }

  lemma SameCarried(t: Reader, a: Row, b: Row)
    requires SameColumns(a, b)
    ensures forall c | c in STRICT_CARRIERS + {"fighter_url"} :: Get(a, c) == Get(b, c) && Carried(t, a, c) == Carried(t, b, c)
    ensures Get(a, "name") == Get(b, "name")
  {
    hide Blank, Get;
    forall c | c in STRICT_CARRIERS + {"fighter_url"} ensures Get(a, c) == Get(b, c) {
      assert c !in TARGET_FIELDS;
    }
    assert "name" !in TARGET_FIELDS;
  }

  lemma SameColumnsRead(t: Reader, a: Row, b: Row)
    requires SameColumns(a, b)
    ensures Readable(t, a) ==> Readable(t, b)
    ensures IdentityOf(t, a) == IdentityOf(t, b)
  {
    hide Blank, Get, SameColumns, Carried;
    SameCarried(t, a, b);
    assert "stable_ufcstats_id" in STRICT_CARRIERS && "fighter_id" in STRICT_CARRIERS && "ufcstats_url" in STRICT_CARRIERS;
  }

  lemma CleanKeepsKey(t: Reader, row: Row)
    ensures SameColumns(Clean(t, row), row)
    ensures KeyAt(t, Clean(t, row), 0) == KeyAt(t, row, 0) && HasKey(t, Clean(t, row)) == HasKey(t, row)
    ensures Readable(t, Clean(t, row)) == Readable(t, row)
  {
    hide Readable, IdentityOf, Present;
    var clean := Clean(t, row);
    assert SameColumns(clean, row) && SameColumns(row, clean);
    SameColumnsRead(t, clean, row);
    SameColumnsRead(t, row, clean);
    assert forall c | c in KEY_COLUMNS :: Get(clean, c) == Get(row, c);
    assert "source" in KEY_COLUMNS && "source_entity_id" in KEY_COLUMNS && "source_observation_id" in KEY_COLUMNS;
  }

  lemma CleanTwice(t: Reader, row: Row)
    ensures Clean(t, Clean(t, row)) == Clean(t, row)
  {
  }
}

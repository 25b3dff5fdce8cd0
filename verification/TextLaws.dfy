/** What the shared text helpers do, said without them: trimming, lower case, and reading numbers. */
module TextLaws {
  import opened Common

  predicate Blank(s: string) {
    forall i | 0 <= i < |s| :: Space(s[i])
  }

  /** Nothing to trim at either end. */
  predicate Bare(s: string) {
    s != "" ==> !Space(s[0]) && !Space(s[|s| - 1])
  }

  lemma {:induction false} TrimLeftSkips(a: string, s: string)
    requires Blank(a)
    ensures TrimLeft(a + s) == TrimLeft(s)
  {
    if a == "" {
      assert a + s == s;
    } else {
      TrimLeftSkips(a[1..], s);
      assert (a + s)[1..] == a[1..] + s;
    }
  }

  lemma {:induction false} TrimRightSkips(s: string, b: string)
    requires Blank(b)
    ensures TrimRight(s + b) == TrimRight(s)
  {
    if b == "" {
      assert s + b == s;
    } else {
      TrimRightSkips(s, b[..|b| - 1]);
      assert (s + b)[..|s + b| - 1] == s + b[..|b| - 1];
    }
  }

  /** Blanks around a text are what trimming removes, and no more. */
  lemma TrimIs(a: string, s: string, b: string)
    requires Blank(a) && Blank(b) && Bare(s)
    ensures Trim(a + s + b) == s
  {
    TrimLeftSkips(a, s + b);
    assert a + s + b == a + (s + b);
    if s == "" {
      assert s + b == b && TrimLeft(b) == "" by { TrimLeftSkips(b, ""); assert b + "" == b; }
    } else {
      assert (s + b)[0] == s[0];
      TrimRightSkips(s, b);
    }
  }

  lemma {:induction false} LeftPart(s: string) returns (a: string)
    ensures Blank(a) && s == a + TrimLeft(s) && (TrimLeft(s) != "" ==> !Space(TrimLeft(s)[0]))
  {
    a := "";
    if s != "" && Space(s[0]) {
      a := LeftPart(s[1..]);
      a := [s[0]] + a;
      assert s == [s[0]] + s[1..];
    }
  }

  lemma {:induction false} RightPart(s: string) returns (b: string)
    ensures Blank(b) && s == TrimRight(s) + b && (TrimRight(s) != "" ==> !Space(TrimRight(s)[|TrimRight(s)| - 1]))
  {
    b := "";
    if s != "" && Space(s[|s| - 1]) {
      b := RightPart(s[..|s| - 1]);
      b := b + [s[|s| - 1]];
      assert s == s[..|s| - 1] + [s[|s| - 1]];
    }
  }

  /** Every text is its trimmed form between blanks. */
  lemma TrimSplits(s: string) returns (a: string, b: string)
    ensures Blank(a) && Blank(b) && s == a + Trim(s) + b && Bare(Trim(s))
  {
    a := LeftPart(s);
    b := RightPart(TrimLeft(s));
    var t := TrimLeft(s);
    if Trim(s) != "" { assert Trim(s)[0] == t[0]; }
  }

  // ---- lower case ----

  const CAPITALS := "ABCDEFGHIJKLMNOPQRSTUVWXYZ"
  const LETTERS := "abcdefghijklmnopqrstuvwxyz"
  const DIGITS := "0123456789"

  /** Capitals become the letters of the same place in the alphabet; every other character stays. */
  lemma LowerIs(s: string, i: nat)
    requires i < |s|
    ensures |Lower(s)| == |s|
    ensures forall k | 0 <= k < 26 && s[i] == CAPITALS[k] :: Lower(s)[i] == LETTERS[k]
    ensures s[i] !in CAPITALS ==> Lower(s)[i] == s[i]
  {
    Alphabets();
    Letter(s[i]);
  }

  lemma Alphabets()
    ensures |CAPITALS| == 26 == |LETTERS| && |DIGITS| == 10
    ensures forall k | 0 <= k < 26 :: CAPITALS[k] == 'A' + k as char && LETTERS[k] == 'a' + k as char
    ensures forall k | 0 <= k < 10 :: DIGITS[k] == '0' + k as char
  {
  }

  lemma InAlphabet(alphabet: string, first: char, c: char)
    requires forall k | 0 <= k < |alphabet| :: alphabet[k] as int == first as int + k
    ensures c in alphabet <==> first as int <= c as int < first as int + |alphabet|
  {
    if first as int <= c as int < first as int + |alphabet| { assert alphabet[c as int - first as int] == c; }
  }

  /** The ranges are the alphabets. */
  lemma Letter(c: char)
    ensures c in CAPITALS <==> 'A' <= c <= 'Z'
    ensures c in LETTERS <==> 'a' <= c <= 'z'
    ensures c in DIGITS <==> '0' <= c <= '9'
  {
    Alphabets();
    InAlphabet(CAPITALS, 'A', c);
    InAlphabet(LETTERS, 'a', c);
    InAlphabet(DIGITS, '0', c);
  }

  // ---- numbers ----

  function DigitChar(d: nat): (c: char)
    requires d < 10
    ensures '0' <= c <= '9' && (c - '0') as nat == d
  {
    DIGITS[d]
  }

  function Printed(n: nat): string {
    (if n < 10 then "" else Printed(n / 10)) + [DigitChar(n % 10)]
  }

  /** A printed number reads as itself. */
  lemma {:induction false} PrintedReads(n: nat)
    ensures Digits(Printed(n)) && Decimal(Printed(n)) == n
  {
    hide DigitChar;
    var s := Printed(n);
    var front := s[..|s| - 1];
    if n < 10 {
      assert front == "" && s[0] == DigitChar(n);
    } else {
      PrintedReads(n / 10);
      assert front == Printed(n / 10);
    }
  }

  /** And so does one with zeros in front. */
  lemma {:induction false} LeadingZero(s: string)
    requires forall i | 0 <= i < |s| :: '0' <= s[i] <= '9'
    ensures Decimal("0" + s) == Decimal(s)
  {
    var z := "0" + s;
    if s != "" {
      LeadingZero(s[..|s| - 1]);
      assert z[..|z| - 1] == "0" + s[..|s| - 1];
    } else {
      assert z == "0" && z[..0] == "";
    }
  }
}

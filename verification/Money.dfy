/** Numbers as text: dollars and minutesToHM in web/src/lib/format.ts, and what a reader makes of them. */
module Money {
  import opened Options
  import opened Rfc4180

  predicate IsDigit(c: char) {
    '0' <= c <= '9'
  }

  function Digit(d: nat): (c: char)
    requires d < 10
    ensures IsDigit(c)
  {
    '0' + d as char
  }

  function Decimal(n: nat): (s: string)
    ensures s != ""
  {
    if n < 10 then [Digit(n)] else Decimal(n / 10) + [Digit(n % 10)]
  }

  /** padStart(2, '0') on a number below a hundred. */
  function TwoDigits(n: nat): string
    requires n < 100
  {
    [Digit(n / 10), Digit(n % 10)]
  }

  /** (cents / 100).toFixed(2) */
  function Dollars(cents: int): string {
    if cents < 0 then ['-'] + Unsigned(-cents) else Unsigned(cents)
  }

  function Unsigned(cents: nat): string {
    Decimal(cents / 100) + ['.'] + TwoDigits(cents % 100)
  }

  function MinutesToHM(minutes: int): string {
    var total := if minutes > 0 then minutes else 0;
    Decimal(total / 60) + ":" + TwoDigits(total % 60)
  }

  /* ---- reading them back ---- */

  function ReadDigit(c: char): nat
    requires IsDigit(c)
  {
    c as int - '0' as int
  }

  function ReadDecimal(s: string): Option<nat> {
    if s == "" || !IsDigit(s[|s| - 1]) then None
    else if |s| == 1 then Some(ReadDigit(s[0]))
    else
      match ReadDecimal(s[..|s| - 1])
      case None => None
      case Some(n) => Some(10 * n + ReadDigit(s[|s| - 1]))
  }

  /** Digits, a point, and exactly two digits. */
  function ReadUnsigned(s: string): Option<nat> {
    if |s| < 4 || s[|s| - 3] != '.' then None
    else
      match (ReadDecimal(s[..|s| - 3]), ReadDecimal(s[|s| - 2..]))
      case (Some(d), Some(c)) => Some(100 * d + c)
      case _ => None
  }

  function ReadCents(s: string): Option<int> {
    if s != "" && s[0] == '-' then
      match ReadUnsigned(s[1..])
      case Some(n) => Some(0 - n)
      case None => None
    else
      match ReadUnsigned(s)
      case Some(n) => Some(n)
      case None => None
  }

  /** Hours, a colon, and exactly two digits of minutes below sixty. */
  function ReadHM(s: string): Option<nat> {
    if |s| < 4 || s[|s| - 3] != ':' then None
    else
      match (ReadDecimal(s[..|s| - 3]), ReadDecimal(s[|s| - 2..]))
      case (Some(h), Some(m)) => if m < 60 then Some(60 * h + m) else None
      case _ => None
  }

  lemma {:induction false} DecimalReads(n: nat)
    ensures ReadDecimal(Decimal(n)) == Some(n)
  {
    if n >= 10 {
      DecimalReads(n / 10);
      assert Decimal(n)[..|Decimal(n)| - 1] == Decimal(n / 10);
    }
  }

  lemma {:induction false} DecimalIsDigits(n: nat)
    ensures forall k :: 0 <= k < |Decimal(n)| ==> IsDigit(Decimal(n)[k])
  {
    if n >= 10 {
      DecimalIsDigits(n / 10);
    }
  }

  lemma TwoDigitsRead(n: nat)
    requires n < 100
    ensures ReadDecimal(TwoDigits(n)) == Some(n)
  {
    var t := TwoDigits(n);
    assert |t| == 2 && t[..1] == [Digit(n / 10)] && ReadDecimal([Digit(n / 10)]) == Some(n / 10);
  }

  lemma Parts(a: string, b: string)
    requires |b| == 2
    ensures var s := a + ['.'] + b; s[|s| - 3] == '.' && s[..|s| - 3] == a && s[|s| - 2..] == b
  {
  }

  lemma UnsignedReads(cents: nat)
    ensures ReadUnsigned(Unsigned(cents)) == Some(cents)
  {
    DecimalReads(cents / 100);
    TwoDigitsRead(cents % 100);
    Parts(Decimal(cents / 100), TwoDigits(cents % 100));
  }

  lemma UnsignedIsPlain(cents: nat)
    ensures forall k :: 0 <= k < |Unsigned(cents)| ==> IsDigit(Unsigned(cents)[k]) || Unsigned(cents)[k] == '.'
    ensures Unsigned(cents) != "" && IsDigit(Unsigned(cents)[0])
  {
    DecimalIsDigits(cents / 100);
  }

  /** No zero in front, but for zero itself. */
  lemma {:induction false} DecimalIsShort(n: nat)
    ensures Decimal(n)[0] == '0' ==> n == 0 && Decimal(n) == "0"
  {
    if n >= 10 {
      DecimalIsShort(n / 10);
    }
  }

  /** As people write amounts: the sign, the dollars without a zero in front, the point, two digits. */
  predicate Amount(s: string) {
    |s| >= 4 && s[|s| - 3] == '.' && var from := if s[0] == '-' then 1 else 0;
    s[from] == '0' ==> |s| == from + 4
  }

  lemma DollarsAreShort(cents: int)
    ensures Amount(Dollars(cents))
  {
    var n: nat := if cents < 0 then -cents else cents;
    DecimalIsShort(n / 100);
    DecimalIsDigits(n / 100);
    Parts(Decimal(n / 100), TwoDigits(n % 100));
    if cents < 0 {
      assert Dollars(cents)[1..] == Unsigned(n);
    }
  }

  /** An amount is read back to the cent. */
  lemma DollarsRead(cents: int)
    ensures ReadCents(Dollars(cents)) == Some(cents)
  {
    if cents < 0 {
      UnsignedReads(-cents);
      assert Dollars(cents)[1..] == Unsigned(-cents);
    } else {
      UnsignedReads(cents);
      UnsignedIsPlain(cents);
    }
  }

  /** An amount never needs quoting. */
  lemma DollarsArePlain(cents: int)
    ensures Quote(Dollars(cents)) == Dollars(cents)
  {
    UnsignedIsPlain(if cents < 0 then -cents else cents);
  }

  lemma ColonParts(a: string, b: string)
    requires |b| == 2
    ensures var s := a + ":" + b; s[|s| - 3] == ':' && s[..|s| - 3] == a && s[|s| - 2..] == b
  {
  }

  /** Worked time is read back to the minute; a negative one reads as none. */
  lemma HoursRead(minutes: int)
    ensures ReadHM(MinutesToHM(minutes)) == Some(if minutes > 0 then minutes else 0)
  {
    var total := if minutes > 0 then minutes else 0;
    DecimalReads(total / 60);
    TwoDigitsRead(total % 60);
    ColonParts(Decimal(total / 60), TwoDigits(total % 60));
  }

  lemma HoursAreShort(minutes: int)
    ensures var s := MinutesToHM(minutes); |s| >= 4 && (s[0] == '0' ==> |s| == 4)
  {
    DecimalIsShort((if minutes > 0 then minutes else 0) / 60);
  }

  /** A cell a spreadsheet would evaluate: an equals, plus, minus or at sign, or a tab or CR before one. */
  predicate OpensFormula(v: string) {
    v != "" && (v[0] == '=' || v[0] == '+' || v[0] == '-' || v[0] == '@' || v[0] == '\t' || v[0] == '\r')
  }

  function EmployeeName(v: string): (r: string)
    ensures r == "" || r[0] !in {'=', '+', '-', '@', '\t', '\r'}
  {
    if OpensFormula(v) then "'" + v else v
  }

  /** The cell is the name, behind one apostrophe exactly when the name would open a formula. */
  lemma NameIsKept(v: string)
    ensures var cell := EmployeeName(v);
            && |v| <= |cell| <= |v| + 1 && cell[|cell| - |v|..] == v
            && (|cell| == |v| + 1 <==> v != "" && v[0] in {'=', '+', '-', '@', '\t', '\r'})
            && (|cell| == |v| + 1 ==> cell[0] == '\'')
  {
    if OpensFormula(v) {
      assert ("'" + v)[1..] == v;
    }
  }
}

/** The Python string operations the modelled code relies on. */
module Text {
  import opened Ordering

  // ---------------------------------------------------------------------------
  // Comparison
  // ---------------------------------------------------------------------------

  /** `a <= b` on strings: lexicographic by code point. */
  predicate Le(a: string, b: string) {
    if a == [] then true
    else if b == [] then false
    else if a[0] != b[0] then a[0] < b[0]
    else Le(a[1..], b[1..])
  }

  lemma {:induction false} LeTotal(a: string, b: string)
    ensures Le(a, b) || Le(b, a)
    ensures Le(a, b) && Le(b, a) ==> a == b
  {
    if a != [] && b != [] && a[0] == b[0] {
      LeTotal(a[1..], b[1..]);
      assert a == [a[0]] + a[1..] && b == [b[0]] + b[1..];
    }
  }

  /** Le is the dictionary order: a text comes after its prefixes, and otherwise the first difference decides. */
  lemma {:induction false} LeIsDictionary(p: string, a: string, b: string)
    ensures Le(p, p + a)
    ensures a != "" && b != "" && a[0] < b[0] ==> Le(p + a, p + b) && !Le(p + b, p + a)
  {
    if p == [] {
      assert p + a == a && p + b == b;
    } else {
      LeIsDictionary(p[1..], a, b);
      assert (p + a)[1..] == p[1..] + a && (p + b)[1..] == p[1..] + b;
    }
  }

  lemma {:induction false} LeTransitive(a: string, b: string, c: string)
    requires Le(a, b) && Le(b, c)
    ensures Le(a, c)
  {
    if a != [] && b != [] && c != [] && a[0] == b[0] == c[0] {
      LeTransitive(a[1..], b[1..], c[1..]);
    }
  }

  lemma {:induction false} LeIsTotalOrder()
    ensures TotalOrder(Le)
  {
    forall a, b
      ensures Le(a, b) || Le(b, a)
      ensures Le(a, b) && Le(b, a) ==> a == b
    {
      LeTotal(a, b);
    }
    forall a, b, c | Le(a, b) && Le(b, c)
      ensures Le(a, c)
    {
      LeTransitive(a, b, c);
    }
  }

  // ---------------------------------------------------------------------------
  // strip, split, join
  // ---------------------------------------------------------------------------

  predicate IsSpace(c: char) {
    c == ' ' || '\t' <= c <= '\r' || '\U{1c}' <= c <= '\U{1f}'
  }

  function StripLeft(s: string): string {
    if s != [] && IsSpace(s[0]) then StripLeft(s[1..]) else s
  }

  function StripRight(s: string): string {
    if s != [] && IsSpace(s[|s| - 1]) then StripRight(s[..|s| - 1]) else s
  }

  function Strip(s: string): string {
    StripRight(StripLeft(s))
  }

  /** `s.split(sep)` for a one-character separator: always at least one piece. */
  function Split(s: string, sep: char): (parts: seq<string>)
    ensures |parts| >= 1
    ensures forall p :: p in parts ==> sep !in p
  {
    if s == [] then [""]
    else
      var rest := Split(s[1..], sep);
      if s[0] == sep then [""] + rest
      else [[s[0]] + rest[0]] + rest[1..]
  }

  /** `sep.join(parts)`. */
  function Join(parts: seq<string>, sep: char): string {
    if |parts| == 0 then ""
    else if |parts| == 1 then parts[0]
    else parts[0] + [sep] + Join(parts[1..], sep)
  }

  lemma {:induction false} SplitPiece(piece: string, rest: string, sep: char)
    requires sep !in piece
    ensures Split(piece, sep) == [piece]
    ensures Split(piece + [sep] + rest, sep) == [piece] + Split(rest, sep)
  {
    var s := piece + [sep] + rest;
    if piece == [] {
      assert s[1..] == rest;
    } else {
      SplitPiece(piece[1..], rest, sep);
      assert s[1..] == piece[1..] + [sep] + rest;
      assert piece == [piece[0]] + piece[1..];
    }
  }

  /** Joining pieces that do not contain the separator loses nothing. */
  lemma {:induction false} SplitJoin(parts: seq<string>, sep: char)
    requires parts != []
    requires forall p :: p in parts ==> sep !in p
    ensures Split(Join(parts, sep), sep) == parts
  {
    hide Split;
    if |parts| == 1 {
      SplitPiece(parts[0], "", sep);
      assert parts == [parts[0]];
    } else {
      SplitPiece(parts[0], Join(parts[1..], sep), sep);
      SplitJoin(parts[1..], sep);
      assert parts == [parts[0]] + parts[1..];
    }
  }

  /** `s.lower()` on the ASCII letters. */
  function Lower(s: string): (r: string)
    ensures |r| == |s|
    ensures forall i :: 0 <= i < |s| && 'A' <= s[i] <= 'Z' ==>
              'a' <= r[i] <= 'z' && r[i] as int - 'a' as int == s[i] as int - 'A' as int
    ensures forall i :: 0 <= i < |s| && !('A' <= s[i] <= 'Z') ==> r[i] == s[i]
  {
    seq(|s|, i requires 0 <= i < |s| =>
      if 'A' <= s[i] <= 'Z' then (s[i] as int + 32) as char else s[i])
  }

  predicate Trimmed(s: string) {
    s == "" || (!IsSpace(s[0]) && !IsSpace(s[|s| - 1]))
  }

  lemma {:induction false} StripRightKeepsHead(s: string)
    ensures StripRight(s) <= s
    ensures s != "" && !IsSpace(s[0]) ==> StripRight(s) != ""
    ensures StripRight(s) != "" ==> !IsSpace(StripRight(s)[|StripRight(s)| - 1])
  {
    if s != "" && IsSpace(s[|s| - 1]) {
      StripRightKeepsHead(s[..|s| - 1]);
    }
  }

  lemma {:induction false} StripLeftHead(s: string)
    ensures StripLeft(s) != "" ==> !IsSpace(StripLeft(s)[0])
  {
    if s != "" && IsSpace(s[0]) {
      StripLeftHead(s[1..]);
    }
  }

  lemma {:induction false} StripTrims(s: string)
    ensures Trimmed(Strip(s))
    ensures Trimmed(s) ==> Strip(s) == s
  {
    StripLeftHead(s);
    StripRightKeepsHead(StripLeft(s));
  }

  /** The ASCII characters for which `isspace` holds. */
  const BLANKS: string := " \t\n\r\U{b}\U{c}\U{1c}\U{1d}\U{1e}\U{1f}"

  ghost predicate Blank(s: string) {
    forall c :: c in s ==> c in BLANKS
  }

  /** Stripping takes the blanks off both ends and nothing else. */
  lemma {:induction false} StripIs(left: string, core: string, right: string)
    requires Blank(left) && Blank(right)
    requires core != "" ==> core[0] !in BLANKS && core[|core| - 1] !in BLANKS
    ensures Strip(left + core + right) == core
  {
    if core == "" {
      assert left + core + right == (left + right) + "";
      StripLeftIs(left + right, "");
    } else {
      assert left + core + right == left + (core + right);
      StripLeftIs(left, core + right);
      StripRightIs(core, right);
    }
  }

  lemma {:induction false} BlanksAreSpaces(c: char)
    ensures IsSpace(c) <==> c in BLANKS
  {
  }

  lemma {:induction false} StripLeftIs(left: string, rest: string)
    requires Blank(left) && (rest != "" ==> rest[0] !in BLANKS)
    ensures StripLeft(left + rest) == rest
  {
    if left == "" {
      assert left + rest == rest;
      if rest != "" {
        BlanksAreSpaces(rest[0]);
      }
    } else {
      assert left[0] in left;
      BlanksAreSpaces(left[0]);
      assert (left + rest)[1..] == left[1..] + rest;
      StripLeftIs(left[1..], rest);
    }
  }

  lemma {:induction false} StripRightIs(core: string, right: string)
    requires Blank(right) && core != "" && core[|core| - 1] !in BLANKS
    ensures StripRight(core + right) == core
  {
    if right == "" {
      BlanksAreSpaces(core[|core| - 1]);
      assert core + right == core;
    } else {
      var n := |right| - 1;
      assert right[n] in right;
      BlanksAreSpaces(right[n]);
      assert (core + right)[..|core| + n] == core + right[..n];
      StripRightIs(core, right[..n]);
    }
  }

  /** Normalising an already normalised address changes nothing. */
  lemma {:induction false} LowerStripIdempotent(s: string)
    ensures Normal(Normal(s)) == Normal(s)
  {
    StripTrims(s);
    var t := Lower(Strip(s));
    assert Trimmed(t) by {
      if t != "" {
        assert Strip(s) != "";
      }
    }
    StripTrims(t);
    assert Lower(t) == t;
  }

  /** `normalize_email_address` */
  function Normal(email: string): string {
    Lower(Strip(email))
  }

  /** Addresses that differ in surrounding blanks and in the case of their letters are one address. */
  lemma {:induction false} NormalIs(left: string, core: string, right: string)
    requires Blank(left) && Blank(right)
    requires core != "" ==> core[0] !in BLANKS && core[|core| - 1] !in BLANKS
    ensures |Normal(left + core + right)| == |core|
    ensures forall i :: 0 <= i < |core| ==>
              var c := Normal(left + core + right)[i];
              if 'A' <= core[i] <= 'Z' then 'a' <= c <= 'z' && c as int - 'a' as int == core[i] as int - 'A' as int
              else c == core[i]
  {
    StripIs(left, core, right);
    hide Strip;
  }

  function MapStrip(parts: seq<string>): (r: seq<string>)
    ensures |r| == |parts|
    ensures forall i :: 0 <= i < |r| ==> r[i] == Strip(parts[i])
  {
    seq(|parts|, i requires 0 <= i < |parts| => Strip(parts[i]))
  }

  /** `[e.strip() for e in raw.split(",") if e.strip()]`. */
  function CommaList(raw: string): (r: seq<string>)
    ensures forall e :: e in r ==> e != ""
  {
    Filter(MapStrip(Split(raw, ',')), e => e != "")
  }

  lemma {:induction false} CommaListSingle(raw: string)
    requires ',' !in raw
    ensures |CommaList(raw)| <= 1
  {
    SplitPiece(raw, "", ',');
  }

  /** A comma list names the pieces between the commas, without surrounding blanks and without empty ones. */
  lemma {:induction false} CommaListIs(pieces: seq<string>)
    requires pieces != [] && forall p :: p in pieces ==> ',' !in p
    ensures forall e :: e in CommaList(Join(pieces, ',')) <==>
              e != "" && exists i :: 0 <= i < |pieces| && Strip(pieces[i]) == e
    ensures (forall p :: p in pieces ==> p != "" && Trimmed(p)) ==> CommaList(Join(pieces, ',')) == pieces
  {
    hide Strip, Split, Join, Trimmed;
    SplitJoin(pieces, ',');
    var stripped := MapStrip(pieces);
    if forall p :: p in pieces ==> p != "" && Trimmed(p) {
      forall i | 0 <= i < |pieces|
        ensures stripped[i] == pieces[i] != ""
      {
        assert pieces[i] in pieces;
        StripTrims(pieces[i]);
      }
      assert stripped == pieces;
      FilterAll(pieces, e => e != "");
    }
  }

  // ---------------------------------------------------------------------------
  // Digits and decimal numerals
  // ---------------------------------------------------------------------------

  predicate IsDigit(c: char) {
    '0' <= c <= '9'
  }

  /** `s.isdigit()` */
  predicate AllDigits(s: string) {
    s != [] && forall i :: 0 <= i < |s| ==> IsDigit(s[i])
  }

  /** `re.sub(r"\D+", "", s)` */
  function DigitsOf(s: string): (r: string)
    ensures forall c :: c in r <==> c in s && IsDigit(c)
  {
    Filter(s, IsDigit)
  }

  /** Only the digits count: any other character may come or go anywhere. */
  lemma {:induction false} DigitsAlone(a: string, c: char, b: string)
    requires !('0' <= c <= '9')
    ensures DigitsOf(a + [c] + b) == DigitsOf(a + b)
  {
    FilterConcat(a + [c], b, IsDigit);
    FilterConcat(a, [c], IsDigit);
    FilterConcat(a, b, IsDigit);
  }

  lemma {:induction false} DigitsAreDigits(s: string)
    requires forall c :: c in s ==> '0' <= c <= '9'
    ensures DigitsOf(s) == s
  {
    FilterAll(s, IsDigit);
  }

  /** `int(s)` for a string of digits; leading zeros are allowed. */
  function DigitsValue(s: string): nat
    requires forall i :: 0 <= i < |s| ==> IsDigit(s[i])
  {
    if s == [] then 0
    else
      var last := s[|s| - 1];
      assert IsDigit(last);
      DigitsValue(s[..|s| - 1]) * 10 + (last as int - '0' as int)
  }

  function Numeral(n: nat): (s: string)
    ensures AllDigits(s) && DigitsValue(s) == n
  {
    var last := ['0' + (n % 10) as char];
    if n < 10 then last else Numeral(n / 10) + last
  }

  lemma {:induction false} NumeralLeads(n: nat)
    ensures n > 0 ==> Numeral(n)[0] != '0'
    ensures n == 0 ==> Numeral(n) == "0"
  {
    if n < 10 {
    } else {
      NumeralLeads(n / 10);
    }
  }

  lemma {:induction false} ZeroIff(s: string)
    requires forall i :: 0 <= i < |s| ==> IsDigit(s[i])
    ensures DigitsValue(s) == 0 <==> forall i :: 0 <= i < |s| ==> s[i] == '0'
  {
    if s == [] {
    } else {
      ZeroIff(s[..|s| - 1]);
    }
  }

  /** The numbers from 100 to 199 are the three digits that start with 1, behind any zeros. */
  lemma {:induction false} HundredsIff(s: string)
    requires AllDigits(s)
    ensures 100 <= DigitsValue(s) <= 199 <==>
            |s| >= 3 && s[|s| - 3] == '1' && forall i :: 0 <= i < |s| - 3 ==> s[i] == '0'
  {
    var n := |s|;
    if n >= 3 {
      var rest := s[..n - 3];
      assert s[..n - 1][..n - 2] == s[..n - 2] && s[..n - 2][..n - 3] == rest;
      ZeroIff(rest);
      assert DigitsValue(s[..n - 2]) == DigitsValue(rest) * 10 + (s[n - 3] as int - '0' as int);
      assert DigitsValue(s[..n - 1]) == DigitsValue(s[..n - 2]) * 10 + (s[n - 2] as int - '0' as int);
    } else if n == 2 {
      assert s[..1][..0] == [];
      assert DigitsValue(s[..1]) == s[0] as int - '0' as int;
    }
  }

  /** `str(n)` for an integer. */
  function Decimal(n: int): string {
    if n < 0 then ['-'] + Numeral(-n) else Numeral(n)
  }

  lemma {:induction false} DecimalInjective(m: int, n: int)
    requires m != n
    ensures Decimal(m) != Decimal(n)
  {
    var a, b := Numeral(if m < 0 then -m else m), Numeral(if n < 0 then -n else n);
    assert IsDigit(a[0]) && IsDigit(b[0]);
    if m < 0 && n < 0 {
      assert Decimal(m)[1..] == a && Decimal(n)[1..] == b;
    } else if m < 0 || n < 0 {
      assert Decimal(m)[0] != Decimal(n)[0];
    }
  }
}

/**
The string functions of Go that the repository uses, on strings of bytes: case folding and
white space are those of ASCII.
*/
module Text {
  function Lower(c: char): char {
    if 'A' <= c <= 'Z' then (c as int + 32) as char else c
  }

  function ToLower(s: string): string {
    seq(|s|, i requires 0 <= i < |s| => Lower(s[i]))
  }

  predicate EqualFold(a: string, b: string) {
    ToLower(a) == ToLower(b)
  }

  /** Equal up to the case of letters, byte by byte. */
  lemma EqualFoldLaw(a: string, b: string)
    ensures EqualFold(a, b) <==> |a| == |b| && forall i :: 0 <= i < |a| ==>
              || a[i] == b[i]
              || ('A' <= a[i] <= 'Z' && b[i] as int == a[i] as int + 32)
              || ('A' <= b[i] <= 'Z' && a[i] as int == b[i] as int + 32)
  {
    if EqualFold(a, b) {
      forall i | 0 <= i < |a|
        ensures a[i] == b[i] || ('A' <= a[i] <= 'Z' && b[i] as int == a[i] as int + 32) ||
                ('A' <= b[i] <= 'Z' && a[i] as int == b[i] as int + 32)
      {
        assert ToLower(a)[i] == ToLower(b)[i];
      }
    }
  }

  /** The order of Go's `<` on strings. */
  predicate Less(a: string, b: string) {
    b != [] && (a == [] || a[0] < b[0] || (a[0] == b[0] && Less(a[1..], b[1..])))
  }

  /** A proper prefix comes first; otherwise the first byte that differs decides. */
  lemma {:induction false} LessLaw(common: string, a: string, b: string)
    requires a != [] && b != [] ==> a[0] != b[0]
    ensures Less(common + a, common + b) <==> (a == [] && b != []) || (a != [] && b != [] && a[0] < b[0])
  {
    if common == [] {
      assert common + a == a && common + b == b;
    } else {
      assert (common + a)[1..] == common[1..] + a && (common + b)[1..] == common[1..] + b;
      LessLaw(common[1..], a, b);
    }
  }

  lemma {:induction false} LessIsTotal(a: string, b: string)
    ensures a == b || Less(a, b) || Less(b, a)
  {
    if a != [] && b != [] && a[0] == b[0] {
      LessIsTotal(a[1..], b[1..]);
      assert a == [a[0]] + a[1..] && b == [b[0]] + b[1..];
    }
  }

  lemma {:induction false} LessIsAsymmetric(a: string, b: string)
    requires Less(a, b)
    ensures !Less(b, a)
  {
    if a != [] && a[0] == b[0] {
      LessIsAsymmetric(a[1..], b[1..]);
    }
  }

  // ---- Trimming ----

  predicate IsSpace(c: char) {
    c == ' ' || ('\t' <= c <= '\r')
  }

  function TrimLeft(s: string): string {
    if s != [] && IsSpace(s[0]) then TrimLeft(s[1..]) else s
  }

  function TrimRight(s: string): string {
    if s != [] && IsSpace(s[|s| - 1]) then TrimRight(s[..|s| - 1]) else s
  }

  function TrimSpace(s: string): string {
    TrimRight(TrimLeft(s))
  }

  lemma TrimKeepsTight(s: string)
    requires s != [] && !IsSpace(s[0]) && !IsSpace(s[|s| - 1])
    ensures TrimSpace(s) == s
  {
  }

  lemma {:induction false} TrimLeftIsSubset(s: string, c: char)
    requires c in TrimLeft(s)
    ensures c in s
  {
    if s != [] && IsSpace(s[0]) {
      TrimLeftIsSubset(s[1..], c);
    }
  }

  lemma {:induction false} TrimRightIsSubset(s: string, c: char)
    requires c in TrimRight(s)
    ensures c in s
  {
    if s != [] && IsSpace(s[|s| - 1]) {
      TrimRightIsSubset(s[..|s| - 1], c);
    }
  }

  lemma {:induction false} TrimLeftStops(s: string, t: string)
    requires TrimLeft(s) != ""
    ensures TrimLeft(s + t) == TrimLeft(s) + t
  {
    if IsSpace(s[0]) {
      assert (s + t)[1..] == s[1..] + t;
      TrimLeftStops(s[1..], t);
    }
  }

  lemma {:induction false} TrimLeftTwice(s: string)
    ensures TrimLeft(TrimLeft(s)) == TrimLeft(s)
  {
    if s != [] && IsSpace(s[0]) {
      TrimLeftTwice(s[1..]);
    }
  }

  /** Trimming on the right stops at a character that is not white space. */
  lemma {:induction false} TrimRightStops(s: string, c: char, t: string)
    requires !IsSpace(c)
    ensures TrimRight(s + [c] + t) == s + [c] + TrimRight(t)
  {
    var all := s + [c] + t;
    if t == [] {
      assert all[|all| - 1] == c;
    } else if IsSpace(t[|t| - 1]) {
      assert all[..|all| - 1] == s + [c] + t[..|t| - 1];
      TrimRightStops(s, c, t[..|t| - 1]);
    }
  }

  lemma TrimRightKeepsHead(s: string)
    requires s != [] && TrimRight(s[1..]) != ""
    ensures TrimRight(s) == [s[0]] + TrimRight(s[1..])
    decreases |s|
  {
    if IsSpace(s[|s| - 1]) {
      assert s[1..][..|s| - 2] == s[..|s| - 1][1..];
      TrimRightKeepsHead(s[..|s| - 1]);
    } else {
      assert s == [s[0]] + s[1..];
    }
  }

  // ---- Splitting at commas ----

  function Split(s: string): (r: seq<string>)
    ensures |r| >= 1
  {
    if s == [] then [""]
    else
      var rest := Split(s[1..]);
      if s[0] == ',' then [""] + rest else [[s[0]] + rest[0]] + rest[1..]
  }

  function Join(pieces: seq<string>): string {
    if pieces == [] then ""
    else if |pieces| == 1 then pieces[0]
    else pieces[0] + "," + Join(pieces[1..])
  }

  /** A character in front of a comma-separated text. */
  function Prefixed(c: char, pieces: seq<string>): seq<string>
    requires pieces != []
  {
    if c == ',' then [""] + pieces else [[c] + pieces[0]] + pieces[1..]
  }

  lemma SplitHead(c: char, s: string)
    ensures Split([c] + s) == Prefixed(c, Split(s))
  {
    assert ([c] + s)[1..] == s;
  }

  lemma PrefixedConcat(c: char, a: seq<string>, b: seq<string>)
    requires a != []
    ensures Prefixed(c, a + b) == Prefixed(c, a) + b
  {
    assert (a + b)[1..] == a[1..] + b;
  }

  lemma {:induction false} SplitConcat(s: string, t: string)
    ensures Split(s + "," + t) == Split(s) + Split(t)
  {
    if s == [] {
      assert s + "," + t == [','] + t;
      SplitHead(',', t);
    } else {
      assert s + "," + t == [s[0]] + (s[1..] + "," + t) && s == [s[0]] + s[1..];
      SplitConcat(s[1..], t);
      SplitHead(s[0], s[1..] + "," + t);
      SplitHead(s[0], s[1..]);
      PrefixedConcat(s[0], Split(s[1..]), Split(t));
    }
  }

  lemma {:induction false} SplitPiece(s: string)
    requires ',' !in s
    ensures Split(s) == [s]
  {
    if s != [] {
      SplitPiece(s[1..]);
      assert [s[0]] + s[1..] == s;
    }
  }

  lemma {:induction false} SplitJoin(pieces: seq<string>)
    requires pieces != [] && forall i :: 0 <= i < |pieces| ==> ',' !in pieces[i]
    ensures Split(Join(pieces)) == pieces
  {
    SplitPiece(pieces[0]);
    if |pieces| > 1 {
      SplitJoin(pieces[1..]);
      SplitConcat(pieces[0], Join(pieces[1..]));
    }
  }

  /** The position of c in s, or -1. */
  function IndexByte(s: string, c: char): (i: int)
    ensures -1 <= i < |s|
    ensures i >= 0 ==> s[i] == c && c !in s[..i]
    ensures i < 0 ==> c !in s
  {
    if s == [] then -1
    else if s[0] == c then 0
    else
      var j := IndexByte(s[1..], c);
      assert j >= 0 ==> s[..j + 1] == [s[0]] + s[1..][..j];
      if j < 0 then -1 else j + 1
  }

  lemma FirstByte(s: string, c: char, n: nat)
    requires n < |s| && s[n] == c && c !in s[..n]
    ensures IndexByte(s, c) == n
  {
  }

  // ---- Percent encoding ----

  predicate IsHex(c: char) {
    '0' <= c <= '9' || 'a' <= c <= 'f' || 'A' <= c <= 'F'
  }

  function HexValue(c: char): int
    requires IsHex(c)
  {
    if '0' <= c <= '9' then c as int - '0' as int
    else if 'a' <= c <= 'f' then c as int - 'a' as int + 10
    else c as int - 'A' as int + 10
  }

  datatype Unescaped = Unescaped(text: string) | Malformed

  /** url.QueryUnescape. */
  function QueryUnescape(s: string): Unescaped {
    if s == [] then Unescaped("")
    else if s[0] == '%' then
      if |s| < 3 || !IsHex(s[1]) || !IsHex(s[2]) then Malformed
      else Prepend((16 * HexValue(s[1]) + HexValue(s[2])) as char, QueryUnescape(s[3..]))
    else Prepend(if s[0] == '+' then ' ' else s[0], QueryUnescape(s[1..]))
  }

  function Prepend(c: char, u: Unescaped): Unescaped {
    if u.Malformed? then u else Unescaped([c] + u.text)
  }

  predicate Plain(c: char) {
    '0' <= c <= '9' || 'a' <= c <= 'z' || 'A' <= c <= 'Z'
  }

  function HexDigit(n: int): char
    requires 0 <= n < 16
  {
    if n < 10 then ('0' as int + n) as char else ('A' as int + n - 10) as char
  }

  predicate IsBytes(s: string) {
    forall i :: 0 <= i < |s| ==> s[i] as int < 256
  }

  /** A percent encoding that leaves letters and digits alone. */
  function Escape(s: string): string
    requires IsBytes(s)
  {
    if s == [] then []
    else
      var n := s[0] as int;
      (if Plain(s[0]) then [s[0]] else ['%', HexDigit(n / 16), HexDigit(n % 16)]) + Escape(s[1..])
  }

  lemma UnescapePlain(c: char, t: string)
    requires Plain(c)
    ensures QueryUnescape([c] + t) == Prepend(c, QueryUnescape(t))
  {
    assert ([c] + t)[1..] == t;
  }

  lemma UnescapeHex(n: int, t: string)
    requires 0 <= n < 256
    ensures QueryUnescape(['%', HexDigit(n / 16), HexDigit(n % 16)] + t) == Prepend(n as char, QueryUnescape(t))
  {
    assert (['%', HexDigit(n / 16), HexDigit(n % 16)] + t)[3..] == t;
  }

  lemma UnescapeStep(c: char, t: string)
    requires c as int < 256 && IsBytes(t)
    ensures QueryUnescape(Escape([c] + t)) == Prepend(c, QueryUnescape(Escape(t)))
  {
    assert ([c] + t)[1..] == t;
    if Plain(c) {
      UnescapePlain(c, Escape(t));
    } else {
      UnescapeHex(c as int, Escape(t));
    }
  }

  lemma {:induction false} UnescapeEscape(s: string)
    requires IsBytes(s)
    ensures QueryUnescape(Escape(s)) == Unescaped(s)
  {
    if s != [] {
      UnescapeEscape(s[1..]);
      UnescapeStep(s[0], s[1..]);
      assert s == [s[0]] + s[1..];
    }
  }

  lemma {:induction false} EscapeIsTame(s: string)
    requires IsBytes(s)
    ensures forall i :: 0 <= i < |Escape(s)| ==> Plain(Escape(s)[i]) || Escape(s)[i] == '%'
    ensures |Escape(s)| >= |s|
  {
    if s != [] {
      EscapeIsTame(s[1..]);
    }
  }

  // ---- Decimal numbers ----

  const INT64_MIN := -0x8000_0000_0000_0000

  const INT64_MAX := 0x7fff_ffff_ffff_ffff

  predicate IsDigits(s: string) {
    s != [] && forall i :: 0 <= i < |s| ==> '0' <= s[i] <= '9'
  }

  function DigitsValue(s: string): nat
    requires forall i :: 0 <= i < |s| ==> '0' <= s[i] <= '9'
  {
    if s == [] then 0
    else 10 * DigitsValue(s[..|s| - 1]) + (s[|s| - 1] as int - '0' as int)
  }

  datatype Parsed = Parsed(n: int) | NotANumber

  /** strconv.ParseInt(s, 10, 64), and strconv.Atoi where int has 64 bits. */
  function ParseInt64(s: string): Parsed {
    var digits := if s != [] && (s[0] == '-' || s[0] == '+') then s[1..] else s;
    if !IsDigits(digits) then NotANumber
    else
      var magnitude: int := DigitsValue(digits);
      var n := if s[0] == '-' then -magnitude else magnitude;
      if INT64_MIN <= n <= INT64_MAX then Parsed(n) else NotANumber
  }

  function Digits(n: nat): string {
    var d := [('0' as int + n % 10) as char];
    if n < 10 then d else Digits(n / 10) + d
  }

  function Decimal(n: int): string {
    if n < 0 then "-" + Digits(-n) else Digits(n)
  }

  lemma {:induction false} DigitsRoundTrip(n: nat)
    ensures IsDigits(Digits(n)) && DigitsValue(Digits(n)) == n
  {
    if n >= 10 {
      DigitsRoundTrip(n / 10);
      assert Digits(n)[..|Digits(n)| - 1] == Digits(n / 10);
    } else {
      assert Digits(n)[..0] == [];
    }
  }

  lemma DecimalRoundTrip(n: int)
    requires INT64_MIN <= n <= INT64_MAX
    ensures ParseInt64(Decimal(n)) == Parsed(n)
    ensures IsBytes(Decimal(n)) && Decimal(n) != "" && TrimSpace(Decimal(n)) == Decimal(n)
  {
    DigitsRoundTrip(if n < 0 then -n else n);
    var s := Decimal(n);
    if n < 0 {
      assert s[1..] == Digits(-n);
    }
    TrimKeepsTight(s);
  }
}

/**
What a connection string means for the request that carries it: each documented key, read
from the text and followed to the relay that `resolveSOCKS5` returns (README.md:28-41,
internal/proxy/auth_parser.go, internal/proxy/handler.go).
*/
module RequestHeaders {
  import opened Wrappers
  import opened Text
  import opened ConnString
  import opened RelayList
  import opened RelaySelection
  import Folds

  // ---- Values that are read as they are written ----

  /** A byte that neither separates, nor is trimmed, nor stands for another one. */
  predicate Tame(c: char) {
    !IsSpace(c) && c != ',' && c != '=' && c != '%' && c != '+'
  }

  predicate Word(v: string) {
    v != "" && forall i :: 0 <= i < |v| ==> Tame(v[i])
  }

  lemma UnescapeTame(c: char, t: string)
    requires c != '%' && c != '+'
    ensures QueryUnescape([c] + t) == Prepend(c, QueryUnescape(t))
  {
    assert ([c] + t)[1..] == t;
  }

  lemma {:induction false} WordUnescapes(v: string)
    requires forall i :: 0 <= i < |v| ==> v[i] != '%' && v[i] != '+'
    ensures QueryUnescape(v) == Unescaped(v)
  {
    if v != [] {
      var c, t := v[0], v[1..];
      assert v == [c] + t;
      WordUnescapes(t);
      UnescapeTame(c, t);
    }
  }

  lemma WordValue(v: string)
    requires Word(v)
    ensures ValueOf(v) == v && TrimSpace(v) == v
  {
    WordUnescapes(v);
    TrimKeepsTight(v);
  }

  lemma WordPair(key: string, v: string, lastKey: string)
    requires GoodKey(key) && Word(v)
    ensures ItemOf(key + "=" + v, lastKey) == Pair(key, v)
  {
    var s := key + "=" + v;
    assert s[0] == key[0] && s[|s| - 1] == v[|v| - 1];
    TrimKeepsTight(s);
    WordValue(v);
    assert s[|key|] == '=' && s[..|key|] == key && s[|key| + 1..] == v;
    FirstByte(s, '=', |key|);
  }

  lemma PairHasNoComma(key: string, v: string)
    requires GoodKey(key) && Word(v)
    ensures Split(key + "=" + v) == [key + "=" + v]
  {
    var s := key + "=" + v;
    assert forall i :: 0 <= i < |s| ==> s[i] in key || s[i] == '=' || s[i] in v;
    SplitPiece(s);
  }

  lemma OnePiece(piece: string)
    ensures ReadAll(START, [piece]) == ReadPiece(START, piece)
  {
    var none: seq<string> := [piece][1..];
    var r := ReadPiece(START, piece);
    assert none == [] && (r.Ok? ==> ReadAll(r.value, none) == r);
  }

  /** A connection string of one pair assigns the value to the key. */
  lemma OnePair(prefix: string, key: string, v: string)
    requires GoodKey(key) && Word(v) && prefix == key + "="
    ensures ParseString(prefix + v) == Assign(NO_AUTH, key, v)
  {
    var s := key + "=" + v;
    PairHasNoComma(key, v);
    OnePiece(s);
    WordPair(key, v, "");
  }

  // ---- White space and case ----

  /** The white space of ASCII: tab, line feed, vertical tab, form feed, carriage return, space. */
  predicate Blank(s: string) {
    forall i :: 0 <= i < |s| ==> s[i] as int in {9, 10, 11, 12, 13, 32}
  }

  lemma {:induction false} TrimLeftLaw(a: string, v: string)
    requires Blank(a) && (v == "" || !Blank(v[..1]))
    ensures TrimLeft(a + v) == v
  {
    if a == [] {
      assert a + v == v && (v != "" ==> v[..1][0] == v[0]);
    } else {
      assert (a + v)[1..] == a[1..] + v && (a + v)[0] == a[0];
      TrimLeftLaw(a[1..], v);
    }
  }

  lemma {:induction false} TrimRightLaw(v: string, b: string)
    requires Blank(b) && (v == "" || !Blank([v[|v| - 1]]))
    ensures TrimRight(v + b) == v
  {
    if b == [] {
      assert v + b == v;
    } else {
      var t, n := v + b, |b| - 1;
      assert t[..|t| - 1] == v + b[..n] && t[|t| - 1] == b[n];
      TrimRightLaw(v, b[..n]);
    }
  }

  /** Trimming takes away white space on both sides and nothing else. */
  lemma TrimLaw(a: string, v: string, b: string)
    requires Blank(a) && Blank(b)
    requires v != "" && !Blank(v[..1]) && !Blank([v[|v| - 1]])
    ensures TrimSpace(a + v + b) == v
  {
    assert a + v + b == a + (v + b) && (v + b)[..1] == v[..1];
    TrimLeftLaw(a, v + b);
    TrimRightLaw(v, b);
  }

  lemma TightWord(v: string)
    requires Word(v)
    ensures !Blank(v[..1]) && !Blank([v[|v| - 1]])
  {
    assert v[..1][0] == v[0] && [v[|v| - 1]][0] == v[|v| - 1];
  }

  lemma SpacedValue(c: string, v: string)
    requires Blank(c) && Word(v)
    ensures ValueOf(c + v) == v
  {
    TightWord(v);
    WordUnescapes(c + v);
    TrimLaw(c, v, "");
    assert c + v + "" == c + v;
  }

  lemma SpacedKey(k: string, b: string)
    requires Word(k) && Blank(b)
    ensures TrimSpace(k + b) == k && '=' !in k + b && ',' !in k + b
  {
    TightWord(k);
    TrimLaw("", k, b);
    assert "" + k + b == k + b;
  }

  lemma TrimmedItem(piece: string, key: string, raw: string, lastKey: string)
    requires TrimSpace(piece) == key + "=" + raw && '=' !in key
    ensures ItemOf(piece, lastKey) == Pair(ToLower(TrimSpace(key)), ValueOf(raw))
  {
    var s := key + "=" + raw;
    assert s[|key|] == '=' && s[..|key|] == key && s[|key| + 1..] == raw;
    FirstByte(s, '=', |key|);
  }

  lemma SpacedPair(a: string, key: string, raw: string, d: string)
    requires key != "" && raw != "" && !Blank(key[..1]) && !Blank([raw[|raw| - 1]]) && Blank(a) && Blank(d)
    ensures TrimSpace(a + (key + "=" + raw) + d) == key + "=" + raw
  {
    var s := key + "=" + raw;
    assert s[..1] == key[..1] && s[|s| - 1] == raw[|raw| - 1];
    TrimLaw(a, s, d);
  }

  /** White space around keys and values, and the case of keys, do not matter. */
  lemma SpacedItem(a: string, k: string, b: string, c: string, v: string, d: string, lastKey: string)
    requires Word(k) && Word(v) && Blank(a) && Blank(b) && Blank(c) && Blank(d)
    ensures ItemOf(a + (k + b + "=" + (c + v)) + d, lastKey) == Pair(ToLower(k), v)
  {
    TightWord(k);
    TightWord(v);
    assert (k + b)[..1] == k[..1] && (c + v)[|c + v| - 1] == v[|v| - 1];
    SpacedPair(a, k + b, c + v, d);
    SpacedKey(k, b);
    SpacedValue(c, v);
    TrimmedItem(a + (k + b + "=" + (c + v)) + d, k + b, c + v, lastKey);
  }

  // ---- The documented keys ----

  lemma ListKeysLaw(v: string)
    requires Word(v)
    ensures ParseString("country=" + v) == Ok(NO_AUTH.(countries := [v]))
    ensures ParseString("city=" + v) == Ok(NO_AUTH.(cities := [v]))
    ensures ParseString("provider=" + v) == Ok(NO_AUTH.(providers := [v]))
    ensures ParseString("relay-hostname=" + v) == Ok(NO_AUTH.(hostname := v))
  {
    ListKeysAreGood();
    OtherKeysAreGood();
    OnePair("country=", "country", v);
    OnePair("city=", "city", v);
    OnePair("provider=", "provider", v);
    OnePair("relay-hostname=", "relay-hostname", v);
    assert NO_AUTH.countries + [v] == [v] && NO_AUTH.cities + [v] == [v] && NO_AUTH.providers + [v] == [v];
  }

  lemma DecimalIsWord(n: int)
    requires INT64_MIN <= n <= INT64_MAX
    ensures Word(Decimal(n))
  {
    DigitsRoundTrip(if n < 0 then -n else n);
  }

  lemma NumberKeysLaw(n: int)
    requires INT64_MIN <= n <= INT64_MAX
    ensures ParseString("seed=" + Decimal(n)) == Ok(NO_AUTH.(seed := n))
    ensures ParseString("speed=" + Decimal(n)) == Ok(NO_AUTH.(minSpeed := n))
  {
    NumberKeysAreGood();
    DecimalIsWord(n);
    DecimalRoundTrip(n);
    OnePair("seed=", "seed", Decimal(n));
    OnePair("speed=", "speed", Decimal(n));
  }

  /** Numbers with a byte that is no digit are refused. */
  lemma NoNumberLaw(v: string, i: nat)
    requires Word(v) && 0 < i < |v| && !('0' <= v[i] <= '9')
    ensures ParseString("seed=" + v) == Err(InvalidSeed(v))
    ensures ParseString("speed=" + v) == Err(InvalidSpeed(v))
  {
    NumberKeysAreGood();
    OnePair("seed=", "seed", v);
    OnePair("speed=", "speed", v);
    assert v[1..][i - 1] == v[i];
  }

  /** The words for yes and no, in any case; every other word is refused. */
  lemma BoolKeysLaw(v: string)
    requires Word(v)
    ensures ToLower(v) in {"true", "1", "yes"} ==>
              ParseString("owned=" + v) == Ok(NO_AUTH.(owned := Some(true))) &&
              ParseString("multihop=" + v) == Ok(NO_AUTH.(multihop := true))
    ensures ToLower(v) in {"false", "0", "no"} ==>
              ParseString("owned=" + v) == Ok(NO_AUTH.(owned := Some(false))) &&
              ParseString("multihop=" + v) == Ok(NO_AUTH)
    ensures ToLower(v) !in {"true", "1", "yes", "false", "0", "no"} ==>
              ParseString("owned=" + v) == Err(InvalidOwned(v)) &&
              ParseString("multihop=" + v) == Err(InvalidMultihop(v))
  {
    OtherKeysAreGood();
    OnePair("owned=", "owned", v);
    OnePair("multihop=", "multihop", v);
  }

  lemma UnknownKeyLaw(key: string, v: string)
    requires GoodKey(key) && Word(v)
    requires key !in {"country", "city", "seed", "owned", "provider", "speed", "multihop", "relay-hostname"}
    ensures ParseString(key + "=" + v) == Err(UnknownParameter(key))
  {
    OnePair(key + "=", key, v);
  }

  /** A value in front of every key belongs to none. */
  lemma OrphanLaw(v: string)
    requires Word(v)
    ensures ParseString(v) == Err(InvalidParameter(v))
  {
    SplitPiece(v);
    WordValue(v);
    assert [v][1..] == [];
  }

  /** A key without a value says nothing, whatever the key, */
  lemma EmptyValueLaw(key: string)
    requires GoodKey(key)
    ensures ParseString(key + "=") == Ok(NO_AUTH)
  {
    var s := key + "=";
    assert forall i :: 0 <= i < |s| ==> s[i] in key || s[i] == '=';
    SplitPiece(s);
    OnePiece(s);
    EmptyItem(key);
  }

  lemma EmptyItem(key: string)
    requires GoodKey(key)
    ensures ItemOf(key + "=", "") == Pair(key, "")
  {
    var s := key + "=";
    TrimKeepsTight(s);
    assert s[|key|] == '=' && s[..|key|] == key && s[|key| + 1..] == "";
    FirstByte(s, '=', |key|);
  }

  /** and neither does an empty piece. */
  lemma BlankLaw()
    ensures ParseString("") == ParseString(",") == Ok(NO_AUTH)
  {
    ParseEmpty();
    OnlyCommas();
  }

  lemma OnlyCommas()
    ensures ParseString(",") == Ok(NO_AUTH)
  {
    SplitHead(',', "");
    assert [','] + "" == ",";
    OnePiece("");
    Folds.FoldConcat(ReadPiece, START, [""], [""]);
  }

  /** A value is unescaped and then trimmed; one with a malformed escape is only trimmed. */
  lemma ValueLaw(raw: string, u: string)
    ensures QueryUnescape(raw) == Malformed ==> ValueOf(raw) == TrimSpace(raw)
    ensures QueryUnescape(raw) == Unescaped(u) ==> ValueOf(raw) == TrimSpace(u)
  {
  }

  /** Escapes: "+" is a space, %XX a byte, and a malformed text stays as it is. */
  lemma EscapeLaw(t: string, u: string, hi: char, lo: char)
    requires QueryUnescape(t) == Unescaped(u)
    ensures QueryUnescape("+" + t) == Unescaped(" " + u)
    ensures IsHex(hi) && IsHex(lo) ==>
              QueryUnescape(['%', hi, lo] + t) == Unescaped([(16 * HexValue(hi) + HexValue(lo)) as char] + u)
    ensures !IsHex(hi) || !IsHex(lo) ==> QueryUnescape(['%', hi, lo] + t) == Malformed
    ensures QueryUnescape("%") == QueryUnescape(['%', hi]) == Malformed
  {
    assert ("+" + t)[1..] == t && (['%', hi, lo] + t)[3..] == t;
  }

  lemma HexLaw()
    ensures HexValue('0') == 0 && HexValue('9') == 9
    ensures HexValue('a') == HexValue('A') == 10 && HexValue('f') == HexValue('F') == 15
    ensures !IsHex('g') && !IsHex('G') && !IsHex('/') && !IsHex(':') && !IsHex('@') && !IsHex('`')
  {
  }

  /** A number is read digit by digit, a sign may stand in front, and 64 bits are the limit. */
  lemma {:induction false} DigitsLaw(s: string, d: char)
    requires IsDigits(s) && '0' <= d <= '9' && ParseInt64(s).Parsed?
    ensures var n := 10 * ParseInt64(s).n + (d as int - '0' as int);
      && ParseInt64(s + [d]) == (if n <= 0x7fff_ffff_ffff_ffff then Parsed(n) else NotANumber)
      && ParseInt64("-" + s + [d]) == (if n <= 0x8000_0000_0000_0000 then Parsed(-n) else NotANumber)
      && ParseInt64("+" + s + [d]) == ParseInt64(s + [d])
  {
    var t := s + [d];
    assert t[..|t| - 1] == s;
    assert ("-" + t)[1..] == t && ("+" + t)[1..] == t;
    assert "-" + s + [d] == "-" + t && "+" + s + [d] == "+" + t;
  }

  lemma DigitLaw(d: char)
    requires '0' <= d <= '9'
    ensures ParseInt64([d]) == Parsed(d as int - '0' as int)
  {
    assert [d][..0] == [];
    assert DigitsValue([d]) == d as int - '0' as int;
  }

  lemma NoDigitLaw(d: char)
    requires !('0' <= d <= '9')
    ensures ParseInt64([d]) == NotANumber && ParseInt64("") == NotANumber
  {
    assert [d][0] == d;
    assert [d][1..] == "";
  }

  // ---- The relay of a request ----

  lemma HeaderLaw(base: Filter)
    ensures RequestFilter(base, None) == Ok(base)
    ensures forall n | INT64_MIN <= n <= INT64_MAX :: RequestFilter(base, Some("speed=" + Decimal(n))) ==
              Ok(if n > 0 then base.(minSpeed := n) else base)
    ensures forall v | Word(v) :: RequestFilter(base, Some("country=" + v)) == Ok(base.(countries := base.countries + [v]))
    ensures forall v | Word(v) :: RequestFilter(base, Some("relay-hostname=" + v)) == Ok(base.(hostname := v))
  {
    assert base.countries + [] == base.countries && base.cities + [] == base.cities && base.providers + [] == base.providers;
    forall n | INT64_MIN <= n <= INT64_MAX
      ensures RequestFilter(base, Some("speed=" + Decimal(n))) == Ok(if n > 0 then base.(minSpeed := n) else base)
    {
      NumberKeysLaw(n);
    }
    forall v | Word(v)
      ensures RequestFilter(base, Some("country=" + v)) == Ok(base.(countries := base.countries + [v]))
      ensures RequestFilter(base, Some("relay-hostname=" + v)) == Ok(base.(hostname := v))
    {
      ListKeysLaw(v);
    }
  }

  /** A request with "speed=n" gets a relay at least that fast, or fails if every such relay is excluded. */
  method ResolveSpeed(base: Filter, n: int, exclude: set<string>, w: World) returns (r: Result<Server, Failure>)
    requires 0 < n <= INT64_MAX
    ensures r.Ok? ==> r.value.speed >= n && r.value.hostname !in exclude
    ensures r.Err? && base == NO_FILTER && w.fetch2.Some? ==>
              forall s :: s in w.fetch2.value && s.speed >= n ==> s.hostname in exclude
  {
    HeaderLaw(base);
    r := ResolveSOCKS5(base, Some("speed=" + Decimal(n)), exclude, w);
    forall s { MatchesLaw(base.(minSpeed := n), s); }
  }

  /** A request with "country=v" gets a relay of one of the countries asked for. */
  method ResolveCountry(base: Filter, v: string, exclude: set<string>, w: World) returns (r: Result<Server, Failure>)
    requires Word(v)
    ensures r.Ok? ==> exists c :: c in base.countries + [v] && ToLower(c) == ToLower(r.value.country)
    ensures r.Err? && base == NO_FILTER && w.fetch2.Some? ==>
              forall s :: s in w.fetch2.value && ToLower(s.country) == ToLower(v) ==> s.hostname in exclude
  {
    HeaderLaw(base);
    r := ResolveSOCKS5(base, Some("country=" + v), exclude, w);
    var filter := base.(countries := base.countries + [v]);
    assert v in filter.countries;
    forall s { MatchesLaw(filter, s); }
  }

  /** A request with "relay-hostname=v" gets that relay or none. */
  method ResolveHostname(base: Filter, v: string, exclude: set<string>, w: World) returns (r: Result<Server, Failure>)
    requires Word(v)
    ensures r.Ok? ==> ToLower(r.value.hostname) == ToLower(v)
  {
    HeaderLaw(base);
    r := ResolveSOCKS5(base, Some("relay-hostname=" + v), exclude, w);
    forall s { MatchesLaw(base.(hostname := v), s); }
  }
}

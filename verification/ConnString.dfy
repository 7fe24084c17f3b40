/**
Connection strings: `ParseProxyAuth` of internal/proxy/auth_parser.go and `ApplyTo` of
internal/proxy/handler.go. Strings are strings of bytes.
*/
module ConnString {
  import opened Wrappers
  import opened Text
  import opened Folds
  import opened RelayList

  datatype ProxyAuth = ProxyAuth(
    countries: seq<string>, cities: seq<string>, seed: int, owned: Option<bool>,
    providers: seq<string>, minSpeed: int, multihop: bool, hostname: string)

  const NO_AUTH := ProxyAuth([], [], 0, None, [], 0, false, "")

  datatype Error =
    | InvalidParameter(pair: string)
    | InvalidSeed(value: string)
    | InvalidOwned(value: string)
    | InvalidSpeed(value: string)
    | InvalidMultihop(value: string)
    | UnknownParameter(key: string)

  // ---- The parser ----

  function ParseBool(s: string): Option<bool> {
    var l := ToLower(s);
    if l == "true" || l == "1" || l == "yes" then Some(true)
    else if l == "false" || l == "0" || l == "no" then Some(false)
    else None
  }

  function ValueOf(raw: string): string {
    var u := QueryUnescape(raw);
    TrimSpace(if u.Malformed? then raw else u.text)
  }

  /** The switch over the key. */
  function Assign(auth: ProxyAuth, key: string, value: string): Result<ProxyAuth, Error> {
    if key == "country" then Ok(auth.(countries := auth.countries + [value]))
    else if key == "city" then Ok(auth.(cities := auth.cities + [value]))
    else if key == "seed" then
      var n := ParseInt64(value);
      if n.NotANumber? then Err(InvalidSeed(value)) else Ok(auth.(seed := n.n))
    else if key == "owned" then
      var b := ParseBool(value);
      if b.None? then Err(InvalidOwned(value)) else Ok(auth.(owned := b))
    else if key == "provider" then Ok(auth.(providers := auth.providers + [value]))
    else if key == "speed" then
      var n := ParseInt64(value);
      if n.NotANumber? then Err(InvalidSpeed(value)) else Ok(auth.(minSpeed := n.n))
    else if key == "multihop" then
      var b := ParseBool(value);
      if b.None? then Err(InvalidMultihop(value)) else Ok(auth.(multihop := b.value))
    else if key == "relay-hostname" then Ok(auth.(hostname := value))
    else Err(UnknownParameter(key))
  }

  /** What one piece says, given the key of the piece before it. */
  datatype Item = Blank | Orphan(pair: string) | Pair(key: string, value: string)

  function ItemOf(piece: string, lastKey: string): Item {
    var pair := TrimSpace(piece);
    if pair == "" then Blank
    else
      var eq := IndexByte(pair, '=');
      if eq < 0 then
        if lastKey == "" then Orphan(pair) else Pair(lastKey, ValueOf(pair))
      else Pair(ToLower(TrimSpace(pair[..eq])), ValueOf(pair[eq + 1..]))
  }

  /** The state of the loop over the pieces. */
  datatype Reader = Reader(lastKey: string, auth: ProxyAuth)

  function ReadPiece(s: Reader, piece: string): Result<Reader, Error> {
    match ItemOf(piece, s.lastKey)
    case Blank => Ok(s)
    case Orphan(pair) => Err(InvalidParameter(pair))
    case Pair(key, value) =>
      if value == "" then Ok(Reader(key, s.auth))
      else
        match Assign(s.auth, key, value)
        case Err(e) => Err(e)
        case Ok(auth) => Ok(Reader(key, auth))
  }

  const START := Reader("", NO_AUTH)

  function ReadAll(s: Reader, pieces: seq<string>): Result<Reader, Error> {
    Fold(ReadPiece, s, pieces)
  }

  function ParseString(s: string): Result<ProxyAuth, Error> {
    match ReadAll(START, Split(s))
    case Err(e) => Err(e)
    case Ok(r) => Ok(r.auth)
  }

  /** The body of the loop. */
  method ReadOne(lastKey: string, auth: ProxyAuth, piece: string) returns (r: Result<Reader, Error>)
    ensures r == ReadPiece(Reader(lastKey, auth), piece)
  {
    var pair := TrimSpace(piece);
    if pair == "" {
      return Ok(Reader(lastKey, auth));
    }
    var eqIdx := IndexByte(pair, '=');
    var key, rawValue;
    if eqIdx < 0 {
      if lastKey == "" {
        return Err(InvalidParameter(pair));
      }
      key := lastKey;
      rawValue := pair;
    } else {
      key := ToLower(TrimSpace(pair[..eqIdx]));
      rawValue := pair[eqIdx + 1..];
    }
    var unescaped := QueryUnescape(rawValue);
    var value := if unescaped.Malformed? then rawValue else unescaped.text;
    value := TrimSpace(value);
    if value == "" {
      return Ok(Reader(key, auth));
    }
    var next := Assign(auth, key, value);
    match next
    case Err(e) => r := Err(e);
    case Ok(a) => r := Ok(Reader(key, a));
  }

  method ReadPairs(pairs: seq<string>) returns (r: Result<ProxyAuth, Error>)
    ensures r == match ReadAll(START, pairs) case Err(e) => Err(e) case Ok(t) => Ok(t.auth)
  {
    var auth := NO_AUTH;
    var lastKey := "";
    for i := 0 to |pairs|
      invariant ReadAll(Reader(lastKey, auth), pairs[i..]) == ReadAll(START, pairs)
    {
      FoldNext(ReadPiece, Reader(lastKey, auth), pairs, i);
      var next := ReadOne(lastKey, auth, pairs[i]);
      match next
      case Err(e) => return Err(e);
      case Ok(t) =>
        lastKey := t.lastKey;
        auth := t.auth;
    }
    r := Ok(auth);
  }

  method ParseProxyAuth(connStr: string) returns (r: Result<ProxyAuth, Error>)
    ensures r == ParseString(connStr)
  {
    if connStr == "" {
      ParseEmpty();
      return Ok(NO_AUTH);
    }
    r := ReadPairs(Split(connStr));
  }

  lemma ParseEmpty()
    ensures ParseString("") == Ok(NO_AUTH)
  {
    assert [""][1..] == [];
  }

  // ---- Printing and reading back ----

  predicate GoodValue(v: string) {
    IsBytes(v) && v != "" && TrimSpace(v) == v
  }

  predicate GoodValues(vs: seq<string>) {
    forall i :: 0 <= i < |vs| ==> GoodValue(vs[i])
  }

  /** Every filter with trimmed non-empty values and 64-bit numbers. */
  predicate Printable(a: ProxyAuth) {
    && GoodValues(a.countries) && GoodValues(a.cities) && GoodValues(a.providers)
    && INT64_MIN <= a.seed <= INT64_MAX && INT64_MIN <= a.minSpeed <= INT64_MAX
    && (a.hostname == "" || GoodValue(a.hostname))
  }

  function PrintPair(key: string, value: string): string
    requires IsBytes(value)
  {
    key + "=" + Escape(value)
  }

  function PrintList(key: string, values: seq<string>): seq<string>
    requires GoodValues(values)
  {
    seq(|values|, i requires 0 <= i < |values| => PrintPair(key, values[i]))
  }

  function PrintIf(present: bool, key: string, value: string): seq<string>
    requires present ==> IsBytes(value)
  {
    if present then [PrintPair(key, value)] else []
  }

  function OwnedText(owned: Option<bool>): string {
    if owned == Some(true) then "true" else "false"
  }

  function Lists(a: ProxyAuth): seq<string>
    requires Printable(a)
  {
    PrintList("country", a.countries) + PrintList("city", a.cities) + PrintList("provider", a.providers)
  }

  function Numbers(a: ProxyAuth): seq<string>
    requires Printable(a)
  {
    DecimalRoundTrip(a.seed);
    DecimalRoundTrip(a.minSpeed);
    PrintIf(a.seed != 0, "seed", Decimal(a.seed)) + PrintIf(a.minSpeed != 0, "speed", Decimal(a.minSpeed))
  }

  function Others(a: ProxyAuth): seq<string>
    requires Printable(a)
  {
    PrintIf(a.owned.Some?, "owned", OwnedText(a.owned)) +
    (PrintIf(a.multihop, "multihop", "true") + PrintIf(a.hostname != "", "relay-hostname", a.hostname))
  }

  function Pieces(a: ProxyAuth): seq<string>
    requires Printable(a)
  {
    Lists(a) + (Numbers(a) + Others(a))
  }

  /** The canonical connection string of a filter. */
  function Print(a: ProxyAuth): string
    requires Printable(a)
  {
    Join(Pieces(a))
  }

  /** A lower-case word that needs no trimming and has no separator in it. */
  predicate GoodKey(key: string) {
    && key != "" && ToLower(key) == key && TrimSpace(key) == key
    && !IsSpace(key[0]) && '=' !in key && ',' !in key
  }

  lemma PrintedPair(key: string, value: string, lastKey: string)
    requires GoodKey(key) && GoodValue(value)
    ensures ItemOf(PrintPair(key, value), lastKey) == Pair(key, value)
    ensures ',' !in PrintPair(key, value)
  {
    var e := Escape(value);
    var s := PrintPair(key, value);
    EscapeIsTame(value);
    UnescapeEscape(value);
    assert s[|s| - 1] == e[|e| - 1] && s[0] == key[0];
    TrimKeepsTight(s);
    assert s[|key|] == '=' && s[..|key|] == key && s[|key| + 1..] == e;
    FirstByte(s, '=', |key|);
  }

  lemma ListKeysAreGood()
    ensures GoodKey("country") && GoodKey("city") && GoodKey("provider")
  {
  }

  lemma NumberKeysAreGood()
    ensures GoodKey("seed") && GoodKey("speed")
  {
  }

  lemma OtherKeysAreGood()
    ensures GoodKey("owned") && GoodKey("multihop") && GoodKey("relay-hostname")
  {
  }

  lemma BoolWordsAreGood()
    ensures GoodValue("true") && GoodValue("false")
    ensures ParseBool("true") == Some(true) && ParseBool("false") == Some(false)
  {
    assert ToLower("true") == "true" && ToLower("false") == "false";
  }

  /** Reading the pieces in state s succeeds and ends in state t. */
  ghost predicate Reads(s: Reader, pieces: seq<string>, t: Reader) {
    ReadAll(s, pieces) == Ok(t)
  }

  lemma ReadsBoth(s: Reader, p: seq<string>, t: Reader, q: seq<string>, u: Reader)
    requires Reads(s, p, t) && Reads(t, q, u)
    ensures Reads(s, p + q, u)
  {
    FoldConcat(ReadPiece, s, p, q);
  }

  lemma ReadPair(key: string, value: string, s: Reader, b: ProxyAuth)
    requires GoodKey(key) && GoodValue(value) && Assign(s.auth, key, value) == Ok(b)
    ensures ReadPiece(s, PrintPair(key, value)) == Ok(Reader(key, b))
  {
    PrintedPair(key, value, s.lastKey);
  }

  lemma ReadIf(present: bool, key: string, value: string, s: Reader, b: ProxyAuth) returns (t: Reader)
    requires GoodKey(key) && (present ==> GoodValue(value))
    requires if present then Assign(s.auth, key, value) == Ok(b) else b == s.auth
    ensures Reads(s, PrintIf(present, key, value), t) && t.auth == b
  {
    t := if present then Reader(key, b) else s;
    if present {
      ReadPair(key, value, s, b);
      FoldChain(ReadPiece, PrintIf(present, key, value), [s, t]);
    }
  }

  predicate ListKey(key: string) {
    key == "country" || key == "city" || key == "provider"
  }

  function AddAll(a: ProxyAuth, key: string, values: seq<string>): ProxyAuth {
    if key == "country" then a.(countries := a.countries + values)
    else if key == "city" then a.(cities := a.cities + values)
    else a.(providers := a.providers + values)
  }

  lemma AddAllStep(a: ProxyAuth, key: string, values: seq<string>, value: string)
    requires ListKey(key)
    ensures Assign(AddAll(a, key, values), key, value) == Ok(AddAll(a, key, values + [value]))
  {
    assert a.countries + (values + [value]) == a.countries + values + [value];
    assert a.cities + (values + [value]) == a.cities + values + [value];
    assert a.providers + (values + [value]) == a.providers + values + [value];
  }

  lemma ReadListStep(key: string, values: seq<string>, s: Reader, i: nat, t: Reader)
    requires ListKey(key) && GoodKey(key) && GoodValues(values) && i < |values|
    requires t.auth == AddAll(s.auth, key, values[..i])
    ensures ReadPiece(t, PrintPair(key, values[i])) == Ok(Reader(key, AddAll(s.auth, key, values[..i + 1])))
  {
    AddAllStep(s.auth, key, values[..i], values[i]);
    assert values[..i + 1] == values[..i] + [values[i]];
    ReadPair(key, values[i], t, AddAll(s.auth, key, values[..i + 1]));
  }

  /** The states between the values of a list. */
  function Chain(key: string, values: seq<string>, s: Reader): (chain: seq<Reader>)
    ensures |chain| == |values| + 1 && chain[0] == s && chain[|values|].auth == AddAll(s.auth, key, values)
  {
    assert values[..0] == [] && values[..|values|] == values;
    assert AddAll(s.auth, key, []) == s.auth;
    seq(|values| + 1, i requires 0 <= i <= |values| =>
      Reader(if i == 0 then s.lastKey else key, AddAll(s.auth, key, values[..i])))
  }

  lemma ReadList(key: string, values: seq<string>, s: Reader) returns (t: Reader)
    requires ListKey(key) && GoodKey(key) && GoodValues(values)
    ensures Reads(s, PrintList(key, values), t) && t.auth == AddAll(s.auth, key, values)
  {
    var chain := Chain(key, values, s);
    forall i | 0 <= i < |values| ensures ReadPiece(chain[i], PrintPair(key, values[i])) == Ok(chain[i + 1]) {
      ReadListStep(key, values, s, i, chain[i]);
    }
    FoldChain(ReadPiece, PrintList(key, values), chain);
    t := chain[|values|];
  }

  lemma ReadLists(a: ProxyAuth) returns (t: Reader)
    requires Printable(a)
    ensures Reads(START, Lists(a), t)
    ensures t.auth == NO_AUTH.(countries := a.countries, cities := a.cities, providers := a.providers)
  {
    ListKeysAreGood();
    var p, q, r := PrintList("country", a.countries), PrintList("city", a.cities), PrintList("provider", a.providers);
    var s1 := ReadList("country", a.countries, START);
    var s2 := ReadList("city", a.cities, s1);
    t := ReadList("provider", a.providers, s2);
    ReadsBoth(START, p, s1, q, s2);
    ReadsBoth(START, p + q, s2, r, t);
  }

  lemma ReadNumbers(a: ProxyAuth, s: Reader) returns (t: Reader)
    requires Printable(a) && s.auth.seed == 0 && s.auth.minSpeed == 0
    ensures Reads(s, Numbers(a), t) && t.auth == s.auth.(seed := a.seed, minSpeed := a.minSpeed)
  {
    NumberKeysAreGood();
    DecimalRoundTrip(a.seed);
    DecimalRoundTrip(a.minSpeed);
    var s1 := ReadIf(a.seed != 0, "seed", Decimal(a.seed), s, s.auth.(seed := a.seed));
    t := ReadIf(a.minSpeed != 0, "speed", Decimal(a.minSpeed), s1, s1.auth.(minSpeed := a.minSpeed));
    ReadsBoth(s, PrintIf(a.seed != 0, "seed", Decimal(a.seed)), s1,
              PrintIf(a.minSpeed != 0, "speed", Decimal(a.minSpeed)), t);
  }

  lemma ReadOwned(owned: Option<bool>, s: Reader) returns (t: Reader)
    requires s.auth.owned.None?
    ensures Reads(s, PrintIf(owned.Some?, "owned", OwnedText(owned)), t) && t.auth == s.auth.(owned := owned)
  {
    OtherKeysAreGood();
    BoolWordsAreGood();
    if owned.Some? {
      assert OwnedText(owned) == if owned.value then "true" else "false";
      assert ParseBool(OwnedText(owned)) == Some(owned.value);
    }
    t := ReadIf(owned.Some?, "owned", OwnedText(owned), s, s.auth.(owned := owned));
  }

  lemma ReadOthers(a: ProxyAuth, s: Reader) returns (t: Reader)
    requires Printable(a) && s.auth.owned.None? && !s.auth.multihop && s.auth.hostname == ""
    ensures Reads(s, Others(a), t)
    ensures t.auth == s.auth.(owned := a.owned, multihop := a.multihop, hostname := a.hostname)
  {
    OtherKeysAreGood();
    BoolWordsAreGood();
    var p, q := PrintIf(a.multihop, "multihop", "true"), PrintIf(a.hostname != "", "relay-hostname", a.hostname);
    var s1 := ReadOwned(a.owned, s);
    var s2 := ReadIf(a.multihop, "multihop", "true", s1, s1.auth.(multihop := a.multihop));
    t := ReadIf(a.hostname != "", "relay-hostname", a.hostname, s2, s2.auth.(hostname := a.hostname));
    ReadsBoth(s1, p, s2, q, t);
    ReadsBoth(s, PrintIf(a.owned.Some?, "owned", OwnedText(a.owned)), s1, p + q, t);
  }

  lemma ReadPieces(a: ProxyAuth) returns (t: Reader)
    requires Printable(a)
    ensures Reads(START, Pieces(a), t) && t.auth == a
  {
    var s1 := ReadLists(a);
    var s2 := ReadNumbers(a, s1);
    t := ReadOthers(a, s2);
    ReadsBoth(s1, Numbers(a), s2, Others(a), t);
    ReadsBoth(START, Lists(a), s1, Numbers(a) + Others(a), t);
  }

  ghost predicate NoCommas(pieces: seq<string>) {
    forall i :: 0 <= i < |pieces| ==> ',' !in pieces[i]
  }

  lemma ListHasNoCommas(key: string, values: seq<string>)
    requires GoodKey(key) && GoodValues(values)
    ensures NoCommas(PrintList(key, values))
  {
    forall i | 0 <= i < |values| ensures ',' !in PrintPair(key, values[i]) {
      PrintedPair(key, values[i], "");
    }
  }

  lemma IfHasNoCommas(present: bool, key: string, value: string)
    requires GoodKey(key) && (present ==> GoodValue(value))
    ensures NoCommas(PrintIf(present, key, value))
  {
    if present {
      PrintedPair(key, value, "");
    }
  }

  lemma ListsHaveNoCommas(a: ProxyAuth)
    requires Printable(a)
    ensures NoCommas(Lists(a))
  {
    ListKeysAreGood();
    ListHasNoCommas("country", a.countries);
    ListHasNoCommas("city", a.cities);
    ListHasNoCommas("provider", a.providers);
  }

  lemma NumbersHaveNoCommas(a: ProxyAuth)
    requires Printable(a)
    ensures NoCommas(Numbers(a))
  {
    NumberKeysAreGood();
    DecimalRoundTrip(a.seed);
    DecimalRoundTrip(a.minSpeed);
    IfHasNoCommas(a.seed != 0, "seed", Decimal(a.seed));
    IfHasNoCommas(a.minSpeed != 0, "speed", Decimal(a.minSpeed));
  }

  lemma OthersHaveNoCommas(a: ProxyAuth)
    requires Printable(a)
    ensures NoCommas(Others(a))
  {
    OtherKeysAreGood();
    BoolWordsAreGood();
    IfHasNoCommas(a.owned.Some?, "owned", OwnedText(a.owned));
    IfHasNoCommas(a.multihop, "multihop", "true");
    IfHasNoCommas(a.hostname != "", "relay-hostname", a.hostname);
  }

  lemma PiecesHaveNoCommas(a: ProxyAuth)
    requires Printable(a)
    ensures NoCommas(Pieces(a))
  {
    ListsHaveNoCommas(a);
    NumbersHaveNoCommas(a);
    OthersHaveNoCommas(a);
  }

  /** The canonical connection string of every filter parses back to that filter. */
  lemma PrintThenParse(a: ProxyAuth)
    requires Printable(a)
    ensures ParseString(Print(a)) == Ok(a)
  {
    var t := ReadPieces(a);
    if Pieces(a) == [] {
      ParseEmpty();
    } else {
      PiecesHaveNoCommas(a);
      SplitJoin(Pieces(a));
    }
  }

  // ---- "k=a,b" is "k=a,k=b" ----

  lemma KeyedItem(k: string, v: string, lastKey: string)
    requires '=' !in k && TrimSpace(k) != ""
    ensures ItemOf(k + "=" + v, lastKey) == Pair(ToLower(TrimSpace(k)), ValueOf(TrimRight(v)))
  {
    var t := TrimLeft(k);
    assert t == "" ==> TrimSpace(k) == "";
    if '=' in t {
      TrimLeftIsSubset(k, '=');
    }
    assert k + "=" + v == k + ("=" + v);
    TrimLeftStops(k, "=" + v);
    assert t + ("=" + v) == t + ['='] + v;
    TrimRightStops(t, '=', v);
    var pair := t + ['='] + TrimRight(v);
    assert TrimSpace(k + "=" + v) == pair;
    TrimLeftTwice(k);
    assert pair[|t|] == '=' && pair[..|t|] == t && pair[|t| + 1..] == TrimRight(v);
    FirstByte(pair, '=', |t|);
  }

  lemma ValueDropsSpace(c: char, s: string)
    requires IsSpace(c)
    ensures ValueOf([c] + s) == ValueOf(s)
  {
    assert ([c] + s)[1..] == s;
    var u := QueryUnescape(s);
    if u.Unescaped? {
      assert ([c] + u.text)[1..] == u.text;
    }
  }

  lemma {:induction false} ValueOfTrimmed(b: string)
    requires TrimSpace(b) != ""
    ensures ValueOf(TrimRight(b)) == ValueOf(TrimSpace(b))
  {
    if IsSpace(b[0]) {
      ValueOfTrimmed(b[1..]);
      assert TrimRight(b[1..]) != "" by {
        if TrimRight(b[1..]) == "" {
          BlankBothWays(b[1..]);
        }
      }
      TrimRightKeepsHead(b);
      ValueDropsSpace(b[0], TrimRight(b[1..]));
    }
  }

  lemma {:induction false} BlankBothWays(s: string)
    requires TrimRight(s) == ""
    ensures TrimSpace(s) == ""
    decreases |s|
  {
    AllSpaces(s);
    AllSpacesTrim(s);
  }

  lemma {:induction false} AllSpaces(s: string)
    requires TrimRight(s) == ""
    ensures forall i :: 0 <= i < |s| ==> IsSpace(s[i])
    decreases |s|
  {
    if s != [] {
      AllSpaces(s[..|s| - 1]);
    }
  }

  lemma {:induction false} AllSpacesTrim(s: string)
    requires forall i :: 0 <= i < |s| ==> IsSpace(s[i])
    ensures TrimLeft(s) == ""
  {
    if s != [] {
      AllSpacesTrim(s[1..]);
    }
  }

  lemma BareItem(b: string, lastKey: string)
    requires '=' !in b && TrimSpace(b) != "" && lastKey != ""
    ensures ItemOf(b, lastKey) == Pair(lastKey, ValueOf(TrimSpace(b)))
  {
    if '=' in TrimSpace(b) {
      TrimRightIsSubset(TrimLeft(b), '=');
      TrimLeftIsSubset(b, '=');
    }
  }

  lemma BareIsKeyed(k: string, b: string, s: Reader)
    requires '=' !in k && TrimSpace(k) != "" && '=' !in b
    requires s.lastKey == ToLower(TrimSpace(k))
    ensures ReadPiece(s, b) == ReadPiece(s, k + "=" + b)
  {
    KeyedItem(k, b, s.lastKey);
    if TrimSpace(b) == "" {
      BlankIsSpaces(b);
      SpacesTrimRight(b);
    } else {
      ValueOfTrimmed(b);
      BareItem(b, s.lastKey);
    }
  }

  lemma {:induction false} BlankIsSpaces(s: string)
    requires TrimSpace(s) == ""
    ensures forall i :: 0 <= i < |s| ==> IsSpace(s[i])
  {
    if s != [] {
      if IsSpace(s[0]) {
        BlankIsSpaces(s[1..]);
      } else {
        AllSpaces(s);
      }
    }
  }

  lemma {:induction false} SpacesTrimRight(s: string)
    requires forall i :: 0 <= i < |s| ==> IsSpace(s[i])
    ensures TrimRight(s) == ""
    decreases |s|
  {
    if s != [] {
      SpacesTrimRight(s[..|s| - 1]);
    }
  }

  lemma FoldTwo<S, P, E>(step: (S, P) -> Result<S, E>, s: S, x: P, y: P, y': P)
    requires step(s, x).Ok? ==> step(step(s, x).value, y) == step(step(s, x).value, y')
    ensures Fold(step, s, [x, y]) == Fold(step, s, [x, y'])
  {
    assert [x, y][1..] == [y] && [x, y'][1..] == [y'];
    assert [y][1..] == [] && [y'][1..] == [];
  }

  /** A piece without "=" is read as if the key before it were written again. */
  lemma BareValueRepeatsKey(before: seq<string>, k: string, a: string, b: string, after: seq<string>)
    requires NoCommas(before) && NoCommas(after) && ',' !in k && ',' !in a && ',' !in b
    requires '=' !in k && '=' !in b && TrimSpace(k) != ""
    ensures ParseString(Join(before + [k + "=" + a, b] + after)) ==
            ParseString(Join(before + [k + "=" + a, k + "=" + b] + after))
  {
    var x, y, y' := k + "=" + a, b, k + "=" + b;
    SplitJoin(before + [x, y] + after);
    SplitJoin(before + [x, y'] + after);
    FoldConcat(ReadPiece, START, before + [x, y], after);
    FoldConcat(ReadPiece, START, before + [x, y'], after);
    FoldConcat(ReadPiece, START, before, [x, y]);
    FoldConcat(ReadPiece, START, before, [x, y']);
    var r := Fold(ReadPiece, START, before);
    if r.Ok? {
      KeyedItem(k, a, r.value.lastKey);
      var t := ReadPiece(r.value, x);
      if t.Ok? {
        BareIsKeyed(k, b, t.value);
      }
      FoldTwo(ReadPiece, r.value, x, y, y');
    }
  }

  // ---- Applying a filter, and composing two ----

  function Applied(f: Filter, p: ProxyAuth): Filter {
    Filter(
      f.countries + p.countries,
      f.cities + p.cities,
      if p.seed != 0 then p.seed else f.seed,
      if p.owned.Some? then p.owned else f.owned,
      f.providers + p.providers,
      if p.minSpeed > 0 then p.minSpeed else f.minSpeed,
      f.multihop || p.multihop,
      if p.hostname != "" then p.hostname else f.hostname)
  }

  method ApplyTo(p: ProxyAuth, filter: Filter) returns (f: Filter)
    ensures f == Applied(filter, p)
    ensures f.countries == filter.countries + p.countries && f.cities == filter.cities + p.cities
    ensures f.providers == filter.providers + p.providers
    ensures f.seed == if p.seed != 0 then p.seed else filter.seed
    ensures f.owned == if p.owned.Some? then p.owned else filter.owned
    ensures f.minSpeed == if p.minSpeed > 0 then p.minSpeed else filter.minSpeed
    ensures f.multihop == (filter.multihop || p.multihop)
    ensures f.hostname == if p.hostname != "" then p.hostname else filter.hostname
  {
    f := filter;
    assert f.countries + [] == f.countries && f.cities + [] == f.cities && f.providers + [] == f.providers;
    if |p.countries| > 0 {
      f := f.(countries := f.countries + p.countries);
    }
    if |p.cities| > 0 {
      f := f.(cities := f.cities + p.cities);
    }
    if p.seed != 0 {
      f := f.(seed := p.seed);
    }
    if p.owned.Some? {
      f := f.(owned := p.owned);
    }
    if |p.providers| > 0 {
      f := f.(providers := f.providers + p.providers);
    }
    if p.minSpeed > 0 {
      f := f.(minSpeed := p.minSpeed);
    }
    if p.multihop {
      f := f.(multihop := p.multihop);
    }
    if p.hostname != "" {
      f := f.(hostname := p.hostname);
    }
  }

  /** The first piece that is not blank names its key. */
  predicate KeyFirst(pieces: seq<string>) {
    pieces == [] ||
    (if TrimSpace(pieces[0]) == "" then KeyFirst(pieces[1..]) else '=' in TrimSpace(pieces[0]))
  }

  function Outcome(r: Result<Reader, Error>): Result<ProxyAuth, Error> {
    match r
    case Err(e) => Err(e)
    case Ok(t) => Ok(t.auth)
  }

  lemma {:induction false} LastKeyDoesNotMatter(pieces: seq<string>, j: string, k: string, a: ProxyAuth)
    requires KeyFirst(pieces)
    ensures Outcome(ReadAll(Reader(j, a), pieces)) == Outcome(ReadAll(Reader(k, a), pieces))
  {
    if pieces != [] {
      if TrimSpace(pieces[0]) == "" {
        LastKeyDoesNotMatter(pieces[1..], j, k, a);
      } else {
        assert ReadPiece(Reader(j, a), pieces[0]) == ReadPiece(Reader(k, a), pieces[0]);
      }
    }
  }

  /** The keys to which the pieces assign a value. */
  function Touched(pieces: seq<string>, lastKey: string): set<string> {
    if pieces == [] then {}
    else
      match ItemOf(pieces[0], lastKey)
      case Blank => Touched(pieces[1..], lastKey)
      case Orphan(_) => {}
      case Pair(key, value) => (if value != "" then {key} else {}) + Touched(pieces[1..], key)
  }

  /** The filter b laid over a, b having assigned the keys in `touched`. */
  function Merge(a: ProxyAuth, b: ProxyAuth, touched: set<string>): ProxyAuth {
    ProxyAuth(
      a.countries + b.countries,
      a.cities + b.cities,
      if "seed" in touched then b.seed else a.seed,
      if b.owned.Some? then b.owned else a.owned,
      a.providers + b.providers,
      if "speed" in touched then b.minSpeed else a.minSpeed,
      if "multihop" in touched then b.multihop else a.multihop,
      if b.hostname != "" then b.hostname else a.hostname)
  }

  lemma MergeIsAssociative(a: ProxyAuth, b: ProxyAuth, c: ProxyAuth, p: set<string>, q: set<string>)
    ensures Merge(Merge(a, b, p), c, q) == Merge(a, Merge(b, c, q), p + q)
  {
  }

  lemma MergeNothing(a: ProxyAuth)
    ensures Merge(a, NO_AUTH, {}) == a
  {
  }

  lemma AssignMerges(a: ProxyAuth, key: string, value: string)
    requires value != ""
    ensures match Assign(NO_AUTH, key, value)
            case Err(e) => Assign(a, key, value) == Err(e)
            case Ok(b) => Assign(a, key, value) == Ok(Merge(a, b, {key}))
  {
    var none: seq<string> := [];
    assert none + [value] == [value];
    assert a.countries + [] == a.countries && a.cities + [] == a.cities && a.providers + [] == a.providers;
  }

  lemma {:induction false} ReadingMerges(pieces: seq<string>, k: string, a: ProxyAuth)
    ensures match ReadAll(Reader(k, NO_AUTH), pieces)
            case Err(e) => ReadAll(Reader(k, a), pieces) == Err(e)
            case Ok(t) =>
              ReadAll(Reader(k, a), pieces) == Ok(Reader(t.lastKey, Merge(a, t.auth, Touched(pieces, k))))
    decreases |pieces|, 1
  {
    if pieces == [] {
      MergeNothing(a);
    } else {
      match ItemOf(pieces[0], k)
      case Blank => ReadingMerges(pieces[1..], k, a);
      case Orphan(_) =>
      case Pair(key, value) =>
        if value == "" {
          ReadingMerges(pieces[1..], key, a);
        } else {
          AssignMerges(a, key, value);
          var b := Assign(NO_AUTH, key, value);
          if b.Ok? {
            ReadingMergesStep(pieces, k, a, key, value, b.value);
          }
        }
    }
  }

  lemma ReadingMergesStep(pieces: seq<string>, k: string, a: ProxyAuth, key: string, value: string, b: ProxyAuth)
    requires pieces != [] && ItemOf(pieces[0], k) == Pair(key, value) && value != ""
    requires Assign(NO_AUTH, key, value) == Ok(b) && Assign(a, key, value) == Ok(Merge(a, b, {key}))
    ensures match ReadAll(Reader(k, NO_AUTH), pieces)
            case Err(e) => ReadAll(Reader(k, a), pieces) == Err(e)
            case Ok(t) =>
              ReadAll(Reader(k, a), pieces) == Ok(Reader(t.lastKey, Merge(a, t.auth, Touched(pieces, k))))
    decreases |pieces|, 0
  {
    var rest := pieces[1..];
    ReadingMerges(rest, key, Merge(a, b, {key}));
    ReadingMerges(rest, key, b);
    var r := ReadAll(Reader(key, NO_AUTH), rest);
    if r.Ok? {
      MergeIsAssociative(a, b, r.value.auth, {key}, Touched(rest, key));
    }
  }

  function KeysOf(s: string): set<string> {
    Touched(Split(s), "")
  }

  /** "s,t" parses exactly if s and t do, and then to t laid over s. */
  lemma ParsingConcat(s: string, t: string)
    requires KeyFirst(Split(t))
    ensures ParseString(s + "," + t).Ok? <==> ParseString(s).Ok? && ParseString(t).Ok?
    ensures ParseString(s + "," + t).Ok? ==>
            ParseString(s + "," + t).value == Merge(ParseString(s).value, ParseString(t).value, KeysOf(t))
  {
    SplitConcat(s, t);
    FoldConcat(ReadPiece, START, Split(s), Split(t));
    var r := ReadAll(START, Split(s));
    if r.Ok? {
      LastKeyDoesNotMatter(Split(t), r.value.lastKey, "", r.value.auth);
      ReadingMerges(Split(t), "", r.value.auth);
    }
  }

  /**
  t does not try to take back what s sets: a zero seed, a speed that is not positive or
  "multihop=false" is only harmless where s leaves the field alone.
  */
  predicate TakesNothingBack(a: ProxyAuth, b: ProxyAuth, touched: set<string>) {
    && ("seed" in touched && b.seed == 0 ==> a.seed == 0)
    && ("speed" in touched && b.minSpeed <= 0 ==> a.minSpeed <= 0)
    && ("multihop" in touched && !b.multihop ==> !a.multihop)
  }

  /** A key that was not assigned leaves its field at the zero value. */
  ghost predicate UntouchedIsZero(b: ProxyAuth, touched: set<string>) {
    && ("seed" !in touched ==> b.seed == 0)
    && ("speed" !in touched ==> b.minSpeed == 0)
    && ("multihop" !in touched ==> !b.multihop)
  }

  lemma MergeUntouched(a: ProxyAuth, b: ProxyAuth, p: set<string>, q: set<string>)
    requires UntouchedIsZero(a, p) && UntouchedIsZero(b, q)
    ensures UntouchedIsZero(Merge(a, b, q), p + q)
  {
  }

  lemma AssignTouches(key: string, value: string)
    requires Assign(NO_AUTH, key, value).Ok?
    ensures UntouchedIsZero(Assign(NO_AUTH, key, value).value, {key})
  {
  }

  lemma {:induction false} ReadingTouches(pieces: seq<string>, k: string)
    ensures var r := ReadAll(Reader(k, NO_AUTH), pieces);
            r.Ok? ==> UntouchedIsZero(r.value.auth, Touched(pieces, k))
  {
    if pieces != [] {
      match ItemOf(pieces[0], k)
      case Blank => ReadingTouches(pieces[1..], k);
      case Orphan(_) =>
      case Pair(key, value) =>
        ReadingTouches(pieces[1..], key);
        if value != "" && Assign(NO_AUTH, key, value).Ok? {
          var b := Assign(NO_AUTH, key, value).value;
          AssignTouches(key, value);
          ReadingMerges(pieces[1..], key, b);
          var r := ReadAll(Reader(key, NO_AUTH), pieces[1..]);
          if r.Ok? {
            MergeUntouched(b, r.value.auth, {key}, Touched(pieces[1..], key));
          }
        }
    }
  }

  const NO_FILTER := Filter([], [], 0, None, [], 0, false, "")

  lemma AppliedMerge(f: Filter, a: ProxyAuth, b: ProxyAuth, touched: set<string>)
    requires UntouchedIsZero(b, touched) && TakesNothingBack(a, b, touched)
    ensures Applied(f, Merge(a, b, touched)) == Applied(Applied(f, a), b)
  {
    assert f.countries + a.countries + b.countries == f.countries + (a.countries + b.countries);
    assert f.cities + a.cities + b.cities == f.cities + (a.cities + b.cities);
    assert f.providers + a.providers + b.providers == f.providers + (a.providers + b.providers);
  }

  /**
  Applying "s,t" at once equals applying s and then t, to every base filter, exactly when
  t takes nothing back.
  */
  lemma ApplyingConcat(s: string, t: string)
    requires KeyFirst(Split(t)) && ParseString(s + "," + t).Ok?
    ensures ParseString(s).Ok? && ParseString(t).Ok?
    ensures var a, b, ab := ParseString(s).value, ParseString(t).value, ParseString(s + "," + t).value;
            (forall f :: Applied(f, ab) == Applied(Applied(f, a), b)) <==> TakesNothingBack(a, b, KeysOf(t))
  {
    ParsingConcat(s, t);
    ReadingTouches(Split(t), "");
    var a, b, ab := ParseString(s).value, ParseString(t).value, ParseString(s + "," + t).value;
    if TakesNothingBack(a, b, KeysOf(t)) {
      forall f ensures Applied(f, ab) == Applied(Applied(f, a), b) {
        AppliedMerge(f, a, b, KeysOf(t));
      }
    } else {
      assert Applied(NO_FILTER, ab) != Applied(Applied(NO_FILTER, a), b);
    }
  }
}

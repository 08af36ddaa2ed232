/** What quoting, parsing and signing mean, character by character (backend/app/security/protocol.py). */
module QueryLaws {
  import opened Outcomes
  import opened Sorting
  import Utf8
  import opened CanonicalRequest

  const CAPITALS := "ABCDEFGHIJKLMNOPQRSTUVWXYZ"
  const SMALLS := "abcdefghijklmnopqrstuvwxyz"
  const DIGITS := "0123456789"

  /** The unreserved characters of section 2.3 of RFC 3986. */
  predicate IsUnreserved(c: char) {
    c in CAPITALS || c in SMALLS || c in DIGITS || c in "-._~"
  }

  /** The other characters a path may hold as they are: the slash, and ":", "@" and sub-delims of section 3.3 of RFC 3986. */
  const SEGMENT := {'/', ':', '@', '!', '$', '&', '\'', '(', ')', '*', '+', ',', ';', '='}

  lemma {:induction false} CapitalAt(k: int)
    requires 0 <= k < 26
    ensures CAPITALS[k] as int == 65 + k
  {
  }

  lemma {:induction false} SmallAt(k: int)
    requires 0 <= k < 26
    ensures SMALLS[k] as int == 97 + k
  {
  }

  lemma {:induction false} DigitAt(k: int)
    requires 0 <= k < 10
    ensures DIGITS[k] as int == 48 + k
  {
  }

  lemma {:induction false} AlphabetSizes()
    ensures |CAPITALS| == 26 && |SMALLS| == 26 && |DIGITS| == 10
  {
  }

  lemma {:induction false} CapitalMeans(c: char)
    ensures c in CAPITALS <==> 'A' <= c <= 'Z'
  {
    AlphabetSizes();
    hide CAPITALS;
    if c in CAPITALS {
      var k :| 0 <= k < |CAPITALS| && CAPITALS[k] == c;
      CapitalAt(k);
    }
    if 'A' <= c <= 'Z' {
      CapitalAt(c as int - 65);
      assert CAPITALS[c as int - 65] == c;
    }
  }

  lemma {:induction false} SmallMeans(c: char)
    ensures c in SMALLS <==> 'a' <= c <= 'z'
  {
    AlphabetSizes();
    hide SMALLS;
    if c in SMALLS {
      var k :| 0 <= k < |SMALLS| && SMALLS[k] == c;
      SmallAt(k);
    }
    if 'a' <= c <= 'z' {
      SmallAt(c as int - 97);
      assert SMALLS[c as int - 97] == c;
    }
  }

  lemma {:induction false} DigitMeans(c: char)
    ensures c in DIGITS <==> '0' <= c <= '9'
  {
    AlphabetSizes();
    hide DIGITS;
    if c in DIGITS {
      var k :| 0 <= k < |DIGITS| && DIGITS[k] == c;
      DigitAt(k);
    }
    if '0' <= c <= '9' {
      DigitAt(c as int - 48);
      assert DIGITS[c as int - 48] == c;
    }
  }

  lemma {:induction false} UnreservedMeans(c: char)
    ensures Unreserved(c) <==> IsUnreserved(c)
  {
    CapitalMeans(c);
    SmallMeans(c);
    DigitMeans(c);
    hide CAPITALS, SMALLS, DIGITS;
  }

  lemma {:induction false} PathSafeMeans(c: char)
    ensures Unreserved(c) || c in PATH_SAFE <==> IsUnreserved(c) || c in SEGMENT
  {
    UnreservedMeans(c);
    hide IsUnreserved;
  }

  // ----- what quoting keeps -----

  lemma {:induction false} QuoteBytesConcat(a: seq<int>, b: seq<int>, safe: set<char>)
    ensures QuoteBytes(a + b, safe) == QuoteBytes(a, safe) + QuoteBytes(b, safe)
  {
    hide QuoteByte;
    if a == [] {
      assert a + b == b;
    } else {
      assert (a + b)[1..] == a[1..] + b;
      QuoteBytesConcat(a[1..], b, safe);
    }
  }

  lemma {:induction false} QuoteHead(s: string, safe: set<char>)
    requires s != []
    ensures Quote(s, safe) == QuoteBytes(Utf8.EncodeChar(s[0]), safe) + Quote(s[1..], safe)
  {
    QuoteBytesConcat(Utf8.EncodeChar(s[0]), Utf8.Encode(s[1..]), safe);
  }

  lemma {:induction false} QuoteBytesLength(bytes: seq<int>, safe: set<char>)
    ensures |QuoteBytes(bytes, safe)| >= |bytes|
  {
    if bytes != [] {
      QuoteBytesLength(bytes[1..], safe);
    }
  }

  lemma {:induction false} QuoteOne(c: char, safe: set<char>)
    requires AsciiSafe(safe)
    ensures var text := QuoteBytes(Utf8.EncodeChar(c), safe);
            if Unreserved(c) || c in safe then text == [c] else |text| > 1
  {
    var bytes := Utf8.EncodeChar(c);
    assert QuoteBytes(bytes, safe) == QuoteByte(bytes[0], safe) + QuoteBytes(bytes[1..], safe);
    hide QuoteBytes, AsciiSafe;
    QuoteBytesLength(bytes[1..], safe);
    if c as int < 0x80 {
      assert bytes[1..] == [] && bytes[0] as char == c;
      QuoteNothing(safe);
    } else {
      AsciiMembers(c, safe);
    }
  }

  lemma {:induction false} AsciiMembers(c: char, safe: set<char>)
    requires AsciiSafe(safe) && c as int >= 0x80
    ensures !Unreserved(c) && c !in safe
  {
  }

  lemma {:induction false} QuoteNothing(safe: set<char>)
    ensures QuoteBytes([], safe) == []
  {
  }

  ghost predicate Keeps(c: char, safe: set<char>) {
    Unreserved(c) || c in safe
  }

  ghost predicate AllKept(s: string, safe: set<char>) {
    forall i :: 0 <= i < |s| ==> Keeps(s[i], safe)
  }

  lemma {:induction false} AllKeptHead(s: string, safe: set<char>)
    requires s != []
    ensures AllKept(s, safe) <==> Keeps(s[0], safe) && AllKept(s[1..], safe)
  {
    hide Keeps;
    assert forall i :: 0 < i < |s| ==> s[i] == s[1..][i - 1];
  }

  lemma {:induction false} QuoteGrows(s: string, safe: set<char>)
    requires AsciiSafe(safe)
    ensures if AllKept(s, safe) then Quote(s, safe) == s else |Quote(s, safe)| > |s|
  {
    if s != [] {
      assert Keeps(s[0], safe) <==> Unreserved(s[0]) || s[0] in safe;
      hide *;
      QuoteGrows(s[1..], safe);
      QuoteHead(s, safe);
      QuoteOne(s[0], safe);
      AllKeptHead(s, safe);
      Longer(s, QuoteBytes(Utf8.EncodeChar(s[0]), safe), Quote(s[1..], safe));
    }
  }

  lemma {:induction false} Longer(s: string, head: string, rest: string)
    requires s != []
    ensures head == [s[0]] && rest == s[1..] ==> head + rest == s
    ensures |head + rest| == |head| + |rest|
  {
  }

  /** A path is signed as it is exactly when it holds nothing but slashes and characters of section 3.3 of RFC 3986. */
  lemma {:induction false} PathIsKeptExactly(path: string)
    ensures Quote(path, PATH_SAFE) == path <==> forall i :: 0 <= i < |path| ==> IsUnreserved(path[i]) || path[i] in SEGMENT
  {
    PathSafeIsAscii();
    hide Quote, AsciiSafe;
    forall c ensures Unreserved(c) || c in PATH_SAFE <==> IsUnreserved(c) || c in SEGMENT {
      PathSafeMeans(c);
    }
    hide Unreserved, IsUnreserved, SEGMENT, PATH_SAFE;
    QuoteGrows(path, PATH_SAFE);
    assert AllKept(path, PATH_SAFE) <==> forall i :: 0 <= i < |path| ==> IsUnreserved(path[i]) || path[i] in SEGMENT;
  }

  /** A key or value is printed as it is exactly when it holds nothing but unreserved characters. */
  lemma {:induction false} TextIsKeptExactly(s: string)
    ensures Quote(s, {}) == s <==> forall i :: 0 <= i < |s| ==> IsUnreserved(s[i])
  {
    hide Quote;
    forall c ensures Unreserved(c) <==> IsUnreserved(c) {
      UnreservedMeans(c);
    }
    hide Unreserved, IsUnreserved;
    QuoteGrows(s, {});
  }

  // ----- what unquoting decodes -----

  const LOWER_HEX := "0123456789abcdef"

  /** The character is the hex digit of the value, in either case. */
  ghost predicate Digit(c: char, v: int) {
    0 <= v < 16 && (c == HEX[v] || c == LOWER_HEX[v])
  }

  lemma {:induction false} HexMeans(c: char, v: int)
    ensures HexValue(c) == Some(v) <==> Digit(c, v)
  {
    if HexValue(c) == Some(v) {
      if v < 10 {
        assert c == ('0' as int + v) as char;
      } else if c < 'a' {
        assert c == ('A' as int + v - 10) as char;
      } else {
        assert c == ('a' as int + v - 10) as char;
      }
    }
  }

  /** A percent sign and two hex digits of either case are their byte; a percent sign without them is itself. */
  lemma {:induction false} PercentMeans(s: string, i: int, j: int)
    requires s != [] && s[0] == '%'
    ensures |s| >= 3 && Digit(s[1], i) && Digit(s[2], j) ==> UnquoteToBytes(s) == [16 * i + j] + UnquoteToBytes(s[3..])
    ensures (|s| < 3 || (forall v :: !Digit(s[1], v)) || (forall v :: !Digit(s[2], v))) ==> UnquoteToBytes(s) == [37] + UnquoteToBytes(s[1..])
  {
    hide HexValue, Digit;
    if |s| >= 3 {
      HexMeans(s[1], i);
      HexMeans(s[2], j);
      if IsEscape(s) {
        HexMeans(s[1], HexValue(s[1]).value);
        HexMeans(s[2], HexValue(s[2]).value);
      }
    }
  }

  lemma {:induction false} PlainBytes(s: string)
    requires Lacks(s, '%') && forall i :: 0 <= i < |s| ==> s[i] as int < 0x80
    ensures Utf8.Decode(UnquoteToBytes(s)) == s
  {
    if s != [] {
      PlainBytes(s[1..]);
      var rest := UnquoteToBytes(s[1..]);
      assert !IsEscape(s);
      hide UnquoteToBytes, IsEscape, Lacks;
      assert ([s[0] as int] + rest)[1..] == rest;
      assert Utf8.DecodeOne([s[0] as int] + rest) == Utf8.Decoded(s[0], 1);
      assert s == [s[0]] + s[1..];
    }
  }

  lemma {:induction false} AsciiPrefixIsAscii(s: string)
    ensures forall i :: 0 <= i < AsciiPrefix(s) ==> s[i] as int < 0x80
  {
    if s != [] && s[0] as int < 0x80 {
      AsciiPrefixIsAscii(s[1..]);
      assert forall i :: 0 < i < |s| ==> s[i] == s[1..][i - 1];
    }
  }

  /** A text without percent signs unquotes to itself, ASCII or not. */
  lemma {:induction false} PlainTextIsKept(s: string)
    requires Lacks(s, '%')
    ensures Unquote(s) == s
    decreases |s|
  {
    var n := AsciiPrefix(s);
    AsciiPrefixIsAscii(s);
    if s != [] {
      hide AsciiPrefix, UnquoteToBytes;
      if n == 0 {
        PlainTextIsKept(s[1..]);
        assert s == [s[0]] + s[1..];
      } else {
        PlainBytes(s[..n]);
        PlainTextIsKept(s[n..]);
        assert s == s[..n] + s[n..];
      }
    }
  }

  // ----- plus signs -----

  ghost predicate AreBytes(bytes: seq<int>) {
    forall i :: 0 <= i < |bytes| ==> 0 <= bytes[i] < 256
  }

  lemma {:induction false} NothingIsSafe()
    ensures AsciiSafe({})
  {
  }

  lemma {:induction false} UnquotePast(bytes: seq<int>, rest: string)
    requires AreBytes(bytes)
    ensures UnquoteToBytes(QuoteBytes(bytes, {}) + rest) == bytes + UnquoteToBytes(rest)
  {
    if bytes == [] {
      assert QuoteBytes(bytes, {}) + rest == rest;
    } else {
      NothingIsSafe();
      hide UnquoteToBytes, QuoteByte, AsciiSafe;
      var tail := QuoteBytes(bytes[1..], {}) + rest;
      UnquotePast(bytes[1..], rest);
      ByteRoundTrip(bytes[0], {}, tail);
      assert QuoteBytes(bytes, {}) == QuoteByte(bytes[0], {}) + QuoteBytes(bytes[1..], {});
      hide QuoteBytes, AreBytes;
      Reassociate(QuoteByte(bytes[0], {}), QuoteBytes(bytes[1..], {}), rest);
      Reassociate([bytes[0]], bytes[1..], UnquoteToBytes(rest));
      assert bytes == [bytes[0]] + bytes[1..];
    }
  }

  lemma {:induction false} Reassociate<T>(a: seq<T>, b: seq<T>, c: seq<T>)
    ensures a + b + c == a + (b + c)
  {
  }

  lemma {:induction false} PlusConcat(a: string, b: string)
    ensures PlusToSpace(a + b) == PlusToSpace(a) + PlusToSpace(b)
  {
    if a == [] {
      assert a + b == b;
    } else {
      assert (a + b)[1..] == a[1..] + b;
      PlusConcat(a[1..], b);
    }
  }

  lemma {:induction false} EncodeConcat(a: string, b: string)
    ensures Utf8.Encode(a + b) == Utf8.Encode(a) + Utf8.Encode(b)
  {
    hide Utf8.EncodeChar;
    if a == [] {
      assert a + b == b;
    } else {
      assert (a + b)[1..] == a[1..] + b;
      EncodeConcat(a[1..], b);
    }
  }

  lemma {:induction false} UnquoteAscii(s: string)
    requires forall i :: 0 <= i < |s| ==> s[i] as int < 0x80
    ensures Unquote(s) == Utf8.Decode(UnquoteToBytes(s))
  {
    AllAscii(s);
    if s != [] {
      assert s[..|s|] == s && s[|s|..] == [];
      assert Unquote(s) == Utf8.Decode(UnquoteToBytes(s)) + Unquote([]);
    }
  }

  lemma {:induction false} UnquoteSpace(rest: string)
    ensures UnquoteToBytes(" " + rest) == [32] + UnquoteToBytes(rest)
  {
    assert (" " + rest)[1..] == rest;
  }

  lemma {:induction false} EncodeSpace(a: string, b: string)
    ensures Utf8.Encode(a + " " + b) == Utf8.Encode(a) + ([32] + Utf8.Encode(b))
  {
    assert Utf8.Encode(" ") == [32];
    hide Utf8.Encode;
    EncodeConcat(a, " " + b);
    EncodeConcat(" ", b);
    Reassociate(a, " ", b);
  }

  lemma {:induction false} SpaceBytes(a: string, b: string)
    ensures UnquoteToBytes(Quote(a, {}) + " " + Quote(b, {})) == Utf8.Encode(a + " " + b)
  {
    Utf8.EncodesBytes(a);
    Utf8.EncodesBytes(b);
    hide Utf8.Encode, QuoteBytes;
    UnquotePast(Utf8.Encode(a), " " + Quote(b, {}));
    UnquotePast(Utf8.Encode(b), []);
    assert UnquoteToBytes([]) == [];
    hide UnquoteToBytes;
    UnquoteSpace(Quote(b, {}));
    EncodeSpace(a, b);
    Reassociate(Quote(a, {}), " ", Quote(b, {}));
    assert Quote(b, {}) + [] == Quote(b, {}) && Utf8.Encode(b) + [] == Utf8.Encode(b);
  }

  lemma {:induction false} PlusBetween(x: string, y: string)
    requires Lacks(x, '+') && Lacks(y, '+')
    ensures PlusToSpace(x + "+" + y) == x + " " + y
  {
    assert PlusToSpace("+") == " ";
    NoPlus(x);
    NoPlus(y);
    hide PlusToSpace;
    PlusConcat(x + "+", y);
    PlusConcat(x, "+");
  }

  lemma {:induction false} QuotedFacts(s: string)
    ensures Lacks(Quote(s, {}), '+') && forall i :: 0 <= i < |Quote(s, {})| ==> Quote(s, {})[i] as int < 0x80
  {
    PlainUndoesQuote(s);
    QuotedLacks(Quote(s, {}), {}, '+');
    QuotedIsAscii(Quote(s, {}), {});
  }

  /** In a query a plus sign stands for a space, and an escaped one for itself. */
  lemma {:induction false} PlusIsSpace(a: string, b: string)
    ensures Plain(Quote(a, {}) + "+" + Quote(b, {})) == a + " " + b
  {
    hide Quote, Unquote, PlusToSpace, UnquoteToBytes, Lacks;
    var x, y := Quote(a, {}), Quote(b, {});
    QuotedFacts(a);
    QuotedFacts(b);
    PlusBetween(x, y);
    UnquoteAscii(x + " " + y);
    SpaceBytes(a, b);
    Utf8.RoundTrip(a + " " + b);
  }

  // ----- fields -----

  lemma {:induction false} ParseFieldsConcat(a: seq<string>, b: seq<string>)
    ensures ParseFields(a + b) == ParseFields(a) + ParseFields(b)
  {
    hide ParseField;
    if a == [] {
      assert a + b == b;
    } else {
      assert (a + b)[1..] == a[1..] + b;
      ParseFieldsConcat(a[1..], b);
    }
  }

  /** Queries joined by an ampersand hold the pairs of both. */
  lemma {:induction false} QueriesConcatenate(a: string, b: string)
    ensures ParseQuery(a + "&" + b) == ParseQuery(a) + ParseQuery(b)
  {
    SplitsApart(a, b, '&');
    ParseFieldsConcat(Split(a, '&'), Split(b, '&'));
  }

  /** A query without ampersand: nothing, a key with a blank value, or a key and all that follows its first equals sign. */
  lemma {:induction false} OneField(key: string, value: string)
    requires Lacks(key, '=') && Lacks(key, '&') && Lacks(value, '&')
    ensures ParseQuery(key) == if key == [] then [] else [Pair(Plain(key), "")]
    ensures ParseQuery(key + "=" + value) == [Pair(Plain(key), Plain(value))]
  {
    var field := key + "=" + value;
    FieldSplits(key, value);
    FindPast(key, '=', value);
    QueryHead(field, []);
    if key == [] {
      NoFields();
    } else {
      QueryHead(key, []);
    }
  }

  lemma {:induction false} NoFields()
    ensures ParseQuery([]) == []
  {
    var blank: string := [];
    assert Split(blank, '&') == [blank];
    assert [blank][1..] == [];
  }

  // ----- the order of pairs -----

  /** One text is a beginning of the other, or has the smaller character where they first differ. */
  ghost predicate Precedes(a: string, b: string) {
    exists n :: AgreesUpTo(a, b, n) && (n == |a| || (n < |b| && a[n] < b[n]))
  }

  ghost predicate AgreesUpTo(a: string, b: string, n: int) {
    0 <= n <= |a| && n <= |b| && forall i :: 0 <= i < n ==> a[i] == b[i]
  }

  lemma {:induction false} TextLeqMeans(a: string, b: string)
    ensures TextLeq(a, b) <==> Precedes(a, b)
    decreases |a|
  {
    if a == [] {
      assert AgreesUpTo(a, b, 0);
    } else if b != [] {
      TextLeqMeans(a[1..], b[1..]);
      if a[0] < b[0] {
        assert AgreesUpTo(a, b, 0);
      } else if a[0] == b[0] {
        TailsAgree(a, b);
      }
    }
  }

  lemma {:induction false} TailsAgree(a: string, b: string)
    requires a != [] && b != [] && a[0] == b[0]
    ensures Precedes(a, b) <==> Precedes(a[1..], b[1..])
  {
    if n :| AgreesUpTo(a, b, n) && (n == |a| || (n < |b| && a[n] < b[n])) {
      assert AgreesUpTo(a[1..], b[1..], n - 1);
      assert n < |b| && n < |a| ==> a[1..][n - 1] == a[n] && b[1..][n - 1] == b[n];
    }
    if n :| AgreesUpTo(a[1..], b[1..], n) && (n == |a[1..]| || (n < |b[1..]| && a[1..][n] < b[1..][n])) {
      forall i | 0 <= i < n + 1 ensures a[i] == b[i] {
        if i > 0 {
          assert a[1..][i - 1] == b[1..][i - 1];
        }
      }
      assert AgreesUpTo(a, b, n + 1);
    }
  }

  lemma {:induction false} MapAt<T, U>(s: seq<T>, f: T -> U)
    ensures |Map(s, f)| == |s| && forall i :: 0 <= i < |s| ==> Map(s, f)[i] == f(s[i])
  {
    if s != [] {
      MapAt(s[1..], f);
    }
  }

  /** The canonical query prints the pairs in ascending order of their quoted keys, and of their quoted values under one key. */
  lemma {:induction false} CanonicalOrder(raw: string) returns (ordered: seq<Pair>)
    ensures CanonicalQuery(raw) == Join(Map(ordered, Encoded)) && multiset(ordered) == multiset(ParseQuery(raw))
    ensures forall i, j :: 0 <= i < j < |ordered| ==>
              && Precedes(Quote(ordered[i].key, {}), Quote(ordered[j].key, {}))
              && (ordered[i].key == ordered[j].key ==> Precedes(Quote(ordered[i].value, {}), Quote(ordered[j].value, {})))
  {
    ordered := CanonicalIsJoin(raw);
    hide Quote, CanonicalQuery, ParseQuery, Join, Map;
    MapAt(ordered, Encoded);
    forall i, j | 0 <= i < j < |ordered|
      ensures Precedes(Quote(ordered[i].key, {}), Quote(ordered[j].key, {}))
      ensures ordered[i].key == ordered[j].key ==> Precedes(Quote(ordered[i].value, {}), Quote(ordered[j].value, {}))
    {
      var a, b := Encoded(ordered[i]), Encoded(ordered[j]);
      assert PairLeq()(Map(ordered, Encoded)[i], Map(ordered, Encoded)[j]);
      hide TextLeq, Precedes;
      TextLeqMeans(a.key, b.key);
      TextLeqMeans(a.value, b.value);
      SelfPrecedes(a.key);
    }
  }

  lemma {:induction false} SelfPrecedes(a: string)
    ensures Precedes(a, a)
  {
    assert AgreesUpTo(a, a, |a|);
  }

  // ----- the signed text -----

  /** Small letters become their capitals and everything else is kept. */
  lemma {:induction false} UpperMeans(s: string, i: nat, k: nat)
    requires i < |s| && k < 26
    ensures |Upper(s)| == |s|
    ensures s[i] == SMALLS[k] ==> Upper(s)[i] == CAPITALS[k]
    ensures (forall m :: 0 <= m < 26 ==> s[i] != SMALLS[m]) ==> Upper(s)[i] == s[i]
  {
    UpperAt(s, i);
    CapitalAt(k);
    SmallAt(k);
    SmallMeans(s[i]);
    AlphabetSizes();
    hide Upper, CAPITALS, SMALLS;
    if s[i] in SMALLS {
      var m :| 0 <= m < |SMALLS| && SMALLS[m] == s[i];
    }
  }

  lemma {:induction false} UpperAt(s: string, i: nat)
    requires i < |s|
    ensures |Upper(s)| == |s| && Upper(s)[i] == if 'a' <= s[i] <= 'z' then s[i] - 32 as char else s[i]
  {
    if i > 0 {
      UpperAt(s[1..], i - 1);
    } else if |s| > 1 {
      UpperAt(s[1..], 0);
    }
  }

  /** The bytes of a request without line breaks are six lines: the scheme, the method in capitals, the canonical path, timestamp, nonce and digest. */
  lemma {:induction false} SixLines(r: Signed)
    requires Lacks(r.verb, '\n') && Lacks(r.timestamp, '\n') && Lacks(r.nonce, '\n') && Lacks(r.digest, '\n') && CanonicalBytes(r).Ok?
    ensures Split(Utf8.Decode(CanonicalBytes(r).value), '\n')
         == ["PM-HMAC-SHA256-V1", Upper(r.verb), CanonicalPath(r.path, r.raw), r.timestamp, r.nonce, r.digest]
  {
    UpperIsOneLine(r.verb);
    CanonicalPathIsOneLine(r.path, r.raw);
    PrefixLacks();
    hide Upper, CanonicalPath, Split, Lacks, JoinLines, IsLower, SIGNING_PREFIX;
    var lines := [SIGNING_PREFIX, Upper(r.verb), CanonicalPath(r.path, r.raw), r.timestamp, r.nonce, r.digest];
    assert SignedLines(r) == lines;
    Utf8.RoundTrip(JoinLines(lines));
    assert AllLack(lines, '\n');
    SplitUndoesJoin(lines);
  }

  /** A request is refused exactly when its digest has not 64 characters or holds a capital letter. */
  lemma {:induction false} RefusedExactly(r: Signed)
    ensures CanonicalBytes(r).Ok? <==> |r.digest| == 64 && forall i :: 0 <= i < 64 ==> r.digest[i] !in CAPITALS
  {
    forall c ensures c in CAPITALS <==> 'A' <= c <= 'Z' {
      CapitalMeans(c);
    }
    hide CAPITALS;
  }

  lemma {:induction false} PrefixLacks()
    ensures Lacks(SIGNING_PREFIX, '\n') && SIGNING_PREFIX == "PM-HMAC-SHA256-V1"
  {
  }
}

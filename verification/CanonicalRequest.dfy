/** Canonical form of signed device requests (backend/app/security/protocol.py). */
module CanonicalRequest {
  import opened Outcomes
  import opened Sorting
  import Sums
  import Utf8

  datatype Pair = Pair(key: string, value: string)

  // ----- percent-encoding (sections 2.1 and 2.3 of RFC 3986) -----

  predicate Unreserved(c: char) {
    'A' <= c <= 'Z' || 'a' <= c <= 'z' || '0' <= c <= '9' || c in {'-', '.', '_', '~'}
  }

  /** Characters a path keeps besides the unreserved ones. */
  const PATH_SAFE := {'/', '~', ':', '@', '!', '$', '&', '\'', '(', ')', '*', '+', ',', ';', '=', '-', '.', '_'}

  const HEX := "0123456789ABCDEF"

  predicate Literal(b: int, safe: set<char>) {
    0 <= b < 0x80 && (Unreserved(b as char) || b as char in safe)
  }

  function QuoteByte(b: int, safe: set<char>): string {
    if Literal(b, safe) then [b as char] else ['%', HEX[b / 16 % 16], HEX[b % 16]]
  }

  function QuoteBytes(bytes: seq<int>, safe: set<char>): string {
    if bytes == [] then [] else QuoteByte(bytes[0], safe) + QuoteBytes(bytes[1..], safe)
  }

  function Quote(s: string, safe: set<char>): string {
    QuoteBytes(Utf8.Encode(s), safe)
  }

  function HexValue(c: char): Option<int> {
    if '0' <= c <= '9' then Some(c as int - '0' as int)
    else if 'A' <= c <= 'F' then Some(c as int - 'A' as int + 10)
    else if 'a' <= c <= 'f' then Some(c as int - 'a' as int + 10)
    else None
  }

  predicate IsEscape(s: string) {
    |s| >= 3 && s[0] == '%' && HexValue(s[1]).Some? && HexValue(s[2]).Some?
  }

  /** Escapes become their byte, everything else its own; a percent sign without two hex digits stays literal. */
  function UnquoteToBytes(s: string): seq<int> {
    if s == [] then []
    else if IsEscape(s) then [16 * HexValue(s[1]).value + HexValue(s[2]).value] + UnquoteToBytes(s[3..])
    else [s[0] as int] + UnquoteToBytes(s[1..])
  }

  function AsciiPrefix(s: string): (n: nat)
    ensures n <= |s|
  {
    if s == [] || s[0] as int >= 0x80 then 0 else 1 + AsciiPrefix(s[1..])
  }

  /** Each run of ASCII is unquoted and decoded as UTF-8 with replacement; other characters are kept. */
  function Unquote(s: string): string {
    var n := AsciiPrefix(s);
    if s == [] then []
    else if n == 0 then [s[0]] + Unquote(s[1..])
    else Utf8.Decode(UnquoteToBytes(s[..n])) + Unquote(s[n..])
  }

  // ----- parsing a query -----

  function Find(s: string, c: char): (n: nat)
    ensures n <= |s|
    ensures n < |s| ==> s[n] == c
  {
    if s == [] || s[0] == c then 0 else 1 + Find(s[1..], c)
  }

  function Split(s: string, separator: char): seq<string> {
    var n := Find(s, separator);
    if n == |s| then [s] else [s[..n]] + Split(s[n + 1..], separator)
  }

  function PlusToSpace(s: string): string {
    if s == [] then [] else [if s[0] == '+' then ' ' else s[0]] + PlusToSpace(s[1..])
  }

  function Plain(s: string): string {
    Unquote(PlusToSpace(s))
  }

  /** A field splits at its first equals sign; without one its value is blank. */
  function ParseField(field: string): Pair {
    var n := Find(field, '=');
    if n == |field| then Pair(Plain(field), "") else Pair(Plain(field[..n]), Plain(field[n + 1..]))
  }

  function ParseFields(fields: seq<string>): seq<Pair> {
    if fields == [] then []
    else (if fields[0] == [] then [] else [ParseField(fields[0])]) + ParseFields(fields[1..])
  }

  function ParseQuery(raw: string): seq<Pair> {
    ParseFields(Split(raw, '&'))
  }

  // ----- canonical forms -----

  predicate TextLeq(a: string, b: string)
    decreases |a|
  {
    a == [] || (b != [] && (a[0] < b[0] || (a[0] == b[0] && TextLeq(a[1..], b[1..]))))
  }

  function PairLeq(): (Pair, Pair) -> bool {
    (a: Pair, b: Pair) => if a.key == b.key then TextLeq(a.value, b.value) else TextLeq(a.key, b.key)
  }

  function Encoded(p: Pair): Pair {
    Pair(Quote(p.key, {}), Quote(p.value, {}))
  }

  function Map<T, U>(s: seq<T>, f: T -> U): seq<U> {
    if s == [] then [] else [f(s[0])] + Map(s[1..], f)
  }

  function Field(p: Pair): string {
    p.key + "=" + p.value
  }

  function Join(pairs: seq<Pair>): string {
    if pairs == [] then []
    else if |pairs| == 1 then Field(pairs[0])
    else Field(pairs[0]) + "&" + Join(pairs[1..])
  }

  function CanonicalQuery(raw: string): string {
    Join(Sort(Map(ParseQuery(raw), Encoded), PairLeq()))
  }

  function CanonicalPath(path: string, raw: string): string {
    var query := CanonicalQuery(raw);
    Quote(path, PATH_SAFE) + (if query == [] then [] else "?" + query)
  }

  // ----- quoting round trips -----

  ghost predicate QuotedText(s: string, safe: set<char>) {
    forall i :: 0 <= i < |s| ==> Unreserved(s[i]) || s[i] in safe || s[i] == '%'
  }

  ghost predicate AsciiSafe(safe: set<char>) {
    '%' !in safe && forall c :: c in safe ==> c as int < 0x80
  }

  lemma {:induction false} HexDigits(n: int)
    requires 0 <= n < 16
    ensures HexValue(HEX[n]) == Some(n) && Unreserved(HEX[n]) && HEX[n] != '%'
  {
  }

  lemma {:induction false} LiteralRoundTrip(b: int, safe: set<char>, rest: string)
    requires Literal(b, safe) && AsciiSafe(safe)
    ensures UnquoteToBytes(QuoteByte(b, safe) + rest) == [b] + UnquoteToBytes(rest)
  {
    var text := [b as char] + rest;
    assert text[1..] == rest;
    assert text[0] != '%';
  }

  lemma {:induction false} EscapeRoundTrip(high: int, low: int, rest: string)
    requires 0 <= high < 16 && 0 <= low < 16
    ensures UnquoteToBytes(['%', HEX[high], HEX[low]] + rest) == [16 * high + low] + UnquoteToBytes(rest)
  {
    HexDigits(high);
    HexDigits(low);
    hide HexValue, Unreserved, HEX;
    var text := ['%', HEX[high], HEX[low]] + rest;
    assert text[3..] == rest;
    assert text[0] == '%' && text[1] == HEX[high] && text[2] == HEX[low];
  }

  lemma {:induction false} ByteRoundTrip(b: int, safe: set<char>, rest: string)
    requires 0 <= b < 256 && AsciiSafe(safe)
    ensures UnquoteToBytes(QuoteByte(b, safe) + rest) == [b] + UnquoteToBytes(rest)
  {
    hide UnquoteToBytes, AsciiSafe, HEX, Literal;
    if Literal(b, safe) {
      LiteralRoundTrip(b, safe, rest);
    } else {
      TwoDigits(b);
      EscapeRoundTrip(b / 16, b % 16, rest);
    }
  }

  lemma {:induction false} ByteIsQuoted(b: int, safe: set<char>)
    requires 0 <= b < 256
    ensures QuotedText(QuoteByte(b, safe), safe)
  {
    TwoDigits(b);
    HexDigits(b / 16);
    HexDigits(b % 16);
    hide Unreserved, HexValue, HEX;
  }

  lemma {:induction false} BytesRoundTrip(bytes: seq<int>, safe: set<char>)
    requires AsciiSafe(safe) && forall i :: 0 <= i < |bytes| ==> 0 <= bytes[i] < 256
    ensures UnquoteToBytes(QuoteBytes(bytes, safe)) == bytes
    ensures QuotedText(QuoteBytes(bytes, safe), safe)
  {
    if bytes == [] {
    } else {
      BytesRoundTrip(bytes[1..], safe);
      ByteRoundTrip(bytes[0], safe, QuoteBytes(bytes[1..], safe));
      ByteIsQuoted(bytes[0], safe);
      QuotedConcat(QuoteByte(bytes[0], safe), QuoteBytes(bytes[1..], safe), safe);
      hide UnquoteToBytes, AsciiSafe, QuoteByte, QuotedText;
      assert bytes == [bytes[0]] + bytes[1..];
    }
  }

  lemma {:induction false} QuotedConcat(a: string, b: string, safe: set<char>)
    requires QuotedText(a, safe) && QuotedText(b, safe)
    ensures QuotedText(a + b, safe)
  {
    hide Unreserved;
  }

  /** Percent signs only introduce escapes: two upper-case digits of a byte that could not stand for itself. */
  ghost predicate NormalEscapes(s: string, safe: set<char>) {
    forall i :: 0 <= i < |s| && s[i] == '%' ==> EscapesAt(s, safe, i)
  }

  ghost predicate EscapesAt(s: string, safe: set<char>, i: int) {
    && 0 <= i && i + 2 < |s| && s[i + 1] in HEX && s[i + 2] in HEX
    && HexValue(s[i + 1]).Some? && HexValue(s[i + 2]).Some?
    && !Literal(16 * HexValue(s[i + 1]).value + HexValue(s[i + 2]).value, safe)
  }

  lemma {:induction false} ByteIsNormal(b: int, safe: set<char>)
    requires 0 <= b < 256 && AsciiSafe(safe)
    ensures NormalEscapes(QuoteByte(b, safe), safe)
  {
    if Literal(b, safe) {
      assert QuoteByte(b, safe)[0] != '%';
    } else {
      hide HEX, Literal, NormalEscapes;
      TwoDigits(b);
      EscapeIsNormal(b / 16, b % 16, safe);
    }
  }

  lemma {:induction false} TwoDigits(b: int)
    requires 0 <= b < 256
    ensures 0 <= b / 16 < 16 && b / 16 % 16 == b / 16 && 16 * (b / 16) + b % 16 == b
  {
  }

  lemma {:induction false} EscapeIsNormal(high: int, low: int, safe: set<char>)
    requires 0 <= high < 16 && 0 <= low < 16 && !Literal(16 * high + low, safe)
    ensures NormalEscapes(['%', HEX[high], HEX[low]], safe)
  {
    HexDigits(high);
    HexDigits(low);
    hide HexValue, HEX, Unreserved, Literal;
    assert EscapesAt(['%', HEX[high], HEX[low]], safe, 0);
  }

  lemma {:induction false} NormalConcat(a: string, b: string, safe: set<char>)
    requires NormalEscapes(a, safe) && NormalEscapes(b, safe)
    ensures NormalEscapes(a + b, safe)
  {
    hide HexValue, HEX, Literal;
    forall i | 0 <= i < |a + b| && (a + b)[i] == '%' ensures EscapesAt(a + b, safe, i) {
      if i < |a| {
        assert EscapesAt(a, safe, i);
      } else {
        assert EscapesAt(b, safe, i - |a|);
      }
    }
  }

  lemma {:induction false} BytesAreNormal(bytes: seq<int>, safe: set<char>)
    requires AsciiSafe(safe) && forall i :: 0 <= i < |bytes| ==> 0 <= bytes[i] < 256
    ensures NormalEscapes(QuoteBytes(bytes, safe), safe)
  {
    if bytes != [] {
      hide NormalEscapes, AsciiSafe, QuoteByte;
      BytesAreNormal(bytes[1..], safe);
      ByteIsNormal(bytes[0], safe);
      NormalConcat(QuoteByte(bytes[0], safe), QuoteBytes(bytes[1..], safe), safe);
    }
  }

  /** Quoted text is in the normal form of RFC 3986: upper-case escapes, and none that is not needed. */
  lemma {:induction false} QuoteIsNormal(s: string, safe: set<char>)
    requires AsciiSafe(safe)
    ensures NormalEscapes(Quote(s, safe), safe) && QuotedText(Quote(s, safe), safe)
  {
    hide NormalEscapes, QuotedText, QuoteBytes;
    Utf8.EncodesBytes(s);
    BytesAreNormal(Utf8.Encode(s), safe);
    BytesRoundTrip(Utf8.Encode(s), safe);
  }

  lemma {:induction false} AllAscii(s: string)
    requires forall i :: 0 <= i < |s| ==> s[i] as int < 0x80
    ensures AsciiPrefix(s) == |s|
  {
    if s != [] {
      AllAscii(s[1..]);
    }
  }

  lemma {:induction false} QuotedIsAscii(s: string, safe: set<char>)
    requires AsciiSafe(safe) && QuotedText(s, safe)
    ensures forall i :: 0 <= i < |s| ==> s[i] as int < 0x80
  {
  }

  /** Unquoting undoes quoting for every text and every safe set without the percent sign. */
  lemma {:induction false} QuoteRoundTrip(s: string, safe: set<char>)
    requires AsciiSafe(safe)
    ensures Unquote(Quote(s, safe)) == s
    ensures QuotedText(Quote(s, safe), safe)
  {
    var text := Quote(s, safe);
    Utf8.EncodesBytes(s);
    BytesRoundTrip(Utf8.Encode(s), safe);
    Utf8.RoundTrip(s);
    QuotedIsAscii(text, safe);
    AllAscii(text);
    if text != [] {
      assert text[..|text|] == text && text[|text|..] == [];
      assert Unquote(text) == Utf8.Decode(UnquoteToBytes(text)) + Unquote([]);
    }
  }

  lemma {:induction false} NoPlus(s: string)
    requires forall i :: 0 <= i < |s| ==> s[i] != '+'
    ensures PlusToSpace(s) == s
  {
    if s != [] {
      NoPlus(s[1..]);
    }
  }

  lemma {:induction false} PlainUndoesQuote(s: string)
    ensures Plain(Quote(s, {})) == s
    ensures QuotedText(Quote(s, {}), {})
  {
    QuoteRoundTrip(s, {});
    NoPlus(Quote(s, {}));
  }

  // ----- the printer is undone by the parser -----

  ghost predicate Lacks(s: string, c: char) {
    forall i :: 0 <= i < |s| ==> s[i] != c
  }

  lemma {:induction false} FindPast(a: string, c: char, rest: string)
    requires Lacks(a, c)
    ensures Find(a + [c] + rest, c) == |a|
    ensures Find(a, c) == |a|
  {
    if a == [] {
      assert a + [c] + rest == [c] + rest;
    } else {
      FindPast(a[1..], c, rest);
      assert (a + [c] + rest)[1..] == a[1..] + [c] + rest;
    }
  }

  lemma {:induction false} QuotedLacks(s: string, safe: set<char>, c: char)
    requires QuotedText(s, safe) && !Unreserved(c) && c !in safe && c != '%'
    ensures Lacks(s, c)
  {
  }

  lemma {:induction false} FieldSplits(key: string, value: string)
    requires Lacks(key, '=')
    ensures ParseField(Field(Pair(key, value))) == Pair(Plain(key), Plain(value))
  {
    hide Plain;
    var field := key + ['='] + value;
    FindPast(key, '=', value);
    assert field[..|key|] == key && field[|key| + 1..] == value;
    assert Field(Pair(key, value)) == field;
  }

  lemma {:induction false} FieldRoundTrip(p: Pair)
    ensures ParseField(Field(Encoded(p))) == p
    ensures Lacks(Field(Encoded(p)), '&') && Field(Encoded(p)) != []
  {
    hide Plain, Quote, QuotedText, ParseField;
    var e := Encoded(p);
    PlainUndoesQuote(p.key);
    PlainUndoesQuote(p.value);
    QuotedLacks(e.key, {}, '=');
    QuotedLacks(e.key, {}, '&');
    QuotedLacks(e.value, {}, '&');
    FieldSplits(e.key, e.value);
  }

  /** A printed field before an ampersand is parsed on its own. */
  lemma {:induction false} QueryHead(field: string, rest: string)
    requires Lacks(field, '&') && field != []
    ensures ParseQuery(field) == [ParseField(field)]
    ensures ParseQuery(field + "&" + rest) == [ParseField(field)] + ParseQuery(rest)
  {
    hide ParseField;
    FindPast(field, '&', rest);
    assert Split(field, '&') == [field];
    assert [field][1..] == [];
    assert ParseFields([field]) == [ParseField(field)] + ParseFields([]);
    var text := field + ['&'] + rest;
    assert text[..|field|] == field && text[|field| + 1..] == rest;
    assert Split(text, '&') == [field] + Split(rest, '&');
    assert ([field] + Split(rest, '&'))[1..] == Split(rest, '&');
  }

  lemma {:induction false} JoinRoundTrip(pairs: seq<Pair>)
    ensures ParseQuery(Join(Map(pairs, Encoded))) == pairs
  {
    if pairs == [] {
      var blank: string := [];
      assert Split(blank, '&') == [blank];
      assert [blank][1..] == [];
    } else {
      hide ParseQuery, ParseField, Field, Encoded;
      var field, rest := Field(Encoded(pairs[0])), Map(pairs[1..], Encoded);
      FieldRoundTrip(pairs[0]);
      QueryHead(field, Join(rest));
      assert Map(pairs, Encoded)[1..] == rest;
      assert pairs == [pairs[0]] + pairs[1..];
      if |pairs| > 1 {
        JoinRoundTrip(pairs[1..]);
      }
    }
  }

  // ----- sorting encoded pairs -----

  lemma {:induction false} TextOrder(a: string, b: string, c: string)
    ensures TextLeq(a, b) || TextLeq(b, a)
    ensures TextLeq(a, b) && TextLeq(b, a) ==> a == b
    ensures TextLeq(a, b) && TextLeq(b, c) ==> TextLeq(a, c)
    decreases |a|
  {
    if a != [] && b != [] {
      TextOrder(a[1..], b[1..], if c == [] then [] else c[1..]);
      assert a == [a[0]] + a[1..] && b == [b[0]] + b[1..];
    }
  }

  lemma {:induction false} PairOrder()
    ensures TotalOrder(PairLeq())
  {
    forall a: Pair, b: Pair, c: Pair
      ensures PairLeq()(a, b) || PairLeq()(b, a)
      ensures PairLeq()(a, b) && PairLeq()(b, a) ==> a == b
      ensures PairLeq()(a, b) && PairLeq()(b, c) ==> PairLeq()(a, c)
    {
      TextOrder(a.key, b.key, c.key);
      TextOrder(c.key, b.key, a.key);
      TextOrder(a.value, b.value, c.value);
    }
  }

  lemma {:induction false} MapHead<T, U>(s: seq<T>, f: T -> U)
    requires s != []
    ensures Map(s, f) == [f(s[0])] + Map(s[1..], f)
  {
  }

  lemma {:induction false} MapConcat<T, U>(a: seq<T>, b: seq<T>, f: T -> U)
    ensures Map(a + b, f) == Map(a, f) + Map(b, f)
  {
    if a == [] {
      assert a + b == b;
      assert Map(a, f) == [];
    } else {
      MapConcat(a[1..], b, f);
      MapHead(a, f);
      MapHead(a + b, f);
      hide Map;
      assert (a + b)[1..] == a[1..] + b;
      assert [f(a[0])] + (Map(a[1..], f) + Map(b, f)) == [f(a[0])] + Map(a[1..], f) + Map(b, f);
    }
  }

  lemma {:induction false} MapRemove<T, U>(s: seq<T>, k: nat, f: T -> U)
    requires k < |s|
    ensures multiset(Map(s, f)) == multiset{f(s[k])} + multiset(Map(s[..k] + s[k + 1..], f))
  {
    assert s == s[..k] + ([s[k]] + s[k + 1..]);
    MapConcat(s[..k], [s[k]] + s[k + 1..], f);
    MapConcat([s[k]], s[k + 1..], f);
    MapConcat(s[..k], s[k + 1..], f);
    assert Map([s[k]], f) == [f(s[k])];
  }

  /** Mapping keeps permutations. */
  lemma {:induction false} MapPermutes<T, U>(a: seq<T>, b: seq<T>, f: T -> U)
    requires multiset(a) == multiset(b)
    ensures multiset(Map(a, f)) == multiset(Map(b, f))
  {
    if a == [] {
      assert |multiset(b)| == 0;
    } else {
      hide Map;
      var k := Sums.PermutedHead(a, b);
      MapPermutes(a[1..], b[..k] + b[k + 1..], f);
      MapRemove(b, k, f);
      MapHead(a, f);
    }
  }

  function Decoded(p: Pair): Pair {
    Pair(Plain(p.key), Plain(p.value))
  }

  lemma {:induction false} PairRoundTrip(p: Pair)
    ensures Decoded(Encoded(p)) == p
  {
    hide Plain, Quote, QuotedText;
    PlainUndoesQuote(p.key);
    PlainUndoesQuote(p.value);
  }

  lemma {:induction false} DecodeEncoded(pairs: seq<Pair>)
    ensures Map(Map(pairs, Encoded), Decoded) == pairs
  {
    hide Encoded, Decoded;
    if pairs != [] {
      PairRoundTrip(pairs[0]);
      DecodeEncoded(pairs[1..]);
      assert Map(pairs, Encoded)[1..] == Map(pairs[1..], Encoded);
      assert pairs == [pairs[0]] + pairs[1..];
    }
  }

  lemma {:induction false} EncodedDecodes(pairs: seq<Pair>, e: Pair)
    requires e in Map(pairs, Encoded)
    ensures Encoded(Decoded(e)) == e
  {
    hide Encoded, Decoded;
    PairRoundTrip(pairs[0]);
    if e != Encoded(pairs[0]) {
      EncodedDecodes(pairs[1..], e);
    }
  }

  lemma {:induction false} EncodeDecoded(encoded: seq<Pair>, pairs: seq<Pair>)
    requires forall e :: e in encoded ==> e in Map(pairs, Encoded)
    ensures Map(Map(encoded, Decoded), Encoded) == encoded
  {
    hide Encoded, Decoded;
    if encoded != [] {
      EncodedDecodes(pairs, encoded[0]);
      EncodeDecoded(encoded[1..], pairs);
      assert Map(encoded, Decoded)[1..] == Map(encoded[1..], Decoded);
      assert encoded == [encoded[0]] + encoded[1..];
    }
  }

  // ----- the canonical query is a normal form -----

  /** The canonical query prints the given pairs, each encoded, in ascending order of encoded key and then value. */
  lemma {:induction false} CanonicalIsJoin(raw: string) returns (ordered: seq<Pair>)
    ensures CanonicalQuery(raw) == Join(Map(ordered, Encoded))
    ensures multiset(ordered) == multiset(ParseQuery(raw))
    ensures Sorted(Map(ordered, Encoded), PairLeq())
  {
    hide Encoded, Decoded, ParseQuery, PairLeq, Map, Sort;
    var pairs := ParseQuery(raw);
    var encoded := Map(pairs, Encoded);
    var sorted := Sort(encoded, PairLeq());
    SortPermutes(encoded, PairLeq());
    PairOrder();
    SortSorts(encoded, PairLeq());
    ordered := Map(sorted, Decoded);
    MapPermutes(sorted, encoded, Decoded);
    DecodeEncoded(pairs);
    forall e | e in sorted ensures e in encoded {
      assert e in multiset(sorted);
    }
    EncodeDecoded(sorted, pairs);
  }

  /** Parsing the canonical query returns the same multiset of pairs. */
  lemma {:induction false} ParseUndoesCanonical(raw: string)
    ensures multiset(ParseQuery(CanonicalQuery(raw))) == multiset(ParseQuery(raw))
  {
    var ordered := CanonicalIsJoin(raw);
    JoinRoundTrip(ordered);
  }

  /** Reordering the pairs does not change the canonical query. */
  lemma {:induction false} OrderIsIrrelevant(one: string, other: string)
    requires multiset(ParseQuery(one)) == multiset(ParseQuery(other))
    ensures CanonicalQuery(one) == CanonicalQuery(other)
  {
    PairOrder();
    MapPermutes(ParseQuery(one), ParseQuery(other), Encoded);
    SortIsCanonical(Map(ParseQuery(one), Encoded), Map(ParseQuery(other), Encoded), PairLeq());
  }

  /** Two queries have the same canonical form exactly when they hold the same pairs. */
  lemma {:induction false} CanonicalQueryDecides(one: string, other: string)
    ensures CanonicalQuery(one) == CanonicalQuery(other) <==> multiset(ParseQuery(one)) == multiset(ParseQuery(other))
  {
    ParseUndoesCanonical(one);
    ParseUndoesCanonical(other);
    if multiset(ParseQuery(one)) == multiset(ParseQuery(other)) {
      OrderIsIrrelevant(one, other);
    }
  }

  lemma {:induction false} CanonicalQueryIsIdempotent(raw: string)
    ensures CanonicalQuery(CanonicalQuery(raw)) == CanonicalQuery(raw)
  {
    ParseUndoesCanonical(raw);
    OrderIsIrrelevant(CanonicalQuery(raw), raw);
  }

  // ----- path, query and the signed text -----

  lemma {:induction false} JoinQuoted(pairs: seq<Pair>, c: char)
    requires !Unreserved(c) && c !in {'%', '&', '='}
    ensures Lacks(Join(Map(pairs, Encoded)), c)
  {
    if pairs != [] {
      hide Field, Encoded;
      FieldIsQuoted(pairs[0], c);
      JoinQuoted(pairs[1..], c);
      assert Map(pairs, Encoded)[1..] == Map(pairs[1..], Encoded);
    }
  }

  lemma {:induction false} FieldIsQuoted(p: Pair, c: char)
    requires !Unreserved(c) && c !in {'%', '='}
    ensures Lacks(Field(Encoded(p)), c)
  {
    hide Quote, Plain, QuotedText;
    PlainUndoesQuote(p.key);
    PlainUndoesQuote(p.value);
    QuotedLacks(Quote(p.key, {}), {}, c);
    QuotedLacks(Quote(p.value, {}), {}, c);
  }

  lemma {:induction false} PathIsQuoted(path: string)
    ensures Unquote(Quote(path, PATH_SAFE)) == path
    ensures Lacks(Quote(path, PATH_SAFE), '?') && Lacks(Quote(path, PATH_SAFE), '\n')
  {
    hide *;
    PathSafeIsAscii();
    PathSafeLacks();
    QuoteRoundTrip(path, PATH_SAFE);
    QuotedLacks(Quote(path, PATH_SAFE), PATH_SAFE, '?');
    QuotedLacks(Quote(path, PATH_SAFE), PATH_SAFE, '\n');
  }

  lemma {:induction false} PathSafeIsAscii()
    ensures AsciiSafe(PATH_SAFE)
  {
  }

  lemma {:induction false} PathSafeLacks()
    ensures '?' !in PATH_SAFE && '\n' !in PATH_SAFE && !Unreserved('?') && !Unreserved('\n')
  {
  }

  /** A text without the separator, followed by nothing or by the separator and more, splits in one way. */
  lemma {:induction false} SplitsUniquely(a: string, x: string, b: string, y: string, c: char)
    requires Lacks(a, c) && Lacks(b, c)
    requires (x == [] || x[0] == c) && (y == [] || y[0] == c) && a + x == b + y
    ensures a == b && x == y
  {
    FindEnds(a, x, c);
    FindEnds(b, y, c);
    assert (a + x)[..|a|] == a && (b + y)[..|b|] == b;
    assert (a + x)[|a|..] == x && (b + y)[|b|..] == y;
  }

  lemma {:induction false} FindEnds(a: string, x: string, c: char)
    requires Lacks(a, c) && (x == [] || x[0] == c)
    ensures Find(a + x, c) == |a|
  {
    if a == [] {
      assert a + x == x;
    } else {
      FindEnds(a[1..], x, c);
      assert (a + x)[1..] == a[1..] + x;
    }
  }

  /** Two requests have the same canonical path exactly when their paths are equal and their queries hold the same pairs. */
  lemma {:induction false} CanonicalPathDecides(path: string, raw: string, path': string, raw': string)
    ensures CanonicalPath(path, raw) == CanonicalPath(path', raw')
       <==> path == path' && multiset(ParseQuery(raw)) == multiset(ParseQuery(raw'))
  {
    hide CanonicalQuery, Quote, Unquote, ParseQuery;
    PathIsQuoted(path);
    PathIsQuoted(path');
    CanonicalQueryDecides(raw, raw');
    var q, q' := CanonicalQuery(raw), CanonicalQuery(raw');
    var x, x' := if q == [] then [] else "?" + q, if q' == [] then [] else "?" + q';
    if CanonicalPath(path, raw) == CanonicalPath(path', raw') {
      SplitsUniquely(Quote(path, PATH_SAFE), x, Quote(path', PATH_SAFE), x', '?');
      assert q != [] ==> x[1..] == q;
      assert q' != [] ==> x'[1..] == q';
    }
  }

  lemma {:induction false} CanonicalPathIsOneLine(path: string, raw: string)
    ensures Lacks(CanonicalPath(path, raw), '\n')
  {
    hide Quote, Unquote, CanonicalQuery, ParseQuery, Join;
    PathIsQuoted(path);
    var ordered := CanonicalIsJoin(raw);
    JoinQuoted(ordered, '\n');
  }

  const SIGNING_PREFIX := "PM-HMAC-SHA256-V1"

  function Upper(s: string): string {
    if s == [] then [] else [if 'a' <= s[0] <= 'z' then s[0] - 32 as char else s[0]] + Upper(s[1..])
  }

  predicate IsLower(s: string) {
    forall i :: 0 <= i < |s| ==> !('A' <= s[i] <= 'Z')
  }

  datatype Signed = Signed(verb: string, path: string, raw: string, timestamp: string, nonce: string, digest: string)

  datatype RequestError = BadDigest

  function JoinLines(lines: seq<string>): string {
    if lines == [] then [] else if |lines| == 1 then lines[0] else lines[0] + "\n" + JoinLines(lines[1..])
  }

  function SignedLines(r: Signed): seq<string> {
    [SIGNING_PREFIX, Upper(r.verb), CanonicalPath(r.path, r.raw), r.timestamp, r.nonce, r.digest]
  }

  function CanonicalBytes(r: Signed): Result<seq<int>, RequestError> {
    if !IsLower(r.digest) || |r.digest| != 64 then Err(BadDigest) else Ok(Utf8.Encode(JoinLines(SignedLines(r))))
  }

  // ----- what the signed bytes determine -----

  /** The lines of a signed text between its first line and its digest. */
  function InnerLines(r: Signed): seq<string> {
    Split(Upper(r.verb), '\n') + [CanonicalPath(r.path, r.raw)] + Split(r.timestamp, '\n') + Split(r.nonce, '\n')
  }

  lemma {:induction false} SplitHead(a: string, rest: string, c: char)
    requires Lacks(a, c)
    ensures Split(a, c) == [a]
    ensures Split(a + [c] + rest, c) == [a] + Split(rest, c)
  {
    FindPast(a, c, rest);
    hide Find, Lacks;
    var text := a + [c] + rest;
    assert text[..|a|] == a && text[|a| + 1..] == rest;
  }

  lemma {:induction false} SplitsApart(a: string, b: string, c: char)
    ensures Split(a + [c] + b, c) == Split(a, c) + Split(b, c)
    decreases |a|
  {
    hide Find, Lacks, Split;
    var n := Find(a, c);
    FindIsFirst(a, c);
    if n == |a| {
      assert a[..n] == a;
      SplitHead(a, b, c);
    } else {
      var head, rest := a[..n], a[n + 1..];
      SplitHead(head, rest, c);
      SplitHead(head, rest + [c] + b, c);
      SplitsApart(rest, b, c);
      assert a == head + [c] + rest;
      assert a + [c] + b == head + [c] + (rest + [c] + b);
      assert [head] + (Split(rest, c) + Split(b, c)) == [head] + Split(rest, c) + Split(b, c);
    }
  }

  lemma {:induction false} FindIsFirst(s: string, c: char)
    ensures Lacks(s[..Find(s, c)], c)
  {
    if s != [] && s[0] != c {
      FindIsFirst(s[1..], c);
      assert s[..Find(s, c)] == [s[0]] + s[1..][..Find(s[1..], c)];
    }
  }

  lemma {:induction false} OneLine(s: string)
    requires Lacks(s, '\n')
    ensures Split(s, '\n') == [s]
  {
    SplitHead(s, [], '\n');
  }

  lemma {:induction false} SplitIsNeverEmpty(s: string, c: char)
    ensures |Split(s, c)| >= 1
    ensures |Split(s, c)| == 1 ==> Split(s, c) == [s]
  {
    if Find(s, c) < |s| {
      SplitIsNeverEmpty(s[Find(s, c) + 1..], c);
    }
  }

  /** Joining undoes splitting. */
  lemma {:induction false} JoinUndoesSplit(s: string)
    ensures JoinLines(Split(s, '\n')) == s
  {
    var n := Find(s, '\n');
    if n < |s| {
      var rest := s[n + 1..];
      SplitIsNeverEmpty(rest, '\n');
      JoinUndoesSplit(rest);
      assert Split(s, '\n') == [s[..n]] + Split(rest, '\n');
      hide Find, Split;
      JoinStep([s[..n]] + Split(rest, '\n'));
      assert ([s[..n]] + Split(rest, '\n'))[1..] == Split(rest, '\n');
      assert s == s[..n] + "\n" + rest;
    } else {
      LastLine(Split(s, '\n'));
    }
  }

  /** The signed text before the digest. */
  function Preamble(r: Signed): string {
    SIGNING_PREFIX + "\n" + (Upper(r.verb) + "\n" + (CanonicalPath(r.path, r.raw) + "\n" + (r.timestamp + "\n" + r.nonce)))
  }

  lemma {:induction false} SignedText(r: Signed)
    ensures JoinLines(SignedLines(r)) == Preamble(r) + "\n" + r.digest
  {
    hide Upper, CanonicalPath, SIGNING_PREFIX;
    var lines := SignedLines(r);
    JoinStep(lines);
    JoinStep(lines[1..]);
    JoinStep(lines[2..]);
    JoinStep(lines[3..]);
    JoinStep(lines[4..]);
    hide JoinLines;
    assert lines[1..][1..] == lines[2..] && lines[2..][1..] == lines[3..] && lines[3..][1..] == lines[4..] && lines[4..][1..] == lines[5..];
    LastLine(lines[5..]);
    Regroup(lines[0], lines[1], lines[2], lines[3], lines[4], lines[5]);
  }

  lemma {:induction false} JoinStep(lines: seq<string>)
    requires |lines| > 1
    ensures JoinLines(lines) == lines[0] + "\n" + JoinLines(lines[1..])
  {
  }

  lemma {:induction false} LastLine(lines: seq<string>)
    requires |lines| == 1
    ensures JoinLines(lines) == lines[0]
  {
  }

  lemma {:induction false} Regroup(a: string, b: string, c: string, d: string, e: string, f: string)
    ensures a + "\n" + (b + "\n" + (c + "\n" + (d + "\n" + (e + "\n" + f)))) == a + "\n" + (b + "\n" + (c + "\n" + (d + "\n" + e))) + "\n" + f
  {
    var x := d + "\n" + e;
    assert d + "\n" + (e + "\n" + f) == x + "\n" + f;
    var y := c + "\n" + x;
    assert c + "\n" + (x + "\n" + f) == y + "\n" + f;
    var z := b + "\n" + y;
    assert b + "\n" + (y + "\n" + f) == z + "\n" + f;
    assert a + "\n" + (z + "\n" + f) == a + "\n" + z + "\n" + f;
  }

  lemma {:induction false} PrefixIsOneLine()
    ensures Split(SIGNING_PREFIX, '\n') == [SIGNING_PREFIX]
  {
    assert Lacks(SIGNING_PREFIX, '\n');
    hide *;
    OneLine(SIGNING_PREFIX);
  }

  lemma {:induction false} PreambleLines(r: Signed)
    ensures Split(Preamble(r), '\n') == [SIGNING_PREFIX] + InnerLines(r)
  {
    hide CanonicalPath, Upper, Split, SIGNING_PREFIX, Lacks;
    var verb, path := Upper(r.verb), CanonicalPath(r.path, r.raw);
    var tail := r.timestamp + ['\n'] + r.nonce;
    PrefixIsOneLine();
    CanonicalPathIsOneLine(r.path, r.raw);
    OneLine(path);
    SplitsApart(r.timestamp, r.nonce, '\n');
    SplitsApart(path, tail, '\n');
    SplitsApart(verb, path + ['\n'] + tail, '\n');
    SplitsApart(SIGNING_PREFIX, verb + ['\n'] + (path + ['\n'] + tail), '\n');
  }

  lemma {:induction false} DigestIsTheEnd(a: string, x: string, b: string, y: string)
    requires |x| == |y| && a + "\n" + x == b + "\n" + y
    ensures a == b && x == y
  {
    var s, t := a + "\n" + x, b + "\n" + y;
    assert s[..|a|] == a && t[..|b|] == b && s[|a| + 1..] == x && t[|b| + 1..] == y;
  }

  /** Signing refuses exactly improper digests; two proper requests sign the same bytes if and only if digest and lines agree. */
  lemma {:induction false} SignedBytesDecide(a: Signed, b: Signed)
    ensures CanonicalBytes(a).Ok? <==> |a.digest| == 64 && IsLower(a.digest)
    ensures CanonicalBytes(a).Ok? && CanonicalBytes(b).Ok? ==>
              (CanonicalBytes(a) == CanonicalBytes(b) <==> a.digest == b.digest && InnerLines(a) == InnerLines(b))
  {
    SignedText(a);
    SignedText(b);
    PreambleLines(a);
    PreambleLines(b);
    hide InnerLines, SignedLines, Preamble, JoinLines, SIGNING_PREFIX;
    if CanonicalBytes(a).Ok? && CanonicalBytes(a) == CanonicalBytes(b) {
      Utf8.RoundTrip(JoinLines(SignedLines(a)));
      Utf8.RoundTrip(JoinLines(SignedLines(b)));
      DigestIsTheEnd(Preamble(a), a.digest, Preamble(b), b.digest);
      assert ([SIGNING_PREFIX] + InnerLines(a))[1..] == InnerLines(a) && ([SIGNING_PREFIX] + InnerLines(b))[1..] == InnerLines(b);
    }
    if InnerLines(a) == InnerLines(b) {
      JoinUndoesSplit(Preamble(a));
      JoinUndoesSplit(Preamble(b));
    }
  }

  /** Agreement on everything a signature is meant to cover. */
  ghost predicate SameRequest(a: Signed, b: Signed) {
    && Upper(a.verb) == Upper(b.verb) && a.path == b.path && multiset(ParseQuery(a.raw)) == multiset(ParseQuery(b.raw))
    && a.timestamp == b.timestamp && a.nonce == b.nonce && a.digest == b.digest
  }

  lemma {:induction false} UpperIsOneLine(s: string)
    requires Lacks(s, '\n')
    ensures Lacks(Upper(s), '\n')
  {
    if s != [] {
      UpperIsOneLine(s[1..]);
    }
  }

  lemma {:induction false} SameRequestSameLines(a: Signed, b: Signed)
    requires SameRequest(a, b)
    ensures InnerLines(a) == InnerLines(b)
  {
    hide CanonicalPath, Split, ParseQuery, Upper;
    CanonicalPathDecides(a.path, a.raw, b.path, b.raw);
  }

  /** The lines of the signed method. */
  function VerbLines(r: Signed): seq<string> {
    Split(Upper(r.verb), '\n')
  }

  ghost predicate IsCanonicalPath(s: string) {
    exists path, raw :: CanonicalPath(path, raw) == s
  }

  /** No line of the method after its first could be taken for the path. */
  ghost predicate NoPathInVerb(r: Signed) {
    forall i :: 1 <= i < |VerbLines(r)| ==> !IsCanonicalPath(VerbLines(r)[i])
  }

  lemma {:induction false} SameVerb(a: Signed, b: Signed)
    requires VerbLines(a) == VerbLines(b)
    ensures Upper(a.verb) == Upper(b.verb)
  {
    JoinUndoesSplit(Upper(a.verb));
    JoinUndoesSplit(Upper(b.verb));
  }

  /** The method ends at the same line in both. */
  lemma {:induction false} SameVerbLines(v: seq<string>, p: string, tail: seq<string>, v': seq<string>, p': string, tail': seq<string>)
    requires v + [p] + tail == v' + [p'] + tail' && |tail| == 2 && |tail'| >= 2 && |v'| >= 1
    ensures |v'| < |v| ==> v[|v'|] == p'
    ensures |v'| >= |v| ==> v' == v && p' == p && tail' == tail
  {
    var lines, lines' := v + [p] + tail, v' + [p'] + tail';
    assert lines'[|v'|] == p';
    if |v'| < |v| {
      assert lines[|v'|] == v[|v'|];
    } else {
      assert lines[..|v|] == v && lines'[..|v'|] == v' && lines[|v|] == p && lines[|v| + 1..] == tail && lines'[|v'| + 1..] == tail';
    }
  }

  /** If nothing else could be the path, equal lines are equal requests. */
  lemma {:induction false} OnlyOneReading(a: Signed, b: Signed)
    requires Lacks(a.timestamp, '\n') && Lacks(a.nonce, '\n') && NoPathInVerb(a)
    requires InnerLines(a) == InnerLines(b) && a.digest == b.digest
    ensures SameRequest(a, b)
  {
    hide CanonicalPath, Split, ParseQuery, Upper, Lacks;
    OneLine(a.timestamp);
    OneLine(a.nonce);
    SplitIsNeverEmpty(Upper(b.verb), '\n');
    SplitIsNeverEmpty(b.timestamp, '\n');
    SplitIsNeverEmpty(b.nonce, '\n');
    var p, p' := CanonicalPath(a.path, a.raw), CanonicalPath(b.path, b.raw);
    var tail, tail' := [a.timestamp] + [a.nonce], Split(b.timestamp, '\n') + Split(b.nonce, '\n');
    assert VerbLines(a) + [p] + tail == InnerLines(a) && VerbLines(b) + [p'] + tail' == InnerLines(b);
    SameVerbLines(VerbLines(a), p, tail, VerbLines(b), p', tail');
    assert IsCanonicalPath(p');
    SameVerb(a, b);
    assert tail == [a.timestamp, a.nonce];
    assert Split(b.timestamp, '\n') == [tail'[0]] && Split(b.nonce, '\n') == [tail'[1]];
    CanonicalPathDecides(a.path, a.raw, b.path, b.raw);
  }

  // ----- another reading of a method with line breaks -----

  ghost predicate AllLack(lines: seq<string>, c: char) {
    forall i :: 0 <= i < |lines| ==> Lacks(lines[i], c)
  }

  lemma {:induction false} SplitLacks(s: string, c: char)
    ensures AllLack(Split(s, c), c)
  {
    FindIsFirst(s, c);
    if Find(s, c) < |s| {
      SplitLacks(s[Find(s, c) + 1..], c);
    } else {
      assert s[..|s|] == s;
    }
  }

  lemma {:induction false} SplitUndoesJoin(lines: seq<string>)
    requires lines != [] && AllLack(lines, '\n')
    ensures Split(JoinLines(lines), '\n') == lines
  {
    hide Split;
    if |lines| == 1 {
      OneLine(lines[0]);
      assert lines == [lines[0]];
    } else {
      SplitUndoesJoin(lines[1..]);
      SplitHead(lines[0], JoinLines(lines[1..]), '\n');
      assert lines == [lines[0]] + lines[1..];
    }
  }

  predicate NoLower(s: string) {
    forall i :: 0 <= i < |s| ==> !('a' <= s[i] <= 'z')
  }

  lemma {:induction false} UpperHasNoLower(s: string)
    ensures NoLower(Upper(s))
  {
    if s != [] {
      UpperHasNoLower(s[1..]);
    }
  }

  lemma {:induction false} UpperKeeps(s: string)
    requires NoLower(s)
    ensures Upper(s) == s
  {
    if s != [] {
      UpperKeeps(s[1..]);
    }
  }

  lemma {:induction false} SplitHasNoLower(s: string, c: char)
    requires NoLower(s)
    ensures forall i :: 0 <= i < |Split(s, c)| ==> NoLower(Split(s, c)[i])
  {
    var n := Find(s, c);
    if n < |s| {
      SplitHasNoLower(s[n + 1..], c);
    }
  }

  lemma {:induction false} JoinHasNoLower(lines: seq<string>)
    requires forall i :: 0 <= i < |lines| ==> NoLower(lines[i])
    ensures NoLower(JoinLines(lines))
  {
    if |lines| > 1 {
      JoinHasNoLower(lines[1..]);
    }
  }

  /** The request that takes the i-th line of the method for its path. */
  function Reread(a: Signed, i: int, path: string, raw: string): Signed
    requires 1 <= i < |VerbLines(a)|
  {
    Signed(JoinLines(VerbLines(a)[..i]), path, raw,
           JoinLines(VerbLines(a)[i + 1..] + [CanonicalPath(a.path, a.raw), a.timestamp]), a.nonce, a.digest)
  }

  lemma {:induction false} RereadVerb(a: Signed, i: int, path: string, raw: string)
    requires 1 <= i < |VerbLines(a)|
    ensures VerbLines(Reread(a, i, path, raw)) == VerbLines(a)[..i]
  {
    var lines := VerbLines(a)[..i];
    UpperHasNoLower(a.verb);
    SplitHasNoLower(Upper(a.verb), '\n');
    SplitLacks(Upper(a.verb), '\n');
    hide Split, Upper, CanonicalPath;
    JoinHasNoLower(lines);
    UpperKeeps(JoinLines(lines));
    SplitUndoesJoin(lines);
  }

  lemma {:induction false} RereadTimestamp(a: Signed, i: int, path: string, raw: string)
    requires 1 <= i < |VerbLines(a)| && Lacks(a.timestamp, '\n')
    ensures Split(Reread(a, i, path, raw).timestamp, '\n') == VerbLines(a)[i + 1..] + [CanonicalPath(a.path, a.raw), a.timestamp]
  {
    SplitLacks(Upper(a.verb), '\n');
    CanonicalPathIsOneLine(a.path, a.raw);
    hide Split, Upper, CanonicalPath, JoinLines, Lacks;
    SplitUndoesJoin(VerbLines(a)[i + 1..] + [CanonicalPath(a.path, a.raw), a.timestamp]);
  }

  /** A method line that is a canonical path gives the same bytes a second reading. */
  lemma {:induction false} RereadIsAmbiguous(a: Signed, i: int, path: string, raw: string)
    requires |a.digest| == 64 && IsLower(a.digest) && Lacks(a.timestamp, '\n') && Lacks(a.nonce, '\n')
    requires 1 <= i < |VerbLines(a)| && CanonicalPath(path, raw) == VerbLines(a)[i]
    ensures CanonicalBytes(Reread(a, i, path, raw)) == CanonicalBytes(a) && !SameRequest(a, Reread(a, i, path, raw))
  {
    var b, v := Reread(a, i, path, raw), VerbLines(a);
    RereadVerb(a, i, path, raw);
    RereadTimestamp(a, i, path, raw);
    OneLine(a.timestamp);
    SignedBytesDecide(a, b);
    SignedBytesDecide(b, a);
    hide Split, Upper, CanonicalPath, ParseQuery, CanonicalBytes, Lacks, JoinLines;
    RegroupLines(v, i, CanonicalPath(a.path, a.raw), a.timestamp, Split(a.nonce, '\n'));
    assert |VerbLines(b)| != |v|;
  }

  lemma {:induction false} RegroupLines(v: seq<string>, i: int, p: string, t: string, n: seq<string>)
    requires 0 <= i < |v|
    ensures v + [p] + [t] + n == v[..i] + [v[i]] + (v[i + 1..] + [p, t]) + n
  {
    var front, back := v[..i] + [v[i]], v[i + 1..];
    assert v == front + back;
    assert front + back + [p] + [t] == front + (back + [p, t]);
  }

  /** The signed bytes determine the request exactly when timestamp and nonce hold no line break and no further method line is a path. */
  lemma {:induction false} UnambiguousExactly(a: Signed)
    requires |a.digest| == 64 && IsLower(a.digest)
    ensures (forall b :: CanonicalBytes(b) == CanonicalBytes(a) <==> CanonicalBytes(b).Ok? && SameRequest(a, b))
       <==> Lacks(a.timestamp, '\n') && Lacks(a.nonce, '\n') && NoPathInVerb(a)
  {
    hide InnerLines, SameRequest, VerbLines;
    if !Lacks(a.timestamp, '\n') || !Lacks(a.nonce, '\n') {
      var b := Shifted(a);
      ShiftedIsAmbiguous(a);
    } else if NoPathInVerb(a) {
      forall b ensures CanonicalBytes(b) == CanonicalBytes(a) <==> CanonicalBytes(b).Ok? && SameRequest(a, b) {
        SignedBytesDecide(a, b);
        SameDigest(a, b);
        if CanonicalBytes(b) == CanonicalBytes(a) {
          OnlyOneReading(a, b);
        }
        if SameRequest(a, b) {
          SameRequestSameLines(a, b);
        }
      }
    } else {
      var i :| 1 <= i < |VerbLines(a)| && IsCanonicalPath(VerbLines(a)[i]);
      var path, raw :| CanonicalPath(path, raw) == VerbLines(a)[i];
      var b := Reread(a, i, path, raw);
      RereadIsAmbiguous(a, i, path, raw);
    }
  }

  /** A one-line method leaves only timestamp and nonce to ask about. */
  lemma {:induction false} OneLineVerb(a: Signed)
    requires Lacks(a.verb, '\n')
    ensures NoPathInVerb(a)
  {
    UpperIsOneLine(a.verb);
    OneLine(Upper(a.verb));
  }

  lemma {:induction false} SameDigest(a: Signed, b: Signed)
    ensures SameRequest(a, b) ==> a.digest == b.digest
  {
    hide Upper, ParseQuery;
  }

  /** Moves a line break between timestamp and nonce. */
  function Shifted(a: Signed): Signed {
    var n, m := Find(a.timestamp, '\n'), Find(a.nonce, '\n');
    if n < |a.timestamp| then a.(timestamp := a.timestamp[..n], nonce := a.timestamp[n + 1..] + "\n" + a.nonce)
    else if m < |a.nonce| then a.(timestamp := a.timestamp + "\n" + a.nonce[..m], nonce := a.nonce[m + 1..])
    else a
  }

  lemma {:induction false} FindFails(s: string, c: char)
    ensures Find(s, c) == |s| ==> Lacks(s, c)
  {
    FindIsFirst(s, c);
    assert s[..|s|] == s;
  }

  lemma {:induction false} ShiftedIsAmbiguous(a: Signed)
    requires !Lacks(a.timestamp, '\n') || !Lacks(a.nonce, '\n')
    ensures CanonicalBytes(Shifted(a)) == CanonicalBytes(a) && !SameRequest(a, Shifted(a))
  {
    hide CanonicalBytes, Upper, ParseQuery, Find;
    var n, m := Find(a.timestamp, '\n'), Find(a.nonce, '\n');
    FindFails(a.timestamp, '\n');
    FindFails(a.nonce, '\n');
    if n < |a.timestamp| {
      LineBreaksAreAmbiguous(a, a.timestamp[..n], a.timestamp[n + 1..], a.nonce);
      assert a.timestamp == a.timestamp[..n] + "\n" + a.timestamp[n + 1..];
      assert a.(timestamp := a.timestamp[..n] + "\n" + a.timestamp[n + 1..], nonce := a.nonce) == a;
      assert |Shifted(a).timestamp| != |a.timestamp|;
    } else {
      LineBreaksAreAmbiguous(a, a.timestamp, a.nonce[..m], a.nonce[m + 1..]);
      assert a.nonce == a.nonce[..m] + "\n" + a.nonce[m + 1..];
      assert a.(timestamp := a.timestamp, nonce := a.nonce[..m] + "\n" + a.nonce[m + 1..]) == a;
      assert |Shifted(a).timestamp| != |a.timestamp|;
    }
  }

  /** A line break can move between timestamp and nonce without changing the signed bytes. */
  lemma {:induction false} LineBreaksAreAmbiguous(r: Signed, a: string, b: string, c: string)
    ensures CanonicalBytes(r.(timestamp := a + "\n" + b, nonce := c)) == CanonicalBytes(r.(timestamp := a, nonce := b + "\n" + c))
  {
    hide CanonicalPath, Upper, IsLower, JoinLines, SignedLines;
    var one, other := r.(timestamp := a + "\n" + b, nonce := c), r.(timestamp := a, nonce := b + "\n" + c);
    SignedText(one);
    SignedText(other);
    assert a + "\n" + b + "\n" + c == a + "\n" + (b + "\n" + c);
  }
}

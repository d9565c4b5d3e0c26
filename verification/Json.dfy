/**
 * The JSON of the event stream: what Go's encoding/json writes for the two event records
 * (HTML escaping on, as the Encoder and Marshal do by default), and a decoder for such objects.
 * Encoded text is a sequence of code points; its size is counted in UTF-8 bytes.
 */
module Json {
  import opened Text

  // ---- Go strings as runes ----

  /** What decoding one step of a Go string yields: a code point, or one invalid byte. */
  datatype Rune = Scalar(c: char) | Bad

  function Utf8Len(c: char): nat {
    var x := c as int;
    if x < 0x80 then 1 else if x < 0x800 then 2 else if x < 0x1_0000 then 3 else 4
  }

  function Width(r: Rune): nat {
    match r
    case Scalar(c) => Utf8Len(c)
    case Bad => 1
  }

  predicate IsCont(b: byte) {
    0x80 <= b <= 0xBF
  }

  /** The six payload bits of a continuation byte, or the payload of a leading one. */
  function Bits(b: byte, base: byte): int {
    b as int - base as int
  }

  /** `utf8.DecodeRune` */
  function DecodeRune(s: seq<byte>): (r: Rune)
    requires s != []
    ensures 1 <= Width(r) <= |s|
  {
    var b := s[0];
    if b < 0x80 then Scalar(b as char)
    else if 0xC2 <= b <= 0xDF && |s| >= 2 && IsCont(s[1]) then
      Scalar((Bits(b, 0xC0) * 0x40 + Bits(s[1], 0x80)) as char)
    else if 0xE0 <= b <= 0xEF && |s| >= 3 && IsCont(s[1]) && IsCont(s[2]) &&
            (b == 0xE0 ==> s[1] >= 0xA0) && (b == 0xED ==> s[1] <= 0x9F) then
      Scalar((Bits(b, 0xE0) * 0x1000 + Bits(s[1], 0x80) * 0x40 + Bits(s[2], 0x80)) as char)
    else if 0xF0 <= b <= 0xF4 && |s| >= 4 && IsCont(s[1]) && IsCont(s[2]) && IsCont(s[3]) &&
            (b == 0xF0 ==> s[1] >= 0x90) && (b == 0xF4 ==> s[1] <= 0x8F) then
      Scalar((Bits(b, 0xF0) * 0x4_0000 + Bits(s[1], 0x80) * 0x1000 + Bits(s[2], 0x80) * 0x40 + Bits(s[3], 0x80)) as char)
    else Bad
  }

  function Runes(s: seq<byte>): seq<Rune> {
    if s == [] then [] else [DecodeRune(s)] + Runes(s[Width(DecodeRune(s))..])
  }

  function Lift(s: string): seq<Rune> {
    seq(|s|, i requires 0 <= i < |s| => Scalar(s[i]))
  }

  function TotalWidth(rs: seq<Rune>): nat {
    if rs == [] then 0 else Width(rs[0]) + TotalWidth(rs[1..])
  }

  function Utf8Size(s: string): nat {
    if s == "" then 0 else Utf8Len(s[0]) + Utf8Size(s[1..])
  }

  // ---- UTF-8, by its own definition ----

  /** The encoding of one code point (RFC 3629, section 3). */
  function Utf8(c: char): seq<byte> {
    var x := c as int;
    if x < 0x80 then [x]
    else if x < 0x800 then [0xC0 + x / 0x40, 0x80 + x % 0x40]
    else if x < 0x1_0000 then [0xE0 + x / 0x1000, 0x80 + x / 0x40 % 0x40, 0x80 + x % 0x40]
    else [0xF0 + x / 0x4_0000, 0x80 + x / 0x1000 % 0x40, 0x80 + x / 0x40 % 0x40, 0x80 + x % 0x40]
  }

  function Utf8Text(s: string): seq<byte> {
    if s == "" then [] else Utf8(s[0]) + Utf8Text(s[1..])
  }

  lemma {:induction false} Sextets(x: nat)
    ensures x == x / 0x1000 * 0x1000 + x / 0x40 % 0x40 * 0x40 + x % 0x40
    ensures x == x / 0x4_0000 * 0x4_0000 + x / 0x1000 % 0x40 * 0x1000 + x / 0x40 % 0x40 * 0x40 + x % 0x40
  {
    var q := x / 0x40;
    assert x == q * 0x40 + x % 0x40;
    var r := q / 0x40;
    assert q == r * 0x40 + q % 0x40;
    assert x / 0x1000 == r;
    assert r == r / 0x40 * 0x40 + r % 0x40;
    assert x / 0x4_0000 == r / 0x40;
  }

  /** Decoding looks at the first bytes only. */
  lemma {:induction false} DecodesFront(u: seq<byte>, rest: seq<byte>)
    requires u != [] && DecodeRune(u).Scalar?
    ensures DecodeRune(u + rest) == DecodeRune(u)
  {
    assert forall i | 0 <= i < |u| :: (u + rest)[i] == u[i];
  }

  lemma {:induction false} DecodesLong(c: char)
    requires c as int >= 0x1_0000
    ensures DecodeRune(Utf8(c)) == Scalar(c) && |Utf8(c)| == 4
  {
    Sextets(c as int);
  }

  lemma {:induction false} DecodesAlone(c: char)
    ensures DecodeRune(Utf8(c)) == Scalar(c) && |Utf8(c)| == Utf8Len(c)
  {
    if c as int >= 0x1_0000 {
      DecodesLong(c);
    } else if c as int >= 0x800 {
      Sextets(c as int);
    }
  }

  lemma {:induction false} DecodesUtf8(c: char, rest: seq<byte>)
    ensures DecodeRune(Utf8(c) + rest) == Scalar(c) && |Utf8(c)| == Utf8Len(c)
  {
    DecodesAlone(c);
    DecodesFront(Utf8(c), rest);
  }

  lemma {:induction false} TwoBytes(c: char, a: int, b: int)
    requires c as int == a * 0x40 + b && 2 <= a < 0x20 && 0 <= b < 0x40
    ensures Utf8(c) == [0xC0 + a, 0x80 + b]
  {
  }

  lemma {:induction false} ThreeBytes(c: char, a: int, b: int, d: int)
    requires c as int == a * 0x1000 + b * 0x40 + d && 0 <= a < 0x10 && 0 <= b < 0x40 && 0 <= d < 0x40
    requires a == 0 ==> b >= 0x20
    ensures Utf8(c) == [0xE0 + a, 0x80 + b, 0x80 + d]
  {
    assert c as int / 0x40 == a * 0x40 + b;
  }

  lemma {:induction false} FourBytes(c: char, a: int, b: int, d: int, e: int)
    requires c as int == a * 0x4_0000 + b * 0x1000 + d * 0x40 + e
    requires 0 <= a <= 4 && 0 <= b < 0x40 && 0 <= d < 0x40 && 0 <= e < 0x40
    requires a == 0 ==> b >= 0x10
    ensures Utf8(c) == [0xF0 + a, 0x80 + b, 0x80 + d, 0x80 + e]
  {
    assert c as int / 0x40 == a * 0x1000 + b * 0x40 + d;
    assert c as int / 0x1000 == a * 0x40 + b;
  }

  lemma {:induction false} DecodedBytes(s: seq<byte>, c: char)
    requires s != [] && DecodeRune(s) == Scalar(c)
    ensures HasPrefix(s, Utf8(c))
  {
    if s[0] < 0x80 {
      assert Utf8(c) == [s[0]];
    } else if s[0] <= 0xDF {
      TwoBytes(c, s[0] - 0xC0, s[1] - 0x80);
    } else if s[0] <= 0xEF {
      ThreeBytes(c, s[0] - 0xE0, s[1] - 0x80, s[2] - 0x80);
    } else {
      FourBytes(c, s[0] - 0xF0, s[1] - 0x80, s[2] - 0x80, s[3] - 0x80);
    }
  }

  /** A code point is decoded exactly from its encoding; everything else is an invalid byte. */
  lemma {:induction false} DecodeRuneIff(s: seq<byte>, c: char)
    requires s != []
    ensures DecodeRune(s) == Scalar(c) <==> HasPrefix(s, Utf8(c))
  {
    if HasPrefix(s, Utf8(c)) {
      DecodesUtf8(c, s[|Utf8(c)|..]);
      assert s == Utf8(c) + s[|Utf8(c)|..];
    }
    if DecodeRune(s) == Scalar(c) {
      DecodedBytes(s, c);
    }
  }

  /** Encoded text is read back code point by code point. */
  lemma {:induction false} RunesOfText(s: string)
    ensures Runes(Utf8Text(s)) == Lift(s)
  {
    if s != "" {
      var rest := Utf8Text(s[1..]);
      DecodesUtf8(s[0], rest);
      assert (Utf8(s[0]) + rest)[|Utf8(s[0])|..] == rest;
      RunesOfText(s[1..]);
    }
  }

  // ---- string literals ----

  const NEL: char := '\U{0085}'
  const REPLACEMENT: char := '\U{FFFD}'

  function HexDigit(n: nat): char
    requires n < 16
  {
    "0123456789abcdef"[n]
  }

  function HexValue(c: char): Option<nat> {
    if '0' <= c <= '9' then Some(c as int - '0' as int)
    else if 'a' <= c <= 'f' then Some(c as int - 'a' as int + 10)
    else if 'A' <= c <= 'F' then Some(c as int - 'A' as int + 10)
    else None
  }

  function UEscape(n: nat): string
    requires n < 0x1_0000
  {
    "\\u" + [HexDigit(n / 0x1000), HexDigit(n / 0x100 % 16), HexDigit(n / 16 % 16), HexDigit(n % 16)]
  }

  /** The escape of one rune inside a string literal. */
  function Escape(r: Rune): string {
    match r
    case Bad => UEscape(0xFFFD)
    case Scalar(c) =>
      var x := c as int;
      if c == '"' then "\\\""
      else if c == '\\' then "\\\\"
      else if x == 8 then "\\b"
      else if x == 12 then "\\f"
      else if x == 10 then "\\n"
      else if x == 13 then "\\r"
      else if x == 9 then "\\t"
      else if x < 0x20 || c == '<' || c == '>' || c == '&' || x == 0x2028 || x == 0x2029 then UEscape(x)
      else [c]
  }

  /** The literal's text and closing quote, after the opening one. */
  function Tail(rs: seq<Rune>): string {
    if rs == [] then "\"" else Escape(rs[0]) + Tail(rs[1..])
  }

  function Quote(rs: seq<Rune>): string {
    "\"" + Tail(rs)
  }

  function CleanRune(r: Rune): char {
    match r
    case Scalar(c) => c
    case Bad => REPLACEMENT
  }

  /** What a decoder makes of it: invalid bytes become U+FFFD. */
  function Clean(rs: seq<Rune>): string {
    seq(|rs|, i requires 0 <= i < |rs| => CleanRune(rs[i]))
  }

  /** The code point of a four-digit escape; surrogates, which no encoder here writes, are refused. */
  function UValue(s: string): Option<char>
    requires |s| == 4
  {
    match (HexValue(s[0]), HexValue(s[1]), HexValue(s[2]), HexValue(s[3]))
    case (Some(a), Some(b), Some(c), Some(d)) =>
      var n := a * 0x1000 + b * 0x100 + c * 16 + d;
      if n < 0xD800 || 0xE000 <= n < 0x1_0000 then Some(n as char) else None
    case _ => None
  }

  function SimpleEscape(c: char): Option<char> {
    if c == '"' || c == '\\' || c == '/' then Some(c)
    else if c == 'b' then Some(8 as char)
    else if c == 'f' then Some(12 as char)
    else if c == 'n' then Some(10 as char)
    else if c == 'r' then Some(13 as char)
    else if c == 't' then Some(9 as char)
    else None
  }

  /** The first character a literal's tail denotes, and how much text it takes; None at the end or on an error. */
  function FirstChar(s: string): (r: Option<(char, nat)>)
    ensures r.Some? ==> 0 < r.value.1 <= |s|
  {
    if s == "" || s[0] == '"' || s[0] as int < 0x20 then None
    else if s[0] != '\\' then Some((s[0], 1))
    else if |s| >= 2 && SimpleEscape(s[1]).Some? then Some((SimpleEscape(s[1]).value, 2))
    else if |s| >= 6 && s[1] == 'u' && UValue(s[2..6]).Some? then Some((UValue(s[2..6]).value, 6))
    else None
  }

  /** Decodes a literal after its opening quote; gives the text and what follows the closing quote. */
  function ParseTail(s: string): (r: Option<(string, string)>)
    ensures r.Some? ==> |r.value.1| < |s|
  {
    if s == "" then None
    else if s[0] == '"' then Some(("", s[1..]))
    else
      match FirstChar(s)
      case None => None
      case Some((c, n)) =>
        match ParseTail(s[n..])
        case None => None
        case Some((d, rest)) => Some(([c] + d, rest))
  }

  const LOWER_HEX := "0123456789abcdef"
  const UPPER_HEX := "0123456789ABCDEF"

  /** A hexadecimal digit counts by its place, in either case; nothing else is one. */
  lemma {:induction false} HexValueIff(c: char, n: nat)
    ensures HexValue(c) == Some(n) <==> n < 16 && (c == LOWER_HEX[n] || c == UPPER_HEX[n])
  {
  }

  /** The two-character escapes (RFC 8259, section 7). */
  const SHORT_ESCAPES: map<char, char> :=
    map['"' := '"', '\\' := '\\', '/' := '/', 'b' := 8 as char, 'f' := 12 as char,
        'n' := '\n', 'r' := '\r', 't' := '\t']

  lemma {:induction false} ShortEscapesDecode(c: char, tail: string)
    ensures c in SHORT_ESCAPES ==> FirstChar(['\\', c] + tail) == Some((SHORT_ESCAPES[c], 2))
    ensures c !in SHORT_ESCAPES && c != 'u' ==> FirstChar(['\\', c] + tail).None?
  {
    var s := ['\\', c] + tail;
    assert s[0] == '\\' && s[1] == c;
  }

  lemma {:induction false} HexRoundTrip(n: nat)
    requires n < 16
    ensures HexValue(HexDigit(n)) == Some(n)
  {
  }

  lemma {:induction false} HexDigits(n: nat)
    requires n < 0x1_0000
    ensures n / 0x1000 < 16
    ensures (n / 0x1000) * 0x1000 + (n / 0x100 % 16) * 0x100 + (n / 16 % 16) * 16 + n % 16 == n
  {
    var q := n / 16;
    assert n == q * 16 + n % 16;
    var r := n / 0x100;
    assert r == q / 16 && q == r * 16 + q % 16;
    assert n / 0x1000 == r / 16 && r == (r / 16) * 16 + r % 16;
  }

  lemma {:induction false} UEscapeRoundTrip(n: nat)
    requires n < 0xD800 || 0xE000 <= n < 0x1_0000
    ensures UValue(UEscape(n)[2..6]) == Some(n as char)
  {
    var a, b, c, d := n / 0x1000, n / 0x100 % 16, n / 16 % 16, n % 16;
    HexDigits(n);
    HexRoundTrip(a);
    HexRoundTrip(b);
    HexRoundTrip(c);
    HexRoundTrip(d);
    assert UEscape(n)[2..6] == [HexDigit(a), HexDigit(b), HexDigit(c), HexDigit(d)];
  }

  lemma {:induction false} UEscapeDecodes(n: nat, tail: string)
    requires n < 0xD800 || 0xE000 <= n < 0x1_0000
    ensures FirstChar(UEscape(n) + tail) == Some((n as char, 6))
    ensures |UEscape(n)| == 6 && UEscape(n)[0] == '\\'
  {
    UEscapeRoundTrip(n);
    var s := UEscape(n) + tail;
    assert s[2..6] == UEscape(n)[2..6];
    assert s[0] == '\\' && s[1] == 'u';
  }

  /** Whether the encoder writes this rune as a six-character escape. */
  predicate IsUEscaped(r: Rune) {
    r.Bad? || (var x := r.c as int;
      (x < 0x20 && x != 8 && x != 9 && x != 10 && x != 12 && x != 13) ||
      r.c == '<' || r.c == '>' || r.c == '&' || x == 0x2028 || x == 0x2029)
  }

  function Code(r: Rune): (n: nat)
    ensures n < 0xD800 || 0xE000 <= n < 0x11_0000
  {
    if r.Bad? then 0xFFFD else r.c as int
  }

  /** One escape decodes to its rune, whatever follows. */
  lemma {:induction false} EscapeDecodes(r: Rune, tail: string)
    ensures FirstChar(Escape(r) + tail) == Some((CleanRune(r), |Escape(r)|))
    ensures Escape(r)[0] != '"'
  {
    if IsUEscaped(r) {
      UEscapeDecodes(Code(r), tail);
    } else if |Escape(r)| == 2 {
      var s := Escape(r) + tail;
      assert s[0] == '\\' && s[1] == Escape(r)[1];
    } else {
      assert Escape(r) == [r.c];
    }
  }

  /** A cut escape decodes to nothing. */
  lemma {:induction false} CutEscapeFails(r: Rune, k: nat)
    requires k < |Escape(r)|
    ensures FirstChar(Escape(r)[..k]).None?
    ensures k > 0 ==> Escape(r)[..k][0] != '"'
  {
    if IsUEscaped(r) {
      assert Escape(r) == UEscape(Code(r));
    }
  }

  lemma {:induction false} ParseStep(r: Rune, tail: string)
    ensures ParseTail(Escape(r) + tail) ==
            match ParseTail(tail)
            case None => None
            case Some((d, rest)) => Some(([CleanRune(r)] + d, rest))
  {
    EscapeDecodes(r, tail);
    var s := Escape(r) + tail;
    assert s[|Escape(r)|..] == tail;
    assert s[0] == Escape(r)[0];
  }

  lemma {:induction false} CleanStep(rs: seq<Rune>)
    requires rs != []
    ensures Clean(rs) == [CleanRune(rs[0])] + Clean(rs[1..])
  {
  }

  lemma {:induction false} TailDecodes(rs: seq<Rune>, rest: string)
    ensures ParseTail(Tail(rs) + rest) == Some((Clean(rs), rest))
  {
    if rs == [] {
      assert ("\"" + rest)[1..] == rest;
      assert Clean([]) == "";
    } else {
      assert Tail(rs) + rest == Escape(rs[0]) + (Tail(rs[1..]) + rest);
      ParseStep(rs[0], Tail(rs[1..]) + rest);
      TailDecodes(rs[1..], rest);
      CleanStep(rs);
    }
  }

  /** A literal cut anywhere before its closing quote does not decode. */
  lemma {:induction false} CutTailFails(rs: seq<Rune>, k: nat)
    requires k < |Tail(rs)|
    ensures ParseTail(Tail(rs)[..k]).None?
  {
    if rs != [] {
      var e := Escape(rs[0]);
      TakeOfJoin(e, Tail(rs[1..]), k);
      if k < |e| {
        CutEscapeFails(rs[0], k);
      } else {
        ParseStep(rs[0], Tail(rs[1..])[..k - |e|]);
        CutTailFails(rs[1..], k - |e|);
      }
    }
  }

  lemma {:induction false} CleanOfLift(s: string)
    ensures Clean(Lift(s)) == s
  {
  }

  // ---- objects of string members ----

  type Members = seq<(string, seq<Rune>)>

  /** The members after the opening brace, and the closing brace. */
  function MembersText(ms: Members): string
    requires ms != []
  {
    Quote(Lift(ms[0].0)) + ":" + Quote(ms[0].1) + if |ms| == 1 then "}" else "," + MembersText(ms[1..])
  }

  /** `json.Marshal` of a struct whose fields are all strings. */
  function Object(ms: Members): string
    requires ms != []
  {
    "{" + MembersText(ms)
  }

  type Decoded = seq<(string, string)>

  /** Decodes `:"value"` and gives what follows. */
  function ParseValue(s: string): (r: Option<(string, string)>)
    ensures r.Some? ==> |r.value.1| < |s|
  {
    if |s| < 2 || s[0] != ':' || s[1] != '"' then None else ParseTail(s[2..])
  }

  /** Decodes one `"key":"value"`; gives the pair and what follows. */
  function ParseMember(s: string): (r: Option<((string, string), string)>)
    ensures r.Some? ==> |r.value.1| < |s|
  {
    if s == "" || s[0] != '"' then None
    else
      match ParseTail(s[1..])
      case None => None
      case Some((key, rest)) =>
        match ParseValue(rest)
        case None => None
        case Some((value, after)) => Some(((key, value), after))
  }

  function ParseMembers(s: string): Option<Decoded>
    decreases |s|
  {
    match ParseMember(s)
    case None => None
    case Some((kv, rest)) =>
      if rest == "}" then Some([kv])
      else if rest == "" || rest[0] != ',' then None
      else
        match ParseMembers(rest[1..])
        case None => None
        case Some(more) => Some([kv] + more)
  }

  /** Decoding of an object of string members; anything else is a syntax error. */
  function ParseObject(s: string): Option<Decoded> {
    if s == "" || s[0] != '{' then None else ParseMembers(s[1..])
  }

  /** The last value under a key, or "" (Go's zero value, and `data.get(key, "")`). */
  function Get(d: Decoded, key: string): string {
    if d == [] then ""
    else if d[|d| - 1].0 == key then d[|d| - 1].1
    else Get(d[..|d| - 1], key)
  }

  lemma {:induction false} NoMember(d: Decoded, key: string)
    ensures (forall i | 0 <= i < |d| :: d[i].0 != key) ==> Get(d, key) == ""
  {
    if d != [] {
      NoMember(d[..|d| - 1], key);
    }
  }

  /** Of members with one key the last counts, whatever comes after it under other keys. */
  lemma {:induction false} LastWins(d: Decoded, key: string, value: string, more: Decoded)
    requires forall i | 0 <= i < |more| :: more[i].0 != key
    ensures Get(d + [(key, value)] + more, key) == value
    ensures (forall i | 0 <= i < |d| :: d[i].0 != key) ==> Get(d + more, key) == ""
  {
    if more == [] {
      assert d + [(key, value)] + more == d + [(key, value)] && d + more == d;
      NoMember(d, key);
    } else {
      var init := more[..|more| - 1];
      assert (d + [(key, value)] + more)[..|d| + |more|] == d + [(key, value)] + init;
      assert (d + more)[..|d + more| - 1] == d + init;
      LastWins(d, key, value, init);
    }
  }

  function CleanMember(m: (string, seq<Rune>)): (string, string) {
    (m.0, Clean(m.1))
  }

  function CleanMembers(ms: Members): Decoded {
    seq(|ms|, i requires 0 <= i < |ms| => CleanMember(ms[i]))
  }

  function MemberText(m: (string, seq<Rune>)): string {
    Quote(Lift(m.0)) + ":" + Quote(m.1)
  }

  function ValueText(v: seq<Rune>): string {
    ":\"" + Tail(v)
  }

  lemma {:induction false} ValueOpens(tail: string, rest: string)
    ensures var s := ":\"" + tail + rest; |s| >= 2 && s[0] == ':' && s[1] == '"' && s[2..] == tail + rest
  {
    JoinIsAssociative(":\"", tail, rest);
  }

  lemma {:induction false} ValueDecodes(v: seq<Rune>, rest: string)
    ensures ParseValue(ValueText(v) + rest) == Some((Clean(v), rest))
  {
    ValueOpens(Tail(v), rest);
    TailDecodes(v, rest);
  }

  lemma {:induction false} CutValueFails(v: seq<Rune>, k: nat)
    requires k < |ValueText(v)|
    ensures ParseValue(ValueText(v)[..k]).None?
  {
    if k >= 2 {
      assert ValueText(v)[..k][2..] == Tail(v)[..k - 2];
      CutTailFails(v, k - 2);
    }
  }

  lemma {:induction false} PartsOfMember(key: string, value: string)
    ensures "\"" + key + ":" + ("\"" + value) == "\"" + (key + (":\"" + value))
  {
  }

  lemma {:induction false} MemberParts(m: (string, seq<Rune>))
    ensures MemberText(m) == "\"" + (Tail(Lift(m.0)) + ValueText(m.1))
  {
    PartsOfMember(Tail(Lift(m.0)), Tail(m.1));
  }

  lemma {:induction false} KeyDecodes(key: string, rest: string)
    ensures ParseTail(Tail(Lift(key)) + rest) == Some((key, rest))
  {
    TailDecodes(Lift(key), rest);
    CleanOfLift(key);
  }

  lemma {:induction false} MemberOpens(key: string, value: string, rest: string)
    ensures var s := "\"" + (key + value) + rest; s[0] == '"' && s[1..] == key + (value + rest)
  {
    JoinIsAssociative("\"", key + value, rest);
    JoinIsAssociative(key, value, rest);
  }

  lemma {:induction false} MemberFrom(s: string, key: string, rest: string, value: string, after: string)
    requires s != "" && s[0] == '"' && ParseTail(s[1..]) == Some((key, rest)) && ParseValue(rest) == Some((value, after))
    ensures ParseMember(s) == Some(((key, value), after))
  {
  }

  lemma {:induction false} MemberDecodes(m: (string, seq<Rune>), rest: string)
    ensures ParseMember(MemberText(m) + rest) == Some((CleanMember(m), rest))
  {
    MemberParts(m);
    MemberOpens(Tail(Lift(m.0)), ValueText(m.1), rest);
    KeyDecodes(m.0, ValueText(m.1) + rest);
    ValueDecodes(m.1, rest);
    MemberFrom(MemberText(m) + rest, m.0, ValueText(m.1) + rest, Clean(m.1), rest);
  }

  lemma {:induction false} CutKeyFails(key: string, j: nat)
    requires j < |Tail(Lift(key))|
    ensures ParseMember("\"" + Tail(Lift(key))[..j]).None?
  {
    var s := "\"" + Tail(Lift(key))[..j];
    assert s[1..] == Tail(Lift(key))[..j];
    CutTailFails(Lift(key), j);
  }

  lemma {:induction false} CutInValueFails(m: (string, seq<Rune>), j: nat)
    requires j < |ValueText(m.1)|
    ensures ParseMember("\"" + (Tail(Lift(m.0)) + ValueText(m.1)[..j])).None?
  {
    var rest := Tail(Lift(m.0)) + ValueText(m.1)[..j];
    assert ("\"" + rest)[1..] == rest;
    KeyDecodes(m.0, ValueText(m.1)[..j]);
    CutValueFails(m.1, j);
  }

  lemma {:induction false} CutOfMember(key: string, value: string, k: nat)
    requires 0 < k <= |key| + |value|
    ensures ("\"" + (key + value))[..k] == "\"" + if k <= |key| then key[..k - 1] else key + value[..k - 1 - |key|]
  {
    TakeOfJoin("\"", key + value, k);
    TakeOfJoin(key, value, k - 1);
  }

  lemma {:induction false} CutMemberFails(m: (string, seq<Rune>), k: nat)
    requires k < |MemberText(m)|
    ensures ParseMember(MemberText(m)[..k]).None?
  {
    var key, value := Tail(Lift(m.0)), ValueText(m.1);
    MemberParts(m);
    if k > 0 {
      CutOfMember(key, value, k);
      if k <= |key| {
        CutKeyFails(m.0, k - 1);
      } else {
        CutInValueFails(m, k - 1 - |key|);
      }
    }
  }

  lemma {:induction false} MembersTextSplits(ms: Members)
    requires ms != []
    ensures MembersText(ms) == MemberText(ms[0]) + if |ms| == 1 then "}" else "," + MembersText(ms[1..])
  {
  }

  lemma {:induction false} MoreMembers(s: string, kv: (string, string), more: string)
    requires ParseMember(s) == Some((kv, "," + more))
    ensures ParseMembers(s) ==
            match ParseMembers(more)
            case None => None
            case Some(d) => Some([kv] + d)
  {
    var rest := "," + more;
    assert rest[0] == ',' && rest[1..] == more;
  }

  lemma {:induction false} LastMember(s: string, kv: (string, string))
    requires ParseMember(s) == Some((kv, "}"))
    ensures ParseMembers(s) == Some([kv])
  {
  }

  lemma {:induction false} LastMemberDecodes(m: (string, seq<Rune>))
    ensures ParseMembers(MemberText(m) + "}") == Some([CleanMember(m)])
  {
    MemberDecodes(m, "}");
    LastMember(MemberText(m) + "}", CleanMember(m));
  }

  lemma {:induction false} FirstMemberDecodes(m: (string, seq<Rune>), more: string, d: Decoded)
    requires ParseMembers(more) == Some(d)
    ensures ParseMembers(MemberText(m) + ("," + more)) == Some([CleanMember(m)] + d)
  {
    MemberDecodes(m, "," + more);
    MoreMembers(MemberText(m) + ("," + more), CleanMember(m), more);
  }

  lemma {:induction false} CleanMembersSplit(ms: Members)
    requires ms != []
    ensures CleanMembers(ms) == [CleanMember(ms[0])] + CleanMembers(ms[1..])
    ensures |ms| == 1 ==> CleanMembers(ms) == [CleanMember(ms[0])]
  {
  }

  lemma {:induction false} MembersDecode(ms: Members)
    requires ms != []
    ensures ParseMembers(MembersText(ms)) == Some(CleanMembers(ms))
  {
    MembersTextSplits(ms);
    CleanMembersSplit(ms);
    if |ms| == 1 {
      LastMemberDecodes(ms[0]);
    } else {
      MembersDecode(ms[1..]);
      FirstMemberDecodes(ms[0], MembersText(ms[1..]), CleanMembers(ms[1..]));
    }
  }

  lemma {:induction false} CutMembersFail(ms: Members, k: nat)
    requires ms != [] && k < |MembersText(ms)|
    ensures ParseMembers(MembersText(ms)[..k]).None?
  {
    MembersTextSplits(ms);
    var first := MemberText(ms[0]);
    var more := if |ms| == 1 then "}" else "," + MembersText(ms[1..]);
    TakeOfJoin(first, more, k);
    if k < |first| {
      CutMemberFails(ms[0], k);
    } else {
      var rest := more[..k - |first|];
      assert MembersText(ms)[..k] == first + rest;
      MemberDecodes(ms[0], rest);
      if |rest| > 0 {
        CutMembersFail(ms[1..], |rest| - 1);
        TakeOfJoin(",", MembersText(ms[1..]), |rest|);
        MoreMembers(first + rest, CleanMember(ms[0]), MembersText(ms[1..])[..|rest| - 1]);
      }
    }
  }

  /** Decoding what was encoded gives the members back. */
  lemma {:induction false} ObjectRoundTrip(ms: Members)
    requires ms != []
    ensures ParseObject(Object(ms)) == Some(CleanMembers(ms))
  {
    assert Object(ms)[1..] == MembersText(ms);
    MembersDecode(ms);
  }

  /** An object cut anywhere is a syntax error. */
  lemma {:induction false} CutObjectFails(ms: Members, k: nat)
    requires ms != [] && k < |Object(ms)|
    ensures ParseObject(Object(ms)[..k]).None?
  {
    if k > 0 {
      assert Object(ms)[..k][1..] == MembersText(ms)[..k - 1];
      CutMembersFail(ms, k - 1);
    }
  }

  // ---- sizes ----

  lemma {:induction false} Utf8SizeAdds(a: string, b: string)
    ensures Utf8Size(a + b) == Utf8Size(a) + Utf8Size(b)
  {
    if a == "" {
      assert a + b == b;
    } else {
      assert (a + b)[1..] == a[1..] + b;
      Utf8SizeAdds(a[1..], b);
    }
  }

  lemma {:induction false} AsciiSize(s: string)
    requires forall i | 0 <= i < |s| :: s[i] as int < 0x80
    ensures Utf8Size(s) == |s|
  {
    if s != "" {
      AsciiSize(s[1..]);
    }
  }

  lemma {:induction false} UEscapeSize(n: nat)
    requires n < 0x1_0000
    ensures Utf8Size(UEscape(n)) == 6
  {
    AsciiSize(UEscape(n));
  }

  lemma {:induction false} TwoCharacters(r: Rune)
    requires |Escape(r)| == 2
    ensures Utf8Size(Escape(r)) == 2
  {
    AsciiSize(Escape(r));
  }

  lemma {:induction false} OneCharacter(c: char)
    ensures Utf8Size([c]) == Utf8Len(c)
  {
    assert [c][1..] == "";
  }

  /** Escaping expands no byte to more than six. */
  lemma {:induction false} EscapeSize(r: Rune)
    ensures Utf8Size(Escape(r)) <= 6 * Width(r)
  {
    if IsUEscaped(r) {
      UEscapeSize(Code(r));
    } else if |Escape(r)| == 2 {
      TwoCharacters(r);
    } else {
      OneCharacter(r.c);
    }
  }

  lemma {:induction false} Places(a: nat, b: nat, c: nat, d: nat)
    requires a < 16 && b < 16 && c < 16 && d < 16
    ensures var n := a * 0x1000 + b * 0x100 + c * 16 + d;
            n / 0x1000 == a && n / 0x100 % 16 == b && n / 16 % 16 == c && n % 16 == d
  {
    var n := a * 0x1000 + b * 0x100 + c * 16 + d;
    assert n / 16 == a * 0x100 + b * 16 + c;
    assert n / 0x100 == a * 16 + b;
  }

  /** Six-character escapes are spelled with lower-case digits, the highest place first. */
  lemma {:induction false} UEscapeSpells(a: nat, b: nat, c: nat, d: nat)
    requires a < 16 && b < 16 && c < 16 && d < 16
    ensures UEscape(a * 0x1000 + b * 0x100 + c * 16 + d) == "\\u" + [LOWER_HEX[a], LOWER_HEX[b], LOWER_HEX[c], LOWER_HEX[d]]
  {
    Places(a, b, c, d);
  }

  /** Exactly: how many bytes a rune takes between quotes. */
  lemma {:induction false} EscapeSizeIs(r: Rune)
    ensures r.Bad? ==> Utf8Size(Escape(r)) == 6
    ensures r.Scalar? ==>
              Utf8Size(Escape(r)) ==
              if r.c in {'"', '\\', '\n', '\r', '\t', 8 as char, 12 as char} then 2
              else if r.c as int < 0x20 || r.c in {'<', '>', '&', '\U{2028}', '\U{2029}'} then 6
              else if r.c as int < 0x80 then 1
              else if r.c as int < 0x800 then 2
              else if r.c as int < 0x1_0000 then 3
              else 4
  {
    if IsUEscaped(r) {
      UEscapeSize(Code(r));
    } else if |Escape(r)| == 2 {
      TwoCharacters(r);
    } else {
      OneCharacter(r.c);
    }
  }

  /** The bytes a text takes between its quotes. */
  function EncodedSize(rs: seq<Rune>): nat {
    if rs == [] then 0 else Utf8Size(Escape(rs[0])) + EncodedSize(rs[1..])
  }

  lemma {:induction false} TailSize(rs: seq<Rune>)
    ensures Utf8Size(Tail(rs)) == EncodedSize(rs) + 1
    ensures EncodedSize(rs) <= 6 * TotalWidth(rs)
  {
    if rs == [] {
      AsciiSize("\"");
    } else {
      Utf8SizeAdds(Escape(rs[0]), Tail(rs[1..]));
      EscapeSize(rs[0]);
      TailSize(rs[1..]);
    }
  }

  /** The runes of a Go string take exactly its bytes. */
  lemma {:induction false} RunesTakeAllBytes(s: seq<byte>)
    ensures TotalWidth(Runes(s)) == |s|
  {
    if s != [] {
      var rest := s[Width(DecodeRune(s))..];
      RunesTakeAllBytes(rest);
      assert Runes(s)[1..] == Runes(rest);
    }
  }

  lemma {:induction false} LiftWidth(s: string)
    ensures TotalWidth(Lift(s)) == Utf8Size(s)
  {
    if s != "" {
      LiftWidth(s[1..]);
      assert Lift(s)[1..] == Lift(s[1..]);
    }
  }

  /** A key of letters is written as it is. */
  predicate IsPlain(s: string) {
    forall i | 0 <= i < |s| :: 'A' <= s[i] <= 'Z' || 'a' <= s[i] <= 'z'
  }

  lemma {:induction false} PlainTail(key: string)
    requires IsPlain(key)
    ensures Tail(Lift(key)) == key + "\""
  {
    if key != "" {
      PlainTail(key[1..]);
      assert Lift(key)[1..] == Lift(key[1..]);
      assert Escape(Scalar(key[0])) == [key[0]];
    }
  }

  /** The text of a member up to its value. */
  function Front(key: string): string {
    "\"" + key + "\":\""
  }

  lemma {:induction false} FrontSize(key: string)
    requires IsPlain(key)
    ensures Utf8Size(Front(key)) == |key| + 4
  {
    AsciiSize(Front(key));
  }

  lemma {:induction false} FrontParts(key: string, tail: string)
    ensures "\"" + ((key + "\"") + (":\"" + tail)) == Front(key) + tail
  {
  }

  lemma {:induction false} MemberFront(m: (string, seq<Rune>))
    requires IsPlain(m.0)
    ensures MemberText(m) == Front(m.0) + Tail(m.1)
  {
    MemberParts(m);
    PlainTail(m.0);
    FrontParts(m.0, Tail(m.1));
  }

  lemma {:induction false} MemberSize(m: (string, seq<Rune>))
    requires IsPlain(m.0)
    ensures Utf8Size(MemberText(m)) == |m.0| + 5 + EncodedSize(m.1)
  {
    MemberFront(m);
    Utf8SizeAdds(Front(m.0), Tail(m.1));
    FrontSize(m.0);
    TailSize(m.1);
  }

  /** The size of the members: each takes its key, its encoded value and six bytes of punctuation. */
  function SizeOf(ms: Members): nat {
    if ms == [] then 0 else |ms[0].0| + 6 + EncodedSize(ms[0].1) + SizeOf(ms[1..])
  }

  lemma {:induction false} MembersSize(ms: Members)
    requires ms != [] && forall i | 0 <= i < |ms| :: IsPlain(ms[i].0)
    ensures Utf8Size(MembersText(ms)) == SizeOf(ms)
  {
    MembersTextSplits(ms);
    MemberSize(ms[0]);
    if |ms| == 1 {
      Utf8SizeAdds(MemberText(ms[0]), "}");
      AsciiSize("}");
    } else {
      Utf8SizeAdds(MemberText(ms[0]), "," + MembersText(ms[1..]));
      Utf8SizeAdds(",", MembersText(ms[1..]));
      AsciiSize(",");
      MembersSize(ms[1..]);
    }
  }

  lemma {:induction false} ObjectSize(ms: Members)
    requires ms != [] && forall i | 0 <= i < |ms| :: IsPlain(ms[i].0)
    ensures Utf8Size(Object(ms)) == 1 + SizeOf(ms)
  {
    Utf8SizeAdds("{", MembersText(ms));
    AsciiSize("{");
    MembersSize(ms);
  }

  /** A log of n bytes each of which takes six. */
  function Controls(n: nat): seq<byte> {
    seq(n, _ => 1 as byte)
  }

  lemma {:induction false} ControlsSize(n: nat)
    ensures EncodedSize(Runes(Controls(n))) == 6 * n
  {
    if n > 0 {
      var s := Controls(n);
      assert DecodeRune(s) == Scalar(1 as char) && s[1..] == Controls(n - 1);
      assert Runes(s)[1..] == Runes(Controls(n - 1));
      UEscapeSize(1);
      ControlsSize(n - 1);
    }
  }

  // ---- no raw control characters ----

  predicate Harmless(c: char) {
    c as int >= 0x20 && c as int != 0x2028 && c as int != 0x2029
  }

  /** Every character is harmless, and U+0085 appears only if `nel` allows it. */
  predicate Safe(s: string, nel: bool) {
    forall i | 0 <= i < |s| :: Harmless(s[i]) && (s[i] == NEL ==> nel)
  }

  lemma {:induction false} HexIsSafe(n: nat)
    requires n < 16
    ensures Harmless(HexDigit(n)) && HexDigit(n) != NEL
  {
  }

  lemma {:induction false} EscapeIsSafe(r: Rune)
    ensures Safe(Escape(r), r == Scalar(NEL))
  {
    if IsUEscaped(r) {
      var n := Code(r);
      assert Escape(r) == UEscape(n);
      HexIsSafe(n / 0x1000);
      HexIsSafe(n / 0x100 % 16);
      HexIsSafe(n / 16 % 16);
      HexIsSafe(n % 16);
    }
  }

  lemma {:induction false} SafeJoin(a: string, b: string, nel: bool)
    requires Safe(a, nel) && Safe(b, nel)
    ensures Safe(a + b, nel)
  {
  }

  lemma {:induction false} TailIsSafe(rs: seq<Rune>)
    ensures Safe(Tail(rs), Scalar(NEL) in rs)
  {
    if rs != [] {
      EscapeIsSafe(rs[0]);
      TailIsSafe(rs[1..]);
      SafeJoin(Escape(rs[0]), Tail(rs[1..]), Scalar(NEL) in rs);
    }
  }

  /** An unescaped U+0085 stays as it is, so it is in the literal exactly when it is in the text. */
  lemma {:induction false} TailKeepsNel(rs: seq<Rune>)
    ensures NEL in Tail(rs) <==> Scalar(NEL) in rs
  {
    if rs != [] {
      TailKeepsNel(rs[1..]);
      EscapeIsSafe(rs[0]);
      if rs[0] == Scalar(NEL) {
        assert Escape(rs[0])[0] == NEL;
      }
    }
  }

  predicate HasNel(ms: Members) {
    exists i | 0 <= i < |ms| :: Scalar(NEL) in ms[i].1
  }

  lemma {:induction false} FrontIsSafe(key: string)
    requires IsPlain(key)
    ensures Safe(Front(key), false) && NEL !in Front(key)
  {
  }

  lemma {:induction false} MemberIsSafe(m: (string, seq<Rune>))
    requires IsPlain(m.0)
    ensures Safe(MemberText(m), Scalar(NEL) in m.1)
    ensures NEL in MemberText(m) <==> Scalar(NEL) in m.1
  {
    MemberFront(m);
    FrontIsSafe(m.0);
    TailIsSafe(m.1);
    TailKeepsNel(m.1);
    SafeJoin(Front(m.0), Tail(m.1), Scalar(NEL) in m.1);
  }

  lemma {:induction false} NelInFirstOrRest(ms: Members)
    requires ms != []
    ensures HasNel(ms) <==> Scalar(NEL) in ms[0].1 || HasNel(ms[1..])
  {
    if HasNel(ms[1..]) {
      var i :| 0 <= i < |ms[1..]| && Scalar(NEL) in ms[1..][i].1;
      assert ms[i + 1] == ms[1..][i];
    }
    if HasNel(ms) {
      var i :| 0 <= i < |ms| && Scalar(NEL) in ms[i].1;
      if i > 0 {
        assert ms[1..][i - 1] == ms[i];
      }
    }
  }

  lemma {:induction false} MembersAreSafe(ms: Members)
    requires ms != [] && forall i | 0 <= i < |ms| :: IsPlain(ms[i].0)
    ensures Safe(MembersText(ms), HasNel(ms))
    ensures NEL in MembersText(ms) <==> HasNel(ms)
  {
    MembersTextSplits(ms);
    MemberIsSafe(ms[0]);
    if |ms| > 1 {
      MembersAreSafe(ms[1..]);
      assert HasNel(ms) <==> Scalar(NEL) in ms[0].1 || HasNel(ms[1..]) by {
        NelInFirstOrRest(ms);
      }
      SafeJoin(",", MembersText(ms[1..]), HasNel(ms));
      SafeJoin(MemberText(ms[0]), "," + MembersText(ms[1..]), HasNel(ms));
    }
  }

  lemma {:induction false} EndsInBrace(ms: Members)
    requires ms != []
    ensures |MembersText(ms)| > 0 && MembersText(ms)[|MembersText(ms)| - 1] == '}'
  {
    MembersTextSplits(ms);
    if |ms| > 1 {
      EndsInBrace(ms[1..]);
    }
  }

  /** An encoded object has no control character and no line or paragraph separator; U+0085 gets through. */
  lemma {:induction false} ObjectIsSafe(ms: Members)
    requires ms != [] && forall i | 0 <= i < |ms| :: IsPlain(ms[i].0)
    ensures Safe(Object(ms), HasNel(ms))
    ensures NEL in Object(ms) <==> HasNel(ms)
    ensures |Object(ms)| >= 2 && Object(ms)[0] == '{' && Object(ms)[|Object(ms)| - 1] == '}'
  {
    MembersAreSafe(ms);
    SafeJoin("{", MembersText(ms), HasNel(ms));
    EndsInBrace(ms);
  }
}

/** The part of `JSON.stringify` the snapshot needs (string, integer and
    boolean values in a flat object, no whitespace), following section 25.5.2
    of ECMA-262, together with scanners for the pieces it produces. */
module Json {
  import opened Options

  datatype Value = Str(text: string) | Int(n: int) | Bool(b: bool)

  /** One key/value pair of an object, in insertion order. */
  datatype Member = Member(key: string, value: Value)

  /** The rest of the input after a scanner has read a value. */
  datatype Parsed<+T> = Parsed(value: T, rest: string)

  // ---------------------------------------------------------------------
  // Numbers

  predicate IsDigit(c: char) {
    '0' <= c <= '9'
  }

  function DigitChar(d: int): (c: char)
    requires 0 <= d <= 9
    ensures IsDigit(c) && c as int - '0' as int == d
  {
    (d + '0' as int) as char
  }

  function DigitValue(c: char): (d: int)
    requires IsDigit(c)
    ensures 0 <= d <= 9 && DigitChar(d) == c
  {
    c as int - '0' as int
  }

  /** Decimal text of a natural number: at least one digit, no leading zero. */
  function NatText(n: nat): (t: string)
    ensures |t| >= 1 && (|t| > 1 ==> t[0] != '0')
    ensures forall k :: 0 <= k < |t| ==> IsDigit(t[k])
    decreases n
  {
    if n < 10 then [DigitChar(n)] else NatText(n / 10) + [DigitChar(n % 10)]
  }

  /** Number::toString for an integral value of magnitude below 10^21
      (larger ones are written in exponent form, which no message needs). */
  function IntText(n: int): string {
    if n < 0 then "-" + NatText(-n) else NatText(n)
  }

  /** The value of a string of decimal digits, read from its last digit. */
  function DigitsValue(t: string): (n: nat)
    requires forall k :: 0 <= k < |t| ==> IsDigit(t[k])
    decreases |t|
  {
    if |t| == 0 then 0
    else DigitsValue(t[..|t| - 1]) * 10 + DigitValue(t[|t| - 1])
  }

  lemma {:induction false} NatTextValue(n: nat)
    ensures DigitsValue(NatText(n)) == n
    decreases n
  {
    var t := NatText(n);
    if n >= 10 {
      assert t[..|t| - 1] == NatText(n / 10);
      NatTextValue(n / 10);
    }
  }

  /** The number of leading digits of `s`. */
  function DigitSpan(s: string): (k: nat)
    ensures k <= |s|
    ensures forall j :: 0 <= j < k ==> IsDigit(s[j])
    ensures k == |s| || !IsDigit(s[k])
    decreases |s|
  {
    if |s| == 0 || !IsDigit(s[0]) then 0 else 1 + DigitSpan(s[1..])
  }

  /** Reads an optional minus sign and a non-empty run of digits. */
  function ParseInt(s: string): Option<Parsed<int>> {
    var neg := |s| > 0 && s[0] == '-';
    var body := if neg then s[1..] else s;
    var k := DigitSpan(body);
    if k == 0 then None
    else
      var m: int := DigitsValue(body[..k]);
      Some(Parsed(if neg then -m else m, body[k..]))
  }

  lemma {:induction false} DigitSpanOfDigits(t: string, rest: string)
    requires forall k :: 0 <= k < |t| ==> IsDigit(t[k])
    requires rest == [] || !IsDigit(rest[0])
    ensures DigitSpan(t + rest) == |t|
    decreases |t|
  {
    if |t| > 0 {
      assert (t + rest)[1..] == t[1..] + rest;
      DigitSpanOfDigits(t[1..], rest);
    } else {
      assert t + rest == rest;
    }
  }

  lemma ScanNatText(m: nat, rest: string)
    requires rest == [] || !IsDigit(rest[0])
    ensures var t := NatText(m); var body := t + rest;
      && DigitSpan(body) == |t|
      && DigitsValue(body[..|t|]) == m
      && body[|t|..] == rest
  {
  }

  /** Reading back the text of an integer yields the integer and stops at
      the first character that cannot continue a number. */
  lemma ParseIntText(n: int, rest: string)
    requires rest == [] || !IsDigit(rest[0])
    ensures ParseInt(IntText(n) + rest) == Some(Parsed(n, rest))
  {
    var m: nat := if n < 0 then -n else n;
    var body := NatText(m) + rest;
    var s := IntText(n) + rest;
    ScanNatText(m, rest);
    if n < 0 {
      assert s == "-" + body;
      assert s[0] == '-' && s[1..] == body;
    } else {
      assert s == body;
      assert IsDigit(s[0]);
    }
  }

  // ---------------------------------------------------------------------
  // Strings

  /** Lower-case hexadecimal digit. */
  function HexDigit(d: int): char
    requires 0 <= d < 16
  {
    "0123456789abcdef"[d]
  }

  /** The escape `JSON.stringify` writes for one code point. */
  function EscapeChar(c: char): string {
    if c == '"' then "\\\""
    else if c == '\\' then "\\\\"
    else if c as int == 0x08 then "\\b"
    else if c as int == 0x09 then "\\t"
    else if c as int == 0x0A then "\\n"
    else if c as int == 0x0C then "\\f"
    else if c as int == 0x0D then "\\r"
    else if c < ' ' then "\\u00" + [HexDigit(c as int / 16), HexDigit(c as int % 16)]
    else [c]
  }

  /** A character that `JSON.stringify` copies unchanged. */
  predicate Plain(c: char) {
    c != '"' && c != '\\' && c >= ' '
  }

  function Escape(s: string): string
    decreases |s|
  {
    if |s| == 0 then "" else EscapeChar(s[0]) + Escape(s[1..])
  }

  /** QuoteJSONString. */
  function Quote(s: string): string {
    "\"" + Escape(s) + "\""
  }

  lemma {:induction false} EscapePlain(s: string)
    requires forall k :: 0 <= k < |s| ==> Plain(s[k])
    ensures Escape(s) == s
    decreases |s|
  {
    if |s| > 0 {
      EscapePlain(s[1..]);
      assert s == [s[0]] + s[1..];
    }
  }

  /** A string of plain characters is written between quotes as it is. */
  lemma QuotePlain(s: string)
    requires forall k :: 0 <= k < |s| ==> Plain(s[k])
    ensures Quote(s) == "\"" + s + "\""
  {
    EscapePlain(s);
  }

  // ---------------------------------------------------------------------
  // Booleans, values, objects

  function BoolText(b: bool): string {
    if b then "true" else "false"
  }

  function ParseBool(s: string): (r: Option<Parsed<bool>>)
    ensures r.Some? ==> BoolText(r.value.value) + r.value.rest == s
  {
    if "true" <= s then Some(Parsed(true, s[4..]))
    else if "false" <= s then Some(Parsed(false, s[5..]))
    else None
  }

  lemma ParseBoolText(b: bool, rest: string)
    ensures ParseBool(BoolText(b) + rest) == Some(Parsed(b, rest))
  {
    var s := BoolText(b) + rest;
    if b {
      assert "true" <= s;
      assert s[4..] == rest;
    } else {
      assert !("true" <= s) by { assert s[0] == 'f'; }
      assert "false" <= s;
      assert s[5..] == rest;
    }
  }

  function ValueText(v: Value): string {
    match v
    case Str(t) => Quote(t)
    case Int(n) => IntText(n)
    case Bool(b) => BoolText(b)
  }

  function MemberText(m: Member): string {
    Quote(m.key) + ":" + ValueText(m.value)
  }

  /** The members separated by commas, in order. */
  function MembersText(ms: seq<Member>): string
    decreases |ms|
  {
    if |ms| == 0 then ""
    else if |ms| == 1 then MemberText(ms[0])
    else MemberText(ms[0]) + "," + MembersText(ms[1..])
  }

  /** `JSON.stringify` of a flat object without indentation. */
  function ObjectText(ms: seq<Member>): string {
    "{" + MembersText(ms) + "}"
  }

  lemma ConcatAssoc(a: string, b: string, c: string)
    ensures (a + b) + c == a + (b + c)
  {
  }

  /** An object's text regrouped around one member: what precedes the value
      (`open`, the quoted key and a colon), the value, and the remaining
      members with the closing brace. `open` is the brace for the first
      member and the comma for a later one. */
  lemma ObjectSplit(open: string, m: Member, ms: seq<Member>)
    requires |ms| >= 1
    ensures open + MembersText([m] + ms) + "}"
            == (open + Quote(m.key) + ":") + (ValueText(m.value) + ("," + MembersText(ms) + "}"))
  {
    assert ([m] + ms)[1..] == ms;
    var K, V, R := Quote(m.key), ValueText(m.value), MembersText(ms);
    var KC := K + ":";
    assert MembersText([m] + ms) == ((KC + V) + ",") + R;
    calc {
      (open + (((KC + V) + ",") + R)) + "}";
      { ConcatAssoc(open, ((KC + V) + ",") + R, "}"); }
      open + ((((KC + V) + ",") + R) + "}");
      { ConcatAssoc((KC + V) + ",", R, "}"); }
      open + (((KC + V) + ",") + (R + "}"));
      { ConcatAssoc(KC + V, ",", R + "}"); }
      open + ((KC + V) + ("," + (R + "}")));
      { ConcatAssoc(KC, V, "," + (R + "}")); }
      open + (KC + (V + ("," + (R + "}"))));
      { ConcatAssoc(open, KC, V + ("," + (R + "}"))); }
      (open + KC) + (V + ("," + (R + "}")));
      { ConcatAssoc(open, K, ":"); ConcatAssoc(",", R, "}"); }
      ((open + K) + ":") + (V + (("," + R) + "}"));
    }
  }

  /** The same split for the last member. */
  lemma ObjectLast(m: Member)
    ensures "," + MembersText([m]) + "}"
            == ("," + Quote(m.key) + ":") + (ValueText(m.value) + "}")
  {
  }

  /** Consumes the literal `lit` at the start of `s`. */
  function Expect(lit: string, s: string): (r: Option<string>)
    ensures r.Some? <==> lit <= s
    ensures r.Some? ==> lit + r.value == s
  {
    if lit <= s then Some(s[|lit|..]) else None
  }

  lemma ExpectLiteral(lit: string, rest: string)
    ensures Expect(lit, lit + rest) == Some(rest)
  {
  }
}

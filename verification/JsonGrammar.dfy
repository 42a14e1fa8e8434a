/**
 The grammar of RFC 8259 as a reader that takes one value off the front of a text and
 gives what is left, or nothing where the text breaks a rule. A text is a sequence of
 bytes; that it is UTF-8 is not this grammar's concern.
 */
module JsonGrammar {
  import opened Options

  type Text = seq<bv8>

  const QUOTE: bv8 := 0x22
  const BACKSLASH: bv8 := 0x5C
  const COMMA: bv8 := 0x2C
  const COLON: bv8 := 0x3A

  predicate StartsWith(b: Text, c: bv8) { b != [] && b[0] == c }

  /** Section 2: white space may stand around every token. */
  function Space(b: Text): (r: Text)
    ensures |r| <= |b|
  {
    if b != [] && b[0] in {0x20, 0x09, 0x0A, 0x0D} then Space(b[1..]) else b
  }

  predicate IsHex(c: bv8) { 0x30 <= c <= 0x39 || 0x41 <= c <= 0x46 || 0x61 <= c <= 0x66 }

  /** Section 7, after the opening quote: no raw control characters, and only the escapes there are. */
  function String(b: Text): (r: Option<Text>)
    ensures r.Some? ==> |r.value| < |b|
  {
    if b == [] then None
    else if b[0] == QUOTE then Some(b[1..])
    else if b[0] < 0x20 then None
    else if b[0] != BACKSLASH then String(b[1..])
    else if |b| >= 2 && b[1] in {0x22, 0x5C, 0x2F, 0x62, 0x66, 0x6E, 0x72, 0x74} then String(b[2..])
    else if |b| >= 6 && b[1] == 0x75 && IsHex(b[2]) && IsHex(b[3]) && IsHex(b[4]) && IsHex(b[5]) then String(b[6..])
    else None
  }

  predicate IsDigit(c: bv8) { 0x30 <= c <= 0x39 }

  function Digits(b: Text): (r: Text)
    ensures |r| <= |b|
    ensures b != [] && IsDigit(b[0]) ==> |r| < |b|
  {
    if b != [] && IsDigit(b[0]) then Digits(b[1..]) else b
  }

  function SomeDigits(b: Text): (r: Option<Text>)
    ensures r.Some? ==> |r.value| < |b|
  {
    if b != [] && IsDigit(b[0]) then Some(Digits(b)) else None
  }

  /** Section 6: an integer without leading zeros, then perhaps a fraction and an exponent. */
  function Number(b: Text): (r: Option<Text>)
    ensures r.Some? ==> |r.value| < |b|
  {
    var b := if StartsWith(b, 0x2D) then b[1..] else b;
    if b == [] || !IsDigit(b[0]) then None
    else
      var whole := if b[0] == 0x30 then b[1..] else Digits(b);
      match (if StartsWith(whole, 0x2E) then SomeDigits(whole[1..]) else Some(whole))
      case None => None
      case Some(fraction) =>
        if StartsWith(fraction, 0x65) || StartsWith(fraction, 0x45) then Exponent(fraction[1..]) else Some(fraction)
  }

  function Exponent(b: Text): (r: Option<Text>)
    ensures r.Some? ==> |r.value| < |b|
  {
    SomeDigits(if StartsWith(b, 0x2B) || StartsWith(b, 0x2D) then b[1..] else b)
  }

  function Literal(b: Text, word: Text): (r: Option<Text>)
    requires word != []
    ensures r.Some? ==> |r.value| < |b|
  {
    if word <= b then Some(b[|word|..]) else None
  }

  /** Section 3. */
  function Value(b: Text): (r: Option<Text>)
    ensures r.Some? ==> |r.value| < |b|
    decreases |b|, 1
  {
    var s := Space(b);
    if s == [] then None
    else if s[0] == 0x7B then
      var inside := Space(s[1..]);
      if StartsWith(inside, 0x7D) then Some(inside[1..]) else Members(inside)
    else if s[0] == 0x5B then
      var inside := Space(s[1..]);
      if StartsWith(inside, 0x5D) then Some(inside[1..]) else Elements(inside)
    else if s[0] == QUOTE then String(s[1..])
    else if s[0] == 0x74 then Literal(s, [0x74, 0x72, 0x75, 0x65])
    else if s[0] == 0x66 then Literal(s, [0x66, 0x61, 0x6C, 0x73, 0x65])
    else if s[0] == 0x6E then Literal(s, [0x6E, 0x75, 0x6C, 0x6C])
    else Number(s)
  }

  /** Section 4, after the opening brace: at least one member. */
  function Members(b: Text): (r: Option<Text>)
    ensures r.Some? ==> |r.value| < |b|
    decreases |b|, 2
  {
    var s := Space(b);
    if !StartsWith(s, QUOTE) then None
    else
      match String(s[1..])
      case None => None
      case Some(afterName) =>
        var t := Space(afterName);
        if !StartsWith(t, COLON) then None
        else
          match Value(t[1..])
          case None => None
          case Some(afterValue) =>
            var u := Space(afterValue);
            if StartsWith(u, COMMA) then Members(u[1..])
            else if StartsWith(u, 0x7D) then Some(u[1..])
            else None
  }

  /** Section 5, after the opening bracket: at least one element. */
  function Elements(b: Text): (r: Option<Text>)
    ensures r.Some? ==> |r.value| < |b|
    decreases |b|, 2
  {
    match Value(b)
    case None => None
    case Some(afterValue) =>
      var u := Space(afterValue);
      if StartsWith(u, COMMA) then Elements(u[1..])
      else if StartsWith(u, 0x5D) then Some(u[1..])
      else None
  }

  /** A JSON text is one value and nothing else. */
  predicate Legal(text: Text) { Value(text).Some? && Space(Value(text).value) == [] }
}

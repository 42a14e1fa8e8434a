/**
 Finding values in a JSON text and reading them. Where a value ends is for the grammar
 to say; a string's value is the UTF-16 text its inside spells (RFC 8259, section 7).
 */
module JsonReader {
  import opened Options
  import opened Utf
  import G = JsonGrammar

  type Text = G.Text

  /** A text in ASCII letters. */
  function Word(s: string): (b: Text)
    ensures |b| == |s|
  {
    seq(|s|, k requires 0 <= k < |s| => if s[k] <= '~' then (s[k] as int) as bv8 else 0)
  }

  // ----- finding ----------------------------------------------------------------

  /** A member's name as it stands between its quotes, and the text of its value. */
  datatype Member = Member(name: Text, value: Text)

  function Taken(b: Text, rest: Text): Text
    requires |rest| <= |b|
  {
    b[..|b| - |rest|]
  }

  /** The members of an object, after the opening brace. */
  function Members(b: Text): Option<seq<Member>>
    decreases |b|
  {
    var s := G.Space(b);
    if !G.StartsWith(s, G.QUOTE) || G.String(s[1..]).None? then None
    else
      var inside := s[1..];
      var afterName := G.String(inside).value;
      var colon := G.Space(afterName);
      if !G.StartsWith(colon, G.COLON) || G.Value(colon[1..]).None? then None
      else
        var afterValue := G.Value(colon[1..]).value;
        var member := Member(inside[..|inside| - |afterName| - 1], Taken(colon[1..], afterValue));
        var u := G.Space(afterValue);
        if G.StartsWith(u, G.COMMA) then WithMore(member, Members(u[1..]))
        else if G.StartsWith(u, 0x7D) then Some([member])
        else None
  }

  function WithMore(member: Member, more: Option<seq<Member>>): Option<seq<Member>> {
    if more.Some? then Some([member] + more.value) else None
  }

  /** All members of the object a text opens with. */
  function ObjectMembers(b: Text): Option<seq<Member>> {
    var s := G.Space(b);
    if !G.StartsWith(s, 0x7B) then None
    else if G.StartsWith(G.Space(s[1..]), 0x7D) then Some([])
    else Members(s[1..])
  }

  /** The text from the `k`-th element on, after the opening bracket. */
  function Elements(b: Text, k: nat): Option<Text>
    decreases k
  {
    if G.Value(b).None? then None
    else if k == 0 then Some(b)
    else
      var u := G.Space(G.Value(b).value);
      if G.StartsWith(u, G.COMMA) then Elements(u[1..], k - 1) else None
  }

  /** The text from the `k`-th element on of the array a text opens with. */
  function ArrayElement(b: Text, k: nat): Option<Text> {
    var s := G.Space(b);
    if G.StartsWith(s, 0x5B) then Elements(s[1..], k) else None
  }

  /** The value of the last member of a name, as the front end's parser takes it. */
  function Find(members: seq<Member>, name: Text): Option<Text> {
    if members == [] then None
    else
      var last := |members| - 1;
      if members[last].name == name then Some(members[last].value) else Find(members[..last], name)
  }

  /** The text of member `name` of element `k`. */
  function Field(b: Text, k: nat, name: Text): Option<Text> {
    var element := ArrayElement(b, k);
    if element.None? then None
    else
      var members := ObjectMembers(element.value);
      if members.Some? then Find(members.value, name) else None
  }

  /** Members are found exactly where the grammar has them. */
  lemma {:induction false} MembersByGrammar(b: Text)
    ensures Members(b).Some? <==> G.Members(b).Some?
    decreases |b|
  {
    hide G.Value, G.String, G.Space;
    var s := G.Space(b);
    if G.StartsWith(s, G.QUOTE) && G.String(s[1..]).Some? {
      var colon := G.Space(G.String(s[1..]).value);
      if G.StartsWith(colon, G.COLON) && G.Value(colon[1..]).Some? {
        var u := G.Space(G.Value(colon[1..]).value);
        if G.StartsWith(u, G.COMMA) {
          MembersByGrammar(u[1..]);
        }
      }
    }
  }

  // ----- reading ----------------------------------------------------------------

  predicate AllDigits(b: Text) { forall k | 0 <= k < |b| :: G.IsDigit(b[k]) }

  function Digit(c: bv8): nat
    requires G.IsDigit(c)
  {
    c as nat - 0x30
  }

  /** The number that decimal digits spell. */
  function Natural(digits: Text): nat
    requires AllDigits(digits)
  {
    if digits == [] then 0
    else 10 * Natural(digits[..|digits| - 1]) + Digit(digits[|digits| - 1])
  }

  function HexDigit(c: bv8): bv16 {
    if c <= 0x39 then (c & 0x0F) as bv16 else (c & 0x0F) as bv16 + 9
  }

  /** What a backslash and one letter stand for. */
  function Escaped(c: bv8): bv16 {
    if c == 0x62 then 0x08
    else if c == 0x66 then 0x0C
    else if c == 0x6E then 0x0A
    else if c == 0x72 then 0x0D
    else if c == 0x74 then 0x09
    else c as bv16
  }

  /** The text that the inside of a string spells: escapes resolved, the rest read as UTF-8. */
  function Spelled(b: Text): seq<bv16> {
    if b == [] then []
    else if b[0] == G.BACKSLASH && |b| >= 6 && b[1] == 0x75 then
      [(HexDigit(b[2]) << 12) | (HexDigit(b[3]) << 8) | (HexDigit(b[4]) << 4) | HexDigit(b[5])] + Spelled(b[6..])
    else if b[0] == G.BACKSLASH && |b| >= 2 then [Escaped(b[1])] + Spelled(b[2..])
    else Put16(Head8(b).value) + Spelled(b[Head8(b).len..])
  }

  /** The number a value text holds, if it is all digits. */
  function NumberIn(value: Text): Option<nat> {
    var v := G.Space(value);
    if v != [] && AllDigits(v) then Some(Natural(v)) else None
  }

  /** The text a value text holds, if it is a string. */
  function StringIn(value: Text): Option<seq<bv16>> {
    var v := G.Space(value);
    if |v| >= 2 && v[0] == G.QUOTE && G.String(v[1..]) == Some([]) then Some(Spelled(v[1..|v| - 1])) else None
  }

  function NumberAt(b: Text, k: nat, name: Text): Option<nat> {
    var value := Field(b, k, name);
    if value.Some? then NumberIn(value.value) else None
  }

  function StringAt(b: Text, k: nat, name: Text): Option<seq<bv16>> {
    var value := Field(b, k, name);
    if value.Some? then StringIn(value.value) else None
  }
}

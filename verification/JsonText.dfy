/** Reading JSON text, from the grammar of RFC 8259: literals, integers, strings with the escapes
    of section 7, arrays and objects, without white space between tokens. The members of an
    object are kept in the order in which they stand. */
module JsonText {
  import opened Wrappers

  datatype Json =
    | JsonNull
    | JsonBool(b: bool)
    | JsonNumber(n: int)
    | JsonString(s: string)
    | JsonArray(items: seq<Json>)
    | JsonObject(members: seq<Member>)

  datatype Member = Member(name: string, value: Json)

  // -------------------------------------------------------------- numbers

  predicate Digit(c: char) {
    '0' <= c <= '9'
  }

  /** How many digits a text begins with. */
  function DigitRun(s: string): (n: nat)
    ensures n <= |s| && forall i :: 0 <= i < n ==> Digit(s[i])
    ensures n < |s| ==> !Digit(s[n])
  {
    if s == "" || !Digit(s[0]) then 0 else 1 + DigitRun(s[1..])
  }

  /** The number that a string of digits denotes. */
  function NumberOf(s: string): nat
    requires forall i :: 0 <= i < |s| ==> Digit(s[i])
  {
    if s == "" then 0
    else
      var last := s[|s|-1];
      assert Digit(last);
      NumberOf(s[..|s|-1]) * 10 + (last as int - '0' as int)
  }

  /** Digits without a leading zero. */
  function ReadDigits(s: string): (r: Option<(int, string)>)
    ensures r.Some? ==> |r.value.1| < |s|
  {
    var n := if s != "" && s[0] == '0' then 1 else DigitRun(s);
    if n == 0 then None else Some((NumberOf(s[..n]), s[n..]))
  }

  /** An integer. A fraction or an exponent is left unread, so no text with one is read to its end. */
  function ReadNumber(s: string): (r: Option<(int, string)>)
    ensures r.Some? ==> |r.value.1| < |s|
  {
    if s != "" && s[0] == '-' then
      match ReadDigits(s[1..])
      case None => None
      case Some((n, rest)) => Some((-n, rest))
    else
      match ReadDigits(s)
      case None => None
      case Some((n, rest)) => Some((n, rest))
  }

  // -------------------------------------------------------------- strings

  function HexValue(c: char): (r: Option<nat>)
    ensures r.Some? ==> r.value < 16
  {
    if '0' <= c <= '9' then Some(c as int - '0' as int)
    else if 'a' <= c <= 'f' then Some(c as int - 'a' as int + 10)
    else if 'A' <= c <= 'F' then Some(c as int - 'A' as int + 10)
    else None
  }

  /** The four hexadecimal digits of a code unit. */
  function ReadUnit(s: string): (r: Option<nat>)
    ensures r.Some? ==> |s| >= 4 && r.value < 0x1_0000
  {
    if |s| < 4 then None
    else
      match (HexValue(s[0]), HexValue(s[1]), HexValue(s[2]), HexValue(s[3]))
      case (Some(a), Some(b), Some(c), Some(d)) => Some(a * 0x1000 + b * 0x100 + c * 0x10 + d)
      case _ => None
  }

  /** What follows the letter u: one code unit, or two for a character beyond 16 bits. */
  function ReadUnits(s: string): (r: Option<(char, string)>)
    ensures r.Some? ==> |r.value.1| + 4 <= |s|
  {
    match ReadUnit(s)
    case None => None
    case Some(unit) =>
      if unit < 0xD800 || 0xE000 <= unit then Some((unit as char, s[4..]))
      else if unit < 0xDC00 && "\\u" <= s[4..] then
        match ReadUnit(s[6..])
        case Some(low) =>
          if 0xDC00 <= low < 0xE000
          then Some(((0x1_0000 + (unit - 0xD800) * 0x400 + (low - 0xDC00)) as char, s[10..]))
          else None
        case None => None
      else None
  }

  /** One character of a string, escaped or not. */
  function ReadChar(s: string): (r: Option<(char, string)>)
    ensures r.Some? ==> |r.value.1| < |s|
  {
    if s == "" || s[0] == '"' || s[0] < ' ' then None
    else if s[0] != '\\' then Some((s[0], s[1..]))
    else if |s| == 1 then None
    else
      match s[1]
      case '"' => Some(('"', s[2..]))
      case '\\' => Some(('\\', s[2..]))
      case '/' => Some(('/', s[2..]))
      case 'b' => Some(('\U{8}', s[2..]))
      case 'f' => Some(('\U{C}', s[2..]))
      case 'n' => Some(('\n', s[2..]))
      case 'r' => Some(('\r', s[2..]))
      case 't' => Some(('\t', s[2..]))
      case 'u' => ReadUnits(s[2..])
      case _ => None
  }

  /** Characters up to the closing quotation mark. */
  function ReadChars(s: string): (r: Option<(string, string)>)
    ensures r.Some? ==> |r.value.1| < |s|
  {
    if s == "" then None
    else if s[0] == '"' then Some(("", s[1..]))
    else
      match ReadChar(s)
      case None => None
      case Some((c, later)) =>
        match ReadChars(later)
        case None => None
        case Some((text, rest)) => Some(([c] + text, rest))
  }

  function ReadString(s: string): (r: Option<(string, string)>)
    ensures r.Some? ==> |r.value.1| < |s|
  {
    if s == "" || s[0] != '"' then None else ReadChars(s[1..])
  }

  // --------------------------------------------------------------- values

  /** One value from the front of a text, and the rest. */
  function ReadValue(s: string): (r: Option<(Json, string)>)
    ensures r.Some? ==> |r.value.1| < |s|
    decreases |s|, 1
  {
    if s == "" then None
    else if "null" <= s then Some((JsonNull, s[4..]))
    else if "true" <= s then Some((JsonBool(true), s[4..]))
    else if "false" <= s then Some((JsonBool(false), s[5..]))
    else if s[0] == '"' then
      match ReadString(s)
      case None => None
      case Some((text, rest)) => Some((JsonString(text), rest))
    else if s[0] == '[' then
      if "[]" <= s then Some((JsonArray([]), s[2..]))
      else
        match ReadItems(s[1..])
        case None => None
        case Some((items, rest)) => Some((JsonArray(items), rest))
    else if s[0] == '{' then
      if "{}" <= s then Some((JsonObject([]), s[2..]))
      else
        match ReadMembers(s[1..])
        case None => None
        case Some((members, rest)) => Some((JsonObject(members), rest))
    else
      match ReadNumber(s)
      case None => None
      case Some((n, rest)) => Some((JsonNumber(n), rest))
  }

  /** One or more items and the closing bracket. */
  function ReadItems(s: string): (r: Option<(seq<Json>, string)>)
    ensures r.Some? ==> |r.value.1| < |s|
    decreases |s|, 2
  {
    match ReadValue(s)
    case None => None
    case Some((first, later)) =>
      if later == "" then None
      else if later[0] == ']' then Some(([first], later[1..]))
      else if later[0] == ',' then
        match ReadItems(later[1..])
        case None => None
        case Some((more, rest)) => Some(([first] + more, rest))
      else None
  }

  /** One or more members and the closing brace. */
  function ReadMembers(s: string): (r: Option<(seq<Member>, string)>)
    ensures r.Some? ==> |r.value.1| < |s|
    decreases |s|, 2
  {
    match ReadMember(s)
    case None => None
    case Some((first, later)) =>
      if later == "" then None
      else if later[0] == '}' then Some(([first], later[1..]))
      else if later[0] == ',' then
        match ReadMembers(later[1..])
        case None => None
        case Some((more, rest)) => Some(([first] + more, rest))
      else None
  }

  function ReadMember(s: string): (r: Option<(Member, string)>)
    ensures r.Some? ==> |r.value.1| < |s|
    decreases |s|, 1
  {
    match ReadString(s)
    case None => None
    case Some((name, later)) =>
      if later == "" || later[0] != ':' then None
      else
        match ReadValue(later[1..])
        case None => None
        case Some((value, rest)) => Some((Member(name, value), rest))
  }
}

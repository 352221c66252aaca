/** Canonical text is JSON text of the value: reading it, whatever follows, gives back the value
    and the rest, with the members of every object in ascending order. */
module CanonicalReading {
  import opened Canonical
  import opened Characters
  import opened JsonText
  import opened Orders
  import opened Wrappers

  /** What can follow a value without running into it: anything but a digit. */
  predicate Ends(rest: string) {
    rest == "" || !IsDigit(rest[0])
  }

  predicate NamesAscend(members: seq<Member>) {
    forall i, j :: 0 <= i < j < |members| ==>
      members[i].name != members[j].name && StringLeq(members[i].name, members[j].name)
  }

  predicate Named(members: seq<Member>, k: string) {
    exists i :: 0 <= i < |members| && members[i].name == k
  }

  /** What was read is this value: the same members, each once and in ascending order. */
  ghost predicate Denotes(t: Json, v: Value) {
    match t
    case JsonNull => v == Null
    case JsonBool(b) => v == Bool(b)
    case JsonNumber(n) => v.Int? && v.n == n
    case JsonString(s) => v == Str(s)
    case JsonArray(items) =>
      && v.Arr? && |items| == |v.items|
      && forall i :: 0 <= i < |items| ==> Denotes(items[i], v.items[i])
    case JsonObject(members) =>
      && v.Obj? && NamesAscend(members) && (forall k :: k in v.entries <==> Named(members, k))
      && forall i :: 0 <= i < |members| ==>
           members[i].name in v.entries && Denotes(members[i].value, v.entries[members[i].name])
  }

  /** At most one value is denoted. */
  lemma {:induction false} DenotesOne(t: Json, v: Value, w: Value)
    requires Denotes(t, v) && Denotes(t, w)
    ensures v == w
  {
    hide NamesAscend;
    match t
    case JsonArray(items) =>
      forall i | 0 <= i < |items| ensures v.items[i] == w.items[i] {
        DenotesOne(items[i], v.items[i], w.items[i]);
      }
    case JsonObject(members) =>
      forall k | k in v.entries ensures k in w.entries && v.entries[k] == w.entries[k] {
        var i :| 0 <= i < |members| && members[i].name == k;
        DenotesOne(members[i].value, v.entries[k], w.entries[k]);
      }
      assert forall k :: k in w.entries ==> k in v.entries;
      assert v.entries == w.entries;
    case _ =>
  }

  // -------------------------------------------------------------- numbers

  lemma {:induction false} DigitsDenote(n: nat)
    ensures NumberOf(Digits(n)) == n
    ensures n > 0 ==> Digits(n)[0] != '0'
    ensures n == 0 ==> Digits(n) == "0"
  {
    if n >= 10 {
      DigitsDenote(n / 10);
      assert Digits(n)[..|Digits(n)|-1] == Digits(n / 10);
      DigitChars(n % 10);
    } else {
      DigitChars(n);
      assert Digits(n)[..0] == "";
    }
  }

  lemma DigitChars(d: nat)
    requires d < 10
    ensures DIGITS[d] as int == '0' as int + d
  {
    assert d == 0 || d == 1 || d == 2 || d == 3 || d == 4 || d == 5 || d == 6 || d == 7 || d == 8 || d == 9;
  }

  /** A run of digits ends where the digits end. */
  lemma {:induction false} RunEnds(digits: string, rest: string)
    requires (forall i :: 0 <= i < |digits| ==> Digit(digits[i])) && Ends(rest)
    ensures DigitRun(digits + rest) == |digits|
  {
    if digits == "" {
      assert digits + rest == rest;
    } else {
      assert (digits + rest)[1..] == digits[1..] + rest;
      RunEnds(digits[1..], rest);
    }
  }

  lemma DigitsAreRead(n: nat, rest: string)
    requires Ends(rest)
    ensures ReadDigits(Digits(n) + rest) == Some((n, rest))
  {
    var s := Digits(n) + rest;
    DigitsDenote(n);
    RunEnds(Digits(n), rest);
    assert s[0] == Digits(n)[0] && s[..|Digits(n)|] == Digits(n) && s[|Digits(n)|..] == rest;
    hide Digits, NumberOf, DigitRun;
  }

  lemma DecimalIsRead(n: int, rest: string)
    requires Ends(rest)
    ensures ReadNumber(Decimal(n) + rest) == Some((n, rest))
  {
    hide ReadDigits, Digits;
    var digits := Digits(if n < 0 then -n else n);
    var s := Decimal(n) + rest;
    assert IsDigit(digits[0]);
    DigitsAreRead(if n < 0 then -n else n, rest);
    if n < 0 {
      assert s[0] == '-' && s[1..] == digits + rest;
    } else {
      assert s[0] == digits[0] && s == digits + rest;
    }
  }

  /** Numbers followed by anything but a digit can be read in one way only. */
  lemma DecimalsRead(m: int, n: int, x: string, y: string)
    requires Ends(x) && Ends(y) && Decimal(m) + x == Decimal(n) + y
    ensures m == n && x == y
  {
    DecimalIsRead(m, x);
    DecimalIsRead(n, y);
  }

  // -------------------------------------------------------------- strings

  lemma HexDigitIs(i: nat)
    requires i < 16
    ensures DIGITS[i] as int == if i < 10 then '0' as int + i else 'a' as int + i - 10
    ensures HexValue(DIGITS[i]) == Some(i)
  {
    if i < 10 {
      DigitChars(i);
    } else {
      assert i == 10 || i == 11 || i == 12 || i == 13 || i == 14 || i == 15;
    }
  }

  lemma HexDigitsDiffer(i: nat, j: nat)
    requires i < 16 && j < 16 && DIGITS[i] == DIGITS[j]
    ensures i == j
  {
    HexDigitIs(i);
    HexDigitIs(j);
  }

  lemma CharIsRead(c: char, rest: string)
    ensures ReadChar(Escape(c) + rest) == Some((c, rest))
  {
    var s := Escape(c) + rest;
    if |Escape(c)| == 6 {
      UnitIsRead(c, rest);
    } else {
      assert s[|Escape(c)|..] == rest && s[0] == Escape(c)[0] && (|Escape(c)| > 1 ==> s[1] == Escape(c)[1]);
    }
  }

  lemma UnitIsRead(c: char, rest: string)
    requires |Escape(c)| == 6
    ensures ReadChar(Escape(c) + rest) == Some((c, rest))
  {
    var s, code := Escape(c) + rest, c as int;
    HexDigitIs(code / 16);
    HexDigitIs(code % 16);
    assert s[0] == '\\' && s[1] == 'u' && s[2] == '0' && s[3] == '0';
    assert s[4] == DIGITS[code / 16] && s[5] == DIGITS[code % 16];
    var t := s[2..];
    assert t[0] == '0' && t[1] == '0' && t[2] == s[4] && t[3] == s[5] && t[4..] == rest;
    assert ReadUnit(t) == Some(code);
    hide ReadUnit, Escape;
  }

  lemma {:induction false} CharsAreRead(text: string, rest: string)
    ensures ReadChars(Escaped(text) + "\"" + rest) == Some((text, rest))
  {
    var s := Escaped(text) + "\"" + rest;
    hide Escape, ReadChar;
    if text == "" {
      assert s == "\"" + rest && s[1..] == rest;
    } else {
      var later := Escaped(text[1..]) + "\"" + rest;
      assert s == Escape(text[0]) + later;
      CharIsRead(text[0], later);
      assert s[0] != '"' by { NotAQuote(s); }
      CharsAreRead(text[1..], rest);
      assert [text[0]] + text[1..] == text;
    }
  }

  lemma NotAQuote(s: string)
    requires s != "" && ReadChar(s).Some?
    ensures s[0] != '"'
  {
  }

  lemma StringIsRead(text: string, rest: string)
    ensures Quoted(text) + rest != "" && (Quoted(text) + rest)[0] == '"'
    ensures ReadString(Quoted(text) + rest) == Some((text, rest))
  {
    hide Escaped, ReadChars;
    var s := Quoted(text) + rest;
    assert s[1..] == Escaped(text) + "\"" + rest;
    CharsAreRead(text, rest);
  }

  /** Quoted strings can be read in one way only, whatever follows. */
  lemma QuotedRead(s: string, t: string, x: string, y: string)
    requires Quoted(s) + x == Quoted(t) + y
    ensures s == t && x == y
  {
    StringIsRead(s, x);
    StringIsRead(t, y);
  }

  /** A character that stands for itself. */
  predicate Plain(c: char) {
    c >= ' ' && c != '"' && c != '\\'
  }

  /** A character with an escape of two characters. */
  predicate HasShortEscape(c: char) {
    c in "\"\\/\n\r\t" || c == '\U{8}' || c == '\U{C}'
  }

  /** How much of a text one character takes: one for a plain one, two for a short escape, and
      otherwise at least six. */
  lemma CharWidth(s: string)
    requires ReadChar(s).Some?
    ensures var c, width := ReadChar(s).value.0, |s| - |ReadChar(s).value.1|;
            (width == 1 && Plain(c)) || (width == 2 && HasShortEscape(c)) || width >= 6
  {
    hide ReadUnits;
  }

  lemma EscapeWidth(c: char)
    ensures |Escape(c)| == if Plain(c) then 1 else if HasShortEscape(c) then 2 else 6
    ensures |Escape(c)| == 6 ==> forall i :: 1 <= i < 6 ==> !('A' <= Escape(c)[i] <= 'Z')
  {
    if |Escape(c)| == 6 {
      HexDigitIs(c as int / 16);
      HexDigitIs(c as int % 16);
    }
  }

  /** Among all ways to write a character the writer's is the shortest, and its hexadecimal digits
      are in lower case. */
  lemma EscapesAreShortest(c: char, other: string, rest: string)
    requires ReadChar(other + rest) == Some((c, rest))
    ensures |Escape(c)| <= |other|
    ensures forall i :: 1 <= i < |Escape(c)| ==> !('A' <= Escape(c)[i] <= 'Z')
  {
    CharWidth(other + rest);
    EscapeWidth(c);
    if |Escape(c)| == 2 {
      assert Escape(c)[1] in "\"\\bfnrt";
    }
    hide ReadChar, Escape, HasShortEscape;
  }

  // --------------------------------------------------------------- values

  /** The first character tells the kinds of values apart. */
  predicate Starts(v: Value, c: char) {
    match v
    case Null => c == 'n'
    case Bool(b) => c == if b then 't' else 'f'
    case Int(_) => c == '-' || IsDigit(c)
    case Float => false
    case Str(_) => c == '"'
    case Arr(_) => c == '['
    case Obj(_) => c == '{'
  }

  lemma TextStarts(v: Value)
    requires FloatFree(v)
    ensures Text(v) != "" && Starts(v, Text(v)[0])
  {
    match v
    case Int(n) =>
      if n >= 0 {
        assert IsDigit(Digits(n)[0]);
      }
    case _ =>
  }

  ghost predicate IsRead(v: Value, rest: string) {
    var r := ReadValue(Text(v) + rest);
    r.Some? && r.value.1 == rest && Denotes(r.value.0, v)
  }

  /** The text of a value, whatever follows it, is JSON text of that value. */
  lemma {:induction false} TextIsRead(v: Value, rest: string)
    requires FloatFree(v) && Ends(rest)
    ensures IsRead(v, rest)
    decreases v, 2, 0
  {
    match v
    case Null => assert (Text(v) + rest)[..4] == "null" && (Text(v) + rest)[4..] == rest;
    case Bool(b) =>
      var n := |Text(v)|;
      assert (Text(v) + rest)[..n] == Text(v) && (Text(v) + rest)[n..] == rest && (Text(v) + rest)[0] == Text(v)[0];
    case Int(n) => NumberIsValue(n, rest);
    case Float =>
    case Str(s) => StringIsValue(s, rest);
    case Arr(_) => ArrayIsRead(v, rest);
    case Obj(_) => ObjectIsRead(v, rest);
  }

  lemma NumberIsValue(n: JsonInt, rest: string)
    requires Ends(rest)
    ensures IsRead(Int(n), rest)
  {
    DecimalIsRead(n, rest);
    TextStarts(Int(n));
    assert (Text(Int(n)) + rest)[0] == Text(Int(n))[0];
    hide ReadNumber, Decimal;
  }

  lemma StringIsValue(s: string, rest: string)
    ensures IsRead(Str(s), rest)
  {
    StringIsRead(s, rest);
    hide ReadString, Quoted;
  }

  // ---------------------------------------------------------------- arrays

  /** What stands behind an item: the closing bracket, or a comma and the next item. */
  lemma BehindItem(v: Value, i: nat, rest: string)
    requires v.Arr? && i < |v.items|
    ensures ItemsFrom(v, i + 1) + rest
            == if i + 1 == |v.items| then "]" + rest
               else "," + (Text(v.items[i+1]) + (ItemsFrom(v, i + 2) + rest))
  {
    hide Text;
    if i + 1 < |v.items| {
      var text, later := Text(v.items[i+1]), ItemsFrom(v, i + 2);
      assert "," + text + later + rest == "," + (text + (later + rest));
    }
  }

  ghost predicate ItemsRead(v: Value, i: nat, rest: string)
    requires v.Arr? && i < |v.items|
  {
    var r := ReadItems(Text(v.items[i]) + (ItemsFrom(v, i + 1) + rest));
    && r.Some? && r.value.1 == rest && |r.value.0| == |v.items| - i
    && forall k :: 0 <= k < |r.value.0| ==> Denotes(r.value.0[k], v.items[i+k])
  }

  lemma {:induction false} ItemsAreRead(v: Value, i: nat, rest: string)
    requires v.Arr? && FloatFree(v) && i < |v.items|
    ensures ItemsRead(v, i, rest)
    decreases v, 0, |v.items| - i
  {
    hide Text, ItemsFrom, ReadValue, Denotes;
    var item, behind := v.items[i], ItemsFrom(v, i + 1) + rest;
    BehindItem(v, i, rest);
    TextIsRead(item, behind);
    if i + 1 == |v.items| {
      assert behind[1..] == rest;
    } else {
      ItemsAreRead(v, i + 1, rest);
      assert behind[1..] == Text(v.items[i+1]) + (ItemsFrom(v, i + 2) + rest);
    }
  }

  lemma {:induction false} ArrayIsRead(v: Value, rest: string)
    requires v.Arr? && FloatFree(v)
    ensures IsRead(v, rest)
    decreases v, 1, 0
  {
    if v.items == [] {
      EmptyArrayIsRead(v, rest);
    } else {
      ItemsAreRead(v, 0, rest);
      FirstItem(v, rest);
      OpeningBracket(Text(v) + rest);
      hide ItemsFrom, ReadItems, ReadValue, Text, FloatFree;
    }
  }

  lemma EmptyText(text: string, open: string, close: string, rest: string)
    requires |open| == |close| == 1 && text == open + close
    ensures var s := text + rest; |s| >= 2 && open + close <= s && s[2..] == rest && s[0] == open[0]
  {
  }

  lemma EmptyArrayIsRead(v: Value, rest: string)
    requires v.Arr? && v.items == []
    ensures IsRead(v, rest)
  {
    assert ItemsFrom(v, 0) == "]";
    EmptyText(Text(v), "[", "]", rest);
    var s := Text(v) + rest;
    hide Text, ReadItems;
    assert ReadValue(s) == Some((JsonArray([]), rest));
  }

  lemma FirstItem(v: Value, rest: string)
    requires v.Arr? && v.items != [] && FloatFree(v)
    ensures var s := Text(v) + rest;
            && |s| > 1 && s[0] == '[' && s[1] != ']'
            && s[1..] == Text(v.items[0]) + (ItemsFrom(v, 1) + rest)
  {
    assert FloatFree(v.items[0]);
    OpenItem(v);
    hide Text, ItemsFrom, FloatFree;
    TextStarts(v.items[0]);
    Opened('[', Text(v.items[0]), ItemsFrom(v, 1), rest);
  }

  lemma Opened(bracket: char, first: string, later: string, rest: string)
    requires first != ""
    ensures var s := [bracket] + (first + later) + rest;
            |s| > 1 && s[0] == bracket && s[1] == first[0] && s[1..] == first + (later + rest)
  {
  }

  lemma OpenItem(v: Value)
    requires v.Arr? && v.items != []
    ensures Text(v) == "[" + (Text(v.items[0]) + ItemsFrom(v, 1))
  {
    assert "" + Text(v.items[0]) == Text(v.items[0]);
  }

  // --------------------------------------------------------------- objects

  /** Name, colon and value of the member at i. */
  function MemberText(v: Value, i: nat): string
    requires v.Obj? && i < |SortedKeys(v)|
  {
    var keys := SortedKeys(v);
    assert keys[i] in keys;
    Quoted(keys[i]) + ":" + Text(v.entries[keys[i]])
  }

  lemma BehindMember(v: Value, i: nat, rest: string)
    requires v.Obj? && i < |SortedKeys(v)|
    ensures EntriesFrom(v, i + 1) + rest
            == if i + 1 == |SortedKeys(v)| then "}" + rest
               else "," + (MemberText(v, i + 1) + (EntriesFrom(v, i + 2) + rest))
  {
    hide Text, SortedKeys, Quoted;
    if i + 1 < |SortedKeys(v)| {
      var k := SortedKeys(v)[i+1];
      assert k in SortedKeys(v);
      var name, text, later := Quoted(k), Text(v.entries[k]), EntriesFrom(v, i + 2);
      assert "," + name + ":" + text + later + rest == "," + (name + ":" + text + (later + rest));
    }
  }

  /** The members read are those of the keys from i on. */
  ghost predicate MembersRead(v: Value, i: nat, rest: string)
    requires v.Obj? && i < |SortedKeys(v)|
  {
    var r := ReadMembers(MemberText(v, i) + (EntriesFrom(v, i + 1) + rest));
    && r.Some? && r.value.1 == rest && |r.value.0| == |SortedKeys(v)| - i
    && forall k :: 0 <= k < |r.value.0| ==> MemberDenotes(r.value.0[k], v, SortedKeys(v)[i+k])
  }

  ghost predicate MemberDenotes(m: Member, v: Value, key: string)
    requires v.Obj?
  {
    m.name == key && key in v.entries && Denotes(m.value, v.entries[key])
  }

  lemma {:induction false} MemberIsRead(v: Value, i: nat, rest: string)
    requires v.Obj? && FloatFree(v) && i < |SortedKeys(v)| && Ends(rest)
    ensures var r := ReadMember(MemberText(v, i) + rest);
            r.Some? && r.value.1 == rest && MemberDenotes(r.value.0, v, SortedKeys(v)[i])
    decreases v, 0, 0
  {
    hide SortedKeys;
    var k := SortedKeys(v)[i];
    assert k in SortedKeys(v);
    hide Text, ReadValue, Quoted, ReadString, Denotes;
    var text := Text(v.entries[k]);
    assert MemberText(v, i) + rest == Quoted(k) + (":" + (text + rest));
    StringIsRead(k, ":" + (text + rest));
    assert (":" + (text + rest))[1..] == text + rest;
    TextIsRead(v.entries[k], rest);
  }

  lemma {:induction false} MembersAreRead(v: Value, i: nat, rest: string)
    requires v.Obj? && FloatFree(v) && i < |SortedKeys(v)|
    ensures MembersRead(v, i, rest)
    decreases v, 0, |SortedKeys(v)| - i
  {
    hide MemberText, EntriesFrom, ReadMember, MemberDenotes, SortedKeys;
    var behind := EntriesFrom(v, i + 1) + rest;
    BehindMember(v, i, rest);
    MemberIsRead(v, i, behind);
    if i + 1 == |SortedKeys(v)| {
      assert behind[1..] == rest;
    } else {
      MembersAreRead(v, i + 1, rest);
      assert behind[1..] == MemberText(v, i + 1) + (EntriesFrom(v, i + 2) + rest);
    }
  }

  lemma {:induction false} ObjectIsRead(v: Value, rest: string)
    requires v.Obj? && FloatFree(v)
    ensures IsRead(v, rest)
    decreases v, 1, 0
  {
    hide SortedKeys;
    if SortedKeys(v) == [] {
      EmptyIsRead(v, rest);
    } else {
      MembersAreRead(v, 0, rest);
      MembersMakeObject(v, rest);
    }
  }

  lemma OpeningBrace(s: string)
    requires |s| > 1 && s[0] == '{' && s[1] != '}' && ReadMembers(s[1..]).Some?
    ensures ReadValue(s) == Some((JsonObject(ReadMembers(s[1..]).value.0), ReadMembers(s[1..]).value.1))
  {
    hide ReadMembers, ReadItems, ReadString, ReadNumber;
  }

  lemma OpeningBracket(s: string)
    requires |s| > 1 && s[0] == '[' && s[1] != ']' && ReadItems(s[1..]).Some?
    ensures ReadValue(s) == Some((JsonArray(ReadItems(s[1..]).value.0), ReadItems(s[1..]).value.1))
  {
    hide ReadMembers, ReadItems, ReadString, ReadNumber;
  }

  lemma EmptyIsRead(v: Value, rest: string)
    requires v.Obj? && SortedKeys(v) == []
    ensures IsRead(v, rest)
  {
    hide SortedKeys;
    LastEntry(v);
    hide EntriesFrom;
    var s := Text(v) + rest;
    assert Text(v) == "{}";
    assert s == "{}" + rest && s[..2] == "{}" && s[2..] == rest && s[0] == '{';
    hide Text, ReadMembers;
    assert ReadValue(s) == Some((JsonObject([]), rest));
    assert forall k :: k in v.entries ==> k in SortedKeys(v);
    assert Denotes(JsonObject([]), v);
  }

  lemma MembersMakeObject(v: Value, rest: string)
    requires v.Obj? && SortedKeys(v) != [] && MembersRead(v, 0, rest)
    ensures IsRead(v, rest)
  {
    FirstMember(v, rest);
    OpeningBrace(Text(v) + rest);
    hide SortedKeys, EntriesFrom, ReadMembers, ReadValue, Text, MemberText, MemberDenotes, Denotes;
    MembersDenote(ReadMembers((Text(v) + rest)[1..]).value.0, v);
  }

  lemma FirstMember(v: Value, rest: string)
    requires v.Obj? && SortedKeys(v) != []
    ensures var s := Text(v) + rest;
            && |s| > 1 && s[0] == '{' && s[1] != '}'
            && s[1..] == MemberText(v, 0) + (EntriesFrom(v, 1) + rest)
  {
    OpenMember(v);
    hide SortedKeys, EntriesFrom, MemberText;
    Opened('{', MemberText(v, 0), EntriesFrom(v, 1), rest);
  }

  lemma OpenMember(v: Value)
    requires v.Obj? && SortedKeys(v) != []
    ensures EntriesFrom(v, 0) == MemberText(v, 0) + EntriesFrom(v, 1)
    ensures MemberText(v, 0) != "" && MemberText(v, 0)[0] == '"'
  {
    hide SortedKeys, Text, Escaped;
    var keys := SortedKeys(v);
    assert keys[0] in keys;
    var name, text, later := Quoted(keys[0]), Text(v.entries[keys[0]]), EntriesFrom(v, 1);
    assert "" + name == name;
    hide Quoted;
    assert EntriesFrom(v, 0) == "" + name + ":" + text + later;
  }

  lemma MembersDenote(members: seq<Member>, v: Value)
    requires v.Obj? && |members| == |SortedKeys(v)|
    requires forall i :: 0 <= i < |members| ==> MemberDenotes(members[i], v, SortedKeys(v)[i])
    ensures Denotes(JsonObject(members), v)
  {
    hide SortedKeys;
    var keys := SortedKeys(v);
    forall i, j | 0 <= i < j < |members|
      ensures members[i].name != members[j].name && StringLeq(members[i].name, members[j].name)
    {
      assert MemberDenotes(members[i], v, keys[i]) && MemberDenotes(members[j], v, keys[j]);
    }
    forall k ensures k in v.entries <==> Named(members, k) {
      if k in v.entries {
        assert k in keys;
        var i :| 0 <= i < |keys| && keys[i] == k;
        assert MemberDenotes(members[i], v, keys[i]);
      }
      if Named(members, k) {
        var i :| 0 <= i < |members| && members[i].name == k;
        assert MemberDenotes(members[i], v, keys[i]);
      }
    }
  }

  // ---------------------------------------------------------- main results

  /** The text of a value, whatever follows it, determines the value and the rest. */
  lemma TextReads(v: Value, w: Value, x: string, y: string)
    requires FloatFree(v) && FloatFree(w) && Ends(x) && Ends(y) && Text(v) + x == Text(w) + y
    ensures v == w && x == y
  {
    hide Text, FloatFree, ReadValue;
    TextIsRead(v, x);
    TextIsRead(w, y);
    DenotesOne(ReadValue(Text(v) + x).value.0, v, w);
  }

  /** The canonical writer is injective: values without floats that have the same text are the same. */
  lemma TextIsInjective(v: Value, w: Value)
    requires FloatFree(v) && FloatFree(w) && Text(v) == Text(w)
    ensures v == w
  {
    assert Text(v) + "" == Text(w) + "";
    TextReads(v, w, "", "");
  }
}

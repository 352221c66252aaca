/** The canonical writer: JSON text with sorted keys and without floats, from which the value
    can be read back in only one way. */
module Canonical {
  import opened Characters
  import opened Orders
  import opened Wrappers

  /** The integers a serialized number can hold: signed or unsigned 64 bits. */
  type JsonInt = n: int | -0x8000_0000_0000_0000 <= n <= 0xFFFF_FFFF_FFFF_FFFF

  datatype Value =
    | Null
    | Bool(b: bool)
    | Int(n: JsonInt)
    | Float
    | Str(s: string)
    | Arr(items: seq<Value>)
    | Obj(entries: map<string, Value>)

  datatype CanonicalError = FloatingPoint

  // ---------------------------------------------------------- characters

  const DIGITS := "0123456789abcdef"

  function Digits(n: nat): (r: string)
    ensures r != [] && forall i :: 0 <= i < |r| ==> IsDigit(r[i])
  {
    if n < 10 then [DIGITS[n]] else Digits(n / 10) + [DIGITS[n % 10]]
  }

  function Decimal(n: int): string {
    if n < 0 then "-" + Digits(-n) else Digits(n)
  }

  /** Escaping of one character inside a string: section 7 of RFC 8259, with the short forms
      where they exist and lower-case hexadecimal otherwise. */
  function Escape(c: char): (r: string)
    ensures r != []
  {
    if c == '"' then "\\\""
    else if c == '\\' then "\\\\"
    else if c == '\U{8}' then "\\b"
    else if c == '\U{C}' then "\\f"
    else if c == '\n' then "\\n"
    else if c == '\r' then "\\r"
    else if c == '\t' then "\\t"
    else if c < ' ' then "\\u00" + [DIGITS[c as int / 16], DIGITS[c as int % 16]]
    else [c]
  }

  function Escaped(s: string): string {
    if s == [] then "" else Escape(s[0]) + Escaped(s[1..])
  }

  function Quoted(s: string): string {
    "\"" + Escaped(s) + "\""
  }

  // ---------------------------------------------------------------- text

  predicate FloatFree(v: Value) {
    match v
    case Float => false
    case Arr(items) => forall i :: 0 <= i < |items| ==> FloatFree(items[i])
    case Obj(entries) => forall k :: k in entries ==> FloatFree(entries[k])
    case _ => true
  }

  function SortedKeys(v: Value): (keys: seq<string>)
    requires v.Obj?
    ensures forall k :: k in keys <==> k in v.entries
    ensures Sorted(keys, StringLeq) && NoDup(keys)
  {
    AscendingKeys(v.entries.Keys)
  }

  /** The canonical text of a value; floats have none. */
  function Text(v: Value): string
    decreases v
  {
    match v
    case Null => "null"
    case Bool(b) => if b then "true" else "false"
    case Int(n) => Decimal(n)
    case Float => ""
    case Str(s) => Quoted(s)
    case Arr(_) => "[" + ItemsFrom(v, 0)
    case Obj(_) => "{" + EntriesFrom(v, 0)
  }

  /** From the item at i to the closing bracket. */
  function ItemsFrom(v: Value, i: nat): string
    requires v.Arr? && i <= |v.items|
    decreases v, |v.items| - i
  {
    if i == |v.items| then "]"
    else (if i > 0 then "," else "") + Text(v.items[i]) + ItemsFrom(v, i + 1)
  }

  function EntriesFrom(v: Value, i: nat): string
    requires v.Obj? && i <= |SortedKeys(v)|
    decreases v, |SortedKeys(v)| - i
  {
    var keys := SortedKeys(v);
    if i == |keys| then "}"
    else
      assert keys[i] in keys;
      (if i > 0 then "," else "") + Quoted(keys[i]) + ":" + Text(v.entries[keys[i]]) + EntriesFrom(v, i + 1)
  }

  class Output {
    var text: string

    constructor ()
      ensures text == ""
    {
      text := "";
    }

    method Push(s: string)
      modifies this
      ensures text == old(text) + s
    {
      text := text + s;
    }

    /** Appends the canonical text of a value, or fails on its first float. */
    method WriteValue(v: Value) returns (r: Result<(), CanonicalError>)
      modifies this
      ensures FloatFree(v) ==> r == Success(()) && text == old(text) + Text(v)
      ensures !FloatFree(v) ==> r == Failure(FloatingPoint)
      decreases v
    {
      r := Success(());
      match v {
        case Null => Push("null");
        case Bool(b) => Push(if b then "true" else "false");
        case Int(n) => Push(Decimal(n));
        case Float => return Failure(FloatingPoint);
        case Str(s) => Push(Quoted(s));
        case Arr(items) => r := WriteItems(v);
        case Obj(entries) => r := WriteEntries(v);
      }
    }

    method WriteItems(v: Value) returns (r: Result<(), CanonicalError>)
      requires v.Arr?
      modifies this
      ensures FloatFree(v) ==> r == Success(()) && text == old(text) + Text(v)
      ensures !FloatFree(v) ==> r == Failure(FloatingPoint)
      decreases v, 1
    {
      Push("[");
      assert text + ItemsFrom(v, 0) == old(text) + Text(v);
      for i := 0 to |v.items|
        invariant text + ItemsFrom(v, i) == old(text) + Text(v)
        invariant forall j :: 0 <= j < i ==> FloatFree(v.items[j])
      {
        hide Text, ItemsFrom;
        r := WriteItem(v, i);
        if r.Failure? {
          return;
        }
      }
      Push("]");
      return Success(());
    }

    method WriteItem(v: Value, i: nat) returns (r: Result<(), CanonicalError>)
      requires v.Arr? && i < |v.items|
      modifies this
      ensures FloatFree(v.items[i]) ==> r == Success(()) && text + ItemsFrom(v, i + 1) == old(text) + ItemsFrom(v, i)
      ensures !FloatFree(v.items[i]) ==> r == Failure(FloatingPoint)
      decreases v, 0
    {
      hide Text;
      if i > 0 {
        Push(",");
      }
      r := WriteValue(v.items[i]);
      Regroup(old(text), if i > 0 then "," else "", Text(v.items[i]), ItemsFrom(v, i + 1));
    }

    method WriteEntries(v: Value) returns (r: Result<(), CanonicalError>)
      requires v.Obj?
      modifies this
      ensures FloatFree(v) ==> r == Success(()) && text == old(text) + Text(v)
      ensures !FloatFree(v) ==> r == Failure(FloatingPoint)
      decreases v, 1
    {
      hide SortedKeys, FloatFree, EntriesFree, Text, EntriesFrom;
      Push("{");
      var keys := SortedKeys(v);
      OpenEntries(old(text), v);
      EntriesFreeStep(v, 0);
      for i := 0 to |keys|
        invariant text + EntriesFrom(v, i) == old(text) + Text(v)
        invariant EntriesFree(v, i)
      {
        EntriesFreeStep(v, i);
        r := WriteEntry(v, keys, i);
        if r.Failure? {
          return;
        }
      }
      LastEntry(v);
      Push("}");
      return Success(());
    }

    method WriteEntry(v: Value, keys: seq<string>, i: nat) returns (r: Result<(), CanonicalError>)
      requires v.Obj? && keys == SortedKeys(v) && i < |keys| && keys[i] in v.entries
      modifies this
      ensures FloatFree(v.entries[keys[i]]) ==>
                r == Success(()) && text + EntriesFrom(v, i + 1) == old(text) + EntriesFrom(v, i)
      ensures !FloatFree(v.entries[keys[i]]) ==> r == Failure(FloatingPoint)
      decreases v, 0
    {
      hide Text, SortedKeys;
      if i > 0 {
        Push(",");
      }
      Push(Quoted(keys[i]));
      Push(":");
      r := WriteValue(v.entries[keys[i]]);
      RegroupEntry(old(text), if i > 0 then "," else "", Quoted(keys[i]), Text(v.entries[keys[i]]),
                   EntriesFrom(v, i + 1));
    }
  }

  ghost predicate EntriesFree(v: Value, i: nat)
    requires v.Obj?
  {
    forall j :: 0 <= j < i < |SortedKeys(v)| + 1 ==>
             SortedKeys(v)[j] in v.entries && FloatFree(v.entries[SortedKeys(v)[j]])
  }

  /** One more entry without floats; a float in any entry is a float in the object. */
  lemma EntriesFreeStep(v: Value, i: nat)
    requires v.Obj? && i <= |SortedKeys(v)|
    ensures EntriesFree(v, 0)
    ensures i < |SortedKeys(v)| ==> SortedKeys(v)[i] in v.entries
    ensures i < |SortedKeys(v)| && EntriesFree(v, i) && FloatFree(v.entries[SortedKeys(v)[i]]) ==> EntriesFree(v, i + 1)
    ensures i < |SortedKeys(v)| && !FloatFree(v.entries[SortedKeys(v)[i]]) ==> !FloatFree(v)
  {
    hide SortedKeys;
    if i < |SortedKeys(v)| {
      assert SortedKeys(v)[i] in SortedKeys(v);
    }
  }

  lemma OpenEntries(before: string, v: Value)
    requires v.Obj?
    ensures before + "{" + EntriesFrom(v, 0) == before + Text(v)
  {
    hide EntriesFrom;
    assert before + "{" + EntriesFrom(v, 0) == before + ("{" + EntriesFrom(v, 0));
  }

  lemma LastEntry(v: Value)
    requires v.Obj?
    ensures EntriesFrom(v, |SortedKeys(v)|) == "}"
    ensures EntriesFree(v, |SortedKeys(v)|) ==> FloatFree(v)
  {
    hide SortedKeys;
    assert forall k :: k in v.entries ==> k in SortedKeys(v);
  }

  lemma Regroup(a: string, b: string, c: string, d: string)
    ensures (a + b + c) + d == a + (b + c + d)
    ensures b == "" ==> a + b + c == a + c
  {
  }

  lemma RegroupEntry(a: string, b: string, c: string, d: string, e: string)
    ensures (a + b + c + ":" + d) + e == a + (b + c + ":" + d + e)
    ensures b == "" ==> a + b == a
  {
  }

  /** The bytes that are hashed. */
  method CanonicalJson(v: Value) returns (r: Result<string, CanonicalError>)
    ensures r == if FloatFree(v) then Success(Text(v)) else Failure(FloatingPoint)
  {
    var output := new Output();
    var written := output.WriteValue(v);
    if written.Failure? {
      return Failure(written.error);
    }
    assert output.text == Text(v);
    return Success(output.text);
  }
}

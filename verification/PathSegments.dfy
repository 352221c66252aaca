/** Paths and scopes read by their segments and characters, without the functions that split
    and cut them. */
module PathSegments {
  import opened Actions
  import opened Canonical
  import opened CanonicalReading
  import opened Characters
  import Scopes
  import StoreModel
  import opened Wrappers

  // ------------------------------------------------------------ segments

  /** s[i..j] is a segment: it has no separator and one, or an end of s, on either side. */
  ghost predicate Segment(s: string, c: char, i: nat, j: nat) {
    && i <= j <= |s| && c !in s[i..j]
    && (i == 0 || s[i-1] == c) && (j == |s| || s[j] == c)
  }

  ghost predicate FirstSegment(s: string, c: char, part: string) {
    exists j: nat :: Segment(s, c, 0, j) && s[0..j] == part
  }

  ghost predicate LaterSegment(s: string, c: char, part: string) {
    exists i: nat, j: nat :: i > 0 && Segment(s, c, i, j) && s[i..j] == part
  }

  ghost predicate HasSegment(s: string, c: char, part: string) {
    exists i: nat, j: nat :: Segment(s, c, i, j) && s[i..j] == part
  }

  lemma SegmentShift(x: char, t: string, c: char, i: nat, j: nat)
    requires i <= j <= |t|
    ensures var s := [x] + t;
            && s[i+1..j+1] == t[i..j]
            && (Segment(s, c, i + 1, j + 1) <==> Segment(t, c, i, j) && (i == 0 ==> x == c))
            && (x != c ==> (Segment(s, c, 0, j + 1) <==> Segment(t, c, 0, j)) && s[0..j+1] == [x] + t[0..j])
  {
    var s := [x] + t;
    assert s[i+1..j+1] == t[i..j];
    assert s[0..j+1] == [x] + t[0..j];
  }

  /** The first segment of a longer string. */
  lemma FirstShift(x: char, t: string, c: char, part: string)
    ensures FirstSegment([x] + t, c, part) <==>
              if x == c then part == "" else part != "" && part[0] == x && FirstSegment(t, c, part[1..])
  {
    var s := [x] + t;
    if j: nat :| Segment(s, c, 0, j) && s[0..j] == part {
      if x == c {
        assert s[0] == c;
      } else {
        assert j > 0;
        SegmentShift(x, t, c, 0, j - 1);
        assert t[0..j-1] == part[1..];
      }
    }
    if x == c && part == "" {
      assert Segment(s, c, 0, 0) && s[0..0] == part;
    }
    if x != c && part != "" && part[0] == x && FirstSegment(t, c, part[1..]) {
      var j: nat :| Segment(t, c, 0, j) && t[0..j] == part[1..];
      SegmentShift(x, t, c, 0, j);
      assert s[0..j+1] == part;
    }
  }

  lemma LaterShift(x: char, t: string, c: char, part: string)
    ensures LaterSegment([x] + t, c, part) <==> LaterSegment(t, c, part) || (x == c && FirstSegment(t, c, part))
  {
    var s := [x] + t;
    if i: nat, j: nat :| i > 0 && Segment(s, c, i, j) && s[i..j] == part {
      SegmentShift(x, t, c, i - 1, j - 1);
      assert Segment(t, c, i - 1, j - 1) && t[i-1..j-1] == part;
    }
    if i: nat, j: nat :| i > 0 && Segment(t, c, i, j) && t[i..j] == part {
      SegmentShift(x, t, c, i, j);
      assert Segment(s, c, i + 1, j + 1) && s[i+1..j+1] == part;
    }
    if x == c && FirstSegment(t, c, part) {
      var j: nat :| Segment(t, c, 0, j) && t[0..j] == part;
      SegmentShift(x, t, c, 0, j);
      assert Segment(s, c, 1, j + 1) && s[1..j+1] == part;
    }
  }

  /** The parts of a string are its segments. */
  lemma {:induction false} PartsAreSegments(s: string, c: char, part: string)
    ensures part == Split(s, c)[0] <==> FirstSegment(s, c, part)
    ensures part in Split(s, c)[1..] <==> LaterSegment(s, c, part)
  {
    if s == "" {
      assert Segment(s, c, 0, 0);
    } else {
      hide Segment, FirstSegment, LaterSegment;
      var x, t := s[0], s[1..];
      assert s == [x] + t;
      PartsAreSegments(t, c, part);
      FirstShift(x, t, c, part);
      LaterShift(x, t, c, part);
      if part != "" {
        PartsAreSegments(t, c, part[1..]);
      }
      var rest := Split(t, c);
      assert Split(s, c)[1..] == if x == c then rest else rest[1..];
      assert rest == [rest[0]] + rest[1..];
      assert part != "" ==> part == [part[0]] + part[1..];
    }
  }

  lemma SegmentsAreParts(s: string, c: char, part: string)
    ensures HasSegment(s, c, part) <==> part in Split(s, c)
  {
    PartsAreSegments(s, c, part);
    var parts := Split(s, c);
    assert parts == [parts[0]] + parts[1..];
    assert HasSegment(s, c, part) <==> FirstSegment(s, c, part) || LaterSegment(s, c, part);
  }

  // --------------------------------------------------------------- paths

  predicate Reserved(part: string) {
    part == "" || part == "." || part == ".." || part == ".git"
  }

  predicate Plain(c: char) {
    c != '\\' && c >= ' ' && c != '\U{7F}'
  }

  ghost predicate NoneReserved(v: string) {
    forall part :: HasSegment(v, '/', part) ==> !Reserved(part)
  }

  predicate AllPlain(v: string) {
    forall i :: 0 <= i < |v| ==> Plain(v[i])
  }

  /** A relative path is accepted exactly when it is short enough, holds neither a back-slash nor
      a control character, and no segment of it is empty, ".", ".." or ".git". */
  lemma ValidPathMeaning(v: string)
    ensures ValidPath(v) <==> ByteLength(v) <= 4096 && AllPlain(v) && NoneReserved(v)
  {
    PlainCharacters(v);
    hide ByteLength, Segment, HasSegment, Split, Reserved, AllPlain, NoneReserved;
    if NoneReserved(v) {
      NoReservedPart(v);
      NoEmptyEnds(v);
    } else {
      SomeReservedPart(v);
    }
  }

  lemma NoEmptyEnds(v: string)
    requires NoneReserved(v)
    ensures v != "" && v[0] != '/' && v[|v|-1] != '/'
  {
    hide HasSegment;
    assert Reserved("");
    EndsAreSegments(v);
  }

  lemma NoReservedPart(v: string)
    requires NoneReserved(v)
    ensures var parts := Split(v, '/'); forall i :: 0 <= i < |parts| ==>
              parts[i] != "" && parts[i] != "." && parts[i] != ".." && parts[i] != ".git"
  {
    hide HasSegment, Split;
    var parts := Split(v, '/');
    forall i | 0 <= i < |parts| ensures !Reserved(parts[i]) {
      assert parts[i] in parts;
      SegmentsAreParts(v, '/', parts[i]);
    }
  }

  lemma SomeReservedPart(v: string)
    requires !NoneReserved(v)
    ensures var parts := Split(v, '/');
            !forall i :: 0 <= i < |parts| ==>
              parts[i] != "" && parts[i] != "." && parts[i] != ".." && parts[i] != ".git"
  {
    hide HasSegment, Split;
    var parts := Split(v, '/');
    var part :| HasSegment(v, '/', part) && Reserved(part);
    SegmentsAreParts(v, '/', part);
    var i :| 0 <= i < |parts| && parts[i] == part;
    assert !(parts[i] != "" && parts[i] != "." && parts[i] != ".." && parts[i] != ".git");
  }

  lemma PlainCharacters(v: string)
    ensures AllPlain(v) <==> '\\' !in v && forall i :: 0 <= i < |v| ==> !AsciiControl(v[i])
    ensures AllPlain(v) ==> '\0' !in v
  {
  }

  lemma EndsAreSegments(v: string)
    ensures v == "" || v[0] == '/' || v[|v|-1] == '/' ==> HasSegment(v, '/', "")
  {
    if v == "" || v[0] == '/' {
      assert Segment(v, '/', 0, 0) && v[0..0] == "";
    } else if v[|v|-1] == '/' {
      assert Segment(v, '/', |v|, |v|) && v[|v|..|v|] == "";
    }
  }

  /** Where a path leads when it is followed from a directory: ".." goes up, as long as that is
      possible, "." and an empty segment stay. */
  function Follow(directory: seq<string>, parts: seq<string>): seq<string>
    decreases |parts|
  {
    if parts == [] then directory
    else
      var next := if parts[0] == "" || parts[0] == "." then directory
                  else if parts[0] == ".." then if directory == [] then [] else directory[..|directory|-1]
                  else directory + [parts[0]];
      Follow(next, parts[1..])
  }

  lemma {:induction false} PlainPartsDescend(directory: seq<string>, parts: seq<string>)
    requires forall p :: p in parts ==> !Reserved(p)
    ensures Follow(directory, parts) == directory + parts
    decreases |parts|
  {
    if parts == [] {
    } else {
      assert parts[0] in parts && forall p :: p in parts[1..] ==> p in parts;
      PlainPartsDescend(directory + [parts[0]], parts[1..]);
      assert directory + [parts[0]] + parts[1..] == directory + parts;
    }
  }

  /** So an accepted path, followed from any directory, stays below it and never meets ".git". */
  lemma ValidPathDescends(v: string, directory: seq<string>)
    requires ValidPath(v)
    ensures Follow(directory, Split(v, '/')) == directory + Split(v, '/')
    ensures ".git" !in Split(v, '/')
  {
    PlainPartsDescend(directory, Split(v, '/'));
  }

  /** A repository root is accepted exactly when it is bounded text that begins with a separator
      and has no segment "..". */
  lemma RepoRootMeaning(v: string)
    ensures StoreModel.RepoRoot(v) <==>
              StoreModel.BoundedText(v, 4096) && v[0] == '/' && !HasSegment(v, '/', "..")
  {
    hide StoreModel.BoundedText, StoreModel.ParentAt, HasSegment;
    TextIsNotEmpty(v);
    if v != "" && v[0] == '/' {
      DotsAreSegment(v);
    }
  }

  lemma TextIsNotEmpty(v: string)
    ensures StoreModel.BoundedText(v, 4096) ==> v != ""
  {
  }

  lemma DotsAreSegment(v: string)
    requires v != "" && v[0] == '/'
    ensures HasSegment(v, '/', "..") <==> exists i :: 0 <= i < |v| && StoreModel.ParentAt(v, i)
  {
    if i :| 0 <= i < |v| && StoreModel.ParentAt(v, i) {
      assert v[i+1..i+3] == "..";
      assert Segment(v, '/', i + 1, i + 3);
    }
    if i: nat, j: nat :| Segment(v, '/', i, j) && v[i..j] == ".." {
      assert v[i] == v[i..j][0] && v[i+1] == v[i..j][1];
      assert StoreModel.ParentAt(v, i - 1);
    }
  }

  // ---------------------------------------------------------------- hosts

  lemma DecimalDigit(k: nat)
    requires k < 10
    ensures DIGITS[k] == '0' + k as char && IsDigit(DIGITS[k])
  {
    HexDigitIs(k);
  }

  lemma OneDigit(n: nat)
    requires n < 10
    ensures Digits(n) == [DIGITS[n]]
  {
  }

  lemma TwoDigits(n: nat)
    requires 10 <= n < 100
    ensures Digits(n) == [DIGITS[n / 10], DIGITS[n % 10]]
  {
    OneDigit(n / 10);
  }

  lemma ThreeDigits(n: nat)
    requires 100 <= n < 1000
    ensures Digits(n) == [DIGITS[n / 100], DIGITS[n / 10 % 10], DIGITS[n % 10]]
  {
    TwoDigits(n / 10);
    assert n / 10 / 10 == n / 100;
  }

  lemma OctetOf(a: nat, b: nat, c: nat)
    requires a < 10 && b < 10 && c < 10 && 100 * a + 10 * b + c < 256
    ensures a > 0 ==> Octet([DIGITS[a], DIGITS[b], DIGITS[c]])
    ensures b > 0 ==> Octet([DIGITS[b], DIGITS[c]])
    ensures Octet([DIGITS[c]])
  {
    DecimalDigit(a);
    DecimalDigit(b);
    DecimalDigit(c);
  }

  /** The decimal form of a number below 256. */
  lemma ShortDecimal(n: nat)
    requires n < 256
    ensures Octet(Decimal(n))
  {
    hide Octet, Digits;
    var a, b, c := n / 100, n / 10 % 10, n % 10;
    assert n == 100 * a + 10 * b + c;
    OctetOf(a, b, c);
    if n < 10 {
      OneDigit(n);
    } else if n < 100 {
      TwoDigits(n);
    } else {
      ThreeDigits(n);
    }
  }

  lemma Tens(x: nat, y: nat)
    requires y < 10
    ensures (x * 10 + y) / 10 == x && (x * 10 + y) % 10 == y
  {
  }

  function DigitOf(c: char): nat
    requires IsDigit(c)
  {
    c as int - '0' as int
  }

  lemma DigitIsRead(c: char)
    requires IsDigit(c)
    ensures DigitOf(c) < 10 && DIGITS[DigitOf(c)] == c
  {
    DecimalDigit(DigitOf(c));
  }

  lemma DigitBehind(w: nat, z: nat)
    requires w > 0 && z < 10
    ensures Digits(w * 10 + z) == Digits(w) + [DIGITS[z]]
  {
    Tens(w, z);
  }

  lemma OctetIsDecimal(v: string) returns (n: nat)
    requires Octet(v)
    ensures n < 256 && v == Decimal(n)
  {
    hide Digits;
    if |v| == 1 {
      n := DigitOf(v[0]);
      DigitIsRead(v[0]);
      OneDigit(n);
    } else if |v| == 2 {
      n := DigitOf(v[0]) * 10 + DigitOf(v[1]);
      DigitIsRead(v[0]);
      DigitIsRead(v[1]);
      OneDigit(DigitOf(v[0]));
      DigitBehind(DigitOf(v[0]), DigitOf(v[1]));
    } else {
      n := (DigitOf(v[0]) * 10 + DigitOf(v[1])) * 10 + DigitOf(v[2]);
      DigitIsRead(v[0]);
      DigitIsRead(v[1]);
      DigitIsRead(v[2]);
      OneDigit(DigitOf(v[0]));
      DigitBehind(DigitOf(v[0]), DigitOf(v[1]));
      DigitBehind(DigitOf(v[0]) * 10 + DigitOf(v[1]), DigitOf(v[2]));
    }
  }

  /** A label of an IPv4 address is the decimal form of a number below 256. */
  lemma OctetMeaning(v: string)
    ensures Octet(v) <==> exists n :: 0 <= n < 256 && v == Decimal(n)
  {
    if Octet(v) {
      var n := OctetIsDecimal(v);
    } else if n :| 0 <= n < 256 && v == Decimal(n) {
      ShortDecimal(n);
    }
  }

  function Dotted(a: nat, b: nat, c: nat, d: nat): string {
    Decimal(a) + "." + (Decimal(b) + "." + (Decimal(c) + "." + Decimal(d)))
  }

  ghost predicate IsAddress(host: string) {
    exists a, b, c, d :: 0 <= a < 256 && 0 <= b < 256 && 0 <= c < 256 && 0 <= d < 256 && host == Dotted(a, b, c, d)
  }

  lemma {:induction false} SplitFirst(part: string, c: char, rest: string)
    requires c !in part
    ensures Split(part + [c] + rest, c) == [part] + Split(rest, c)
  {
    var s := part + [c] + rest;
    if part == "" {
      assert s[1..] == rest;
    } else {
      SplitFirst(part[1..], c, rest);
      assert s[1..] == part[1..] + [c] + rest;
      assert [part[0]] + part[1..] == part;
    }
  }

  lemma {:induction false} SplitNothing(part: string, c: char)
    requires c !in part
    ensures Split(part, c) == [part]
  {
    if part == "" {
    } else {
      SplitNothing(part[1..], c);
      assert [part[0]] + part[1..] == part;
    }
  }

  lemma DottedLabels(a: nat, b: nat, c: nat, d: nat)
    ensures Split(Dotted(a, b, c, d), '.') == [Decimal(a), Decimal(b), Decimal(c), Decimal(d)]
  {
    hide Split, Decimal;
    NoDot(a);
    NoDot(b);
    NoDot(c);
    NoDot(d);
    SplitNothing(Decimal(d), '.');
    SplitFirst(Decimal(c), '.', Decimal(d));
    SplitFirst(Decimal(b), '.', Decimal(c) + "." + Decimal(d));
    SplitFirst(Decimal(a), '.', Decimal(b) + "." + (Decimal(c) + "." + Decimal(d)));
  }

  lemma NoDot(n: nat)
    ensures '.' !in Decimal(n)
  {
  }

  /** Four labels are those of an address exactly when the host is four numbers below 256. */
  lemma AddressMeaning(host: string)
    ensures Ipv4(Split(host, '.')) <==> IsAddress(host)
  {
    hide Split, Octet, Decimal;
    var labels := Split(host, '.');
    if Ipv4(labels) {
      var a := OctetIsDecimal(labels[0]);
      var b := OctetIsDecimal(labels[1]);
      var c := OctetIsDecimal(labels[2]);
      var d := OctetIsDecimal(labels[3]);
      SplitJoins(host, '.');
      FourJoined(labels);
      assert host == Dotted(a, b, c, d);
    }
    if IsAddress(host) {
      var a, b, c, d :| 0 <= a < 256 && 0 <= b < 256 && 0 <= c < 256 && 0 <= d < 256 && host == Dotted(a, b, c, d);
      DottedLabels(a, b, c, d);
      ShortDecimal(a);
      ShortDecimal(b);
      ShortDecimal(c);
      ShortDecimal(d);
    }
  }

  lemma FourJoined(labels: seq<string>)
    requires |labels| == 4
    ensures Join(labels, '.') == labels[0] + "." + (labels[1] + "." + (labels[2] + "." + labels[3]))
  {
    assert labels[1..][1..] == labels[2..] && labels[2..][1..] == labels[3..];
    assert Join(labels[3..], '.') == labels[3];
    assert Join(labels[2..], '.') == labels[2] + "." + labels[3];
    assert Join(labels[1..], '.') == labels[1] + "." + (labels[2] + "." + labels[3]);
  }

  /** A destination is accepted exactly when it is an https URL with a port whose host is a name of
      at least two labels, not an address, and whose path is printable and without a query. */
  lemma DestinationMeaning(d: Destination)
    ensures ValidDestination(d) <==>
              && d.scheme == "https" && d.port > 0 && |d.host| <= 253
              && '.' in d.host && (forall part :: HasSegment(d.host, '.', part) ==> HostLabel(part))
              && !IsAddress(d.host)
              && "/" <= d.path && |d.path| <= 4096
              && forall i :: 0 <= i < |d.path| ==> ' ' <= d.path[i] <= '~' && d.path[i] != '?' && d.path[i] != '#'
  {
    hide HasSegment, HostLabel, Split, Ipv4, IsAddress;
    AddressMeaning(d.host);
    var labels := Split(d.host, '.');
    forall part ensures HasSegment(d.host, '.', part) <==> part in labels {
      SegmentsAreParts(d.host, '.', part);
    }
    assert (forall i :: 0 <= i < |labels| ==> HostLabel(labels[i]))
        <==> forall part :: part in labels ==> HostLabel(part);
  }
}

/** Classes of characters and the textual form of a SHA-256 digest. */
module Characters {
  predicate IsDigit(c: char) {
    '0' <= c <= '9'
  }

  predicate Alphanumeric(c: char) {
    IsDigit(c) || 'a' <= c <= 'z' || 'A' <= c <= 'Z'
  }

  predicate LowerHex(c: char) {
    IsDigit(c) || 'a' <= c <= 'f'
  }

  predicate AsciiControl(c: char) {
    c < ' ' || c == '\U{7F}'
  }

  predicate Sha256Text(v: string) {
    |v| == 71 && v[..7] == "sha256:" && forall i :: 7 <= i < 71 ==> LowerHex(v[i])
  }
}

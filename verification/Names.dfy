/** Federation server names (`crates/federation/src/attestation.rs`). */
module Names {

  const MAX_SERVER_LEN := 253

  predicate Alnum(c: char) {
    'a' <= c <= 'z' || '0' <= c <= '9'
  }

  predicate NameChars(name: string) {
    |name| == 0 || ((Alnum(name[0]) || name[0] in "-_.") && NameChars(name[1..]))
  }

  /** Lowercase letters, digits and `-_.`, with a letter or digit at both ends. */
  predicate ValidServerName(name: string) {
    0 < |name| <= MAX_SERVER_LEN && NameChars(name) && Alnum(name[0]) && Alnum(name[|name| - 1])
  }
}

/** Strings as the Rust standard library sees them: byte length, byte order and the identifier alphabets. */
module Text {

  const U64_MAX := 0xFFFF_FFFF_FFFF_FFFF

  /** Unix seconds and operation numbers are 64-bit unsigned in the source. */
  type u64 = n: int | 0 <= n <= U64_MAX

  newtype byte = n: int | 0 <= n < 0x100

  /** The parts with a separator between them. */
  function Joined(separator: string, parts: seq<string>): string {
    if parts == [] then ""
    else if |parts| == 1 then parts[0]
    else parts[0] + separator + Joined(separator, parts[1..])
  }

  /** Upper case of the ASCII letters. */
  function Upper(s: string): string {
    seq(|s|, i requires 0 <= i < |s| => if 'a' <= s[i] <= 'z' then ((s[i] as int) - 32) as char else s[i])
  }

  /** Bytes of one character in UTF-8. */
  function CharBytes(c: char): nat {
    var code := c as int;
    if code < 0x80 then 1 else if code < 0x800 then 2 else if code < 0x1_0000 then 3 else 4
  }

  /** The byte length that `str::len` reports. */
  function Bytes(s: string): nat {
    if s == "" then 0 else CharBytes(s[0]) + Bytes(s[1..])
  }

  predicate Digit(c: char) { '0' <= c <= '9' }

  predicate LowerHex(c: char) { Digit(c) || 'a' <= c <= 'f' }

  predicate Alphanumeric(c: char) { Digit(c) || 'a' <= c <= 'z' || 'A' <= c <= 'Z' }

  /** Unicode category Cc, which `char::is_control` tests. */
  predicate Control(c: char) {
    var code := c as int;
    code < 0x20 || 0x7f <= code <= 0x9f
  }

  /** A SHA-256 digest in lower-case hexadecimal. */
  predicate DigestValid(s: string) {
    |s| == 64 && forall i | 0 <= i < |s| :: LowerHex(s[i])
  }

  /** Client and scope identifiers. */
  predicate IdValid(s: string) {
    0 < |s| <= 128 && forall i | 0 <= i < |s| :: Alphanumeric(s[i]) || s[i] in "-_."
  }

  /** Installed app identifiers: lower-case words joined by single hyphens. */
  predicate AppIdValid(s: string) {
    && s != ""
    && s[0] != '-' && s[|s| - 1] != '-'
    && (forall i | 0 <= i < |s| - 1 :: !(s[i] == '-' && s[i + 1] == '-'))
    && forall i | 0 <= i < |s| :: Digit(s[i]) || 'a' <= s[i] <= 'z' || s[i] == '-'
  }

  /** Strict byte order of strings; on Unicode scalar values it is the order of code points. */
  predicate Below(a: string, b: string) {
    b != "" && (a == "" || a[0] < b[0] || (a[0] == b[0] && Below(a[1..], b[1..])))
  }

  lemma BelowIrreflexive(a: string)
    ensures !Below(a, a)
  {
  }

  lemma {:induction false} BelowTransitive(a: string, b: string, c: string)
    requires Below(a, b) && Below(b, c)
    ensures Below(a, c)
  {
    if a != "" && a[0] == b[0] && b[0] == c[0] {
      BelowTransitive(a[1..], b[1..], c[1..]);
    }
  }

  lemma {:induction false} BelowTotal(a: string, b: string)
    ensures a == b || Below(a, b) || Below(b, a)
  {
    if a != "" && b != "" && a[0] == b[0] {
      BelowTotal(a[1..], b[1..]);
      assert a == [a[0]] + a[1..] && b == [b[0]] + b[1..];
    }
  }

  /** A proper prefix comes first. */
  lemma {:induction false} PrefixBelow(a: string, b: string)
    requires a < b
    ensures Below(a, b)
  {
    if a != "" {
      assert a[0] == b[0] && a[1..] < b[1..];
      PrefixBelow(a[1..], b[1..]);
    }
  }

  /** Identifiers are ASCII, so their length is their byte length. */
  lemma {:induction false} IdBytes(s: string)
    requires forall i | 0 <= i < |s| :: Alphanumeric(s[i]) || s[i] in "-_."
    ensures Bytes(s) == |s|
  {
    if s != "" {
      IdBytes(s[1..]);
    }
  }

  predicate LowerWord(word: string) {
    word != "" && forall i | 0 <= i < |word| :: '0' <= word[i] <= '9' || 'a' <= word[i] <= 'z'
  }

  /** Installed app identifiers are exactly the lower-case words joined by single hyphens. */
  lemma AppIdExactly(s: string)
    ensures AppIdValid(s) <==> exists words: seq<string> ::
      words != [] && (forall w | w in words :: LowerWord(w)) && s == Joined("-", words)
  {
    if AppIdValid(s) {
      var words := AppIdWords(s);
    }
    if words: seq<string> :| words != [] && (forall w | w in words :: LowerWord(w)) && s == Joined("-", words) {
      WordsAppId(words);
    }
  }

  lemma {:induction false} AppIdWords(s: string) returns (words: seq<string>)
    requires AppIdValid(s)
    ensures words != [] && (forall w | w in words :: LowerWord(w)) && s == Joined("-", words)
  {
    if '-' in s {
      var i := FirstHyphen(s);
      var front, rest := s[..i], s[i + 1..];
      assert s == front + "-" + rest;
      assert rest != "" && rest[0] != '-' && rest[|rest| - 1] == s[|s| - 1];
      assert forall k | 0 <= k < |rest| :: rest[k] == s[i + 1 + k];
      var more := AppIdWords(rest);
      words := [front] + more;
      assert words[1..] == more;
    } else {
      words := [s];
    }
  }

  lemma {:induction false} FirstHyphen(s: string) returns (i: nat)
    requires '-' in s
    ensures i < |s| && s[i] == '-' && forall k | 0 <= k < i :: s[k] != '-'
  {
    if s[0] == '-' {
      i := 0;
    } else {
      i := FirstHyphen(s[1..]);
      i := i + 1;
    }
  }

  lemma PrependWord(word: string, rest: string)
    requires LowerWord(word) && AppIdValid(rest)
    ensures AppIdValid(word + "-" + rest)
  {
    var s, n := word + "-" + rest, |word|;
    assert forall i | 0 <= i < n :: s[i] == word[i] && word[i] != '-';
    assert s[n] == '-' && forall i | n < i < |s| :: s[i] == rest[i - n - 1];
  }

  lemma WordIsAppId(word: string)
    requires LowerWord(word)
    ensures AppIdValid(word)
  {
  }

  lemma {:induction false} WordsAppId(words: seq<string>)
    requires words != [] && forall w | w in words :: LowerWord(w)
    ensures AppIdValid(Joined("-", words))
  {
    assert words[0] in words;
    WordIsAppId(words[0]);
    if |words| > 1 {
      assert forall w | w in words[1..] :: w in words;
      WordsAppId(words[1..]);
      PrependWord(words[0], Joined("-", words[1..]));
    }
  }
}

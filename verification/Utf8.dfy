/** UTF-8 text (RFC 3629, section 4) as the client holds it, and cutting it at a character boundary. */
module Utf8 {

  type Byte = x: int | 0 <= x < 256

  type Bytes = seq<Byte>

  /** A continuation byte. */
  predicate Tail(b: Byte) {
    0x80 <= b <= 0xBF
  }

  /** Bytes of the well-formed character `b` starts with; 0 if there is none. */
  function HeadLen(b: Bytes): (n: nat)
    ensures n <= 4 && n <= |b|
  {
    if |b| == 0 then 0
    else if b[0] <= 0x7F then 1
    else if 0xC2 <= b[0] <= 0xDF && |b| >= 2 && Tail(b[1]) then 2
    else if 0xE0 <= b[0] <= 0xEF && |b| >= 3 && ThreeByteSecond(b[0], b[1]) && Tail(b[2]) then 3
    else if 0xF0 <= b[0] <= 0xF4 && |b| >= 4 && FourByteSecond(b[0], b[1]) && Tail(b[2]) && Tail(b[3]) then 4
    else 0
  }

  /** No overlong forms and no surrogates. */
  predicate ThreeByteSecond(first: Byte, second: Byte) {
    Tail(second) && (first == 0xE0 ==> second >= 0xA0) && (first == 0xED ==> second <= 0x9F)
  }

  /** No overlong forms and nothing above U+10FFFF. */
  predicate FourByteSecond(first: Byte, second: Byte) {
    Tail(second) && (first == 0xF0 ==> second >= 0x90) && (first == 0xF4 ==> second <= 0x8F)
  }

  /** A sequence of whole characters. */
  predicate Valid(b: Bytes)
    decreases |b|
  {
    b == [] || (HeadLen(b) > 0 && Valid(b[HeadLen(b)..]))
  }

  type Text = b: Bytes | Valid(b)

  /** `str::is_char_boundary`: an end of the text, or not a continuation byte. */
  predicate IsCharBoundary(s: Bytes, i: nat)
    requires i <= |s|
  {
    i == 0 || i == |s| || !Tail(s[i])
  }

  lemma HeadPrefix(s: Bytes, i: nat)
    requires i <= |s| && HeadLen(s) > 0
    ensures i >= HeadLen(s) ==> HeadLen(s[..i]) == HeadLen(s)
    ensures i < HeadLen(s) ==> HeadLen(s[..i]) == 0
    ensures 0 < i < HeadLen(s) ==> Tail(s[i])
  {
    var p := s[..i];
    assert forall k :: 0 <= k < i ==> p[k] == s[k];
  }

  /** The byte test finds exactly the places between whole characters. */
  lemma {:induction false} BoundaryIffWholeCharacters(s: Bytes, i: nat)
    requires Valid(s) && i <= |s|
    ensures IsCharBoundary(s, i) <==> Valid(s[..i])
    decreases |s|
  {
    if i == 0 {
    } else {
      var n := HeadLen(s);
      HeadPrefix(s, i);
      if i >= n {
        BoundaryIffWholeCharacters(s[n..], i - n);
        assert s[..i][n..] == s[n..][..i - n];
        if i < |s| {
          assert s[n..][i - n] == s[i];
        }
        if i == n {
          CharacterStart(s, n);
        }
      }
    }
  }

  /** Every character starts with a byte that is not a continuation byte. */
  lemma CharacterStart(s: Bytes, n: nat)
    requires Valid(s) && n == HeadLen(s)
    ensures n < |s| ==> !Tail(s[n])
  {
    if n < |s| {
      var rest := s[n..];
      assert HeadLen(rest) > 0 && rest[0] == s[n];
    }
  }

  /** What follows a boundary is whole characters as well. */
  lemma {:induction false} SuffixValid(s: Bytes, i: nat)
    requires Valid(s) && i <= |s| && IsCharBoundary(s, i)
    ensures Valid(s[i..])
    decreases |s|
  {
    if i == 0 {
      assert s[0..] == s;
    } else {
      var n := HeadLen(s);
      HeadPrefix(s, i);
      if i >= n {
        if i < |s| {
          assert s[n..][i - n] == s[i];
        }
        if i == n {
        } else {
          SuffixValid(s[n..], i - n);
          assert s[n..][i - n..] == s[i..];
        }
      }
    }
  }

  /** One of any four neighbouring places is a boundary: characters have at most four bytes. */
  lemma {:induction false} BoundaryWithinThree(s: Bytes, i: nat)
    requires Valid(s) && i <= |s|
    ensures exists j :: i - 3 <= j <= i && 0 <= j && IsCharBoundary(s, j)
    decreases |s|
  {
    if i <= 3 {
      assert IsCharBoundary(s, 0);
    } else {
      var n := HeadLen(s);
      var rest := s[n..];
      BoundaryWithinThree(rest, i - n);
      var j :| i - n - 3 <= j <= i - n && 0 <= j && IsCharBoundary(rest, j);
      if j == 0 {
        CharacterStart(s, n);
        assert IsCharBoundary(s, n);
      } else if j < |rest| {
        assert rest[j] == s[n + j];
        assert IsCharBoundary(s, n + j);
      } else {
        assert IsCharBoundary(s, n + j);
      }
    }
  }

  /** The largest boundary at or before `i`. */
  function FloorBoundary(s: Bytes, i: nat): (b: nat)
    requires i <= |s|
    ensures b <= i && IsCharBoundary(s, b)
    ensures forall k :: b < k <= i ==> !IsCharBoundary(s, k)
  {
    if IsCharBoundary(s, i) then i else FloorBoundary(s, i - 1)
  }

  /** `s` cut to at most `max` bytes, never inside a character. */
  function Truncated(s: Text, max: nat): (t: Text)
    ensures |t| <= max && t <= s
  {
    if |s| <= max then s
    else
      BoundaryIffWholeCharacters(s, FloorBoundary(s, max));
      s[..FloorBoundary(s, max)]
  }

  /** The loop of `truncate_to_char_boundary` and `truncate_utf8`. */
  method Truncate(s: Text, max: nat) returns (t: Text)
    ensures t == Truncated(s, max)
  {
    if |s| <= max {
      return s;
    }
    var boundary: nat := max;
    while boundary > 0 && !IsCharBoundary(s, boundary)
      invariant boundary <= max
      invariant FloorBoundary(s, max) == FloorBoundary(s, boundary)
    {
      boundary := boundary - 1;
    }
    BoundaryIffWholeCharacters(s, boundary);
    t := s[..boundary];
  }

  /** The result is the longest prefix of whole characters that fits, and nothing else is. */
  lemma TruncatedIsLongest(s: Text, max: nat, t: Text)
    requires t <= s && |t| <= max
    ensures t == Truncated(s, max)
       <==> forall k: nat :: |t| < k <= max && k <= |s| ==> !Valid(s[..k])
  {
    forall k: nat | k <= |s|
      ensures IsCharBoundary(s, k) <==> Valid(s[..k])
    {
      BoundaryIffWholeCharacters(s, k);
    }
    assert t == s[..|t|];
    var cut := Truncated(s, max);
    assert cut == s[..|cut|];
  }

  /** At most three bytes of the allowance stay unused. */
  lemma TruncatedUsesTheAllowance(s: Text, max: nat)
    requires |s| > max
    ensures max - 3 <= |Truncated(s, max)| <= max
  {
    BoundaryWithinThree(s, max);
  }

  /** The code points of a text. */
  function CodePoints(s: Text): seq<int>
    decreases |s|
  {
    if s == [] then []
    else
      var n := HeadLen(s);
      [CodePoint(s[..n])] + CodePoints(s[n..])
  }

  /** The code point of one encoded character (RFC 3629, section 3). */
  function CodePoint(c: Bytes): int {
    match |c|
    case 1 => c[0]
    case 2 => ((c[0] as int) - 0xC0) * 0x40 + ((c[1] as int) - 0x80)
    case 3 => ((c[0] as int) - 0xE0) * 0x1000 + ((c[1] as int) - 0x80) * 0x40 + ((c[2] as int) - 0x80)
    case 4 => ((c[0] as int) - 0xF0) * 0x40000 + ((c[1] as int) - 0x80) * 0x1000 + ((c[2] as int) - 0x80) * 0x40 + ((c[3] as int) - 0x80)
    case _ => 0
  }

  /** `char::is_control`: the Unicode category Cc. */
  predicate IsControl(c: int) {
    0 <= c <= 0x1F || 0x7F <= c <= 0x9F
  }

  /** `char::is_whitespace`: the Unicode property White_Space. */
  predicate IsWhitespace(c: int) {
    9 <= c <= 13 || c == 0x20 || c == 0x85 || c == 0xA0 || c == 0x1680 || 0x2000 <= c <= 0x200A
    || c == 0x2028 || c == 0x2029 || c == 0x202F || c == 0x205F || c == 0x3000
  }

  /** `text.trim().is_empty()` */
  predicate IsBlank(s: Text) {
    forall c | c in CodePoints(s) :: IsWhitespace(c)
  }

  /** `text.chars().any(char::is_control)` */
  predicate HasControl(s: Text) {
    exists c :: c in CodePoints(s) && IsControl(c)
  }

  /** Text of ASCII characters only. */
  predicate IsAscii(s: Bytes) {
    forall i | 0 <= i < |s| :: s[i] < 0x80
  }

  lemma {:induction false} AsciiCodePoints(s: Text)
    requires IsAscii(s)
    ensures |CodePoints(s)| == |s| && forall i | 0 <= i < |s| :: CodePoints(s)[i] == s[i] as int
    decreases |s|
  {
    if s != [] {
      assert HeadLen(s) == 1;
      AsciiCodePoints(s[1..]);
      assert CodePoints(s) == [s[0] as int] + CodePoints(s[1..]);
    }
  }

  /** Of ASCII text: control characters are 0 to 31 and 127, and blank is spaces, tabs and line ends only. */
  lemma {:induction false} AsciiClasses(s: Text)
    requires IsAscii(s)
    ensures HasControl(s) <==> exists i :: 0 <= i < |s| && (s[i] < 32 || s[i] == 127)
    ensures IsBlank(s) <==> forall i | 0 <= i < |s| :: s[i] == 32 || 9 <= s[i] <= 13
  {
    AsciiCodePoints(s);
    var points := CodePoints(s);
    assert forall i | 0 <= i < |s| :: points[i] in points;
  }
}

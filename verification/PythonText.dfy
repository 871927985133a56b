/** Character classes of Python strings shared by several models. */
module PythonText {

  /** The ranges of code points for which `str.isspace` holds. */
  const SPACES: seq<(int, int)> :=
    [(0x1C, 0x20), (0x09, 0x0D), (0x85, 0x85), (0xA0, 0xA0), (0x1680, 0x1680), (0x2000, 0x200A),
     (0x2028, 0x2029), (0x202F, 0x202F), (0x205F, 0x205F), (0x3000, 0x3000)]

  predicate InRanges(n: int, ranges: seq<(int, int)>) {
    ranges != [] && (ranges[0].0 <= n <= ranges[0].1 || InRanges(n, ranges[1..]))
  }

  /** `str.isspace` on one character. */
  predicate IsSpace(c: char) {
    InRanges(c as int, SPACES)
  }

  /** `s.strip()` is empty. */
  predicate Blank(s: string) {
    forall c <- s :: IsSpace(c)
  }

  lemma {:induction false} InRangesMeans(n: int, ranges: seq<(int, int)>)
    ensures InRanges(n, ranges) <==> exists i :: 0 <= i < |ranges| && ranges[i].0 <= n <= ranges[i].1
  {
    if ranges != [] {
      InRangesMeans(n, ranges[1..]);
      assert forall i :: 0 < i < |ranges| ==> ranges[i] == ranges[1..][i - 1];
    }
  }

  /** White space by code point. */
  lemma SpaceMeans(c: char)
    ensures IsSpace(c) <==>
            var n := c as int;
            || 0x09 <= n <= 0x0D || 0x1C <= n <= 0x20 || n == 0x85 || n == 0xA0 || n == 0x1680
            || 0x2000 <= n <= 0x200A || n == 0x2028 || n == 0x2029 || n == 0x202F || n == 0x205F || n == 0x3000
  {
    var n := c as int;
    InRangesMeans(n, SPACES);
    assert SPACES[0] == (0x1C, 0x20) && SPACES[1] == (0x09, 0x0D) && SPACES[2] == (0x85, 0x85) && SPACES[3] == (0xA0, 0xA0);
    assert SPACES[4] == (0x1680, 0x1680) && SPACES[5] == (0x2000, 0x200A) && SPACES[6] == (0x2028, 0x2029);
    assert SPACES[7] == (0x202F, 0x202F) && SPACES[8] == (0x205F, 0x205F) && SPACES[9] == (0x3000, 0x3000);
  }

  /** The blank is white space; the marks of the key=value grammar are not. */
  lemma SpaceFacts()
    ensures IsSpace(' ') && !IsSpace('=') && !IsSpace('{')
  {
    InRangesMeans('=' as int, SPACES);
    InRangesMeans('{' as int, SPACES);
  }

  lemma LetterNotBlank(s: string)
    requires s != "" && 'a' <= s[0] <= 'z'
    ensures !Blank(s)
  {
    InRangesMeans(s[0] as int, SPACES);
    assert s[0] in s;
  }
}

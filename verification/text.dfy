/** String helpers standing for the JavaScript string built-ins the model
    needs: `toLowerCase` (ASCII letters only), `includes`, and the decimal
    rendering of an integer. */
module Text {

  function LowerChar(c: char): char {
    if 'A' <= c <= 'Z' then (c as int - 'A' as int + 'a' as int) as char else c
  }

  /** `s.toLowerCase()`, restricted to ASCII letters. */
  function Lower(s: string): (r: string)
    ensures |r| == |s|
    ensures forall i :: 0 <= i < |s| ==> r[i] == LowerChar(s[i])
  {
    seq(|s|, i requires 0 <= i < |s| => LowerChar(s[i]))
  }

  predicate IsPrefix(p: string, s: string) {
    |p| <= |s| && s[..|p|] == p
  }

  /** `hay.includes(needle)`: `needle` occurs somewhere in `hay`. */
  predicate Contains(hay: string, needle: string)
    decreases |hay|
  {
    IsPrefix(needle, hay) || (|hay| > 0 && Contains(hay[1..], needle))
  }

  /** `needle` occurs in `hay` exactly when it sits at some offset of `hay`. */
  lemma {:induction false} ContainsAt(hay: string, needle: string, k: nat)
    requires k + |needle| <= |hay|
    requires hay[k..k + |needle|] == needle
    ensures Contains(hay, needle)
    decreases k
  {
    if k == 0 {
      assert hay[..|needle|] == needle;
    } else {
      assert hay[1..][k - 1..k - 1 + |needle|] == hay[k..k + |needle|];
      ContainsAt(hay[1..], needle, k - 1);
    }
  }

  lemma {:induction false} ContainsOffset(hay: string, needle: string) returns (k: nat)
    requires Contains(hay, needle)
    ensures k + |needle| <= |hay| && hay[k..k + |needle|] == needle
    decreases |hay|
  {
    if IsPrefix(needle, hay) {
      k := 0;
    } else {
      var j := ContainsOffset(hay[1..], needle);
      k := j + 1;
      assert hay[1..][j..j + |needle|] == hay[k..k + |needle|];
    }
  }

  /** Occurrence is transitive: a substring of a substring is a substring. */
  lemma ContainsTransitive(c: string, b: string, a: string)
    requires Contains(c, b) && Contains(b, a)
    ensures Contains(c, a)
  {
  }

  /** Lowering both sides keeps an occurrence. */
  lemma LowerKeepsContains(hay: string, needle: string)
    requires Contains(hay, needle)
    ensures Contains(Lower(hay), Lower(needle))
  {
    var k := ContainsOffset(hay, needle);
    assert Lower(hay)[k..k + |needle|] == Lower(needle);
    ContainsAt(Lower(hay), Lower(needle), k);
  }

  function DigitChar(d: nat): char
    requires d < 10
  {
    ('0' as int + d) as char
  }

  /** The decimal rendering of a natural number, without leading zeros. */
  function NatToString(n: nat): (r: string)
    ensures |r| >= 1
    ensures forall i :: 0 <= i < |r| ==> '0' <= r[i] <= '9'
    decreases n
  {
    if n < 10 then [DigitChar(n)] else NatToString(n / 10) + [DigitChar(n % 10)]
  }

  /** `String(n)` for an integer-valued JavaScript number. */
  function IntToString(n: int): string {
    if n < 0 then "-" + NatToString(-n) else NatToString(n)
  }
}

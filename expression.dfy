/**
 * The expression renderer's bounded-buffer contract (cv_get_expression).
 * How a converter is spelled as text is not modelled: it is the abstract
 * `format`, which yields the full expression for a converter and a variable
 * name, or `None` when formatting fails. One `char` stands for one byte of
 * the C buffer, so lengths are byte counts and `max` is the buffer size.
 */
module Expressions {
  import opened Wrappers
  import opened Converters

  /** The largest value of the C `int` the length is returned in. */
  const INT_MAX: int := 0x7fff_ffff

  /** The characters a truncating formatted write of `text` puts into a buffer
      of `max` characters: nothing when `max` is zero, otherwise the longest
      prefix of `text` that leaves room for the terminating null, then the null. */
  function Emitted(text: string, max: nat): (w: string)
    ensures |w| <= max
    ensures w == [] <==> max == 0
    ensures max > 0 ==> w[|w| - 1] == '\0' && w[..|w| - 1] <= text
    ensures max > 0 ==> |w| == max || w[..|w| - 1] == text
  {
    if max == 0 then []
    else if |text| < max then text + ['\0']
    else text[..max - 1] + ['\0']
  }

  /** The whole expression is written exactly when it is shorter than the buffer. */
  lemma EmittedWhole(text: string, max: nat)
    ensures Emitted(text, max) == text + ['\0'] <==> |text| < max
  {
    if Emitted(text, max) == text + ['\0'] {
      assert |text + ['\0']| <= max;
    }
  }

  /** cv_get_expression: a negative value when formatting fails or the length
      does not fit an `int`, and otherwise the full length of the expression,
      whether or not it fit. At most `max` characters of `buf` are written:
      the truncated expression and its terminating null. */
  method GetExpression(format: (Converter, string) -> Option<string>, conv: Converter,
                       buf: array?<char>, max: nat, variable: string)
    returns (n: int)
    requires buf == null ==> max == 0
    requires buf != null ==> max <= buf.Length
    modifies buf
    ensures var text := format(conv, variable);
      n < 0 <==> text.None? || |text.value| > INT_MAX
    ensures n >= 0 ==> n == |format(conv, variable).value|
    ensures buf != null && n >= 0 ==> var w := Emitted(format(conv, variable).value, max);
      buf[..|w|] == w && forall p :: |w| <= p < buf.Length ==> buf[p] == old(buf[p])
    ensures buf != null && n < 0 ==> buf[..] == old(buf[..])
  {
    var text := format(conv, variable);
    if text.None? || |text.value| > INT_MAX {
      return -1;
    }
    var s := text.value;
    n := |s|;
    if max == 0 {
      return;
    }
    var len := if |s| < max - 1 then |s| else max - 1;
    var k := 0;
    while k < len
      invariant 0 <= k <= len
      invariant buf[..k] == s[..k]
      invariant forall p :: k <= p < buf.Length ==> buf[p] == old(buf[p])
    {
      buf[k] := s[k];
      k := k + 1;
    }
    buf[len] := '\0';
    assert buf[..len + 1] == s[..len] + ['\0'];
  }
}

/**
 * Bulk conversion (cv_convert_doubles). A C pointer into an array of
 * doubles is an array together with an offset into it: `in` is
 * (`source`, `inOffset`) and `out` is (`target`, `outOffset`). The two may
 * be the same array, and their ranges may then overlap in either direction.
 */
module BulkConversion {
  import opened Converters

  /** Every value of `xs` converted by `c`, position by position. */
  function ConvertAll(m: Libm, c: Converter, xs: seq<real>): (ys: seq<real>)
    ensures |ys| == |xs|
    ensures forall i :: 0 <= i < |xs| ==> ys[i] == ConvertDouble(m, c, xs[i])
  {
    if xs == [] then [] else [ConvertDouble(m, c, xs[0])] + ConvertAll(m, c, xs[1..])
  }

  /** Converting by a composite is converting by its first part, then by its second. */
  lemma ConvertAllComposite(m: Libm, f: Converter, s: Converter, xs: seq<real>)
    ensures ConvertAll(m, Composite(f, s), xs) == ConvertAll(m, s, ConvertAll(m, f, xs))
  {
  }

  /** cv_convert_doubles: a NULL `out` is returned as it is and nothing is
      written; otherwise `out[0..count)` receives the converted values of the
      original `in[0..count)` and nothing else changes. Like a memory move,
      the conversion runs downwards when the output starts after the input in
      the same array, and upwards otherwise, so that no input value is
      overwritten before it is read. */
  method ConvertDoubles(m: Libm, conv: Converter, source: array<real>, inOffset: nat,
                        count: nat, target: array?<real>, outOffset: nat)
    returns (r: array?<real>)
    requires inOffset + count <= source.Length
    requires target != null ==> outOffset + count <= target.Length
    modifies target
    ensures r == target
    ensures target != null ==>
      target[outOffset..outOffset + count] == ConvertAll(m, conv, old(source[inOffset..inOffset + count]))
    ensures target != null ==> forall p :: 0 <= p < target.Length && !(outOffset <= p < outOffset + count) ==>
      target[p] == old(target[p])
  {
    r := target;
    if target == null {
      return;
    }
    ghost var input := source[inOffset..inOffset + count];
    if target == source && outOffset > inOffset {
      ConvertDownward(m, conv, source, inOffset, count, target, outOffset, input);
    } else {
      ConvertUpward(m, conv, source, inOffset, count, target, outOffset, input);
    }
    ghost var output := target[outOffset..outOffset + count];
    assert forall j :: 0 <= j < count ==> output[j] == target[outOffset + j];
  }

  /** The conversion from the last element to the first, for an output that
      starts after the input in the same array. */
  method ConvertDownward(m: Libm, conv: Converter, source: array<real>, inOffset: nat,
                         count: nat, target: array<real>, outOffset: nat, ghost input: seq<real>)
    requires inOffset + count <= source.Length && outOffset + count <= target.Length
    requires input == source[inOffset..inOffset + count]
    requires target == source && outOffset > inOffset
    modifies target
    ensures forall p :: outOffset <= p < outOffset + count ==>
      target[p] == ConvertDouble(m, conv, input[p - outOffset])
    ensures forall p :: 0 <= p < target.Length && !(outOffset <= p < outOffset + count) ==>
      target[p] == old(target[p])
  {
    var k := count;
    while k > 0
      invariant 0 <= k <= count
      invariant forall p :: outOffset + k <= p < outOffset + count ==>
        target[p] == ConvertDouble(m, conv, input[p - outOffset])
      invariant forall p :: 0 <= p < target.Length && !(outOffset + k <= p < outOffset + count) ==>
        target[p] == old(target[p])
    {
      k := k - 1;
      target[outOffset + k] := ConvertDouble(m, conv, source[inOffset + k]);
    }
  }

  /** The conversion from the first element to the last, for an output in
      another array or starting no later than the input. */
  method ConvertUpward(m: Libm, conv: Converter, source: array<real>, inOffset: nat,
                       count: nat, target: array<real>, outOffset: nat, ghost input: seq<real>)
    requires inOffset + count <= source.Length && outOffset + count <= target.Length
    requires input == source[inOffset..inOffset + count]
    requires target == source ==> outOffset <= inOffset
    modifies target
    ensures forall p :: outOffset <= p < outOffset + count ==>
      target[p] == ConvertDouble(m, conv, input[p - outOffset])
    ensures forall p :: 0 <= p < target.Length && !(outOffset <= p < outOffset + count) ==>
      target[p] == old(target[p])
  {
    var k := 0;
    while k < count
      invariant 0 <= k <= count
      invariant forall p :: outOffset <= p < outOffset + k ==>
        target[p] == ConvertDouble(m, conv, input[p - outOffset])
      invariant forall p :: 0 <= p < target.Length && !(outOffset <= p < outOffset + k) ==>
        target[p] == old(target[p])
    {
      target[outOffset + k] := ConvertDouble(m, conv, source[inOffset + k]);
      k := k + 1;
    }
  }

  /** The overlapping cases of the bulk conversion, on the buffer [1, 2, 3, 4, 5]
      scaled by ten with the output one element before and one element after
      the input. */
  method OverlapExample(m: Libm) {
    var scale := GetScale(10.0).value;
    var a := new real[6] [0.0, 1.0, 2.0, 3.0, 4.0, 5.0];
    var r := ConvertDoubles(m, scale, a, 1, 5, a, 0);
    assert r == a;
    assert a[..5] == [10.0, 20.0, 30.0, 40.0, 50.0];
    var b := new real[6] [1.0, 2.0, 3.0, 4.0, 5.0, 0.0];
    r := ConvertDoubles(m, scale, b, 0, 5, b, 1);
    assert b[1..6] == [10.0, 20.0, 30.0, 40.0, 50.0];
    var c := new real[0];
    r := ConvertDoubles(m, scale, c, 0, 0, null, 0);
    assert r == null;
  }
}

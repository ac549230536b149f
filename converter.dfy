/**
 * The unit-converter algebra of UDUNITS-2: seven kinds of leaf converter,
 * their factories, sequential composition with elision of the trivial
 * converter, and scalar conversion.
 *
 * Values are mathematical reals. The logarithm and the power function are
 * left uninterpreted: every conversion is taken relative to a `Libm`, a pair
 * of arbitrary total functions, and the contracts quantify over all of them.
 */
module Converters {
  import opened Wrappers

  /** The two transcendental functions a conversion may use:
      `log(b, x)` is the logarithm of `x` in base `b`, `pow(b, x)` is `b` raised to `x`. */
  datatype Libm = Libm(log: (real, real) -> real, pow: (real, real) -> real)

  /** A converter value. `Composite(first, second)` applies `first`, then `second`. */
  datatype Converter =
    | Trivial
    | Inverse
    | Scale(slope: real)
    | Offset(intercept: real)
    | Galilean(slope: real, intercept: real)
    | Log(base: real)
    | Pow(base: real)
    | Composite(first: Converter, second: Converter)
  {
    /** The domain restrictions the factories enforce, throughout the tree. */
    predicate Valid() {
      match this
      case Log(b) => b > 1.0
      case Pow(b) => b > 0.0
      case Composite(f, s) => f.Valid() && s.Valid()
      case _ => true
    }

    /** Whether a trivial converter occurs anywhere in the tree. */
    predicate HasTrivial() {
      match this
      case Trivial => true
      case Composite(f, s) => f.HasTrivial() || s.HasTrivial()
      case _ => false
    }

    /** Either the trivial converter itself, or a tree without any trivial node. */
    predicate Reduced() {
      Trivial? || !HasTrivial()
    }
  }

  /** cv_convert_double: the value `x` converted by `c`. */
  function ConvertDouble(m: Libm, c: Converter, x: real): real {
    match c
    case Trivial => x
    case Inverse => if x == 0.0 then 0.0 else 1.0 / x
    case Scale(a) => a * x
    case Offset(b) => x + b
    case Galilean(a, b) => a * x + b
    case Log(b) => m.log(b, x)
    case Pow(b) => m.pow(b, x)
    case Composite(f, s) => ConvertDouble(m, s, ConvertDouble(m, f, x))
  }

  // ---------------------------------------------------------------------
  // Factories

  /** cv_get_trivial */
  function GetTrivial(): (r: Option<Converter>)
    ensures r.Some? && r.value.Trivial? && r.value.Valid()
    ensures forall m: Libm, x: real :: ConvertDouble(m, r.value, x) == x
  {
    Some(Trivial)
  }

  /** cv_get_inverse */
  function GetInverse(): (r: Option<Converter>)
    ensures r.Some? && r.value.Valid() && r.value.Reduced() && !r.value.Trivial?
    ensures forall m: Libm, x: real :: x != 0.0 ==> ConvertDouble(m, r.value, x) == 1.0 / x
  {
    Some(Inverse)
  }

  /** cv_get_scale */
  function GetScale(slope: real): (r: Option<Converter>)
    ensures r.Some? && r.value.Valid() && r.value.Reduced() && !r.value.Trivial?
    ensures forall m: Libm, x: real :: ConvertDouble(m, r.value, x) == slope * x
  {
    Some(Scale(slope))
  }

  /** cv_get_offset */
  function GetOffset(intercept: real): (r: Option<Converter>)
    ensures r.Some? && r.value.Valid() && r.value.Reduced() && !r.value.Trivial?
    ensures forall m: Libm, x: real :: ConvertDouble(m, r.value, x) == x + intercept
  {
    Some(Offset(intercept))
  }

  /** cv_get_galilean */
  function GetGalilean(slope: real, intercept: real): (r: Option<Converter>)
    ensures r.Some? && r.value.Valid() && r.value.Reduced() && !r.value.Trivial?
    ensures forall m: Libm, x: real :: ConvertDouble(m, r.value, x) == slope * x + intercept
  {
    Some(Galilean(slope, intercept))
  }

  /** cv_get_log: no converter unless the base exceeds one. */
  function GetLog(base: real): (r: Option<Converter>)
    ensures r.None? <==> base <= 1.0
    ensures r.Some? ==> r.value.Valid() && r.value.Reduced() && !r.value.Trivial?
    ensures r.Some? ==> forall m: Libm, x: real :: ConvertDouble(m, r.value, x) == m.log(base, x)
  {
    if base > 1.0 then Some(Log(base)) else None
  }

  /** cv_get_pow: no converter unless the base is positive. */
  function GetPow(base: real): (r: Option<Converter>)
    ensures r.None? <==> base <= 0.0
    ensures r.Some? ==> r.value.Valid() && r.value.Reduced() && !r.value.Trivial?
    ensures r.Some? ==> forall m: Libm, x: real :: ConvertDouble(m, r.value, x) == m.pow(base, x)
  {
    if base > 0.0 then Some(Pow(base)) else None
  }

  // ---------------------------------------------------------------------
  // Composition

  /** cv_combine: `first` then `second`; NULL in, NULL out; a trivial operand
      is elided and the other operand is returned as it is. */
  function Combine(first: Option<Converter>, second: Option<Converter>): (r: Option<Converter>)
    ensures r.None? <==> first.None? || second.None?
    ensures first == Some(Trivial) && second.Some? ==> r == second
    ensures second == Some(Trivial) && first.Some? ==> r == first
    ensures r.Some? ==> forall m: Libm, x: real ::
      ConvertDouble(m, r.value, x) == ConvertDouble(m, second.value, ConvertDouble(m, first.value, x))
    ensures r.Some? && first.value.Valid() && second.value.Valid() ==> r.value.Valid()
    ensures r.Some? && first.value.Reduced() && second.value.Reduced() ==> r.value.Reduced()
  {
    match (first, second)
    case (Some(f), Some(s)) =>
      if f.Trivial? then second
      else if s.Trivial? then first
      else Some(Composite(f, s))
    case _ => None
  }

  /** Composition is associative in effect: both groupings fail together and
      otherwise convert every value alike. */
  lemma CombineAssociative(a: Option<Converter>, b: Option<Converter>, c: Option<Converter>)
    ensures Combine(Combine(a, b), c).None? <==> Combine(a, Combine(b, c)).None?
    ensures Combine(Combine(a, b), c).Some? ==> forall m: Libm, x: real ::
      ConvertDouble(m, Combine(Combine(a, b), c).value, x)
        == ConvertDouble(m, Combine(a, Combine(b, c)).value, x)
  {
  }

  /** A Galilean converter behaves as a scaling followed by an offset. */
  lemma GalileanIsScaleThenOffset(slope: real, intercept: real)
    ensures Combine(GetScale(slope), GetOffset(intercept)).Some?
    ensures forall m: Libm, x: real ::
      ConvertDouble(m, GetGalilean(slope, intercept).value, x)
        == ConvertDouble(m, Combine(GetScale(slope), GetOffset(intercept)).value, x)
  {
  }

  // ---------------------------------------------------------------------
  // Composite trees as pipelines of leaves

  /** The leaves of a converter tree, in the order they are applied. */
  function Flatten(c: Converter): (leaves: seq<Converter>)
    ensures |leaves| >= 1
    ensures forall i :: 0 <= i < |leaves| ==> !leaves[i].Composite?
  {
    match c
    case Composite(f, s) => Flatten(f) + Flatten(s)
    case _ => [c]
  }

  /** Applying each converter of `cs` in turn, from the first to the last. */
  function Pipeline(m: Libm, cs: seq<Converter>, x: real): real
    decreases |cs|
  {
    if cs == [] then x else Pipeline(m, cs[1..], ConvertDouble(m, cs[0], x))
  }

  lemma {:induction false} PipelineAppend(m: Libm, a: seq<Converter>, b: seq<Converter>, x: real)
    ensures Pipeline(m, a + b, x) == Pipeline(m, b, Pipeline(m, a, x))
    decreases |a|
  {
    if a == [] {
      assert a + b == b;
    } else {
      assert (a + b)[1..] == a[1..] + b;
      PipelineAppend(m, a[1..], b, ConvertDouble(m, a[0], x));
    }
  }

  /** Converting by a tree is applying its leaves one after the other. */
  lemma {:induction false} ConvertDoubleIsPipeline(m: Libm, c: Converter, x: real)
    ensures ConvertDouble(m, c, x) == Pipeline(m, Flatten(c), x)
  {
    match c
    case Composite(f, s) =>
      ConvertDoubleIsPipeline(m, f, x);
      ConvertDoubleIsPipeline(m, s, ConvertDouble(m, f, x));
      PipelineAppend(m, Flatten(f), Flatten(s), x);
    case _ =>
      assert Flatten(c)[1..] == [];
  }

  /** Combining each of `cs` in turn onto the trivial converter, as a client
      assembling a unit conversion does. */
  function Chain(cs: seq<Converter>): Option<Converter>
  {
    if cs == [] then GetTrivial() else Combine(Chain(cs[..|cs| - 1]), Some(cs[|cs| - 1]))
  }

  /** Repeated composition yields a converter that applies every operand in
      order, keeps the domain restrictions, and accumulates no trivial node. */
  lemma {:induction false} ChainCorrect(m: Libm, cs: seq<Converter>, x: real)
    ensures Chain(cs).Some?
    ensures ConvertDouble(m, Chain(cs).value, x) == Pipeline(m, cs, x)
    ensures (forall i :: 0 <= i < |cs| ==> cs[i].Valid()) ==> Chain(cs).value.Valid()
    ensures (forall i :: 0 <= i < |cs| ==> cs[i].Reduced()) ==> Chain(cs).value.Reduced()
  {
    if cs != [] {
      var init, last := cs[..|cs| - 1], cs[|cs| - 1];
      ChainCorrect(m, init, x);
      assert init + [last] == cs;
      PipelineAppend(m, init, [last], x);
      assert Pipeline(m, [last], Pipeline(m, init, x)) == ConvertDouble(m, last, Pipeline(m, init, x));
      if forall i :: 0 <= i < |cs| ==> cs[i].Valid() {
        assert forall i :: 0 <= i < |init| ==> init[i].Valid() by {
          forall i | 0 <= i < |init| ensures init[i].Valid() { assert init[i] == cs[i]; }
        }
      }
      if forall i :: 0 <= i < |cs| ==> cs[i].Reduced() {
        assert forall i :: 0 <= i < |init| ==> init[i].Reduced() by {
          forall i | 0 <= i < |init| ensures init[i].Reduced() { assert init[i] == cs[i]; }
        }
      }
    }
  }
}

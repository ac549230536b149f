# UDUNITS-2 unit converters in Dafny

This project models the unit-converter algebra of UDUNITS-2, declared in
`lib/converter.h`. A converter is an immutable numeric transform. It is one of
seven leaves or the composition of two converters:

- trivial: `y = x`
- inverse: `y = 1/x`
- scale: `y = a·x`
- offset: `y = x + b`
- Galilean: `y = a·x + b`
- log: `y = log_b(x)`
- pow: `y = b^x`
- composite: `second(first(x))`

Clients get converters from factories and chain them with `cv_combine`. They
then apply them to one value, to an array of values, or render them as an
expression into a bounded character buffer.

Files:

- `wrappers.dfy` (module `Wrappers`): `Option`. `None` stands for a NULL pointer.
- `converter.dfy` (module `Converters`):
  - the `Converter` datatype and its domain invariant `Valid`;
  - the factories (`GetTrivial` … `GetPow`) and `Combine`;
  - the scalar evaluator `ConvertDouble`;
  - lemmas on composition: associativity in effect, a Galilean converter as
    scale-then-offset, a tree as a pipeline of its leaves, and repeated
    composition (`Chain`).
- `bulk.dfy` (module `BulkConversion`): `ConvertDoubles`, the bulk conversion
  over arrays that may alias. It is specified by `ConvertAll`. The method
  `OverlapExample` runs it on [1, 2, 3, 4, 5], scaled by ten, with the output
  one element before the input and then one element after it, and asserts
  [10, 20, 30, 40, 50] in both cases.
- `expression.dfy` (module `Expressions`): `GetExpression`, the
  truncating-write contract of the renderer. It is specified by `Emitted`.

Values are mathematical reals. The logarithm and the power function are left
uninterpreted. Every conversion is relative to a `Libm`, a pair of arbitrary
total functions `log(b, x)` and `pow(b, x)`. Every contract about conversion
quantifies over all of them.

A C pointer into an array of doubles is modelled as a Dafny array plus an
offset. The `in` and `out` of `cv_convert_doubles` may be the same array. The
method then picks its direction the way a memory move does:

- downwards when the output starts after the input;
- upwards otherwise, including when the arrays are distinct.

Each direction is a helper method with its own loop.

## Model

| member | source | states |
|---|---|---|
| `Converters.GetTrivial` | lib/converter.h:38-46 | always yields a converter; it is the trivial one and maps every x to x under every Libm |
| `Converters.GetInverse` | lib/converter.h:48-56 | always yields a valid, non-trivial converter that maps every x ≠ 0 to 1/x |
| `Converters.GetScale` | lib/converter.h:58-67 | always yields a valid, non-trivial converter that maps x to slope·x |
| `Converters.GetOffset` | lib/converter.h:69-81 | always yields a valid, non-trivial converter that maps x to x + intercept |
| `Converters.GetGalilean` | lib/converter.h:83-97 | always yields a valid, non-trivial converter that maps x to slope·x + intercept |
| `Converters.GetLog` | lib/converter.h:99-113 | yields no converter exactly when base ≤ 1; otherwise a valid converter that maps x to the base-`base` logarithm of x |
| `Converters.GetPow` | lib/converter.h:115-129 | yields no converter exactly when base ≤ 0; otherwise a valid converter that maps x to base raised to x |
| `Converters.Combine` | lib/converter.h:131-148 | NULL exactly when either operand is NULL; a trivial first operand gives back the second itself, and a trivial second gives back the first itself; otherwise the result converts x to second(first(x)) for every Libm and x; validity and the absence of inner trivial nodes are preserved |
| `Converters.CombineAssociative` | lib/converter.h:131-148 | (a∘b)∘c and a∘(b∘c) are NULL together and otherwise convert every value alike |
| `Converters.GalileanIsScaleThenOffset` | lib/converter.h:58-97 | a Galilean converter converts every value as combining a scale with an offset does |
| `Converters.ConvertDouble` | lib/converter.h:172-183 | defines cv_convert_double: trivial gives x, inverse 1/x (0 at x = 0, see Left out), scale a·x, offset x + b, Galilean a·x + b, log and pow through the given `Libm`, and a composite second(first(x)); its meaning is carried by the factories' contracts, `Combine`'s contract and `ConvertDoubleIsPipeline` |
| `Converters.ConvertDoubleIsPipeline` | lib/converter.h:172-183 | converting by any tree equals applying its leaves, in order, one after the other |
| `Converters.ChainCorrect` | lib/converter.h:131-148 | combining any list of converters one by one onto the trivial one never fails; the result applies the operands in order, is valid if they are, and, if no operand holds a trivial node inside a composite, neither does the result |
| `BulkConversion.ConvertAll` | lib/converter.h:204-221 | the converted sequence has the input's length, and each element is the input element at that position converted by the converter |
| `BulkConversion.ConvertAllComposite` | lib/converter.h:204-221 | bulk conversion by a composite equals bulk conversion by its first part followed by its second |
| `BulkConversion.ConvertDoubles` | lib/converter.h:204-221 | returns `out`; a NULL `out` is returned with nothing written; otherwise `out[0..count)` holds the conversion of the original `in[0..count)` even when the two ranges are the same or overlap, every other cell of `out` is unchanged, and count = 0 writes nothing |
| `BulkConversion.ConvertDownward` | lib/converter.h:209-211 | when the output starts after the input in the same array, a descending pass leaves every output cell equal to the converted original input and touches nothing else |
| `BulkConversion.ConvertUpward` | lib/converter.h:209-211 | when the output is another array or starts no later than the input, an ascending pass does the same |
| `Expressions.Emitted` | lib/converter.h:223-240 | what a truncating write puts in a buffer of `max` characters: at most `max` characters; nothing exactly when max = 0; otherwise a prefix of the expression, then a terminating null, where the prefix is either the whole expression or fills the buffer |
| `Expressions.EmittedWhole` | lib/converter.h:223-240 | the whole expression is written exactly when it is shorter than the buffer |
| `Expressions.GetExpression` | lib/converter.h:223-240 | negative exactly when formatting fails or the length does not fit an `int`; otherwise the full length excluding the null, also when the buffer is too short; writes only the truncated expression and its null into the first `max` characters and nothing beyond |

## Left out

- `cv_convert_float` and `cv_convert_floats` (lib/converter.h:159-202): they add only single-precision rounding. All values here are reals, with no IEEE rounding, infinities or NaNs.
- The numerics of `log` and `pow`: they are uninterpreted (`Libm`). The model uses a logarithm in a given base, not a natural logarithm divided by the logarithm of the base. No analytic identity is proved.
- `ConvertDouble` on the inverse converter at x = 0: IEEE gives an infinity, which reals do not have. The model returns 0 there, and no contract depends on that value.
- Memory-allocation failure in the factories and in `cv_combine`: the model never fails to allocate. The always-succeeding factories therefore always return a converter.
- `cv_free` (lib/converter.h:150-157) and ownership transfer: converters are values, so nothing is freed twice or leaked.
- Passing a NULL converter to `cv_convert_double`, `cv_convert_doubles` or `cv_get_expression` is a caller error. The converter argument is therefore never optional. A NULL `in` is not modelled either; `in` is always an array.
- Pointers into different objects are different arrays, which never overlap. Overlap is modelled only within one array.
- The text of a rendered expression (operator spelling, parentheses, number formatting): `lib/converter.h` does not show it. `GetExpression` takes the formatter as the parameter `format`.
- `GetScale`, `GetOffset`, `GetGalilean`: they never return the trivial converter, even for slope 1, intercept 0 or Galilean(1, 0). The header does not say whether such arguments give back the trivial converter. Because `Combine` elides only the trivial converter, `Combine(GetScale(1.0), c)` builds a composite here rather than returning `c` itself.
- `GetExpression`: a length greater than `INT_MAX` gives a negative result. This is a rule of the model, after the C `int` return type; the header says only that a negative value means an error.
- `GetExpression`: on an error it writes nothing, though the C buffer's contents are then unspecified. This is a choice of the model.
- `GetExpression`: a NULL buffer is modelled as a null array with `max` = 0.
- `GetExpression`: one Dafny `char` stands for one C byte, so the length of the expression is its byte count and `max` is the buffer size in bytes.
- The `extern "C"` and `EXTERNL` linkage macros (lib/converter.h:28-34).

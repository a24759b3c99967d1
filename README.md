# nr containers in Dafny

A model of the owning containers and scalar helpers of namespace `nr` in
`nr.hpp` (the base header of a Numerical Recipes port):

- `Vector<T>` (module `Vectors`): a class with the source's two fields.
  `size` is the stored count `m_size`. `data` is the owned buffer `m_data`,
  an `array?<T>` that is `null` exactly when `size <= 0`. Its constructors,
  copy constructor and copy assignment fill the buffer with the source's
  element-by-element loops. The subscript operator is split into a read
  (`At`) and a write (`Put`). Each takes a `checkBounds` flag that stands
  for the `_CHECKBOUNDS_` build switch. With the flag on, an out-of-range
  subscript yields the fault `IndexOutOfRange("Vector subscript out of
  bounds")`. With it off, an out-of-range subscript is undefined behaviour,
  so staying in range becomes a precondition. `print` returns the text it
  would write; each element's stream form (`operator<<` on `T`) is the
  parameter `show`.
- `Matrix<T>` (module `Matrices`): a class with `rows`, `columns` and
  `data`. `data` is an array of row pointers, each row a separately
  allocated buffer. The three constructors the header defines are modelled.
  Ghost `Contents` and `Repr` give the cells and the footprint, in the style
  of a dynamic-frames object invariant.
- `sqr`, `max`, `min` and `sign` (module `Scalars`) are the generic
  same-type templates, taken at `int`. `swap` exchanges two variables
  passed by reference, each modelled as a `Cell`.
- Module `Render` defines the printed form independently of the printing
  loop, together with `Split`, which reads the form back.
- Module `VectorLaws` holds client-level laws that span several operations:
  - a write to a copy, or to the target of an assignment, leaves the source
    unchanged;
  - `Vector(3, {1,2,3})` prints `[1 2 3]`.

Where the code behaves unusually, the model keeps the code's behaviour:
- `Vector(n)`, `Vector(n, a)` and `Vector(n, src)` store a negative `n` as
  the size, with no buffer (nr.hpp:182, 191, 202). `size()` then returns
  that negative number, and every bounds-checked subscript fails.
- `Matrix(m, n)` keeps non-positive dimensions as given, with no storage.
- `Matrix` declares a copy constructor, an assignment operator, a row
  subscript, `rows()` and `columns()`, but never defines them. They are not
  modelled.
- `operator=` reads `rhs[i]` through the non-const `operator[]` on a
  `const Vector &` (nr.hpp:231). A C++ compiler rejects that when the
  template is instantiated. The model reads the element directly, which is
  what the loop evidently means.

## Model

| member | source | states |
|---|---|---|
| `Scalars.Sqr` | nr.hpp:128-129 | the square is non-negative and zero exactly for zero |
| `Scalars.SqrEven` | nr.hpp:128-129 | squaring ignores the sign of the argument |
| `Scalars.SqrMonotone` | nr.hpp:128-129 | a larger magnitude never has a smaller square |
| `Scalars.Max` | nr.hpp:131-134 | the result is one of the two arguments and at least both |
| `Scalars.Min` | nr.hpp:144-147 | the result is one of the two arguments and at most both |
| `Scalars.MinMax` | nr.hpp:131-147 | `min(a,b) <= max(a,b)`, and the two together are `a` and `b` |
| `Scalars.Sign` | nr.hpp:157-160 | the magnitude of `a`; non-negative when `b >= 0` (including `b == 0`), non-positive when `b < 0` |
| `Scalars.SignUnique` | nr.hpp:157-160 | the magnitude and sign laws determine `sign(a,b)` uniquely |
| `Scalars.Swap` | nr.hpp:170-175 | each variable ends holding the other's former value (a no-op when both are the same variable) |
| `Vectors.Vector.constructor` | nr.hpp:177-178 | size 0, no buffer, no elements |
| `Vectors.Vector.Sized` | nr.hpp:180-187 | size is `n` as given; a fresh buffer of `n` unconstrained elements when `n > 0`, none otherwise |
| `Vectors.Vector.Filled` | nr.hpp:189-198 | size `n`; every one of the `n` elements equals `a`; no buffer when `n <= 0` |
| `Vectors.Vector.FromArray` | nr.hpp:200-209 | size `n`; element `i` equals `src[i]` for every `i` in `[0,n)`; no buffer when `n <= 0` |
| `Vectors.Vector.Copy` | nr.hpp:211-220 | same size and elements as `rhs`, held in freshly allocated storage |
| `Vectors.Vector.Assign` | nr.hpp:222-234 | afterwards the size and elements are those `rhs` had, `rhs` is unchanged, the buffer is kept when the sizes matched and is fresh (or absent) otherwise; self-assignment changes nothing |
| `Vectors.Vector.At` | nr.hpp:236-244 | fails with "Vector subscript out of bounds" exactly when `i` is negative or at least `size`, otherwise yields element `i`; unchecked access requires an in-range index |
| `Vectors.Vector.Put` | nr.hpp:236-244 | a write through the subscript fails exactly when out of range and otherwise changes element `i` and nothing else |
| `Vectors.Vector.Size` | nr.hpp:264-267 | the stored count, which equals the number of elements whenever it is positive |
| `Vectors.Vector.Print` | nr.hpp:253-262 | the output loop produces exactly the rendered form: nothing for an empty vector, otherwise `[`, the elements separated by single spaces, `]` and a newline |
| `Render.SplitJoin` | nr.hpp:257-259 | the space-separated element list splits back into the elements when no element's text holds a space |
| `Render.RenderedRoundTrip` | nr.hpp:253-262 | the printed text is empty exactly for an empty vector; otherwise it is bracketed, ends in a newline and its inside reads back as the shown elements |
| `VectorLaws.CopyThenWrite` | nr.hpp:211-220 | writing into a copy changes the copy only; the original, which may not be modified, keeps its elements |
| `VectorLaws.AssignThenWrite` | nr.hpp:222-234 | after `a = b`, writing into `a` leaves `b`'s size and elements unchanged |
| `VectorLaws.PrintExample` | nr.hpp:253-262 | a vector built from `{1,2,3}` prints exactly `[1 2 3]` and a newline |
| `VectorLaws.IntRoundTrip` | nr.hpp:253-262 | the printed text of any non-empty integer vector reads back as the decimal forms of its elements |
| `Matrices.Matrix.constructor` | nr.hpp:275-276 | zero rows and columns, no storage |
| `Matrices.Matrix.AllocateRows` | nr.hpp:279-289 | when both dimensions are positive, `m` fresh, distinct row buffers of `n` cells each; otherwise no storage |
| `Matrices.Matrix.Sized` | nr.hpp:278-289 | dimensions as given; `m` rows of `n` unconstrained cells when both are positive, no storage otherwise |
| `Matrices.Matrix.Filled` | nr.hpp:290-307 | dimensions as given; every cell `(i,j)` equals `a` when both are positive; no storage otherwise |

## Left out

- Console output (`std::cout`, `printf`): `print` is modelled as the text it writes. Formatting an element with `operator<<` is the parameter `show`. `Render.Decimal` renders `int`.
- The fault machinery (the `throw` macro, `NRerror`, `NRcatch` and its `exit(1)`): a bounds failure is the value `IndexOutOfRange(message)`. The file and line in the diagnostic, and process termination, are not modelled.
- Allocation failure: Dafny's `new` cannot fail.
- The `float`/`double` overloads of `max`, `min` and `sign`: they narrow floating-point values, which this model does not represent.
- Scalars.Sqr, Scalars.Sign: unbounded `int`, so the overflow of `a * a` and of `-a` at the most negative value of a fixed-width type is not modelled.
- Scalars.Max, Scalars.Min: modelled on `int` and by value. The source returns a reference to the chosen argument (`b` for `max` only when `b > a`, `a` for `min` only when `a < b`); the model keeps that choice but not the reference.
- The `std::vector` alias under `_USESTDVECTOR_`: it stands for a library type that is not part of this model.
- The destructor and `delete[]`: Dafny's heap has no explicit release, so freeing exactly once and leak freedom cannot be stated.
- A global "every live vector owns its buffer alone" invariant: it spans all objects and is not expressed. `Copy` states freshness, `Assign` states reuse-or-fresh, and `VectorLaws.AssignThenWrite` assumes the two vectors own distinct buffers.
- The `Matrix` members that are declared but not defined (pointer constructor, copy constructor, `operator=`, `operator[]`, `rows`, `columns`, destructor): there is no behaviour to model.
- The commented-out `zeros`.

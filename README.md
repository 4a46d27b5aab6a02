# Strided spans and the subtensor core of Boost.uBLAS tensors

This project models two pieces of the tensor indexing layer of Boost.uBLAS
(the GSoC 2021 tensor extension) and proves properties of them in Dafny 4.11.

- **`span`** (module `Spans`, `span.dfy`): a half-open strided selector
  `(first, step, last)` over one dimension. It is a datatype; the rule "a zero step
  only when `first == last`" is the subset type `ValidSpan`. The four constructors,
  the `ran` helpers, element mapping `s[idx]`, composition `a(b)` and equality are
  functions. The lemmas prove that composition never fails, that it agrees with
  indexing, that the full span is a left identity and that composition is
  associative.
- **`tensor_core<subtensor_engine<T>>`** (module `Subtensors`, `subtensor.dfy`): a
  class whose fields are `extents`, `strides` and a flat `container` array. It has
  the shape constructor, the checked multi-index and linear `at`, `operator()`,
  `operator[]`, scalar fill, `swap`, copy assignment through a copy and a swap, the
  Einstein-placeholder call and the shape queries. The read-only queries are
  functions that read the object. The mutating operations are methods whose
  `ensures` give the new container in terms of the old one.
- `errors.dfy` (module `Errors`) holds the error values: `InvalidArgument`,
  `RuntimeError` and `OutOfRange`. These stand for the three standard exceptions.

Collaborators that the core calls but does not define are modelled as follows:

- The layout's stride rule `to_strides` is a function parameter of the constructor.
  The only thing required of it is that it returns one stride per dimension.
- `to_index` is the dot product `sum_r strides[r] * i[r]` (`ToIndex`).
- `product` is the product of the sizes (`Product`). It is defined for non-empty
  shapes only, because its value on an empty shape is not visible.
- The backing `std::vector::at` is `Lookup`. It fails with out-of-range at or past
  the size.

Where the code and its documentation disagree, the model follows the code:

- `span(f, s, l)` with a zero step over a non-empty range throws
  `std::runtime_error` (span.hpp:79), not an invalid-argument error. The model
  returns `RuntimeError`.
- `span(l)` is documented as covering one index, but it delegates to
  `span(0, 1, l)`. The model keeps that: `SingleSelectsPrefix` shows it selects
  positions `0 .. l-1`.
- `operator()` with exactly one integral index resolves to the linear `at(i)`,
  which does no order check (`CallWithOneIndexIsLinear`). Multi-index `at` needs
  at least two indices, so `AtMulti` requires `|idx| >= 2`. A call with no index
  at all does not compile in C++, so `Call` requires at least one.

## Model

| member | source | states |
|---|---|---|
| `Spans.Strided` | include/boost/numeric/ublas/tensor/span.hpp:71-81 | `span(f,s,l)` fails, with the runtime error, exactly when `s == 0 && f != l`; otherwise its fields are exactly `f, s, l` and it satisfies the span rule |
| `Spans.StridedAcceptsExactlyValid` | include/boost/numeric/ublas/tensor/span.hpp:73-81 | the checked constructor accepts a triple if and only if the triple satisfies the span rule |
| `Spans.ZeroStepExamples` | include/boost/numeric/ublas/tensor/span.hpp:78-79 | `span(1,0,5)` fails and `span(1,0,1)` succeeds |
| `Spans.Full` | include/boost/numeric/ublas/tensor/span.hpp:38-54 | the default span is `(first 0, step 1, last PTRDIFF_MAX)` |
| `Spans.Single` | include/boost/numeric/ublas/tensor/span.hpp:56-62 | `span(l)` is what `span(0,1,l)` builds, and that construction cannot fail |
| `Spans.Range` | include/boost/numeric/ublas/tensor/span.hpp:64-69 | `span(f,l)` is what `span(f,1,l)` builds, and that construction cannot fail |
| `Spans.DelegatingConstructors` | include/boost/numeric/ublas/tensor/span.hpp:56-69 | `span(l)` has fields `(0,1,l)` and `span(f,l)` has fields `(f,1,l)` |
| `Spans.RanForwardsToSpan` | include/boost/numeric/ublas/tensor/span.hpp:123-133 | `ran(f,l)` equals `span(f,l)` and `ran(f,s,l)` equals `span(f,s,l)`, error included |
| `Spans.Ran` | include/boost/numeric/ublas/tensor/span.hpp:123-127 | `ran(f,l)` is the span `(f,1,l)`, built by a construction that cannot fail |
| `Spans.Ran3` | include/boost/numeric/ublas/tensor/span.hpp:129-133 | `ran(f,s,l)` fails exactly when `s == 0 && f != l`, and otherwise is the span `(f,s,l)` |
| `Spans.SingleSelectsPrefix` | include/boost/numeric/ublas/tensor/span.hpp:56-62 | position `i` of `span(l)` is `i` and lies in `[first, last)` for every `i < l`: it covers `l` positions, not one index |
| `Spans.At` | include/boost/numeric/ublas/tensor/span.hpp:104-107 | `s[idx]` equals `first` exactly when `idx == 0` or the step is zero |
| `Spans.AtSteps` | include/boost/numeric/ublas/tensor/span.hpp:104-107 | `s[0] == first`, and each further position moves by `step` |
| `Spans.Compose` | include/boost/numeric/ublas/tensor/span.hpp:109-116 | for valid spans, composition never raises the zero-step error; its fields are `(b.first*a.step + a.first, a.step*b.step, b.last*a.step + a.first)` |
| `Spans.ComposeAgreesWithAt` | include/boost/numeric/ublas/tensor/span.hpp:104-116 | `a(b)[i] == a[b[i]]` for every natural `i` with `b[i] >= 0` |
| `Spans.FullIsLeftIdentity` | include/boost/numeric/ublas/tensor/span.hpp:109-116 | composing the full span with `b` gives `b` back |
| `Spans.ComposeAssociative` | include/boost/numeric/ublas/tensor/span.hpp:109-116 | `(a(b))(c) == a(b(c))` for all valid spans |
| `Spans.Equal` | include/boost/numeric/ublas/tensor/span.hpp:144-150 | `==` holds exactly when the two triples are equal |
| `Spans.NotEqual` | include/boost/numeric/ublas/tensor/span.hpp:153-159 | `!=` holds exactly when the two triples differ |
| `Spans.EqualIsEquivalence` | include/boost/numeric/ublas/tensor/span.hpp:144-150 | `==` is reflexive, symmetric and transitive |
| `Spans.UnequalExample` | include/boost/numeric/ublas/tensor/span.hpp:144-159 | `span(1,2,5) != span(1,1,9)` |
| `Subtensors.Lookup` | include/boost/numeric/ublas/tensor/tensor/subtensor.hpp:150 | the container's checked access succeeds exactly below the size and then yields that element; otherwise it is out-of-range |
| `Subtensors.LookupAfterUpdate` | include/boost/numeric/ublas/tensor/tensor/subtensor.hpp:248-251 | after writing `v` at `k`, reading `k` gives `v` and every other position reads as before |
| `Subtensors.Product` | include/boost/numeric/ublas/tensor/tensor/subtensor.hpp:93 | the element count of a non-empty shape is zero exactly when one of its sizes is zero |
| `Subtensors.ToIndex` | include/boost/numeric/ublas/tensor/tensor/subtensor.hpp:149 | the stride-weighted offset of the all-zero multi-index is 0 under any strides |
| `Subtensors.ToIndexUnitStep` | include/boost/numeric/ublas/tensor/tensor/subtensor.hpp:149 | one step along dimension `r` moves the linear offset by `strides[r]` |
| `Subtensors.ToIndexRank3` | include/boost/numeric/ublas/tensor/tensor/subtensor.hpp:149 | for three indices the offset is `strides[0]*i + strides[1]*j + strides[2]*k` |
| `Subtensors.TensorCore.constructor` | include/boost/numeric/ublas/tensor/tensor/subtensor.hpp:88-95 | after construction `extents` is the shape, `strides` is the layout's strides for it (one per dimension), and the container holds `product(shape)` fresh elements, each equal to the value-initialised element `init` |
| `Subtensors.TensorCore.Copy` | include/boost/numeric/ublas/tensor/tensor/subtensor.hpp:118-122 | the by-value copy of the argument has the same extents, strides and elements, in a fresh container |
| `Subtensors.TensorCore.Size` | include/boost/numeric/ublas/tensor/tensor/subtensor.hpp:336 | `size()` is the product of the extents |
| `Subtensors.TensorCore.SizeOf` | include/boost/numeric/ublas/tensor/tensor/subtensor.hpp:337 | `size(r)` fails out-of-range exactly when `r >= rank()`, and otherwise is `extents[r]` |
| `Subtensors.TensorCore.Rank` | include/boost/numeric/ublas/tensor/tensor/subtensor.hpp:338 | `rank()` is the number of extents, which is also the number of strides |
| `Subtensors.TensorCore.Order` | include/boost/numeric/ublas/tensor/tensor/subtensor.hpp:339 | `order()` equals `rank()`: the lengths of extents and strides |
| `Subtensors.TensorCore.Empty` | include/boost/numeric/ublas/tensor/tensor/subtensor.hpp:332-335 | `empty()` holds exactly when `size() == 0`, which is exactly when some extent is zero |
| `Subtensors.TensorCore.AtLinear` | include/boost/numeric/ublas/tensor/tensor/subtensor.hpp:236-240 | `at(i)` fails out-of-range exactly when `i >= size()`, and otherwise yields `container[i]` |
| `Subtensors.TensorCore.AtMulti` | include/boost/numeric/ublas/tensor/tensor/subtensor.hpp:140-151 | `at(i1,i2,...)` fails with invalid-argument exactly when the index count differs from `order()`; it fails out-of-range exactly when the count matches and the stride-weighted offset is at or past `size()`; with the right count it is exactly linear `at` of that offset, so an in-range offset yields the element there |
| `Subtensors.TensorCore.Call` | include/boost/numeric/ublas/tensor/tensor/subtensor.hpp:186-190 | `operator()` with one index is exactly linear `at(i)`, with no order check; with two or more it is exactly multi-index `at` |
| `Subtensors.TensorCore.Get` | include/boost/numeric/ublas/tensor/tensor/subtensor.hpp:213-216 | `operator[](i)`, for `i < size()`, yields the same element that the checked `at(i)` yields |
| `Subtensors.TensorCore.Einstein` | include/boost/numeric/ublas/tensor/tensor/subtensor.hpp:262-273 | the Einstein call fails with invalid-argument exactly when the tag count differs from `order()`; otherwise it pairs this tensor with the tags in the given order |
| `Subtensors.TensorCore.SetLinear` | include/boost/numeric/ublas/tensor/tensor/subtensor.hpp:248-251 | writing through `at(i)` fails exactly when reading `at(i)` would, and then changes nothing; otherwise only element `i` changes, to `v` |
| `Subtensors.TensorCore.SetMulti` | include/boost/numeric/ublas/tensor/tensor/subtensor.hpp:163-174 | writing through `at(i1,i2,...)` fails with the same error as the read would, and then changes nothing; otherwise only the element at the stride-weighted offset changes, to `v` |
| `Subtensors.TensorCore.SetCall` | include/boost/numeric/ublas/tensor/tensor/subtensor.hpp:202-205 | writing through `operator()` fails exactly when reading through it would; otherwise it writes the linear or the stride-weighted position, as its read does |
| `Subtensors.TensorCore.Put` | include/boost/numeric/ublas/tensor/tensor/subtensor.hpp:224-227 | writing through `operator[](i)`, for `i < size()`, changes element `i` to `v` and nothing else |
| `Subtensors.TensorCore.Fill` | include/boost/numeric/ublas/tensor/tensor/subtensor.hpp:124-128 | scalar assignment makes every element `v`; extents, strides and size are unchanged |
| `Subtensors.TensorCore.Assign` | include/boost/numeric/ublas/tensor/tensor/subtensor.hpp:117-122 | copy assignment leaves this tensor's extents, strides and elements equal to the source's, in a fresh container; the source is unchanged |
| `Subtensors.Swap` | include/boost/numeric/ublas/tensor/tensor/subtensor.hpp:275-280 | `swap` exchanges extents, strides and the container handles exactly, and keeps both tensors well-formed |
| `Subtensors.SwapTwice` | include/boost/numeric/ublas/tensor/tensor/subtensor.hpp:275-280 | swapping twice gives both tensors back their own extents, strides and containers |
| `Subtensors.CallWithOneIndexIsLinear` | include/boost/numeric/ublas/tensor/tensor/subtensor.hpp:186-190 | `t(i)` is `t.at(i)`, so on a tensor of order two or more a single in-range index succeeds with no order check |
| `Subtensors.MultiIndexIsLinearAtOffset` | include/boost/numeric/ublas/tensor/tensor/subtensor.hpp:140-151 | for a rank-3 tensor, `at(i,j,k)` equals linear `at(strides[0]*i + strides[1]*j + strides[2]*k)` |
| `Subtensors.MultiIndexNeighbour` | include/boost/numeric/ublas/tensor/tensor/subtensor.hpp:140-151 | increasing index `r` by one reads the linear position `strides[r]` further on |
| `Subtensors.IndicesAreNotCheckedPerDimension` | include/boost/numeric/ublas/tensor/tensor/subtensor.hpp:140-151 | with extents `(2,3)` and strides `(1,2)`, `at(2,0)` succeeds although `2 >= size(0)` |
| `Subtensors.ShapeScenario` | include/boost/numeric/ublas/tensor/tensor/subtensor.hpp:336-339 | a tensor of shape `(3,4,2)` has size 24, rank 3 and sizes 3, 4 and 2; `size(3)` is out-of-range |
| `Subtensors.WrongArityScenario` | include/boost/numeric/ublas/tensor/tensor/subtensor.hpp:140-147 | two indices on a rank-3 tensor fail with invalid-argument; two Einstein tags fail and three succeed |
| `Subtensors.FillScenario` | include/boost/numeric/ublas/tensor/tensor/subtensor.hpp:124-128 | assigning `v` to a tensor of shape `(2,2)` makes all four elements `v` |
| `Subtensors.WriteThenRead` | include/boost/numeric/ublas/tensor/tensor/subtensor.hpp:163-174 | on any valid tensor, after a successful write of `v` through `at(i1,i2,...)`, reading the same indices gives `v`; the write fails exactly when the read does |

## Left out

- Machine integers: spans and indices are unbounded `int`/`nat`. Overflow in `first + idx*step` and in composition is not modelled. Neither is the `size_t`-times-`ptrdiff_t` mixing (span.hpp:106, 113-115), nor the unused `min` constant (span.hpp:39).
- Negative values passed where the C++ takes `size_t`: `Spans.At` and all tensor indices take natural numbers, so the wrap-around of a negative `b[i]` converted to `size_t` is outside the model. `ComposeAgreesWithAt` therefore requires `b[i] >= 0`.
- The span copy constructor and copy assignment (span.hpp:83-96): Dafny datatype values are copied by value with all three fields, so there is no separate member.
- The accessors `first()`, `last()` and `step()`, and the tensor's `strides()` and `extents()`, are the datatype destructors and the class fields themselves.
- Stream output `operator<<` (span.hpp:138-142): I/O.
- Expression assignment `operator=(tensor_expression)` and `detail::eval` (subtensor.hpp:110-115): the evaluator is not part of this model.
- The internals of `to_strides`, `to_index` and `product` (subtensor.hpp:92-93, 149), and so any particular layout. These are stood in for as described above.
- `Subtensors.Product`: defined only for non-empty shapes, so the constructor requires at least one size; a rank-0 tensor is not modelled.
- Iterators (subtensor.hpp:46-47, 72-76, 283-330): `subtensor_iterator` is an empty struct, and `begin`/`end`/`rbegin` only forward to the container.
- The const-qualified variant (subtensor.hpp:49-70): a C++ type-level concern. Only the mutable variant is modelled.
- `data()`, `base()` (raw storage access) and `make_subtensor` (subtensor.hpp:343-364): `make_subtensor` relies on `subtensor_engine` and on a constructor that are not part of this model.
- Exception machinery and `noexcept`: failures are `Result`/`Outcome` values.
- The element type's value-initialisation `T{}` is not computed: the constructor takes the initial element value as the parameter `init`.
- Einstein placeholder tags are natural numbers standing for `index::index_type<I>`.

/** A half-open strided selector (first, step, last) over one tensor dimension,
    with its constructors, element mapping, composition and equality. Values are
    unbounded integers: machine overflow is not modelled. */
module Spans {
  import opened Errors

  /** The largest ptrdiff_t on a 64-bit target; the "to the end" sentinel. */
  const PtrdiffMax: int := 0x7FFF_FFFF_FFFF_FFFF

  datatype Span = Span(first: int, step: int, last: int)

  /** The rule every constructed span obeys: a zero step only over an empty range. */
  predicate Valid(s: Span) {
    s.step != 0 || s.first == s.last
  }

  /** The spans the C++ constructors can produce. */
  type ValidSpan = s: Span | Valid(s) witness Span(0, 1, 0)

  /** span(f, s, l): throws runtime_error when the step is zero over a non-empty range. */
  function Strided(f: int, s: int, l: int): (r: Result<ValidSpan>)
    ensures r.Err? <==> s == 0 && f != l
    ensures r.Err? ==> r.error == RuntimeError
    ensures r.Ok? ==> r.value == Span(f, s, l)
  {
    if s == 0 && f != l then Err(RuntimeError) else Ok(Span(f, s, l))
  }

  /** span(): the full selector of one dimension. */
  function Full(): (r: ValidSpan)
    ensures r.first == 0 && r.step == 1 && r.last == PtrdiffMax
  {
    Span(0, 1, PtrdiffMax)
  }

  /** span(l): delegates to span(0, 1, l), which cannot throw. */
  function Single(l: int): (r: ValidSpan)
    ensures Strided(0, 1, l) == Ok(r)
  {
    Strided(0, 1, l).value
  }

  /** span(f, l): delegates to span(f, 1, l), which cannot throw. */
  function Range(f: int, l: int): (r: ValidSpan)
    ensures Strided(f, 1, l) == Ok(r)
  {
    Strided(f, 1, l).value
  }

  /** ran(f, l): forwards to span(f, l), so it cannot fail. */
  function Ran(f: int, l: int): (r: ValidSpan)
    ensures r == Span(f, 1, l)
    ensures Strided(f, 1, l) == Ok(r)
  {
    Range(f, l)
  }

  /** ran(f, s, l): forwards to span(f, s, l), zero-step error included. */
  function Ran3(f: int, s: int, l: int): (r: Result<ValidSpan>)
    ensures r.Err? <==> s == 0 && f != l
    ensures r.Ok? ==> r.value == Span(f, s, l)
  {
    Strided(f, s, l)
  }

  /** s[idx]: the value at position idx of the selection; not checked against last.
      Only position 0, or any position of a zero-step span, lands on first. */
  function At(s: Span, idx: nat): (r: int)
    ensures r == s.first <==> idx == 0 || s.step == 0
  {
    s.first + idx * s.step
  }

  /** a(b): b re-expressed in a's index space, built with the checked constructor.
      For valid spans the zero-step error cannot arise. */
  function Compose(a: ValidSpan, b: ValidSpan): (r: Result<ValidSpan>)
    ensures r.Ok?
    ensures r.value.first == b.first * a.step + a.first
    ensures r.value.step == a.step * b.step
    ensures r.value.last == b.last * a.step + a.first
  {
    Strided(b.first * a.step + a.first, a.step * b.step, b.last * a.step + a.first)
  }

  /** operator==: structural equality on the triple, which is value equality. */
  function Equal(a: Span, b: Span): (r: bool)
    ensures r <==> a == b
  {
    a.first == b.first && a.last == b.last && a.step == b.step
  }

  /** operator!=: the negation of operator==. */
  function NotEqual(a: Span, b: Span): (r: bool)
    ensures r <==> a != b
  {
    !Equal(a, b)
  }

  // ---------------------------------------------------------------------------
  // Constructors

  /** The checked constructor accepts exactly the triples that satisfy the span rule. */
  lemma StridedAcceptsExactlyValid(f: int, s: int, l: int)
    ensures Strided(f, s, l).Ok? <==> Valid(Span(f, s, l))
  {
  }

  lemma ZeroStepExamples()
    ensures Strided(1, 0, 5) == Err(RuntimeError)
    ensures Strided(1, 0, 1) == Ok(Span(1, 0, 1))
  {
  }

  /** span(l) is span(0, 1, l), and span(f, l) is span(f, 1, l). */
  lemma DelegatingConstructors(f: int, l: int)
    ensures Single(l) == Span(0, 1, l)
    ensures Range(f, l) == Span(f, 1, l)
  {
  }

  /** ran(f, l) and ran(f, s, l) build the same spans as the constructors. */
  lemma RanForwardsToSpan(f: int, s: int, l: int)
    ensures Ran(f, l) == Range(f, l)
    ensures Ran3(f, s, l) == Strided(f, s, l)
  {
  }

  /** Although documented as "one index", span(l) selects the l positions 0 .. l-1. */
  lemma SingleSelectsPrefix(l: int, i: nat)
    requires i < l
    ensures At(Single(l), i) == i
    ensures Single(l).first <= At(Single(l), i) < Single(l).last
  {
  }

  // ---------------------------------------------------------------------------
  // Element mapping

  /** Position 0 is first, and each further position moves by one step. */
  lemma AtSteps(s: Span, idx: nat)
    ensures At(s, 0) == s.first
    ensures At(s, idx + 1) == At(s, idx) + s.step
  {
  }

  // ---------------------------------------------------------------------------
  // Composition

  /** a(b)[i] == a[b[i]] whenever b[i] is a valid (non-negative) position of a. */
  lemma ComposeAgreesWithAt(a: ValidSpan, b: ValidSpan, i: nat)
    requires At(b, i) >= 0
    ensures Compose(a, b).Ok? && At(Compose(a, b).value, i) == At(a, At(b, i))
  {
  }

  lemma MulAssoc(x: int, y: int, z: int)
    ensures x * (y * z) == (x * z) * y
  {
  }

  /** The full span is a left identity of composition. */
  lemma FullIsLeftIdentity(b: ValidSpan)
    ensures Compose(Full(), b) == Ok(b)
  {
  }

  /** Composition is associative: a view of a view of a view is one view. */
  lemma ComposeAssociative(a: ValidSpan, b: ValidSpan, c: ValidSpan)
    ensures Compose(a, b).Ok? && Compose(b, c).Ok?
    ensures Compose(Compose(a, b).value, c) == Compose(a, Compose(b, c).value)
  {
    AffineNested(a.first, a.step, b.first, b.step, c.first);
    AffineNested(a.first, a.step, b.first, b.step, c.last);
    MulAssoc(c.step, b.step, a.step);
    assert (a.step * b.step) * c.step == a.step * (b.step * c.step);
  }

  /** The inner affine map followed by the outer one is a single affine map. */
  lemma AffineNested(outerFirst: int, outerStep: int, innerFirst: int, innerStep: int, x: int)
    ensures (x * innerStep + innerFirst) * outerStep + outerFirst
         == x * (outerStep * innerStep) + (innerFirst * outerStep + outerFirst)
  {
  }

  // ---------------------------------------------------------------------------
  // Equality

  lemma EqualIsEquivalence(a: Span, b: Span, c: Span)
    ensures Equal(a, a)
    ensures Equal(a, b) ==> Equal(b, a)
    ensures Equal(a, b) && Equal(b, c) ==> Equal(a, c)
  {
  }

  /** Two spans with overlapping selections but different triples are unequal. */
  lemma UnequalExample()
    ensures NotEqual(Strided(1, 2, 5).value, Strided(1, 1, 9).value)
  {
  }
}

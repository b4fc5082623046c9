/** Polynomials over a field of characteristic two: evaluation, division by a linear factor, interpolation. */
module Fields {
  /** In characteristic two subtraction is addition. */
  datatype Field<!E> = Field(zero: E, one: E, add: (E, E) -> E, times: (E, E) -> E, inverse: E -> E)

  ghost predicate Laws<E>(f: Field<E>, a: E, b: E, c: E) {
    && f.add(f.add(a, b), c) == f.add(a, f.add(b, c))
    && f.add(a, b) == f.add(b, a)
    && f.add(a, f.zero) == a && f.add(a, a) == f.zero
    && f.times(f.times(a, b), c) == f.times(a, f.times(b, c))
    && f.times(a, b) == f.times(b, a)
    && f.times(a, f.one) == a && f.times(a, f.zero) == f.zero
    && f.times(a, f.add(b, c)) == f.add(f.times(a, b), f.times(a, c))
    && (a != f.zero ==> f.times(a, f.inverse(a)) == f.one)
  }

  ghost predicate IsField<E(!new)>(f: Field<E>) {
    forall a, b, c :: Laws(f, a, b, c)
  }

  /** The value at t of the polynomial with these coefficients, constant term first. */
  function Eval<E>(f: Field<E>, p: seq<E>, t: E): E {
    if p == [] then f.zero else f.add(p[0], f.times(t, Eval(f, p[1..], t)))
  }

  // ---------- two identities ----------

  /** c + u + w from two sums that share v. */
  lemma Cancel<E(!new)>(f: Field<E>, c: E, u: E, v: E, w: E)
    requires IsField(f)
    ensures f.add(f.add(c, v), f.add(f.add(u, v), w)) == f.add(c, f.add(u, w))
  {
    var s := f.add(u, w);
    assert Laws(f, u, v, w) && Laws(f, v, u, w);
    assert f.add(f.add(u, v), w) == f.add(v, s);
    assert Laws(f, f.add(c, v), v, s) && Laws(f, c, v, v) && Laws(f, v, v, v) && Laws(f, c, c, c);
  }

  /** c + t e for e == r + (t + x) g, with the factor t + x taken out. */
  lemma TakeOut<E(!new)>(f: Field<E>, c: E, t: E, x: E, r: E, g: E)
    requires IsField(f)
    ensures f.add(c, f.times(t, f.add(r, f.times(f.add(t, x), g))))
            == f.add(f.add(c, f.times(x, r)), f.times(f.add(t, x), f.add(r, f.times(t, g))))
  {
    var d := f.add(t, x);
    var u, v, w := f.times(t, r), f.times(x, r), f.times(d, f.times(t, g));
    assert Laws(f, t, r, f.times(d, g)) && Laws(f, t, d, g) && Laws(f, d, t, g);
    assert f.times(t, f.add(r, f.times(d, g))) == f.add(u, w);
    assert Laws(f, d, r, f.times(t, g)) && Laws(f, d, r, r) && Laws(f, r, t, x);
    assert Laws(f, r, x, x) && Laws(f, t, r, r) && Laws(f, x, r, r);
    assert f.times(d, f.add(r, f.times(t, g))) == f.add(f.add(u, v), w);
    Cancel(f, c, u, v, w);
  }

  /** The remainder and the quotient of a division by t + x: one coefficient fewer. */
  function Quotient<E>(f: Field<E>, p: seq<E>, x: E): (q: seq<E>)
    ensures |q| == if p == [] then 0 else |p| - 1
  {
    if |p| <= 1 then [] else [Eval(f, p[1..], x)] + Quotient(f, p[1..], x)
  }

  lemma {:induction false} Division<E(!new)>(f: Field<E>, p: seq<E>, x: E, t: E)
    requires IsField(f)
    ensures Eval(f, p, t) == f.add(Eval(f, p, x), f.times(f.add(t, x), Eval(f, Quotient(f, p, x), t)))
  {
    var d := f.add(t, x);
    if p == [] {
      assert Laws(f, d, d, d) && Laws(f, f.zero, f.zero, f.zero);
    } else if |p| == 1 {
      assert p[1..] == [];
      assert Laws(f, d, d, d) && Laws(f, t, t, t) && Laws(f, x, x, x) && Laws(f, p[0], p[0], p[0]);
    } else {
      Division(f, p[1..], x, t);
      TakeOut(f, p[0], t, x, Eval(f, p[1..], x), Eval(f, Quotient(f, p[1..], x), t));
      assert Quotient(f, p, x)[1..] == Quotient(f, p[1..], x);
    }
  }

  // ---------- interpolation ----------

  datatype Point<E> = Point(x: E, y: E)

  ghost predicate Apart<E>(points: seq<Point<E>>) {
    forall i, j :: 0 <= i < j < |points| ==> points[i].x != points[j].x
  }

  /** The slopes towards the first point. */
  function Slopes<E>(f: Field<E>, first: Point<E>, rest: seq<Point<E>>): (slopes: seq<Point<E>>)
    ensures |slopes| == |rest|
    ensures forall i :: 0 <= i < |rest| ==>
              slopes[i] == Point(rest[i].x, f.times(f.add(rest[i].y, first.y), f.inverse(f.add(rest[i].x, first.x))))
  {
    seq(|rest|, i requires 0 <= i < |rest| =>
      Point(rest[i].x, f.times(f.add(rest[i].y, first.y), f.inverse(f.add(rest[i].x, first.x)))))
  }

  /** The value at t of the polynomial through these points, by Newton's scheme. */
  function Interpolate<E>(f: Field<E>, points: seq<Point<E>>, t: E): E
    decreases |points|
  {
    if points == [] then f.zero
    else f.add(points[0].y, f.times(f.add(t, points[0].x), Interpolate(f, Slopes(f, points[0], points[1..]), t)))
  }

  /** Dividing the rise by the run gives back the slope. */
  lemma SlopeOf<E(!new)>(f: Field<E>, y0: E, d: E, g: E, y: E)
    requires IsField(f) && d != f.zero && y == f.add(y0, f.times(d, g))
    ensures f.times(f.add(y, y0), f.inverse(d)) == g
  {
    var r := f.times(d, g);
    assert Laws(f, r, y0, y0) && Laws(f, y0, r, r);
    assert f.add(y, y0) == r;
    assert Laws(f, g, d, f.inverse(d)) && Laws(f, d, g, g) && Laws(f, g, g, g);
  }

  lemma NonZeroRun<E(!new)>(f: Field<E>, a: E, b: E)
    requires IsField(f) && a != b
    ensures f.add(a, b) != f.zero
  {
    assert Laws(f, a, b, b) && Laws(f, b, b, b) && Laws(f, f.zero, b, b);
  }

  /** Interpolation is exact: through |p| points of a polynomial with |p| coefficients goes only this polynomial. */
  lemma {:induction false} InterpolationIsExact<E(!new)>(f: Field<E>, p: seq<E>, points: seq<Point<E>>, t: E)
    requires IsField(f) && |p| == |points| && Apart(points)
    requires forall i :: 0 <= i < |points| ==> points[i].y == Eval(f, p, points[i].x)
    ensures Interpolate(f, points, t) == Eval(f, p, t)
    decreases |points|
  {
    if points != [] {
      var x0, y0, q := points[0].x, points[0].y, Quotient(f, p, points[0].x);
      var slopes := Slopes(f, points[0], points[1..]);
      forall i | 0 <= i < |slopes|
        ensures slopes[i].y == Eval(f, q, slopes[i].x)
      {
        var x := points[i + 1].x;
        Division(f, p, x0, x);
        NonZeroRun(f, x, x0);
        SlopeOf(f, y0, f.add(x, x0), Eval(f, q, x), points[i + 1].y);
      }
      InterpolationIsExact(f, q, slopes, t);
      Division(f, p, x0, t);
    }
  }

  /** y + (t + x) p(t) as coefficients. */
  function TimesLinear<E>(f: Field<E>, y: E, x: E, p: seq<E>): (q: seq<E>)
    ensures |q| == |p| + 1
    decreases |p|
  {
    if p == [] then [y] else [f.add(y, f.times(x, p[0]))] + TimesLinear(f, p[0], x, p[1..])
  }

  lemma {:induction false} TimesLinearEval<E(!new)>(f: Field<E>, y: E, x: E, p: seq<E>, t: E)
    requires IsField(f)
    ensures Eval(f, TimesLinear(f, y, x, p), t) == f.add(y, f.times(f.add(t, x), Eval(f, p, t)))
    decreases |p|
  {
    var d := f.add(t, x);
    if p == [] {
      assert [y][1..] == [];
      assert Laws(f, d, d, d) && Laws(f, t, t, t);
    } else {
      TimesLinearEval(f, p[0], x, p[1..], t);
      assert TimesLinear(f, y, x, p)[1..] == TimesLinear(f, p[0], x, p[1..]);
      var v := f.times(x, p[0]);
      TakeOut(f, f.add(y, v), t, x, p[0], Eval(f, p[1..], t));
      assert Laws(f, y, v, v) && Laws(f, v, v, v) && Laws(f, y, y, y);
    }
  }

  /** The coefficients of the interpolating polynomial. */
  function Coefficients<E>(f: Field<E>, points: seq<Point<E>>): (p: seq<E>)
    ensures |p| == |points|
    decreases |points|
  {
    if points == [] then []
    else TimesLinear(f, points[0].y, points[0].x, Coefficients(f, Slopes(f, points[0], points[1..])))
  }

  lemma {:induction false} InterpolationIsPolynomial<E(!new)>(f: Field<E>, points: seq<Point<E>>, t: E)
    requires IsField(f)
    ensures Interpolate(f, points, t) == Eval(f, Coefficients(f, points), t)
    decreases |points|
  {
    if points != [] {
      var slopes := Slopes(f, points[0], points[1..]);
      InterpolationIsPolynomial(f, slopes, t);
      TimesLinearEval(f, points[0].y, points[0].x, Coefficients(f, slopes), t);
    }
  }

  /** The interpolating polynomial goes through its points. */
  lemma {:induction false} InterpolationPasses<E(!new)>(f: Field<E>, points: seq<Point<E>>, i: nat)
    requires IsField(f) && Apart(points) && i < |points|
    ensures Interpolate(f, points, points[i].x) == points[i].y
    decreases |points|
  {
    var x0, y0 := points[0].x, points[0].y;
    var slopes := Slopes(f, points[0], points[1..]);
    if i == 0 {
      var g := Interpolate(f, slopes, x0);
      assert Laws(f, x0, x0, x0) && Laws(f, g, f.zero, f.zero) && Laws(f, f.zero, g, g) && Laws(f, y0, y0, y0);
    } else {
      var x, y, d := points[i].x, points[i].y, f.add(points[i].x, x0);
      InterpolationPasses(f, slopes, i - 1);
      NonZeroRun(f, x, x0);
      RiseOf(f, y0, d, y);
    }
  }

  /** Going the run at this slope is the rise. */
  lemma RiseOf<E(!new)>(f: Field<E>, y0: E, d: E, y: E)
    requires IsField(f) && d != f.zero
    ensures f.add(y0, f.times(d, f.times(f.add(y, y0), f.inverse(d)))) == y
  {
    var r := f.add(y, y0);
    assert Laws(f, d, r, f.inverse(d)) && Laws(f, r, d, f.inverse(d)) && Laws(f, r, r, r) && Laws(f, d, d, d);
    assert f.times(d, f.times(r, f.inverse(d))) == r;
    assert Laws(f, y0, y, y0) && Laws(f, y, y0, y0) && Laws(f, y, y, y) && Laws(f, y0, r, r);
  }
}

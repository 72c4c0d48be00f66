/**
 * 3×3 matrices as `invertHomography` in src/util/overlayTransform.js names
 * them: entries a .. i row by row, the cofactors A .. I, the determinant by
 * cofactor expansion along row 0 and the adjugate [[A, D, G], [B, E, H],
 * [C, F, I]].  The lemmas establish adj(m) · m = m · adj(m) = det(m) · I.
 *
 * The solver's nonlinear arithmetic is kept to small lemmas over plain
 * numbers (`CrossIsOrthogonal`, `TripleProductCyclic`, `ScaledDot`); the
 * lemmas about matrices only combine their instances entry by entry.
 */
module Mat3Algebra {

  /** [[a, b, c], [d, e, f], [g, h, i]] */
  datatype Mat3 = Mat3(a: real, b: real, c: real, d: real, e: real, f: real, g: real, h: real, i: real)

  const Identity: Mat3 := Mat3(1.0, 0.0, 0.0, 0.0, 1.0, 0.0, 0.0, 0.0, 1.0)

  function Mul(p: Mat3, q: Mat3): Mat3 {
    Mat3(p.a * q.a + p.b * q.d + p.c * q.g, p.a * q.b + p.b * q.e + p.c * q.h, p.a * q.c + p.b * q.f + p.c * q.i,
         p.d * q.a + p.e * q.d + p.f * q.g, p.d * q.b + p.e * q.e + p.f * q.h, p.d * q.c + p.e * q.f + p.f * q.i,
         p.g * q.a + p.h * q.d + p.i * q.g, p.g * q.b + p.h * q.e + p.i * q.h, p.g * q.c + p.h * q.f + p.i * q.i)
  }

  /** Every entry times s, as `A * invDet`, `D * invDet`, ... are formed. */
  function Scale(m: Mat3, s: real): Mat3 {
    Mat3(m.a * s, m.b * s, m.c * s, m.d * s, m.e * s, m.f * s, m.g * s, m.h * s, m.i * s)
  }

  // The cofactors, named as in the source.
  function CofA(m: Mat3): real { m.e * m.i - m.f * m.h }
  function CofB(m: Mat3): real { m.f * m.g - m.d * m.i }
  function CofC(m: Mat3): real { m.d * m.h - m.e * m.g }
  function CofD(m: Mat3): real { m.c * m.h - m.b * m.i }
  function CofE(m: Mat3): real { m.a * m.i - m.c * m.g }
  function CofF(m: Mat3): real { m.b * m.g - m.a * m.h }
  function CofG(m: Mat3): real { m.b * m.f - m.c * m.e }
  function CofH(m: Mat3): real { m.c * m.d - m.a * m.f }
  function CofI(m: Mat3): real { m.a * m.e - m.b * m.d }

  /**
   * `det = a * A + b * B + c * C`: the expansion along row 0, which agrees
   * with the expansion along column 0 and with the rule of Sarrus.
   */
  function Det(m: Mat3): (r: real)
    ensures r == m.a * CofA(m) + m.d * CofD(m) + m.g * CofG(m)
    ensures r == m.a * m.e * m.i + m.b * m.f * m.g + m.c * m.d * m.h - m.c * m.e * m.g - m.b * m.d * m.i - m.a * m.f * m.h
  {
    m.a * CofA(m) + m.b * CofB(m) + m.c * CofC(m)
  }

  /** The transposed cofactors: row k is the cross product of the two other columns of m. */
  function Adjugate(m: Mat3): (r: Mat3)
    ensures IsCross(r.a, r.b, r.c, m.b, m.e, m.h, m.c, m.f, m.i)
    ensures IsCross(r.d, r.e, r.f, m.c, m.f, m.i, m.a, m.d, m.g)
    ensures IsCross(r.g, r.h, r.i, m.a, m.d, m.g, m.b, m.e, m.h)
  {
    Mat3(CofA(m), CofD(m), CofG(m), CofB(m), CofE(m), CofH(m), CofC(m), CofF(m), CofI(m))
  }

  // ---------------------------------------------------------------------------
  // Identities on plain numbers
  // ---------------------------------------------------------------------------

  /** (p1, p2, p3) = u × w */
  predicate IsCross(p1: real, p2: real, p3: real, u1: real, u2: real, u3: real, w1: real, w2: real, w3: real) {
    p1 == u2 * w3 - u3 * w2 && p2 == u3 * w1 - u1 * w3 && p3 == u1 * w2 - u2 * w1
  }

  /** u × w is orthogonal to u and to w. */
  lemma CrossIsOrthogonal(p1: real, p2: real, p3: real, u1: real, u2: real, u3: real, w1: real, w2: real, w3: real)
    requires IsCross(p1, p2, p3, u1, u2, u3, w1, w2, w3)
    ensures u1 * p1 + u2 * p2 + u3 * p3 == 0.0
    ensures w1 * p1 + w2 * p2 + w3 * p3 == 0.0
  {
  }

  /** u · (v × w) = v · (w × u) */
  lemma TripleProductCyclic(p1: real, p2: real, p3: real, q1: real, q2: real, q3: real,
                            u1: real, u2: real, u3: real, v1: real, v2: real, v3: real, w1: real, w2: real, w3: real)
    requires IsCross(p1, p2, p3, v1, v2, v3, w1, w2, w3) && IsCross(q1, q2, q3, w1, w2, w3, u1, u2, u3)
    ensures u1 * p1 + u2 * p2 + u3 * p3 == v1 * q1 + v2 * q2 + v3 * q3
  {
  }

  /** Scaling one factor of a dot product by s scales the product by s. */
  lemma ScaledDot(u1: real, u2: real, u3: real, p1: real, p2: real, p3: real, s: real,
                  r1: real, r2: real, r3: real, t: real)
    requires r1 == p1 * s && r2 == p2 * s && r3 == p3 * s
    requires t == u1 * p1 + u2 * p2 + u3 * p3
    ensures u1 * r1 + u2 * r2 + u3 * r3 == t * s
    ensures r1 * u1 + r2 * u2 + r3 * u3 == t * s
  {
  }

  // ---------------------------------------------------------------------------
  // The adjugate
  // ---------------------------------------------------------------------------

  /** The columns of adj(m) are row1 × row2, row2 × row0 and row0 × row1. */
  lemma AdjugateColumns(m: Mat3)
    ensures IsCross(CofA(m), CofB(m), CofC(m), m.d, m.e, m.f, m.g, m.h, m.i)
    ensures IsCross(CofD(m), CofE(m), CofF(m), m.g, m.h, m.i, m.a, m.b, m.c)
    ensures IsCross(CofG(m), CofH(m), CofI(m), m.a, m.b, m.c, m.d, m.e, m.f)
  {
  }

  /** The rows of adj(m) are col1 × col2, col2 × col0 and col0 × col1. */
  lemma AdjugateRows(m: Mat3)
    ensures IsCross(CofA(m), CofD(m), CofG(m), m.b, m.e, m.h, m.c, m.f, m.i)
    ensures IsCross(CofB(m), CofE(m), CofH(m), m.c, m.f, m.i, m.a, m.d, m.g)
    ensures IsCross(CofC(m), CofF(m), CofI(m), m.a, m.d, m.g, m.b, m.e, m.h)
  {
  }

  /** Expanding along column 0 gives the same determinant as along row 0. */
  lemma RightRow0(m: Mat3)
    ensures Mul(m, Adjugate(m)).a == Det(m) && Mul(m, Adjugate(m)).b == 0.0 && Mul(m, Adjugate(m)).c == 0.0
  {
    AdjugateColumns(m);
    CrossIsOrthogonal(CofD(m), CofE(m), CofF(m), m.g, m.h, m.i, m.a, m.b, m.c);
    CrossIsOrthogonal(CofG(m), CofH(m), CofI(m), m.a, m.b, m.c, m.d, m.e, m.f);
  }
  lemma RightRow1(m: Mat3)
    ensures Mul(m, Adjugate(m)).d == 0.0 && Mul(m, Adjugate(m)).e == Det(m) && Mul(m, Adjugate(m)).f == 0.0
  {
    AdjugateColumns(m);
    CrossIsOrthogonal(CofA(m), CofB(m), CofC(m), m.d, m.e, m.f, m.g, m.h, m.i);
    CrossIsOrthogonal(CofG(m), CofH(m), CofI(m), m.a, m.b, m.c, m.d, m.e, m.f);
    TripleProductCyclic(CofA(m), CofB(m), CofC(m), CofD(m), CofE(m), CofF(m), m.a, m.b, m.c, m.d, m.e, m.f, m.g, m.h, m.i);
  }
  lemma RightRow2(m: Mat3)
    ensures Mul(m, Adjugate(m)).g == 0.0 && Mul(m, Adjugate(m)).h == 0.0 && Mul(m, Adjugate(m)).i == Det(m)
  {
    AdjugateColumns(m);
    CrossIsOrthogonal(CofA(m), CofB(m), CofC(m), m.d, m.e, m.f, m.g, m.h, m.i);
    CrossIsOrthogonal(CofD(m), CofE(m), CofF(m), m.g, m.h, m.i, m.a, m.b, m.c);
    TripleProductCyclic(CofG(m), CofH(m), CofI(m), CofA(m), CofB(m), CofC(m), m.g, m.h, m.i, m.a, m.b, m.c, m.d, m.e, m.f);
  }

  /** m · adj(m) = det(m) · I */
  lemma AdjugateRightProduct(m: Mat3)
    ensures Mul(m, Adjugate(m)) == Scale(Identity, Det(m))
  {
    RightRow0(m);
    RightRow1(m);
    RightRow2(m);
  }

  lemma LeftRow0(m: Mat3)
    ensures Mul(Adjugate(m), m).a == Det(m) && Mul(Adjugate(m), m).b == 0.0 && Mul(Adjugate(m), m).c == 0.0
  {
    AdjugateRows(m);
    CrossIsOrthogonal(CofA(m), CofD(m), CofG(m), m.b, m.e, m.h, m.c, m.f, m.i);
  }
  lemma LeftRow1(m: Mat3)
    ensures Mul(Adjugate(m), m).d == 0.0 && Mul(Adjugate(m), m).e == Det(m) && Mul(Adjugate(m), m).f == 0.0
  {
    AdjugateRows(m);
    CrossIsOrthogonal(CofB(m), CofE(m), CofH(m), m.c, m.f, m.i, m.a, m.d, m.g);
    TripleProductCyclic(CofA(m), CofD(m), CofG(m), CofB(m), CofE(m), CofH(m), m.a, m.d, m.g, m.b, m.e, m.h, m.c, m.f, m.i);
  }
  lemma LeftRow2(m: Mat3)
    ensures Mul(Adjugate(m), m).g == 0.0 && Mul(Adjugate(m), m).h == 0.0 && Mul(Adjugate(m), m).i == Det(m)
  {
    AdjugateRows(m);
    CrossIsOrthogonal(CofC(m), CofF(m), CofI(m), m.a, m.d, m.g, m.b, m.e, m.h);
    TripleProductCyclic(CofC(m), CofF(m), CofI(m), CofA(m), CofD(m), CofG(m), m.c, m.f, m.i, m.a, m.d, m.g, m.b, m.e, m.h);
  }

  /** adj(m) · m = det(m) · I */
  lemma AdjugateLeftProduct(m: Mat3)
    ensures Mul(Adjugate(m), m) == Scale(Identity, Det(m))
  {
    LeftRow0(m);
    LeftRow1(m);
    LeftRow2(m);
  }

  // ---------------------------------------------------------------------------
  // Scaling commutes with products, entry by entry
  // ---------------------------------------------------------------------------

  lemma ScaledRight00(p: Mat3, q: Mat3, s: real)
    ensures Mul(p, Scale(q, s)).a == Mul(p, q).a * s
  {
    var sq := Scale(q, s);
    ScaledDot(p.a, p.b, p.c, q.a, q.d, q.g, s, sq.a, sq.d, sq.g, Mul(p, q).a);
  }

  lemma ScaledRight01(p: Mat3, q: Mat3, s: real)
    ensures Mul(p, Scale(q, s)).b == Mul(p, q).b * s
  {
    var sq := Scale(q, s);
    ScaledDot(p.a, p.b, p.c, q.b, q.e, q.h, s, sq.b, sq.e, sq.h, Mul(p, q).b);
  }

  lemma ScaledRight02(p: Mat3, q: Mat3, s: real)
    ensures Mul(p, Scale(q, s)).c == Mul(p, q).c * s
  {
    var sq := Scale(q, s);
    ScaledDot(p.a, p.b, p.c, q.c, q.f, q.i, s, sq.c, sq.f, sq.i, Mul(p, q).c);
  }

  lemma ScaledRight10(p: Mat3, q: Mat3, s: real)
    ensures Mul(p, Scale(q, s)).d == Mul(p, q).d * s
  {
    var sq := Scale(q, s);
    ScaledDot(p.d, p.e, p.f, q.a, q.d, q.g, s, sq.a, sq.d, sq.g, Mul(p, q).d);
  }

  lemma ScaledRight11(p: Mat3, q: Mat3, s: real)
    ensures Mul(p, Scale(q, s)).e == Mul(p, q).e * s
  {
    var sq := Scale(q, s);
    ScaledDot(p.d, p.e, p.f, q.b, q.e, q.h, s, sq.b, sq.e, sq.h, Mul(p, q).e);
  }

  lemma ScaledRight12(p: Mat3, q: Mat3, s: real)
    ensures Mul(p, Scale(q, s)).f == Mul(p, q).f * s
  {
    var sq := Scale(q, s);
    ScaledDot(p.d, p.e, p.f, q.c, q.f, q.i, s, sq.c, sq.f, sq.i, Mul(p, q).f);
  }

  lemma ScaledRight20(p: Mat3, q: Mat3, s: real)
    ensures Mul(p, Scale(q, s)).g == Mul(p, q).g * s
  {
    var sq := Scale(q, s);
    ScaledDot(p.g, p.h, p.i, q.a, q.d, q.g, s, sq.a, sq.d, sq.g, Mul(p, q).g);
  }

  lemma ScaledRight21(p: Mat3, q: Mat3, s: real)
    ensures Mul(p, Scale(q, s)).h == Mul(p, q).h * s
  {
    var sq := Scale(q, s);
    ScaledDot(p.g, p.h, p.i, q.b, q.e, q.h, s, sq.b, sq.e, sq.h, Mul(p, q).h);
  }

  lemma ScaledRight22(p: Mat3, q: Mat3, s: real)
    ensures Mul(p, Scale(q, s)).i == Mul(p, q).i * s
  {
    var sq := Scale(q, s);
    ScaledDot(p.g, p.h, p.i, q.c, q.f, q.i, s, sq.c, sq.f, sq.i, Mul(p, q).i);
  }

  lemma ScaledLeft00(p: Mat3, q: Mat3, s: real)
    ensures Mul(Scale(q, s), p).a == Mul(q, p).a * s
  {
    var sq := Scale(q, s);
    ScaledDot(p.a, p.d, p.g, q.a, q.b, q.c, s, sq.a, sq.b, sq.c, Mul(q, p).a);
  }

  lemma ScaledLeft01(p: Mat3, q: Mat3, s: real)
    ensures Mul(Scale(q, s), p).b == Mul(q, p).b * s
  {
    var sq := Scale(q, s);
    ScaledDot(p.b, p.e, p.h, q.a, q.b, q.c, s, sq.a, sq.b, sq.c, Mul(q, p).b);
  }

  lemma ScaledLeft02(p: Mat3, q: Mat3, s: real)
    ensures Mul(Scale(q, s), p).c == Mul(q, p).c * s
  {
    var sq := Scale(q, s);
    ScaledDot(p.c, p.f, p.i, q.a, q.b, q.c, s, sq.a, sq.b, sq.c, Mul(q, p).c);
  }

  lemma ScaledLeft10(p: Mat3, q: Mat3, s: real)
    ensures Mul(Scale(q, s), p).d == Mul(q, p).d * s
  {
    var sq := Scale(q, s);
    ScaledDot(p.a, p.d, p.g, q.d, q.e, q.f, s, sq.d, sq.e, sq.f, Mul(q, p).d);
  }

  lemma ScaledLeft11(p: Mat3, q: Mat3, s: real)
    ensures Mul(Scale(q, s), p).e == Mul(q, p).e * s
  {
    var sq := Scale(q, s);
    ScaledDot(p.b, p.e, p.h, q.d, q.e, q.f, s, sq.d, sq.e, sq.f, Mul(q, p).e);
  }

  lemma ScaledLeft12(p: Mat3, q: Mat3, s: real)
    ensures Mul(Scale(q, s), p).f == Mul(q, p).f * s
  {
    var sq := Scale(q, s);
    ScaledDot(p.c, p.f, p.i, q.d, q.e, q.f, s, sq.d, sq.e, sq.f, Mul(q, p).f);
  }

  lemma ScaledLeft20(p: Mat3, q: Mat3, s: real)
    ensures Mul(Scale(q, s), p).g == Mul(q, p).g * s
  {
    var sq := Scale(q, s);
    ScaledDot(p.a, p.d, p.g, q.g, q.h, q.i, s, sq.g, sq.h, sq.i, Mul(q, p).g);
  }

  lemma ScaledLeft21(p: Mat3, q: Mat3, s: real)
    ensures Mul(Scale(q, s), p).h == Mul(q, p).h * s
  {
    var sq := Scale(q, s);
    ScaledDot(p.b, p.e, p.h, q.g, q.h, q.i, s, sq.g, sq.h, sq.i, Mul(q, p).h);
  }

  lemma ScaledLeft22(p: Mat3, q: Mat3, s: real)
    ensures Mul(Scale(q, s), p).i == Mul(q, p).i * s
  {
    var sq := Scale(q, s);
    ScaledDot(p.c, p.f, p.i, q.g, q.h, q.i, s, sq.g, sq.h, sq.i, Mul(q, p).i);
  }

  lemma MulScaledRight(p: Mat3, q: Mat3, s: real)
    ensures Mul(p, Scale(q, s)) == Scale(Mul(p, q), s)
  {
    ScaledRight00(p, q, s);
    ScaledRight01(p, q, s);
    ScaledRight02(p, q, s);
    ScaledRight10(p, q, s);
    ScaledRight11(p, q, s);
    ScaledRight12(p, q, s);
    ScaledRight20(p, q, s);
    ScaledRight21(p, q, s);
    ScaledRight22(p, q, s);
  }

  lemma MulScaledLeft(p: Mat3, q: Mat3, s: real)
    ensures Mul(Scale(q, s), p) == Scale(Mul(q, p), s)
  {
    ScaledLeft00(p, q, s);
    ScaledLeft01(p, q, s);
    ScaledLeft02(p, q, s);
    ScaledLeft10(p, q, s);
    ScaledLeft11(p, q, s);
    ScaledLeft12(p, q, s);
    ScaledLeft20(p, q, s);
    ScaledLeft21(p, q, s);
    ScaledLeft22(p, q, s);
  }

  /** (1/det) · adj(m) is a two-sided inverse of m whenever det(m) is not zero. */
  lemma ScaledAdjugateIsInverse(m: Mat3)
    requires Det(m) != 0.0
    ensures Mul(m, Scale(Adjugate(m), 1.0 / Det(m))) == Identity
    ensures Mul(Scale(Adjugate(m), 1.0 / Det(m)), m) == Identity
  {
    var s := 1.0 / Det(m);
    AdjugateRightProduct(m);
    AdjugateLeftProduct(m);
    MulScaledRight(m, Adjugate(m), s);
    MulScaledLeft(m, Adjugate(m), s);
    assert Det(m) * s == 1.0;
  }
}

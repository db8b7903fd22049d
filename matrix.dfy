/**
 * The 4x4 transform `Matrix4x4`, stored column-major in sixteen fields `m0`..`m15`
 * (element (row r, column c) is `m[4c + r]`, the translation is `m12, m13, m14`).
 * A default-constructed matrix is all zeros.
 */
module Matrix {
  import opened Scalar
  import opened Vector
  import opened Quaternion

  datatype Matrix4x4 = Matrix4x4(
    m0: real, m1: real, m2: real, m3: real, m4: real, m5: real, m6: real, m7: real,
    m8: real, m9: real, m10: real, m11: real, m12: real, m13: real, m14: real, m15: real)
  {
    /** The value of `Matrix4x4()`. */
    static const Zero := Splat(0.0)
    static const Identity := Matrix4x4(1.0, 0.0, 0.0, 0.0, 0.0, 1.0, 0.0, 0.0, 0.0, 0.0, 1.0, 0.0, 0.0, 0.0, 0.0, 1.0)

    /** `explicit Matrix4x4(float value)`: every element set to `value`. */
    static function Splat(value: real): Matrix4x4
    {
      Matrix4x4(value, value, value, value, value, value, value, value,
                value, value, value, value, value, value, value, value)
    }

    /** `operator[]`: the source asserts `index <= 15`. */
    function Get(i: nat): real
      requires i <= 15
    {
      match i
      case 0 => m0
      case 1 => m1
      case 2 => m2
      case 3 => m3
      case 4 => m4
      case 5 => m5
      case 6 => m6
      case 7 => m7
      case 8 => m8
      case 9 => m9
      case 10 => m10
      case 11 => m11
      case 12 => m12
      case 13 => m13
      case 14 => m14
      case _ => m15
    }

    /** Assignment through the reference `operator[]` returns. */
    function Set(i: nat, value: real): (r: Matrix4x4)
      requires i <= 15
      ensures r.Get(i) == value
      ensures forall j :: 0 <= j <= 15 && j != i ==> r.Get(j) == Get(j)
    {
      match i
      case 0 => this.(m0 := value)
      case 1 => this.(m1 := value)
      case 2 => this.(m2 := value)
      case 3 => this.(m3 := value)
      case 4 => this.(m4 := value)
      case 5 => this.(m5 := value)
      case 6 => this.(m6 := value)
      case 7 => this.(m7 := value)
      case 8 => this.(m8 := value)
      case 9 => this.(m9 := value)
      case 10 => this.(m10 := value)
      case 11 => this.(m11 := value)
      case 12 => this.(m12 := value)
      case 13 => this.(m13 := value)
      case 14 => this.(m14 := value)
      case _ => this.(m15 := value)
    }

    /** `+` and `+=`: element by element. */
    function Plus(n: Matrix4x4): Matrix4x4
    {
      Matrix4x4(m0 + n.m0, m1 + n.m1, m2 + n.m2, m3 + n.m3, m4 + n.m4, m5 + n.m5, m6 + n.m6, m7 + n.m7, m8 + n.m8, m9 + n.m9, m10 + n.m10, m11 + n.m11, m12 + n.m12, m13 + n.m13, m14 + n.m14, m15 + n.m15)
    }

    /** `-` and `-=`: element by element. */
    function Minus(n: Matrix4x4): Matrix4x4
    {
      Matrix4x4(m0 - n.m0, m1 - n.m1, m2 - n.m2, m3 - n.m3, m4 - n.m4, m5 - n.m5, m6 - n.m6, m7 - n.m7, m8 - n.m8, m9 - n.m9, m10 - n.m10, m11 - n.m11, m12 - n.m12, m13 - n.m13, m14 - n.m14, m15 - n.m15)
    }

    /** Every element multiplied by `s` (the `*= invDet` steps of `Inverted`). */
    function Scale(s: real): Matrix4x4
    {
      Matrix4x4(m0 * s, m1 * s, m2 * s, m3 * s, m4 * s, m5 * s, m6 * s, m7 * s, m8 * s, m9 * s, m10 * s, m11 * s, m12 * s, m13 * s, m14 * s, m15 * s)
    }

    /** `*` and `*=`: the column-major product `this * n`. */
    function Times(n: Matrix4x4): Matrix4x4
    {
      Matrix4x4(
        Dot4(m0, m4, m8, m12, n.m0, n.m1, n.m2, n.m3),
        Dot4(m1, m5, m9, m13, n.m0, n.m1, n.m2, n.m3),
        Dot4(m2, m6, m10, m14, n.m0, n.m1, n.m2, n.m3),
        Dot4(m3, m7, m11, m15, n.m0, n.m1, n.m2, n.m3),
        Dot4(m0, m4, m8, m12, n.m4, n.m5, n.m6, n.m7),
        Dot4(m1, m5, m9, m13, n.m4, n.m5, n.m6, n.m7),
        Dot4(m2, m6, m10, m14, n.m4, n.m5, n.m6, n.m7),
        Dot4(m3, m7, m11, m15, n.m4, n.m5, n.m6, n.m7),
        Dot4(m0, m4, m8, m12, n.m8, n.m9, n.m10, n.m11),
        Dot4(m1, m5, m9, m13, n.m8, n.m9, n.m10, n.m11),
        Dot4(m2, m6, m10, m14, n.m8, n.m9, n.m10, n.m11),
        Dot4(m3, m7, m11, m15, n.m8, n.m9, n.m10, n.m11),
        Dot4(m0, m4, m8, m12, n.m12, n.m13, n.m14, n.m15),
        Dot4(m1, m5, m9, m13, n.m12, n.m13, n.m14, n.m15),
        Dot4(m2, m6, m10, m14, n.m12, n.m13, n.m14, n.m15),
        Dot4(m3, m7, m11, m15, n.m12, n.m13, n.m14, n.m15))
    }

    /** `Matrix4x4 * Vec4` */
    function TimesVec(v: Vec4): Vec4
    {
      Vec4(m0 * v.x + m4 * v.y + m8 * v.z + m12 * v.w,
           m1 * v.x + m5 * v.y + m9 * v.z + m13 * v.w,
           m2 * v.x + m6 * v.y + m10 * v.z + m14 * v.w,
           m3 * v.x + m7 * v.y + m11 * v.z + m15 * v.w)
    }

    function Transposed(): Matrix4x4
    {
      Matrix4x4(m0, m4, m8, m12, m1, m5, m9, m13, m2, m6, m10, m14, m3, m7, m11, m15)
    }

    /** Laplace expansion along the first row, through the four cofactors the source computes. */
    function Determinant(): real
    {
      var cofactor0 := Det3(m5, m6, m7, m9, m10, m11, m13, m14, m15);
      var cofactor1 := Det3(m1, m2, m3, m9, m10, m11, m13, m14, m15);
      var cofactor2 := Det3(m1, m2, m3, m5, m6, m7, m13, m14, m15);
      var cofactor3 := Det3(m1, m2, m3, m5, m6, m7, m9, m10, m11);
      m0 * cofactor0 - m4 * cofactor1 + m8 * cofactor2 - m12 * cofactor3
    }

    /** The sixteen signed cofactors `Inverted` computes before scaling by `1 / det`. */
    function Adjugate(): Matrix4x4
    {
      Matrix4x4(
        Det3(m5, m6, m7, m9, m10, m11, m13, m14, m15),
        -Det3(m1, m2, m3, m9, m10, m11, m13, m14, m15),
        Det3(m1, m2, m3, m5, m6, m7, m13, m14, m15),
        -Det3(m1, m2, m3, m5, m6, m7, m9, m10, m11),
        -Det3(m4, m6, m7, m8, m10, m11, m12, m14, m15),
        Det3(m0, m2, m3, m8, m10, m11, m12, m14, m15),
        -Det3(m0, m2, m3, m4, m6, m7, m12, m14, m15),
        Det3(m0, m2, m3, m4, m6, m7, m8, m10, m11),
        Det3(m4, m5, m7, m8, m9, m11, m12, m13, m15),
        -Det3(m0, m1, m3, m8, m9, m11, m12, m13, m15),
        Det3(m0, m1, m3, m4, m5, m7, m12, m13, m15),
        -Det3(m0, m1, m3, m4, m5, m7, m8, m9, m11),
        -Det3(m4, m5, m6, m8, m9, m10, m12, m13, m14),
        Det3(m0, m1, m2, m8, m9, m10, m12, m13, m14),
        -Det3(m0, m1, m2, m4, m5, m6, m12, m13, m14),
        Det3(m0, m1, m2, m4, m5, m6, m8, m9, m10))
    }

    /**
     * The identity when `|det| < 1e-6`, otherwise the adjugate scaled by `1 / det`.
     */
    function Inverted(): (r: Matrix4x4)
      ensures Abs(Determinant()) < Epsilon ==> r == Identity
    {
      var det := Determinant();
      if Abs(det) < Epsilon then Identity else Adjugate().Scale(Quot(1.0, det))
    }

    /** The translation column. */
    function GetPosition(): Vec3
    {
      Vec3(m12, m13, m14)
    }

    /** The lengths of the first three columns. */
    function GetScale(): Vec3
    {
      Vec3(Vec3(m0, m1, m2).Length(), Vec3(m4, m5, m6).Length(), Vec3(m8, m9, m10).Length())
    }

    static function FromPosition(position: Vec3): (r: Matrix4x4)
      ensures r.GetPosition() == position
    {
      Matrix4x4(1.0, 0.0, 0.0, 0.0, 0.0, 1.0, 0.0, 0.0, 0.0, 0.0, 1.0, 0.0, position.x, position.y, position.z, 1.0)
    }

    /**
     * The rotation matrix of the normalised quaternion, written into the upper 3x3 block
     * of the identity.
     */
    static function FromRotation(rotation: Quat): (r: Matrix4x4)
      ensures r.m3 == r.m7 == r.m11 == r.m12 == r.m13 == r.m14 == 0.0 && r.m15 == 1.0
    {
      var q := rotation.Normalized();
      var xx := q.x * q.x;
      var yy := q.y * q.y;
      var zz := q.z * q.z;
      var xy := q.x * q.y;
      var xz := q.x * q.z;
      var yz := q.y * q.z;
      var wx := q.w * q.x;
      var wy := q.w * q.y;
      var wz := q.w * q.z;
      Identity.(
        m0 := 1.0 - 2.0 * (yy + zz), m1 := 2.0 * (xy + wz), m2 := 2.0 * (xz - wy),
        m4 := 2.0 * (xy - wz), m5 := 1.0 - 2.0 * (xx + zz), m6 := 2.0 * (yz + wx),
        m8 := 2.0 * (xz + wy), m9 := 2.0 * (yz - wx), m10 := 1.0 - 2.0 * (xx + yy))
    }

    static function FromScale(scale: Vec3): (r: Matrix4x4)
      ensures r.TimesVec(Vec4(1.0, 1.0, 1.0, 1.0)) == Vec4(scale.x, scale.y, scale.z, 1.0)
      ensures forall v: Vec4 :: r.TimesVec(v) == Vec4(scale.x * v.x, scale.y * v.y, scale.z * v.z, v.w)
    {
      Matrix4x4(scale.x, 0.0, 0.0, 0.0, 0.0, scale.y, 0.0, 0.0, 0.0, 0.0, scale.z, 0.0, 0.0, 0.0, 0.0, 1.0)
    }

    /** Translation times rotation times scale: `matT * matR * matS`. */
    static function FromPRS(position: Vec3, rotation: Quat, scale: Vec3): Matrix4x4
    {
      FromPosition(position).Times(FromRotation(rotation)).Times(FromScale(scale))
    }
  }

  /** Row (a0, a1, a2, a3) times column (b0, b1, b2, b3): one element of a product. */
  function Dot4(a0: real, a1: real, a2: real, a3: real, b0: real, b1: real, b2: real, b3: real): real
  {
    a0 * b0 + a1 * b1 + a2 * b2 + a3 * b3
  }

  /**
   * The determinant of the 3x3 matrix with columns (a, b, c), (d, e, f), (g, h, i), expanded
   * along its first row exactly as each cofactor of `Determinant` and `Inverted` is written.
   */
  function Det3(a: real, b: real, c: real, d: real, e: real, f: real, g: real, h: real, i: real): real
  {
    a * (e * i - h * f) - d * (b * i - h * c) + g * (b * f - e * c)
  }

  /** A 3x3 determinant times a factor, as a sum of six signed monomials. */
  lemma Det3Times(a: real, b: real, c: real, d: real, e: real, f: real, g: real, h: real, i: real, k: real)
    ensures Det3(a, b, c, d, e, f, g, h, i) * k
      == a * e * i * k - a * h * f * k - d * b * i * k + d * h * c * k + g * b * f * k - g * e * c * k
  {
  }

  /** Multiplying both sides of an equation by the same factor. */
  lemma ScaleEquation(x: real, y: real, k: real)
    requires x == y
    ensures x * k == y * k
  {
  }

  /** The identity is a two-sided unit of the product and fixes every vector. */
  lemma IdentityIsUnit(m: Matrix4x4, v: Vec4)
    ensures Matrix4x4.Identity.Times(m) == m && m.Times(Matrix4x4.Identity) == m
    ensures Matrix4x4.Identity.TimesVec(v) == v
  {
  }

  /** Transposing swaps row and column indices, and transposing twice gives the matrix back. */
  lemma TransposedByIndex(m: Matrix4x4)
    ensures forall r, c :: 0 <= r < 4 && 0 <= c < 4 ==> m.Transposed().Get(4 * c + r) == m.Get(4 * r + c)
    ensures m.Transposed().Transposed() == m
  {
    forall r, c | 0 <= r < 4 && 0 <= c < 4
      ensures m.Transposed().Get(4 * c + r) == m.Get(4 * r + c)
    {
      assert r == 0 || r == 1 || r == 2 || r == 3;
      assert c == 0 || c == 1 || c == 2 || c == 3;
    }
  }


  /** The adjugate times the matrix is the determinant times the identity. */
  lemma AdjugateTimes(m: Matrix4x4)
    ensures m.Adjugate().Times(m) == Matrix4x4.Identity.Scale(m.Determinant())
  {
    AdjugateTimesAt0(m);
    AdjugateTimesAt1(m);
    AdjugateTimesAt2(m);
    AdjugateTimesAt3(m);
    AdjugateTimesAt4(m);
    AdjugateTimesAt5(m);
    AdjugateTimesAt6(m);
    AdjugateTimesAt7(m);
    AdjugateTimesAt8(m);
    AdjugateTimesAt9(m);
    AdjugateTimesAt10(m);
    AdjugateTimesAt11(m);
    AdjugateTimesAt12(m);
    AdjugateTimesAt13(m);
    AdjugateTimesAt14(m);
    AdjugateTimesAt15(m);
  }

  lemma AdjugateTimesAt0(m: Matrix4x4)
    ensures m.Adjugate().Times(m).m0 == m.Determinant()
  {
    TimesFields(m.Adjugate(), m);
    AdjugateTimesEntry0(m.m0, m.m1, m.m2, m.m3, m.m4, m.m5, m.m6, m.m7, m.m8, m.m9, m.m10, m.m11, m.m12, m.m13, m.m14, m.m15);
  }

  lemma AdjugateTimesAt1(m: Matrix4x4)
    ensures m.Adjugate().Times(m).m1 == 0.0
  {
    TimesFields(m.Adjugate(), m);
    AdjugateTimesEntry1(m.m0, m.m1, m.m2, m.m3, m.m4, m.m5, m.m6, m.m7, m.m8, m.m9, m.m10, m.m11, m.m12, m.m13, m.m14, m.m15);
  }

  lemma AdjugateTimesAt2(m: Matrix4x4)
    ensures m.Adjugate().Times(m).m2 == 0.0
  {
    TimesFields(m.Adjugate(), m);
    AdjugateTimesEntry2(m.m0, m.m1, m.m2, m.m3, m.m4, m.m5, m.m6, m.m7, m.m8, m.m9, m.m10, m.m11, m.m12, m.m13, m.m14, m.m15);
  }

  lemma AdjugateTimesAt3(m: Matrix4x4)
    ensures m.Adjugate().Times(m).m3 == 0.0
  {
    TimesFields(m.Adjugate(), m);
    AdjugateTimesEntry3(m.m0, m.m1, m.m2, m.m3, m.m4, m.m5, m.m6, m.m7, m.m8, m.m9, m.m10, m.m11, m.m12, m.m13, m.m14, m.m15);
  }

  lemma AdjugateTimesAt4(m: Matrix4x4)
    ensures m.Adjugate().Times(m).m4 == 0.0
  {
    TimesFields(m.Adjugate(), m);
    AdjugateTimesEntry4(m.m0, m.m1, m.m2, m.m3, m.m4, m.m5, m.m6, m.m7, m.m8, m.m9, m.m10, m.m11, m.m12, m.m13, m.m14, m.m15);
  }

  lemma AdjugateTimesAt5(m: Matrix4x4)
    ensures m.Adjugate().Times(m).m5 == m.Determinant()
  {
    TimesFields(m.Adjugate(), m);
    AdjugateTimesEntry5(m.m0, m.m1, m.m2, m.m3, m.m4, m.m5, m.m6, m.m7, m.m8, m.m9, m.m10, m.m11, m.m12, m.m13, m.m14, m.m15);
  }

  lemma AdjugateTimesAt6(m: Matrix4x4)
    ensures m.Adjugate().Times(m).m6 == 0.0
  {
    TimesFields(m.Adjugate(), m);
    AdjugateTimesEntry6(m.m0, m.m1, m.m2, m.m3, m.m4, m.m5, m.m6, m.m7, m.m8, m.m9, m.m10, m.m11, m.m12, m.m13, m.m14, m.m15);
  }

  lemma AdjugateTimesAt7(m: Matrix4x4)
    ensures m.Adjugate().Times(m).m7 == 0.0
  {
    TimesFields(m.Adjugate(), m);
    AdjugateTimesEntry7(m.m0, m.m1, m.m2, m.m3, m.m4, m.m5, m.m6, m.m7, m.m8, m.m9, m.m10, m.m11, m.m12, m.m13, m.m14, m.m15);
  }

  lemma AdjugateTimesAt8(m: Matrix4x4)
    ensures m.Adjugate().Times(m).m8 == 0.0
  {
    TimesFields(m.Adjugate(), m);
    AdjugateTimesEntry8(m.m0, m.m1, m.m2, m.m3, m.m4, m.m5, m.m6, m.m7, m.m8, m.m9, m.m10, m.m11, m.m12, m.m13, m.m14, m.m15);
  }

  lemma AdjugateTimesAt9(m: Matrix4x4)
    ensures m.Adjugate().Times(m).m9 == 0.0
  {
    TimesFields(m.Adjugate(), m);
    AdjugateTimesEntry9(m.m0, m.m1, m.m2, m.m3, m.m4, m.m5, m.m6, m.m7, m.m8, m.m9, m.m10, m.m11, m.m12, m.m13, m.m14, m.m15);
  }

  lemma AdjugateTimesAt10(m: Matrix4x4)
    ensures m.Adjugate().Times(m).m10 == m.Determinant()
  {
    TimesFields(m.Adjugate(), m);
    AdjugateTimesEntry10(m.m0, m.m1, m.m2, m.m3, m.m4, m.m5, m.m6, m.m7, m.m8, m.m9, m.m10, m.m11, m.m12, m.m13, m.m14, m.m15);
  }

  lemma AdjugateTimesAt11(m: Matrix4x4)
    ensures m.Adjugate().Times(m).m11 == 0.0
  {
    TimesFields(m.Adjugate(), m);
    AdjugateTimesEntry11(m.m0, m.m1, m.m2, m.m3, m.m4, m.m5, m.m6, m.m7, m.m8, m.m9, m.m10, m.m11, m.m12, m.m13, m.m14, m.m15);
  }

  lemma AdjugateTimesAt12(m: Matrix4x4)
    ensures m.Adjugate().Times(m).m12 == 0.0
  {
    TimesFields(m.Adjugate(), m);
    AdjugateTimesEntry12(m.m0, m.m1, m.m2, m.m3, m.m4, m.m5, m.m6, m.m7, m.m8, m.m9, m.m10, m.m11, m.m12, m.m13, m.m14, m.m15);
  }

  lemma AdjugateTimesAt13(m: Matrix4x4)
    ensures m.Adjugate().Times(m).m13 == 0.0
  {
    TimesFields(m.Adjugate(), m);
    AdjugateTimesEntry13(m.m0, m.m1, m.m2, m.m3, m.m4, m.m5, m.m6, m.m7, m.m8, m.m9, m.m10, m.m11, m.m12, m.m13, m.m14, m.m15);
  }

  lemma AdjugateTimesAt14(m: Matrix4x4)
    ensures m.Adjugate().Times(m).m14 == 0.0
  {
    TimesFields(m.Adjugate(), m);
    AdjugateTimesEntry14(m.m0, m.m1, m.m2, m.m3, m.m4, m.m5, m.m6, m.m7, m.m8, m.m9, m.m10, m.m11, m.m12, m.m13, m.m14, m.m15);
  }

  lemma AdjugateTimesAt15(m: Matrix4x4)
    ensures m.Adjugate().Times(m).m15 == m.Determinant()
  {
    TimesFields(m.Adjugate(), m);
    AdjugateTimesEntry15(m.m0, m.m1, m.m2, m.m3, m.m4, m.m5, m.m6, m.m7, m.m8, m.m9, m.m10, m.m11, m.m12, m.m13, m.m14, m.m15);
  }

  lemma AdjugateTimesEntry0(m0: real, m1: real, m2: real, m3: real, m4: real, m5: real, m6: real, m7: real, m8: real, m9: real, m10: real, m11: real, m12: real, m13: real, m14: real, m15: real)
    ensures Dot4(Det3(m5, m6, m7, m9, m10, m11, m13, m14, m15), -Det3(m4, m6, m7, m8, m10, m11, m12, m14, m15), Det3(m4, m5, m7, m8, m9, m11, m12, m13, m15), -Det3(m4, m5, m6, m8, m9, m10, m12, m13, m14), m0, m1, m2, m3)
      == m0 * Det3(m5, m6, m7, m9, m10, m11, m13, m14, m15) - m4 * Det3(m1, m2, m3, m9, m10, m11, m13, m14, m15) + m8 * Det3(m1, m2, m3, m5, m6, m7, m13, m14, m15) - m12 * Det3(m1, m2, m3, m5, m6, m7, m9, m10, m11)
  {
    Det3Times(m5, m6, m7, m9, m10, m11, m13, m14, m15, m0);
    Det3Times(m4, m6, m7, m8, m10, m11, m12, m14, m15, m1);
    Det3Times(m4, m5, m7, m8, m9, m11, m12, m13, m15, m2);
    Det3Times(m4, m5, m6, m8, m9, m10, m12, m13, m14, m3);
    Det3Times(m5, m6, m7, m9, m10, m11, m13, m14, m15, m0);
    Det3Times(m1, m2, m3, m9, m10, m11, m13, m14, m15, m4);
    Det3Times(m1, m2, m3, m5, m6, m7, m13, m14, m15, m8);
    Det3Times(m1, m2, m3, m5, m6, m7, m9, m10, m11, m12);
  }

  lemma AdjugateTimesEntry1(m0: real, m1: real, m2: real, m3: real, m4: real, m5: real, m6: real, m7: real, m8: real, m9: real, m10: real, m11: real, m12: real, m13: real, m14: real, m15: real)
    ensures Dot4(-Det3(m1, m2, m3, m9, m10, m11, m13, m14, m15), Det3(m0, m2, m3, m8, m10, m11, m12, m14, m15), -Det3(m0, m1, m3, m8, m9, m11, m12, m13, m15), Det3(m0, m1, m2, m8, m9, m10, m12, m13, m14), m0, m1, m2, m3)
      == 0.0
  {
    Det3Times(m1, m2, m3, m9, m10, m11, m13, m14, m15, m0);
    Det3Times(m0, m2, m3, m8, m10, m11, m12, m14, m15, m1);
    Det3Times(m0, m1, m3, m8, m9, m11, m12, m13, m15, m2);
    Det3Times(m0, m1, m2, m8, m9, m10, m12, m13, m14, m3);
  }

  lemma AdjugateTimesEntry2(m0: real, m1: real, m2: real, m3: real, m4: real, m5: real, m6: real, m7: real, m8: real, m9: real, m10: real, m11: real, m12: real, m13: real, m14: real, m15: real)
    ensures Dot4(Det3(m1, m2, m3, m5, m6, m7, m13, m14, m15), -Det3(m0, m2, m3, m4, m6, m7, m12, m14, m15), Det3(m0, m1, m3, m4, m5, m7, m12, m13, m15), -Det3(m0, m1, m2, m4, m5, m6, m12, m13, m14), m0, m1, m2, m3)
      == 0.0
  {
    Det3Times(m1, m2, m3, m5, m6, m7, m13, m14, m15, m0);
    Det3Times(m0, m2, m3, m4, m6, m7, m12, m14, m15, m1);
    Det3Times(m0, m1, m3, m4, m5, m7, m12, m13, m15, m2);
    Det3Times(m0, m1, m2, m4, m5, m6, m12, m13, m14, m3);
  }

  lemma AdjugateTimesEntry3(m0: real, m1: real, m2: real, m3: real, m4: real, m5: real, m6: real, m7: real, m8: real, m9: real, m10: real, m11: real, m12: real, m13: real, m14: real, m15: real)
    ensures Dot4(-Det3(m1, m2, m3, m5, m6, m7, m9, m10, m11), Det3(m0, m2, m3, m4, m6, m7, m8, m10, m11), -Det3(m0, m1, m3, m4, m5, m7, m8, m9, m11), Det3(m0, m1, m2, m4, m5, m6, m8, m9, m10), m0, m1, m2, m3)
      == 0.0
  {
    Det3Times(m1, m2, m3, m5, m6, m7, m9, m10, m11, m0);
    Det3Times(m0, m2, m3, m4, m6, m7, m8, m10, m11, m1);
    Det3Times(m0, m1, m3, m4, m5, m7, m8, m9, m11, m2);
    Det3Times(m0, m1, m2, m4, m5, m6, m8, m9, m10, m3);
  }

  lemma AdjugateTimesEntry4(m0: real, m1: real, m2: real, m3: real, m4: real, m5: real, m6: real, m7: real, m8: real, m9: real, m10: real, m11: real, m12: real, m13: real, m14: real, m15: real)
    ensures Dot4(Det3(m5, m6, m7, m9, m10, m11, m13, m14, m15), -Det3(m4, m6, m7, m8, m10, m11, m12, m14, m15), Det3(m4, m5, m7, m8, m9, m11, m12, m13, m15), -Det3(m4, m5, m6, m8, m9, m10, m12, m13, m14), m4, m5, m6, m7)
      == 0.0
  {
    Det3Times(m5, m6, m7, m9, m10, m11, m13, m14, m15, m4);
    Det3Times(m4, m6, m7, m8, m10, m11, m12, m14, m15, m5);
    Det3Times(m4, m5, m7, m8, m9, m11, m12, m13, m15, m6);
    Det3Times(m4, m5, m6, m8, m9, m10, m12, m13, m14, m7);
  }

  lemma AdjugateTimesEntry5(m0: real, m1: real, m2: real, m3: real, m4: real, m5: real, m6: real, m7: real, m8: real, m9: real, m10: real, m11: real, m12: real, m13: real, m14: real, m15: real)
    ensures Dot4(-Det3(m1, m2, m3, m9, m10, m11, m13, m14, m15), Det3(m0, m2, m3, m8, m10, m11, m12, m14, m15), -Det3(m0, m1, m3, m8, m9, m11, m12, m13, m15), Det3(m0, m1, m2, m8, m9, m10, m12, m13, m14), m4, m5, m6, m7)
      == m0 * Det3(m5, m6, m7, m9, m10, m11, m13, m14, m15) - m4 * Det3(m1, m2, m3, m9, m10, m11, m13, m14, m15) + m8 * Det3(m1, m2, m3, m5, m6, m7, m13, m14, m15) - m12 * Det3(m1, m2, m3, m5, m6, m7, m9, m10, m11)
  {
    Det3Times(m1, m2, m3, m9, m10, m11, m13, m14, m15, m4);
    Det3Times(m0, m2, m3, m8, m10, m11, m12, m14, m15, m5);
    Det3Times(m0, m1, m3, m8, m9, m11, m12, m13, m15, m6);
    Det3Times(m0, m1, m2, m8, m9, m10, m12, m13, m14, m7);
    Det3Times(m5, m6, m7, m9, m10, m11, m13, m14, m15, m0);
    Det3Times(m1, m2, m3, m9, m10, m11, m13, m14, m15, m4);
    Det3Times(m1, m2, m3, m5, m6, m7, m13, m14, m15, m8);
    Det3Times(m1, m2, m3, m5, m6, m7, m9, m10, m11, m12);
  }

  lemma AdjugateTimesEntry6(m0: real, m1: real, m2: real, m3: real, m4: real, m5: real, m6: real, m7: real, m8: real, m9: real, m10: real, m11: real, m12: real, m13: real, m14: real, m15: real)
    ensures Dot4(Det3(m1, m2, m3, m5, m6, m7, m13, m14, m15), -Det3(m0, m2, m3, m4, m6, m7, m12, m14, m15), Det3(m0, m1, m3, m4, m5, m7, m12, m13, m15), -Det3(m0, m1, m2, m4, m5, m6, m12, m13, m14), m4, m5, m6, m7)
      == 0.0
  {
    Det3Times(m1, m2, m3, m5, m6, m7, m13, m14, m15, m4);
    Det3Times(m0, m2, m3, m4, m6, m7, m12, m14, m15, m5);
    Det3Times(m0, m1, m3, m4, m5, m7, m12, m13, m15, m6);
    Det3Times(m0, m1, m2, m4, m5, m6, m12, m13, m14, m7);
  }

  lemma AdjugateTimesEntry7(m0: real, m1: real, m2: real, m3: real, m4: real, m5: real, m6: real, m7: real, m8: real, m9: real, m10: real, m11: real, m12: real, m13: real, m14: real, m15: real)
    ensures Dot4(-Det3(m1, m2, m3, m5, m6, m7, m9, m10, m11), Det3(m0, m2, m3, m4, m6, m7, m8, m10, m11), -Det3(m0, m1, m3, m4, m5, m7, m8, m9, m11), Det3(m0, m1, m2, m4, m5, m6, m8, m9, m10), m4, m5, m6, m7)
      == 0.0
  {
    Det3Times(m1, m2, m3, m5, m6, m7, m9, m10, m11, m4);
    Det3Times(m0, m2, m3, m4, m6, m7, m8, m10, m11, m5);
    Det3Times(m0, m1, m3, m4, m5, m7, m8, m9, m11, m6);
    Det3Times(m0, m1, m2, m4, m5, m6, m8, m9, m10, m7);
  }

  lemma AdjugateTimesEntry8(m0: real, m1: real, m2: real, m3: real, m4: real, m5: real, m6: real, m7: real, m8: real, m9: real, m10: real, m11: real, m12: real, m13: real, m14: real, m15: real)
    ensures Dot4(Det3(m5, m6, m7, m9, m10, m11, m13, m14, m15), -Det3(m4, m6, m7, m8, m10, m11, m12, m14, m15), Det3(m4, m5, m7, m8, m9, m11, m12, m13, m15), -Det3(m4, m5, m6, m8, m9, m10, m12, m13, m14), m8, m9, m10, m11)
      == 0.0
  {
    Det3Times(m5, m6, m7, m9, m10, m11, m13, m14, m15, m8);
    Det3Times(m4, m6, m7, m8, m10, m11, m12, m14, m15, m9);
    Det3Times(m4, m5, m7, m8, m9, m11, m12, m13, m15, m10);
    Det3Times(m4, m5, m6, m8, m9, m10, m12, m13, m14, m11);
  }

  lemma AdjugateTimesEntry9(m0: real, m1: real, m2: real, m3: real, m4: real, m5: real, m6: real, m7: real, m8: real, m9: real, m10: real, m11: real, m12: real, m13: real, m14: real, m15: real)
    ensures Dot4(-Det3(m1, m2, m3, m9, m10, m11, m13, m14, m15), Det3(m0, m2, m3, m8, m10, m11, m12, m14, m15), -Det3(m0, m1, m3, m8, m9, m11, m12, m13, m15), Det3(m0, m1, m2, m8, m9, m10, m12, m13, m14), m8, m9, m10, m11)
      == 0.0
  {
    Det3Times(m1, m2, m3, m9, m10, m11, m13, m14, m15, m8);
    Det3Times(m0, m2, m3, m8, m10, m11, m12, m14, m15, m9);
    Det3Times(m0, m1, m3, m8, m9, m11, m12, m13, m15, m10);
    Det3Times(m0, m1, m2, m8, m9, m10, m12, m13, m14, m11);
  }

  lemma AdjugateTimesEntry10(m0: real, m1: real, m2: real, m3: real, m4: real, m5: real, m6: real, m7: real, m8: real, m9: real, m10: real, m11: real, m12: real, m13: real, m14: real, m15: real)
    ensures Dot4(Det3(m1, m2, m3, m5, m6, m7, m13, m14, m15), -Det3(m0, m2, m3, m4, m6, m7, m12, m14, m15), Det3(m0, m1, m3, m4, m5, m7, m12, m13, m15), -Det3(m0, m1, m2, m4, m5, m6, m12, m13, m14), m8, m9, m10, m11)
      == m0 * Det3(m5, m6, m7, m9, m10, m11, m13, m14, m15) - m4 * Det3(m1, m2, m3, m9, m10, m11, m13, m14, m15) + m8 * Det3(m1, m2, m3, m5, m6, m7, m13, m14, m15) - m12 * Det3(m1, m2, m3, m5, m6, m7, m9, m10, m11)
  {
    Det3Times(m1, m2, m3, m5, m6, m7, m13, m14, m15, m8);
    Det3Times(m0, m2, m3, m4, m6, m7, m12, m14, m15, m9);
    Det3Times(m0, m1, m3, m4, m5, m7, m12, m13, m15, m10);
    Det3Times(m0, m1, m2, m4, m5, m6, m12, m13, m14, m11);
    Det3Times(m5, m6, m7, m9, m10, m11, m13, m14, m15, m0);
    Det3Times(m1, m2, m3, m9, m10, m11, m13, m14, m15, m4);
    Det3Times(m1, m2, m3, m5, m6, m7, m13, m14, m15, m8);
    Det3Times(m1, m2, m3, m5, m6, m7, m9, m10, m11, m12);
  }

  lemma AdjugateTimesEntry11(m0: real, m1: real, m2: real, m3: real, m4: real, m5: real, m6: real, m7: real, m8: real, m9: real, m10: real, m11: real, m12: real, m13: real, m14: real, m15: real)
    ensures Dot4(-Det3(m1, m2, m3, m5, m6, m7, m9, m10, m11), Det3(m0, m2, m3, m4, m6, m7, m8, m10, m11), -Det3(m0, m1, m3, m4, m5, m7, m8, m9, m11), Det3(m0, m1, m2, m4, m5, m6, m8, m9, m10), m8, m9, m10, m11)
      == 0.0
  {
    Det3Times(m1, m2, m3, m5, m6, m7, m9, m10, m11, m8);
    Det3Times(m0, m2, m3, m4, m6, m7, m8, m10, m11, m9);
    Det3Times(m0, m1, m3, m4, m5, m7, m8, m9, m11, m10);
    Det3Times(m0, m1, m2, m4, m5, m6, m8, m9, m10, m11);
  }

  lemma AdjugateTimesEntry12(m0: real, m1: real, m2: real, m3: real, m4: real, m5: real, m6: real, m7: real, m8: real, m9: real, m10: real, m11: real, m12: real, m13: real, m14: real, m15: real)
    ensures Dot4(Det3(m5, m6, m7, m9, m10, m11, m13, m14, m15), -Det3(m4, m6, m7, m8, m10, m11, m12, m14, m15), Det3(m4, m5, m7, m8, m9, m11, m12, m13, m15), -Det3(m4, m5, m6, m8, m9, m10, m12, m13, m14), m12, m13, m14, m15)
      == 0.0
  {
    Det3Times(m5, m6, m7, m9, m10, m11, m13, m14, m15, m12);
    Det3Times(m4, m6, m7, m8, m10, m11, m12, m14, m15, m13);
    Det3Times(m4, m5, m7, m8, m9, m11, m12, m13, m15, m14);
    Det3Times(m4, m5, m6, m8, m9, m10, m12, m13, m14, m15);
  }

  lemma AdjugateTimesEntry13(m0: real, m1: real, m2: real, m3: real, m4: real, m5: real, m6: real, m7: real, m8: real, m9: real, m10: real, m11: real, m12: real, m13: real, m14: real, m15: real)
    ensures Dot4(-Det3(m1, m2, m3, m9, m10, m11, m13, m14, m15), Det3(m0, m2, m3, m8, m10, m11, m12, m14, m15), -Det3(m0, m1, m3, m8, m9, m11, m12, m13, m15), Det3(m0, m1, m2, m8, m9, m10, m12, m13, m14), m12, m13, m14, m15)
      == 0.0
  {
    Det3Times(m1, m2, m3, m9, m10, m11, m13, m14, m15, m12);
    Det3Times(m0, m2, m3, m8, m10, m11, m12, m14, m15, m13);
    Det3Times(m0, m1, m3, m8, m9, m11, m12, m13, m15, m14);
    Det3Times(m0, m1, m2, m8, m9, m10, m12, m13, m14, m15);
  }

  lemma AdjugateTimesEntry14(m0: real, m1: real, m2: real, m3: real, m4: real, m5: real, m6: real, m7: real, m8: real, m9: real, m10: real, m11: real, m12: real, m13: real, m14: real, m15: real)
    ensures Dot4(Det3(m1, m2, m3, m5, m6, m7, m13, m14, m15), -Det3(m0, m2, m3, m4, m6, m7, m12, m14, m15), Det3(m0, m1, m3, m4, m5, m7, m12, m13, m15), -Det3(m0, m1, m2, m4, m5, m6, m12, m13, m14), m12, m13, m14, m15)
      == 0.0
  {
    Det3Times(m1, m2, m3, m5, m6, m7, m13, m14, m15, m12);
    Det3Times(m0, m2, m3, m4, m6, m7, m12, m14, m15, m13);
    Det3Times(m0, m1, m3, m4, m5, m7, m12, m13, m15, m14);
    Det3Times(m0, m1, m2, m4, m5, m6, m12, m13, m14, m15);
  }

  lemma AdjugateTimesEntry15(m0: real, m1: real, m2: real, m3: real, m4: real, m5: real, m6: real, m7: real, m8: real, m9: real, m10: real, m11: real, m12: real, m13: real, m14: real, m15: real)
    ensures Dot4(-Det3(m1, m2, m3, m5, m6, m7, m9, m10, m11), Det3(m0, m2, m3, m4, m6, m7, m8, m10, m11), -Det3(m0, m1, m3, m4, m5, m7, m8, m9, m11), Det3(m0, m1, m2, m4, m5, m6, m8, m9, m10), m12, m13, m14, m15)
      == m0 * Det3(m5, m6, m7, m9, m10, m11, m13, m14, m15) - m4 * Det3(m1, m2, m3, m9, m10, m11, m13, m14, m15) + m8 * Det3(m1, m2, m3, m5, m6, m7, m13, m14, m15) - m12 * Det3(m1, m2, m3, m5, m6, m7, m9, m10, m11)
  {
    Det3Times(m1, m2, m3, m5, m6, m7, m9, m10, m11, m12);
    Det3Times(m0, m2, m3, m4, m6, m7, m8, m10, m11, m13);
    Det3Times(m0, m1, m3, m4, m5, m7, m8, m9, m11, m14);
    Det3Times(m0, m1, m2, m4, m5, m6, m8, m9, m10, m15);
    Det3Times(m5, m6, m7, m9, m10, m11, m13, m14, m15, m0);
    Det3Times(m1, m2, m3, m9, m10, m11, m13, m14, m15, m4);
    Det3Times(m1, m2, m3, m5, m6, m7, m13, m14, m15, m8);
    Det3Times(m1, m2, m3, m5, m6, m7, m9, m10, m11, m12);
  }

  /** The matrix times its adjugate is the determinant times the identity. */
  lemma TimesAdjugate(m: Matrix4x4)
    ensures m.Times(m.Adjugate()) == Matrix4x4.Identity.Scale(m.Determinant())
  {
    TimesAdjugateAt0(m);
    TimesAdjugateAt1(m);
    TimesAdjugateAt2(m);
    TimesAdjugateAt3(m);
    TimesAdjugateAt4(m);
    TimesAdjugateAt5(m);
    TimesAdjugateAt6(m);
    TimesAdjugateAt7(m);
    TimesAdjugateAt8(m);
    TimesAdjugateAt9(m);
    TimesAdjugateAt10(m);
    TimesAdjugateAt11(m);
    TimesAdjugateAt12(m);
    TimesAdjugateAt13(m);
    TimesAdjugateAt14(m);
    TimesAdjugateAt15(m);
  }

  lemma TimesAdjugateAt0(m: Matrix4x4)
    ensures m.Times(m.Adjugate()).m0 == m.Determinant()
  {
    TimesFields(m, m.Adjugate());
    TimesAdjugateEntry0(m.m0, m.m1, m.m2, m.m3, m.m4, m.m5, m.m6, m.m7, m.m8, m.m9, m.m10, m.m11, m.m12, m.m13, m.m14, m.m15);
  }

  lemma TimesAdjugateAt1(m: Matrix4x4)
    ensures m.Times(m.Adjugate()).m1 == 0.0
  {
    TimesFields(m, m.Adjugate());
    TimesAdjugateEntry1(m.m0, m.m1, m.m2, m.m3, m.m4, m.m5, m.m6, m.m7, m.m8, m.m9, m.m10, m.m11, m.m12, m.m13, m.m14, m.m15);
  }

  lemma TimesAdjugateAt2(m: Matrix4x4)
    ensures m.Times(m.Adjugate()).m2 == 0.0
  {
    TimesFields(m, m.Adjugate());
    TimesAdjugateEntry2(m.m0, m.m1, m.m2, m.m3, m.m4, m.m5, m.m6, m.m7, m.m8, m.m9, m.m10, m.m11, m.m12, m.m13, m.m14, m.m15);
  }

  lemma TimesAdjugateAt3(m: Matrix4x4)
    ensures m.Times(m.Adjugate()).m3 == 0.0
  {
    TimesFields(m, m.Adjugate());
    TimesAdjugateEntry3(m.m0, m.m1, m.m2, m.m3, m.m4, m.m5, m.m6, m.m7, m.m8, m.m9, m.m10, m.m11, m.m12, m.m13, m.m14, m.m15);
  }

  lemma TimesAdjugateAt4(m: Matrix4x4)
    ensures m.Times(m.Adjugate()).m4 == 0.0
  {
    TimesFields(m, m.Adjugate());
    TimesAdjugateEntry4(m.m0, m.m1, m.m2, m.m3, m.m4, m.m5, m.m6, m.m7, m.m8, m.m9, m.m10, m.m11, m.m12, m.m13, m.m14, m.m15);
  }

  lemma TimesAdjugateAt5(m: Matrix4x4)
    ensures m.Times(m.Adjugate()).m5 == m.Determinant()
  {
    TimesFields(m, m.Adjugate());
    TimesAdjugateEntry5(m.m0, m.m1, m.m2, m.m3, m.m4, m.m5, m.m6, m.m7, m.m8, m.m9, m.m10, m.m11, m.m12, m.m13, m.m14, m.m15);
  }

  lemma TimesAdjugateAt6(m: Matrix4x4)
    ensures m.Times(m.Adjugate()).m6 == 0.0
  {
    TimesFields(m, m.Adjugate());
    TimesAdjugateEntry6(m.m0, m.m1, m.m2, m.m3, m.m4, m.m5, m.m6, m.m7, m.m8, m.m9, m.m10, m.m11, m.m12, m.m13, m.m14, m.m15);
  }

  lemma TimesAdjugateAt7(m: Matrix4x4)
    ensures m.Times(m.Adjugate()).m7 == 0.0
  {
    TimesFields(m, m.Adjugate());
    TimesAdjugateEntry7(m.m0, m.m1, m.m2, m.m3, m.m4, m.m5, m.m6, m.m7, m.m8, m.m9, m.m10, m.m11, m.m12, m.m13, m.m14, m.m15);
  }

  lemma TimesAdjugateAt8(m: Matrix4x4)
    ensures m.Times(m.Adjugate()).m8 == 0.0
  {
    TimesFields(m, m.Adjugate());
    TimesAdjugateEntry8(m.m0, m.m1, m.m2, m.m3, m.m4, m.m5, m.m6, m.m7, m.m8, m.m9, m.m10, m.m11, m.m12, m.m13, m.m14, m.m15);
  }

  lemma TimesAdjugateAt9(m: Matrix4x4)
    ensures m.Times(m.Adjugate()).m9 == 0.0
  {
    TimesFields(m, m.Adjugate());
    TimesAdjugateEntry9(m.m0, m.m1, m.m2, m.m3, m.m4, m.m5, m.m6, m.m7, m.m8, m.m9, m.m10, m.m11, m.m12, m.m13, m.m14, m.m15);
  }

  lemma TimesAdjugateAt10(m: Matrix4x4)
    ensures m.Times(m.Adjugate()).m10 == m.Determinant()
  {
    TimesFields(m, m.Adjugate());
    TimesAdjugateEntry10(m.m0, m.m1, m.m2, m.m3, m.m4, m.m5, m.m6, m.m7, m.m8, m.m9, m.m10, m.m11, m.m12, m.m13, m.m14, m.m15);
  }

  lemma TimesAdjugateAt11(m: Matrix4x4)
    ensures m.Times(m.Adjugate()).m11 == 0.0
  {
    TimesFields(m, m.Adjugate());
    TimesAdjugateEntry11(m.m0, m.m1, m.m2, m.m3, m.m4, m.m5, m.m6, m.m7, m.m8, m.m9, m.m10, m.m11, m.m12, m.m13, m.m14, m.m15);
  }

  lemma TimesAdjugateAt12(m: Matrix4x4)
    ensures m.Times(m.Adjugate()).m12 == 0.0
  {
    TimesFields(m, m.Adjugate());
    TimesAdjugateEntry12(m.m0, m.m1, m.m2, m.m3, m.m4, m.m5, m.m6, m.m7, m.m8, m.m9, m.m10, m.m11, m.m12, m.m13, m.m14, m.m15);
  }

  lemma TimesAdjugateAt13(m: Matrix4x4)
    ensures m.Times(m.Adjugate()).m13 == 0.0
  {
    TimesFields(m, m.Adjugate());
    TimesAdjugateEntry13(m.m0, m.m1, m.m2, m.m3, m.m4, m.m5, m.m6, m.m7, m.m8, m.m9, m.m10, m.m11, m.m12, m.m13, m.m14, m.m15);
  }

  lemma TimesAdjugateAt14(m: Matrix4x4)
    ensures m.Times(m.Adjugate()).m14 == 0.0
  {
    TimesFields(m, m.Adjugate());
    TimesAdjugateEntry14(m.m0, m.m1, m.m2, m.m3, m.m4, m.m5, m.m6, m.m7, m.m8, m.m9, m.m10, m.m11, m.m12, m.m13, m.m14, m.m15);
  }

  lemma TimesAdjugateAt15(m: Matrix4x4)
    ensures m.Times(m.Adjugate()).m15 == m.Determinant()
  {
    TimesFields(m, m.Adjugate());
    TimesAdjugateEntry15(m.m0, m.m1, m.m2, m.m3, m.m4, m.m5, m.m6, m.m7, m.m8, m.m9, m.m10, m.m11, m.m12, m.m13, m.m14, m.m15);
  }

  lemma TimesAdjugateEntry0(m0: real, m1: real, m2: real, m3: real, m4: real, m5: real, m6: real, m7: real, m8: real, m9: real, m10: real, m11: real, m12: real, m13: real, m14: real, m15: real)
    ensures Dot4(m0, m4, m8, m12, Det3(m5, m6, m7, m9, m10, m11, m13, m14, m15), -Det3(m1, m2, m3, m9, m10, m11, m13, m14, m15), Det3(m1, m2, m3, m5, m6, m7, m13, m14, m15), -Det3(m1, m2, m3, m5, m6, m7, m9, m10, m11))
      == m0 * Det3(m5, m6, m7, m9, m10, m11, m13, m14, m15) - m4 * Det3(m1, m2, m3, m9, m10, m11, m13, m14, m15) + m8 * Det3(m1, m2, m3, m5, m6, m7, m13, m14, m15) - m12 * Det3(m1, m2, m3, m5, m6, m7, m9, m10, m11)
  {
    Det3Times(m5, m6, m7, m9, m10, m11, m13, m14, m15, m0);
    Det3Times(m1, m2, m3, m9, m10, m11, m13, m14, m15, m4);
    Det3Times(m1, m2, m3, m5, m6, m7, m13, m14, m15, m8);
    Det3Times(m1, m2, m3, m5, m6, m7, m9, m10, m11, m12);
    Det3Times(m5, m6, m7, m9, m10, m11, m13, m14, m15, m0);
    Det3Times(m1, m2, m3, m9, m10, m11, m13, m14, m15, m4);
    Det3Times(m1, m2, m3, m5, m6, m7, m13, m14, m15, m8);
    Det3Times(m1, m2, m3, m5, m6, m7, m9, m10, m11, m12);
  }

  lemma TimesAdjugateEntry1(m0: real, m1: real, m2: real, m3: real, m4: real, m5: real, m6: real, m7: real, m8: real, m9: real, m10: real, m11: real, m12: real, m13: real, m14: real, m15: real)
    ensures Dot4(m1, m5, m9, m13, Det3(m5, m6, m7, m9, m10, m11, m13, m14, m15), -Det3(m1, m2, m3, m9, m10, m11, m13, m14, m15), Det3(m1, m2, m3, m5, m6, m7, m13, m14, m15), -Det3(m1, m2, m3, m5, m6, m7, m9, m10, m11))
      == 0.0
  {
    Det3Times(m5, m6, m7, m9, m10, m11, m13, m14, m15, m1);
    Det3Times(m1, m2, m3, m9, m10, m11, m13, m14, m15, m5);
    Det3Times(m1, m2, m3, m5, m6, m7, m13, m14, m15, m9);
    Det3Times(m1, m2, m3, m5, m6, m7, m9, m10, m11, m13);
  }

  lemma TimesAdjugateEntry2(m0: real, m1: real, m2: real, m3: real, m4: real, m5: real, m6: real, m7: real, m8: real, m9: real, m10: real, m11: real, m12: real, m13: real, m14: real, m15: real)
    ensures Dot4(m2, m6, m10, m14, Det3(m5, m6, m7, m9, m10, m11, m13, m14, m15), -Det3(m1, m2, m3, m9, m10, m11, m13, m14, m15), Det3(m1, m2, m3, m5, m6, m7, m13, m14, m15), -Det3(m1, m2, m3, m5, m6, m7, m9, m10, m11))
      == 0.0
  {
    Det3Times(m5, m6, m7, m9, m10, m11, m13, m14, m15, m2);
    Det3Times(m1, m2, m3, m9, m10, m11, m13, m14, m15, m6);
    Det3Times(m1, m2, m3, m5, m6, m7, m13, m14, m15, m10);
    Det3Times(m1, m2, m3, m5, m6, m7, m9, m10, m11, m14);
  }

  lemma TimesAdjugateEntry3(m0: real, m1: real, m2: real, m3: real, m4: real, m5: real, m6: real, m7: real, m8: real, m9: real, m10: real, m11: real, m12: real, m13: real, m14: real, m15: real)
    ensures Dot4(m3, m7, m11, m15, Det3(m5, m6, m7, m9, m10, m11, m13, m14, m15), -Det3(m1, m2, m3, m9, m10, m11, m13, m14, m15), Det3(m1, m2, m3, m5, m6, m7, m13, m14, m15), -Det3(m1, m2, m3, m5, m6, m7, m9, m10, m11))
      == 0.0
  {
    Det3Times(m5, m6, m7, m9, m10, m11, m13, m14, m15, m3);
    Det3Times(m1, m2, m3, m9, m10, m11, m13, m14, m15, m7);
    Det3Times(m1, m2, m3, m5, m6, m7, m13, m14, m15, m11);
    Det3Times(m1, m2, m3, m5, m6, m7, m9, m10, m11, m15);
  }

  lemma TimesAdjugateEntry4(m0: real, m1: real, m2: real, m3: real, m4: real, m5: real, m6: real, m7: real, m8: real, m9: real, m10: real, m11: real, m12: real, m13: real, m14: real, m15: real)
    ensures Dot4(m0, m4, m8, m12, -Det3(m4, m6, m7, m8, m10, m11, m12, m14, m15), Det3(m0, m2, m3, m8, m10, m11, m12, m14, m15), -Det3(m0, m2, m3, m4, m6, m7, m12, m14, m15), Det3(m0, m2, m3, m4, m6, m7, m8, m10, m11))
      == 0.0
  {
    Det3Times(m4, m6, m7, m8, m10, m11, m12, m14, m15, m0);
    Det3Times(m0, m2, m3, m8, m10, m11, m12, m14, m15, m4);
    Det3Times(m0, m2, m3, m4, m6, m7, m12, m14, m15, m8);
    Det3Times(m0, m2, m3, m4, m6, m7, m8, m10, m11, m12);
  }

  lemma TimesAdjugateEntry5(m0: real, m1: real, m2: real, m3: real, m4: real, m5: real, m6: real, m7: real, m8: real, m9: real, m10: real, m11: real, m12: real, m13: real, m14: real, m15: real)
    ensures Dot4(m1, m5, m9, m13, -Det3(m4, m6, m7, m8, m10, m11, m12, m14, m15), Det3(m0, m2, m3, m8, m10, m11, m12, m14, m15), -Det3(m0, m2, m3, m4, m6, m7, m12, m14, m15), Det3(m0, m2, m3, m4, m6, m7, m8, m10, m11))
      == m0 * Det3(m5, m6, m7, m9, m10, m11, m13, m14, m15) - m4 * Det3(m1, m2, m3, m9, m10, m11, m13, m14, m15) + m8 * Det3(m1, m2, m3, m5, m6, m7, m13, m14, m15) - m12 * Det3(m1, m2, m3, m5, m6, m7, m9, m10, m11)
  {
    Det3Times(m4, m6, m7, m8, m10, m11, m12, m14, m15, m1);
    Det3Times(m0, m2, m3, m8, m10, m11, m12, m14, m15, m5);
    Det3Times(m0, m2, m3, m4, m6, m7, m12, m14, m15, m9);
    Det3Times(m0, m2, m3, m4, m6, m7, m8, m10, m11, m13);
    Det3Times(m5, m6, m7, m9, m10, m11, m13, m14, m15, m0);
    Det3Times(m1, m2, m3, m9, m10, m11, m13, m14, m15, m4);
    Det3Times(m1, m2, m3, m5, m6, m7, m13, m14, m15, m8);
    Det3Times(m1, m2, m3, m5, m6, m7, m9, m10, m11, m12);
  }

  lemma TimesAdjugateEntry6(m0: real, m1: real, m2: real, m3: real, m4: real, m5: real, m6: real, m7: real, m8: real, m9: real, m10: real, m11: real, m12: real, m13: real, m14: real, m15: real)
    ensures Dot4(m2, m6, m10, m14, -Det3(m4, m6, m7, m8, m10, m11, m12, m14, m15), Det3(m0, m2, m3, m8, m10, m11, m12, m14, m15), -Det3(m0, m2, m3, m4, m6, m7, m12, m14, m15), Det3(m0, m2, m3, m4, m6, m7, m8, m10, m11))
      == 0.0
  {
    Det3Times(m4, m6, m7, m8, m10, m11, m12, m14, m15, m2);
    Det3Times(m0, m2, m3, m8, m10, m11, m12, m14, m15, m6);
    Det3Times(m0, m2, m3, m4, m6, m7, m12, m14, m15, m10);
    Det3Times(m0, m2, m3, m4, m6, m7, m8, m10, m11, m14);
  }

  lemma TimesAdjugateEntry7(m0: real, m1: real, m2: real, m3: real, m4: real, m5: real, m6: real, m7: real, m8: real, m9: real, m10: real, m11: real, m12: real, m13: real, m14: real, m15: real)
    ensures Dot4(m3, m7, m11, m15, -Det3(m4, m6, m7, m8, m10, m11, m12, m14, m15), Det3(m0, m2, m3, m8, m10, m11, m12, m14, m15), -Det3(m0, m2, m3, m4, m6, m7, m12, m14, m15), Det3(m0, m2, m3, m4, m6, m7, m8, m10, m11))
      == 0.0
  {
    Det3Times(m4, m6, m7, m8, m10, m11, m12, m14, m15, m3);
    Det3Times(m0, m2, m3, m8, m10, m11, m12, m14, m15, m7);
    Det3Times(m0, m2, m3, m4, m6, m7, m12, m14, m15, m11);
    Det3Times(m0, m2, m3, m4, m6, m7, m8, m10, m11, m15);
  }

  lemma TimesAdjugateEntry8(m0: real, m1: real, m2: real, m3: real, m4: real, m5: real, m6: real, m7: real, m8: real, m9: real, m10: real, m11: real, m12: real, m13: real, m14: real, m15: real)
    ensures Dot4(m0, m4, m8, m12, Det3(m4, m5, m7, m8, m9, m11, m12, m13, m15), -Det3(m0, m1, m3, m8, m9, m11, m12, m13, m15), Det3(m0, m1, m3, m4, m5, m7, m12, m13, m15), -Det3(m0, m1, m3, m4, m5, m7, m8, m9, m11))
      == 0.0
  {
    Det3Times(m4, m5, m7, m8, m9, m11, m12, m13, m15, m0);
    Det3Times(m0, m1, m3, m8, m9, m11, m12, m13, m15, m4);
    Det3Times(m0, m1, m3, m4, m5, m7, m12, m13, m15, m8);
    Det3Times(m0, m1, m3, m4, m5, m7, m8, m9, m11, m12);
  }

  lemma TimesAdjugateEntry9(m0: real, m1: real, m2: real, m3: real, m4: real, m5: real, m6: real, m7: real, m8: real, m9: real, m10: real, m11: real, m12: real, m13: real, m14: real, m15: real)
    ensures Dot4(m1, m5, m9, m13, Det3(m4, m5, m7, m8, m9, m11, m12, m13, m15), -Det3(m0, m1, m3, m8, m9, m11, m12, m13, m15), Det3(m0, m1, m3, m4, m5, m7, m12, m13, m15), -Det3(m0, m1, m3, m4, m5, m7, m8, m9, m11))
      == 0.0
  {
    Det3Times(m4, m5, m7, m8, m9, m11, m12, m13, m15, m1);
    Det3Times(m0, m1, m3, m8, m9, m11, m12, m13, m15, m5);
    Det3Times(m0, m1, m3, m4, m5, m7, m12, m13, m15, m9);
    Det3Times(m0, m1, m3, m4, m5, m7, m8, m9, m11, m13);
  }

  lemma TimesAdjugateEntry10(m0: real, m1: real, m2: real, m3: real, m4: real, m5: real, m6: real, m7: real, m8: real, m9: real, m10: real, m11: real, m12: real, m13: real, m14: real, m15: real)
    ensures Dot4(m2, m6, m10, m14, Det3(m4, m5, m7, m8, m9, m11, m12, m13, m15), -Det3(m0, m1, m3, m8, m9, m11, m12, m13, m15), Det3(m0, m1, m3, m4, m5, m7, m12, m13, m15), -Det3(m0, m1, m3, m4, m5, m7, m8, m9, m11))
      == m0 * Det3(m5, m6, m7, m9, m10, m11, m13, m14, m15) - m4 * Det3(m1, m2, m3, m9, m10, m11, m13, m14, m15) + m8 * Det3(m1, m2, m3, m5, m6, m7, m13, m14, m15) - m12 * Det3(m1, m2, m3, m5, m6, m7, m9, m10, m11)
  {
    Det3Times(m4, m5, m7, m8, m9, m11, m12, m13, m15, m2);
    Det3Times(m0, m1, m3, m8, m9, m11, m12, m13, m15, m6);
    Det3Times(m0, m1, m3, m4, m5, m7, m12, m13, m15, m10);
    Det3Times(m0, m1, m3, m4, m5, m7, m8, m9, m11, m14);
    Det3Times(m5, m6, m7, m9, m10, m11, m13, m14, m15, m0);
    Det3Times(m1, m2, m3, m9, m10, m11, m13, m14, m15, m4);
    Det3Times(m1, m2, m3, m5, m6, m7, m13, m14, m15, m8);
    Det3Times(m1, m2, m3, m5, m6, m7, m9, m10, m11, m12);
  }

  lemma TimesAdjugateEntry11(m0: real, m1: real, m2: real, m3: real, m4: real, m5: real, m6: real, m7: real, m8: real, m9: real, m10: real, m11: real, m12: real, m13: real, m14: real, m15: real)
    ensures Dot4(m3, m7, m11, m15, Det3(m4, m5, m7, m8, m9, m11, m12, m13, m15), -Det3(m0, m1, m3, m8, m9, m11, m12, m13, m15), Det3(m0, m1, m3, m4, m5, m7, m12, m13, m15), -Det3(m0, m1, m3, m4, m5, m7, m8, m9, m11))
      == 0.0
  {
    Det3Times(m4, m5, m7, m8, m9, m11, m12, m13, m15, m3);
    Det3Times(m0, m1, m3, m8, m9, m11, m12, m13, m15, m7);
    Det3Times(m0, m1, m3, m4, m5, m7, m12, m13, m15, m11);
    Det3Times(m0, m1, m3, m4, m5, m7, m8, m9, m11, m15);
  }

  lemma TimesAdjugateEntry12(m0: real, m1: real, m2: real, m3: real, m4: real, m5: real, m6: real, m7: real, m8: real, m9: real, m10: real, m11: real, m12: real, m13: real, m14: real, m15: real)
    ensures Dot4(m0, m4, m8, m12, -Det3(m4, m5, m6, m8, m9, m10, m12, m13, m14), Det3(m0, m1, m2, m8, m9, m10, m12, m13, m14), -Det3(m0, m1, m2, m4, m5, m6, m12, m13, m14), Det3(m0, m1, m2, m4, m5, m6, m8, m9, m10))
      == 0.0
  {
    Det3Times(m4, m5, m6, m8, m9, m10, m12, m13, m14, m0);
    Det3Times(m0, m1, m2, m8, m9, m10, m12, m13, m14, m4);
    Det3Times(m0, m1, m2, m4, m5, m6, m12, m13, m14, m8);
    Det3Times(m0, m1, m2, m4, m5, m6, m8, m9, m10, m12);
  }

  lemma TimesAdjugateEntry13(m0: real, m1: real, m2: real, m3: real, m4: real, m5: real, m6: real, m7: real, m8: real, m9: real, m10: real, m11: real, m12: real, m13: real, m14: real, m15: real)
    ensures Dot4(m1, m5, m9, m13, -Det3(m4, m5, m6, m8, m9, m10, m12, m13, m14), Det3(m0, m1, m2, m8, m9, m10, m12, m13, m14), -Det3(m0, m1, m2, m4, m5, m6, m12, m13, m14), Det3(m0, m1, m2, m4, m5, m6, m8, m9, m10))
      == 0.0
  {
    Det3Times(m4, m5, m6, m8, m9, m10, m12, m13, m14, m1);
    Det3Times(m0, m1, m2, m8, m9, m10, m12, m13, m14, m5);
    Det3Times(m0, m1, m2, m4, m5, m6, m12, m13, m14, m9);
    Det3Times(m0, m1, m2, m4, m5, m6, m8, m9, m10, m13);
  }

  lemma TimesAdjugateEntry14(m0: real, m1: real, m2: real, m3: real, m4: real, m5: real, m6: real, m7: real, m8: real, m9: real, m10: real, m11: real, m12: real, m13: real, m14: real, m15: real)
    ensures Dot4(m2, m6, m10, m14, -Det3(m4, m5, m6, m8, m9, m10, m12, m13, m14), Det3(m0, m1, m2, m8, m9, m10, m12, m13, m14), -Det3(m0, m1, m2, m4, m5, m6, m12, m13, m14), Det3(m0, m1, m2, m4, m5, m6, m8, m9, m10))
      == 0.0
  {
    Det3Times(m4, m5, m6, m8, m9, m10, m12, m13, m14, m2);
    Det3Times(m0, m1, m2, m8, m9, m10, m12, m13, m14, m6);
    Det3Times(m0, m1, m2, m4, m5, m6, m12, m13, m14, m10);
    Det3Times(m0, m1, m2, m4, m5, m6, m8, m9, m10, m14);
  }

  lemma TimesAdjugateEntry15(m0: real, m1: real, m2: real, m3: real, m4: real, m5: real, m6: real, m7: real, m8: real, m9: real, m10: real, m11: real, m12: real, m13: real, m14: real, m15: real)
    ensures Dot4(m3, m7, m11, m15, -Det3(m4, m5, m6, m8, m9, m10, m12, m13, m14), Det3(m0, m1, m2, m8, m9, m10, m12, m13, m14), -Det3(m0, m1, m2, m4, m5, m6, m12, m13, m14), Det3(m0, m1, m2, m4, m5, m6, m8, m9, m10))
      == m0 * Det3(m5, m6, m7, m9, m10, m11, m13, m14, m15) - m4 * Det3(m1, m2, m3, m9, m10, m11, m13, m14, m15) + m8 * Det3(m1, m2, m3, m5, m6, m7, m13, m14, m15) - m12 * Det3(m1, m2, m3, m5, m6, m7, m9, m10, m11)
  {
    Det3Times(m4, m5, m6, m8, m9, m10, m12, m13, m14, m3);
    Det3Times(m0, m1, m2, m8, m9, m10, m12, m13, m14, m7);
    Det3Times(m0, m1, m2, m4, m5, m6, m12, m13, m14, m11);
    Det3Times(m0, m1, m2, m4, m5, m6, m8, m9, m10, m15);
    Det3Times(m5, m6, m7, m9, m10, m11, m13, m14, m15, m0);
    Det3Times(m1, m2, m3, m9, m10, m11, m13, m14, m15, m4);
    Det3Times(m1, m2, m3, m5, m6, m7, m13, m14, m15, m8);
    Det3Times(m1, m2, m3, m5, m6, m7, m9, m10, m11, m12);
  }

  /** The fields of a scaled matrix. */
  lemma ScaleFields(t: Matrix4x4, s: real)
    ensures t.Scale(s) == Matrix4x4(t.m0 * s, t.m1 * s, t.m2 * s, t.m3 * s, t.m4 * s, t.m5 * s, t.m6 * s, t.m7 * s, t.m8 * s, t.m9 * s, t.m10 * s, t.m11 * s, t.m12 * s, t.m13 * s, t.m14 * s, t.m15 * s)
  {
    var r := t.Scale(s);
    assert r.m0 == t.m0 * s;
    assert r.m1 == t.m1 * s;
    assert r.m2 == t.m2 * s;
    assert r.m3 == t.m3 * s;
    assert r.m4 == t.m4 * s;
    assert r.m5 == t.m5 * s;
    assert r.m6 == t.m6 * s;
    assert r.m7 == t.m7 * s;
    assert r.m8 == t.m8 * s;
    assert r.m9 == t.m9 * s;
    assert r.m10 == t.m10 * s;
    assert r.m11 == t.m11 * s;
    assert r.m12 == t.m12 * s;
    assert r.m13 == t.m13 * s;
    assert r.m14 == t.m14 * s;
    assert r.m15 == t.m15 * s;
  }

  /** The fields of a product, each the row-by-column `Dot4`. */
  lemma TimesFields(a: Matrix4x4, b: Matrix4x4)
    ensures a.Times(b) == Matrix4x4(Dot4(a.m0, a.m4, a.m8, a.m12, b.m0, b.m1, b.m2, b.m3), Dot4(a.m1, a.m5, a.m9, a.m13, b.m0, b.m1, b.m2, b.m3), Dot4(a.m2, a.m6, a.m10, a.m14, b.m0, b.m1, b.m2, b.m3), Dot4(a.m3, a.m7, a.m11, a.m15, b.m0, b.m1, b.m2, b.m3), Dot4(a.m0, a.m4, a.m8, a.m12, b.m4, b.m5, b.m6, b.m7), Dot4(a.m1, a.m5, a.m9, a.m13, b.m4, b.m5, b.m6, b.m7), Dot4(a.m2, a.m6, a.m10, a.m14, b.m4, b.m5, b.m6, b.m7), Dot4(a.m3, a.m7, a.m11, a.m15, b.m4, b.m5, b.m6, b.m7), Dot4(a.m0, a.m4, a.m8, a.m12, b.m8, b.m9, b.m10, b.m11), Dot4(a.m1, a.m5, a.m9, a.m13, b.m8, b.m9, b.m10, b.m11), Dot4(a.m2, a.m6, a.m10, a.m14, b.m8, b.m9, b.m10, b.m11), Dot4(a.m3, a.m7, a.m11, a.m15, b.m8, b.m9, b.m10, b.m11), Dot4(a.m0, a.m4, a.m8, a.m12, b.m12, b.m13, b.m14, b.m15), Dot4(a.m1, a.m5, a.m9, a.m13, b.m12, b.m13, b.m14, b.m15), Dot4(a.m2, a.m6, a.m10, a.m14, b.m12, b.m13, b.m14, b.m15), Dot4(a.m3, a.m7, a.m11, a.m15, b.m12, b.m13, b.m14, b.m15))
  {
  }

  lemma IdentityScale(d: real)
    ensures Matrix4x4.Identity.Scale(d) == Matrix4x4(d, 0.0, 0.0, 0.0, 0.0, d, 0.0, 0.0, 0.0, 0.0, d, 0.0, 0.0, 0.0, 0.0, d)
  {
  }

  /** One element of a product whose left row is scaled by `q`. */
  lemma ScaledRow(a0: real, a1: real, a2: real, a3: real, b0: real, b1: real, b2: real, b3: real,
                  x0: real, x1: real, x2: real, x3: real, q: real, e: real, r: real)
    requires Dot4(a0, a1, a2, a3, b0, b1, b2, b3) == e && e * q == r
    requires x0 == a0 * q && x1 == a1 * q && x2 == a2 * q && x3 == a3 * q
    ensures Dot4(x0, x1, x2, x3, b0, b1, b2, b3) == r
  {
    assert (a0 * b0 + a1 * b1 + a2 * b2 + a3 * b3) * q == a0 * q * b0 + a1 * q * b1 + a2 * q * b2 + a3 * q * b3;
  }

  /** One element of a product whose right column is scaled by `q`. */
  lemma ScaledColumn(a0: real, a1: real, a2: real, a3: real, b0: real, b1: real, b2: real, b3: real,
                     x0: real, x1: real, x2: real, x3: real, q: real, e: real, r: real)
    requires Dot4(a0, a1, a2, a3, b0, b1, b2, b3) == e && e * q == r
    requires x0 == b0 * q && x1 == b1 * q && x2 == b2 * q && x3 == b3 * q
    ensures Dot4(a0, a1, a2, a3, x0, x1, x2, x3) == r
  {
    assert (a0 * b0 + a1 * b1 + a2 * b2 + a3 * b3) * q == a0 * b0 * q + a1 * b1 * q + a2 * b2 * q + a3 * b3 * q;
  }

  /** If `a * m` is `d` times the identity and `d` is not zero, `a / d` is a left inverse of `m`. */
  lemma ScaledLeftInverse(a: Matrix4x4, m: Matrix4x4, d: real)
    requires d != 0.0 && a.Times(m) == Matrix4x4.Identity.Scale(d)
    ensures a.Scale(1.0 / d).Times(m) == Matrix4x4.Identity
  {
    var q := 1.0 / d;
    assert d * q == 1.0;
    var b := a.Scale(q);
    TimesFields(a, m);
    IdentityScale(d);
    ScaleFields(a, q);
    TimesFields(b, m);

    ScaledRow(a.m0, a.m4, a.m8, a.m12, m.m0, m.m1, m.m2, m.m3, b.m0, b.m4, b.m8, b.m12, q, d, 1.0);
    ScaledRow(a.m1, a.m5, a.m9, a.m13, m.m0, m.m1, m.m2, m.m3, b.m1, b.m5, b.m9, b.m13, q, 0.0, 0.0);
    ScaledRow(a.m2, a.m6, a.m10, a.m14, m.m0, m.m1, m.m2, m.m3, b.m2, b.m6, b.m10, b.m14, q, 0.0, 0.0);
    ScaledRow(a.m3, a.m7, a.m11, a.m15, m.m0, m.m1, m.m2, m.m3, b.m3, b.m7, b.m11, b.m15, q, 0.0, 0.0);
    ScaledRow(a.m0, a.m4, a.m8, a.m12, m.m4, m.m5, m.m6, m.m7, b.m0, b.m4, b.m8, b.m12, q, 0.0, 0.0);
    ScaledRow(a.m1, a.m5, a.m9, a.m13, m.m4, m.m5, m.m6, m.m7, b.m1, b.m5, b.m9, b.m13, q, d, 1.0);
    ScaledRow(a.m2, a.m6, a.m10, a.m14, m.m4, m.m5, m.m6, m.m7, b.m2, b.m6, b.m10, b.m14, q, 0.0, 0.0);
    ScaledRow(a.m3, a.m7, a.m11, a.m15, m.m4, m.m5, m.m6, m.m7, b.m3, b.m7, b.m11, b.m15, q, 0.0, 0.0);
    ScaledRow(a.m0, a.m4, a.m8, a.m12, m.m8, m.m9, m.m10, m.m11, b.m0, b.m4, b.m8, b.m12, q, 0.0, 0.0);
    ScaledRow(a.m1, a.m5, a.m9, a.m13, m.m8, m.m9, m.m10, m.m11, b.m1, b.m5, b.m9, b.m13, q, 0.0, 0.0);
    ScaledRow(a.m2, a.m6, a.m10, a.m14, m.m8, m.m9, m.m10, m.m11, b.m2, b.m6, b.m10, b.m14, q, d, 1.0);
    ScaledRow(a.m3, a.m7, a.m11, a.m15, m.m8, m.m9, m.m10, m.m11, b.m3, b.m7, b.m11, b.m15, q, 0.0, 0.0);
    ScaledRow(a.m0, a.m4, a.m8, a.m12, m.m12, m.m13, m.m14, m.m15, b.m0, b.m4, b.m8, b.m12, q, 0.0, 0.0);
    ScaledRow(a.m1, a.m5, a.m9, a.m13, m.m12, m.m13, m.m14, m.m15, b.m1, b.m5, b.m9, b.m13, q, 0.0, 0.0);
    ScaledRow(a.m2, a.m6, a.m10, a.m14, m.m12, m.m13, m.m14, m.m15, b.m2, b.m6, b.m10, b.m14, q, 0.0, 0.0);
    ScaledRow(a.m3, a.m7, a.m11, a.m15, m.m12, m.m13, m.m14, m.m15, b.m3, b.m7, b.m11, b.m15, q, d, 1.0);
  }

  /** If `m * a` is `d` times the identity and `d` is not zero, `a / d` is a right inverse of `m`. */
  lemma ScaledRightInverse(a: Matrix4x4, m: Matrix4x4, d: real)
    requires d != 0.0 && m.Times(a) == Matrix4x4.Identity.Scale(d)
    ensures m.Times(a.Scale(1.0 / d)) == Matrix4x4.Identity
  {
    var q := 1.0 / d;
    assert d * q == 1.0;
    var b := a.Scale(q);
    TimesFields(m, a);
    IdentityScale(d);
    ScaleFields(a, q);
    TimesFields(m, b);

    ScaledColumn(m.m0, m.m4, m.m8, m.m12, a.m0, a.m1, a.m2, a.m3, b.m0, b.m1, b.m2, b.m3, q, d, 1.0);
    ScaledColumn(m.m1, m.m5, m.m9, m.m13, a.m0, a.m1, a.m2, a.m3, b.m0, b.m1, b.m2, b.m3, q, 0.0, 0.0);
    ScaledColumn(m.m2, m.m6, m.m10, m.m14, a.m0, a.m1, a.m2, a.m3, b.m0, b.m1, b.m2, b.m3, q, 0.0, 0.0);
    ScaledColumn(m.m3, m.m7, m.m11, m.m15, a.m0, a.m1, a.m2, a.m3, b.m0, b.m1, b.m2, b.m3, q, 0.0, 0.0);
    ScaledColumn(m.m0, m.m4, m.m8, m.m12, a.m4, a.m5, a.m6, a.m7, b.m4, b.m5, b.m6, b.m7, q, 0.0, 0.0);
    ScaledColumn(m.m1, m.m5, m.m9, m.m13, a.m4, a.m5, a.m6, a.m7, b.m4, b.m5, b.m6, b.m7, q, d, 1.0);
    ScaledColumn(m.m2, m.m6, m.m10, m.m14, a.m4, a.m5, a.m6, a.m7, b.m4, b.m5, b.m6, b.m7, q, 0.0, 0.0);
    ScaledColumn(m.m3, m.m7, m.m11, m.m15, a.m4, a.m5, a.m6, a.m7, b.m4, b.m5, b.m6, b.m7, q, 0.0, 0.0);
    ScaledColumn(m.m0, m.m4, m.m8, m.m12, a.m8, a.m9, a.m10, a.m11, b.m8, b.m9, b.m10, b.m11, q, 0.0, 0.0);
    ScaledColumn(m.m1, m.m5, m.m9, m.m13, a.m8, a.m9, a.m10, a.m11, b.m8, b.m9, b.m10, b.m11, q, 0.0, 0.0);
    ScaledColumn(m.m2, m.m6, m.m10, m.m14, a.m8, a.m9, a.m10, a.m11, b.m8, b.m9, b.m10, b.m11, q, d, 1.0);
    ScaledColumn(m.m3, m.m7, m.m11, m.m15, a.m8, a.m9, a.m10, a.m11, b.m8, b.m9, b.m10, b.m11, q, 0.0, 0.0);
    ScaledColumn(m.m0, m.m4, m.m8, m.m12, a.m12, a.m13, a.m14, a.m15, b.m12, b.m13, b.m14, b.m15, q, 0.0, 0.0);
    ScaledColumn(m.m1, m.m5, m.m9, m.m13, a.m12, a.m13, a.m14, a.m15, b.m12, b.m13, b.m14, b.m15, q, 0.0, 0.0);
    ScaledColumn(m.m2, m.m6, m.m10, m.m14, a.m12, a.m13, a.m14, a.m15, b.m12, b.m13, b.m14, b.m15, q, 0.0, 0.0);
    ScaledColumn(m.m3, m.m7, m.m11, m.m15, a.m12, a.m13, a.m14, a.m15, b.m12, b.m13, b.m14, b.m15, q, d, 1.0);
  }

  /**
   * Above the threshold, `Inverted` is a two-sided inverse: both products give the identity.
   */
  lemma InvertedIsInverse(m: Matrix4x4)
    requires Abs(m.Determinant()) >= Epsilon
    ensures m.Inverted().Times(m) == Matrix4x4.Identity
    ensures m.Times(m.Inverted()) == Matrix4x4.Identity
  {
    var d := m.Determinant();
    assert m.Inverted() == m.Adjugate().Scale(1.0 / d);
    AdjugateTimes(m);
    TimesAdjugate(m);
    ScaledLeftInverse(m.Adjugate(), m, d);
    ScaledRightInverse(m.Adjugate(), m, d);
  }

  /** The position a translation matrix is built from is the position read back from it. */
  lemma PositionRoundTrip(p: Vec3, m: Matrix4x4)
    ensures Matrix4x4.FromPosition(p).GetPosition() == p
    ensures Matrix4x4.FromPosition(m.GetPosition()).GetPosition() == m.GetPosition()
  {
  }

  /** Two translations compose into the translation by the sum. */
  lemma TranslationsCompose(a: Vec3, b: Vec3)
    ensures Matrix4x4.FromPosition(a).Times(Matrix4x4.FromPosition(b)) == Matrix4x4.FromPosition(a.Combine(Add, b))
  {
  }

  /** The identity rotation gives the identity matrix (its length is exactly 1). */
  lemma RotationOfIdentity()
    ensures Matrix4x4.FromRotation(Quat.Identity) == Matrix4x4.Identity
  {
    assert Quat.Identity.Length() == 1.0;
    assert Quat.Identity.Normalized() == Quat.Identity;
  }

  /** The translation column of a transform built from position, rotation and scale is the position. */
  lemma PRSPosition(p: Vec3, q: Quat, s: Vec3)
    ensures Matrix4x4.FromPRS(p, q, s).GetPosition() == p
    ensures Matrix4x4.FromPRS(p, q, s).m15 == 1.0
  {
    var t := Matrix4x4.FromPosition(p);
    var r := Matrix4x4.FromRotation(q);
    var tr := t.Times(r);
    assert tr.m12 == p.x && tr.m13 == p.y && tr.m14 == p.z && tr.m15 == 1.0;
  }

  /** With no rotation and unit scale, the transform is the pure translation. */
  lemma PRSWithoutRotationOrScale(p: Vec3)
    ensures Matrix4x4.FromPRS(p, Quat.Identity, Vec3.One) == Matrix4x4.FromPosition(p)
  {
    var t := Matrix4x4.FromPosition(p);
    calc {
      Matrix4x4.FromPRS(p, Quat.Identity, Vec3.One);
    ==
      t.Times(Matrix4x4.FromRotation(Quat.Identity)).Times(Matrix4x4.FromScale(Vec3.One));
    == { RotationOfIdentity(); ScaleOfOne(); }
      t.Times(Matrix4x4.Identity).Times(Matrix4x4.Identity);
    == { IdentityIsUnit(t, Vec4.Zero); }
      t;
    }
  }

  lemma ScaleOfOne()
    ensures Matrix4x4.FromScale(Vec3.One) == Matrix4x4.Identity
  {
  }

  /** `+` and `-` act element by element, as read through `operator[]`, and undo each other. */
  lemma PlusMinusByIndex(m: Matrix4x4, n: Matrix4x4)
    ensures forall i :: 0 <= i <= 15 ==> m.Plus(n).Get(i) == m.Get(i) + n.Get(i)
    ensures forall i :: 0 <= i <= 15 ==> m.Minus(n).Get(i) == m.Get(i) - n.Get(i)
    ensures m.Plus(n).Minus(n) == m && m.Minus(n).Plus(n) == m
  {
  }

  /** The identity has determinant 1, so `Inverted` takes its scaling branch on it. */
  lemma DeterminantOfIdentity()
    ensures Matrix4x4.Identity.Determinant() == 1.0
    ensures Matrix4x4.Identity.Inverted() == Matrix4x4.Identity
  {
    var i := Matrix4x4.Identity;
    assert Det3(i.m5, i.m6, i.m7, i.m9, i.m10, i.m11, i.m13, i.m14, i.m15) == 1.0;
    InvertedIsInverse(i);
    IdentityIsUnit(i.Inverted(), Vec4(0.0, 0.0, 0.0, 0.0));
  }
}

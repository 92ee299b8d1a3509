/** Rotations and rigid transformations of polymetis/python/torchcontrol/transform, with the quaternion
    operations of polymetis/torch_isolation/src/rotations.cpp, in exact reals. */
module RigidTransforms {

  datatype Vec3 = Vec3(x: real, y: real, z: real)

  datatype Quat = Quat(x: real, y: real, z: real, w: real)

  /** Rows of a 3-by-3 matrix. */
  datatype Mat3 = Mat3(r0: Vec3, r1: Vec3, r2: Vec3)

  /** Rows of the upper 3-by-4 part of a homogeneous 4-by-4 matrix, whose last row is (0, 0, 0, 1). */
  datatype Mat4 = Mat4(linear: Mat3, offset: Vec3)

  // ----- Vectors and matrices -----

  function Add(a: Vec3, b: Vec3): Vec3 {
    Vec3(a.x + b.x, a.y + b.y, a.z + b.z)
  }

  function Neg(a: Vec3): Vec3 {
    Vec3(-a.x, -a.y, -a.z)
  }

  function Dot(a: Vec3, b: Vec3): real {
    a.x * b.x + a.y * b.y + a.z * b.z
  }

  function MatVec(m: Mat3, v: Vec3): Vec3 {
    Vec3(Dot(m.r0, v), Dot(m.r1, v), Dot(m.r2, v))
  }

  function Column(m: Mat3, k: nat): Vec3
    requires k < 3
  {
    if k == 0 then Vec3(m.r0.x, m.r1.x, m.r2.x)
    else if k == 1 then Vec3(m.r0.y, m.r1.y, m.r2.y)
    else Vec3(m.r0.z, m.r1.z, m.r2.z)
  }

  function RowTimes(r: Vec3, m: Mat3): Vec3 {
    Vec3(Dot(r, Column(m, 0)), Dot(r, Column(m, 1)), Dot(r, Column(m, 2)))
  }

  function MatMul(a: Mat3, b: Mat3): Mat3 {
    Mat3(RowTimes(a.r0, b), RowTimes(a.r1, b), RowTimes(a.r2, b))
  }

  /** Product of the homogeneous matrices. */
  function MatMul4(a: Mat4, b: Mat4): Mat4 {
    Mat4(MatMul(a.linear, b.linear), Add(MatVec(a.linear, b.offset), a.offset))
  }

  // ----- Quaternions -----

  function Norm2(q: Quat): real {
    q.x * q.x + q.y * q.y + q.z * q.z + q.w * q.w
  }

  predicate Unit(q: Quat) {
    Norm2(q) == 1.0
  }

  const IDENTITY_QUAT: Quat := Quat(0.0, 0.0, 0.0, 1.0)

  type Rotation = q: Quat | Unit(q) witness IDENTITY_QUAT

  function Hamilton(a: Quat, b: Quat): Quat {
    Quat(a.w * b.x + a.x * b.w + a.y * b.z - a.z * b.y,
         a.w * b.y + a.y * b.w + a.z * b.x - a.x * b.z,
         a.w * b.z + a.z * b.w + a.x * b.y - a.y * b.x,
         a.w * b.w - a.x * b.x - a.y * b.y - a.z * b.z)
  }

  function Conj(q: Quat): Quat {
    Quat(-q.x, -q.y, -q.z, q.w)
  }

  function ScaleQuat(c: real, q: Quat): Quat {
    Quat(c * q.x, c * q.y, c * q.z, c * q.w)
  }

  function Pure(v: Vec3): Quat {
    Quat(v.x, v.y, v.z, 0.0)
  }

  /** `n` is `q` divided by its norm; the zero quaternion is left alone. The scale factor is the
      reciprocal of the square root of the squared norm. */
  ghost predicate IsNormalized(q: Quat, n: Quat) {
    if Norm2(q) == 0.0 then n == q
    else exists s: real :: IsScale(q, s) && n == ScaleQuat(s, q)
  }

  predicate IsScale(q: Quat, s: real) {
    s > 0.0 && s * s * Norm2(q) == 1.0
  }

  /** quaternion_multiply: only the right operand is normalized. */
  ghost predicate IsMultiply(a: Quat, b: Quat, r: Quat) {
    exists n :: IsNormalized(b, n) && r == Hamilton(a, n)
  }

  /** invert_quaternion: conjugate over squared norm, and zero for zero. */
  function Invert(q: Quat): Quat {
    var n := Norm2(q);
    if n > 0.0 then Quat(-q.x / n, -q.y / n, -q.z / n, q.w / n) else Quat(0.0, 0.0, 0.0, 0.0)
  }

  /** quat2matrix. */
  function ToMatrix(q: Quat): Mat3 {
    var tx, ty, tz := 2.0 * q.x, 2.0 * q.y, 2.0 * q.z;
    Mat3(Vec3(1.0 - (ty * q.y + tz * q.z), ty * q.x - tz * q.w, tz * q.x + ty * q.w),
         Vec3(ty * q.x + tz * q.w, 1.0 - (tx * q.x + tz * q.z), tz * q.y - tx * q.w),
         Vec3(tz * q.x - ty * q.w, tz * q.y + tx * q.w, 1.0 - (tx * q.x + ty * q.y)))
  }

  // ----- The operations as relations on components, for the polynomial identities -----

  predicate IsProduct(a: Quat, b: Quat, r: Quat) {
    && r.x == a.w * b.x + a.x * b.w + a.y * b.z - a.z * b.y
    && r.y == a.w * b.y + a.y * b.w + a.z * b.x - a.x * b.z
    && r.z == a.w * b.z + a.z * b.w + a.x * b.y - a.y * b.x
    && r.w == a.w * b.w - a.x * b.x - a.y * b.y - a.z * b.z
  }

  predicate IsConj(q: Quat, c: Quat) {
    c.x == -q.x && c.y == -q.y && c.z == -q.z && c.w == q.w
  }

  predicate IsRow(m: Vec3, v: Vec3, r: real) {
    r == m.x * v.x + m.y * v.y + m.z * v.z
  }

  lemma OperationsAre(a: Quat, b: Quat, m: Mat3, v: Vec3)
    ensures IsProduct(a, b, Hamilton(a, b)) && IsConj(a, Conj(a))
    ensures IsRow(m.r0, v, MatVec(m, v).x) && IsRow(m.r1, v, MatVec(m, v).y) && IsRow(m.r2, v, MatVec(m, v).z)
  {
  }

  lemma HamiltonIs(a: Quat, b: Quat)
    ensures IsProduct(a, b, Hamilton(a, b))
  {
  }

  lemma ConjIs(q: Quat)
    ensures IsConj(q, Conj(q))
  {
  }

  /** Substitution in a product, which the solver does not do by itself. */
  lemma ProductEq(x: real, x1: real, y: real, y1: real)
    requires x == x1 && y == y1
    ensures x * y == x1 * y1
  {
  }

  // ----- Quaternion algebra -----

  lemma AssociativeX(a: Quat, b: Quat, c: Quat, p: Quat, q: Quat, l: Quat, r: Quat)
    requires IsProduct(a, b, p) && IsProduct(b, c, q) && IsProduct(p, c, l) && IsProduct(a, q, r)
    ensures l.x == r.x
  {
    ProductEq(p.w, a.w * b.w - a.x * b.x - a.y * b.y - a.z * b.z, c.x, c.x);
    ProductEq(p.x, a.w * b.x + a.x * b.w + a.y * b.z - a.z * b.y, c.w, c.w);
    ProductEq(p.y, a.w * b.y + a.y * b.w + a.z * b.x - a.x * b.z, c.z, c.z);
    ProductEq(p.z, a.w * b.z + a.z * b.w + a.x * b.y - a.y * b.x, c.y, c.y);
    ProductEq(a.w, a.w, q.x, b.w * c.x + b.x * c.w + b.y * c.z - b.z * c.y);
    ProductEq(a.x, a.x, q.w, b.w * c.w - b.x * c.x - b.y * c.y - b.z * c.z);
    ProductEq(a.y, a.y, q.z, b.w * c.z + b.z * c.w + b.x * c.y - b.y * c.x);
    ProductEq(a.z, a.z, q.y, b.w * c.y + b.y * c.w + b.z * c.x - b.x * c.z);
  }

  lemma AssociativeY(a: Quat, b: Quat, c: Quat, p: Quat, q: Quat, l: Quat, r: Quat)
    requires IsProduct(a, b, p) && IsProduct(b, c, q) && IsProduct(p, c, l) && IsProduct(a, q, r)
    ensures l.y == r.y
  {
    ProductEq(p.w, a.w * b.w - a.x * b.x - a.y * b.y - a.z * b.z, c.y, c.y);
    ProductEq(p.y, a.w * b.y + a.y * b.w + a.z * b.x - a.x * b.z, c.w, c.w);
    ProductEq(p.z, a.w * b.z + a.z * b.w + a.x * b.y - a.y * b.x, c.x, c.x);
    ProductEq(p.x, a.w * b.x + a.x * b.w + a.y * b.z - a.z * b.y, c.z, c.z);
    ProductEq(a.w, a.w, q.y, b.w * c.y + b.y * c.w + b.z * c.x - b.x * c.z);
    ProductEq(a.y, a.y, q.w, b.w * c.w - b.x * c.x - b.y * c.y - b.z * c.z);
    ProductEq(a.z, a.z, q.x, b.w * c.x + b.x * c.w + b.y * c.z - b.z * c.y);
    ProductEq(a.x, a.x, q.z, b.w * c.z + b.z * c.w + b.x * c.y - b.y * c.x);
  }

  lemma AssociativeZ(a: Quat, b: Quat, c: Quat, p: Quat, q: Quat, l: Quat, r: Quat)
    requires IsProduct(a, b, p) && IsProduct(b, c, q) && IsProduct(p, c, l) && IsProduct(a, q, r)
    ensures l.z == r.z
  {
    ProductEq(p.w, a.w * b.w - a.x * b.x - a.y * b.y - a.z * b.z, c.z, c.z);
    ProductEq(p.z, a.w * b.z + a.z * b.w + a.x * b.y - a.y * b.x, c.w, c.w);
    ProductEq(p.x, a.w * b.x + a.x * b.w + a.y * b.z - a.z * b.y, c.y, c.y);
    ProductEq(p.y, a.w * b.y + a.y * b.w + a.z * b.x - a.x * b.z, c.x, c.x);
    ProductEq(a.w, a.w, q.z, b.w * c.z + b.z * c.w + b.x * c.y - b.y * c.x);
    ProductEq(a.z, a.z, q.w, b.w * c.w - b.x * c.x - b.y * c.y - b.z * c.z);
    ProductEq(a.x, a.x, q.y, b.w * c.y + b.y * c.w + b.z * c.x - b.x * c.z);
    ProductEq(a.y, a.y, q.x, b.w * c.x + b.x * c.w + b.y * c.z - b.z * c.y);
  }

  lemma AssociativeW(a: Quat, b: Quat, c: Quat, p: Quat, q: Quat, l: Quat, r: Quat)
    requires IsProduct(a, b, p) && IsProduct(b, c, q) && IsProduct(p, c, l) && IsProduct(a, q, r)
    ensures l.w == r.w
  {
    ProductEq(p.w, a.w * b.w - a.x * b.x - a.y * b.y - a.z * b.z, c.w, c.w);
    ProductEq(p.x, a.w * b.x + a.x * b.w + a.y * b.z - a.z * b.y, c.x, c.x);
    ProductEq(p.y, a.w * b.y + a.y * b.w + a.z * b.x - a.x * b.z, c.y, c.y);
    ProductEq(p.z, a.w * b.z + a.z * b.w + a.x * b.y - a.y * b.x, c.z, c.z);
    ProductEq(a.w, a.w, q.w, b.w * c.w - b.x * c.x - b.y * c.y - b.z * c.z);
    ProductEq(a.x, a.x, q.x, b.w * c.x + b.x * c.w + b.y * c.z - b.z * c.y);
    ProductEq(a.y, a.y, q.y, b.w * c.y + b.y * c.w + b.z * c.x - b.x * c.z);
    ProductEq(a.z, a.z, q.z, b.w * c.z + b.z * c.w + b.x * c.y - b.y * c.x);
  }

  lemma HamiltonAssociative(a: Quat, b: Quat, c: Quat)
    ensures Hamilton(Hamilton(a, b), c) == Hamilton(a, Hamilton(b, c))
  {
    var p, q := Hamilton(a, b), Hamilton(b, c);
    var l, r := Hamilton(p, c), Hamilton(a, q);
    HamiltonIs(a, b);
    HamiltonIs(b, c);
    HamiltonIs(p, c);
    HamiltonIs(a, q);
    AssociativeX(a, b, c, p, q, l, r);
    AssociativeY(a, b, c, p, q, l, r);
    AssociativeZ(a, b, c, p, q, l, r);
    AssociativeW(a, b, c, p, q, l, r);
  }

  lemma ConjRelation(a: Quat, b: Quat, ca: Quat, cb: Quat, p: Quat, c: Quat, r: Quat)
    requires IsConj(a, ca) && IsConj(b, cb) && IsProduct(a, b, p) && IsConj(p, c) && IsProduct(cb, ca, r)
    ensures c == r
  {
  }

  lemma ConjProduct(a: Quat, b: Quat)
    ensures Conj(Hamilton(a, b)) == Hamilton(Conj(b), Conj(a))
  {
    var p := Hamilton(a, b);
    ConjIs(a);
    ConjIs(b);
    HamiltonIs(a, b);
    ConjIs(p);
    HamiltonIs(Conj(b), Conj(a));
    ConjRelation(a, b, Conj(a), Conj(b), p, Conj(p), Hamilton(Conj(b), Conj(a)));
  }

  lemma NormRelation(q: Quat, c: Quat, r: Quat, n: real)
    requires IsConj(q, c) && IsProduct(q, c, r) && n == q.x * q.x + q.y * q.y + q.z * q.z + q.w * q.w
    ensures r == Quat(0.0, 0.0, 0.0, n)
  {
  }

  lemma TimesConj(q: Quat)
    ensures Hamilton(q, Conj(q)) == Quat(0.0, 0.0, 0.0, Norm2(q))
  {
    ConjIs(q);
    HamiltonIs(q, Conj(q));
    NormRelation(q, Conj(q), Hamilton(q, Conj(q)), Norm2(q));
  }

  lemma RightIdentity(q: Quat)
    ensures Hamilton(q, IDENTITY_QUAT) == q
  {
    HamiltonIs(q, IDENTITY_QUAT);
    IdentityRelation(q, IDENTITY_QUAT, Hamilton(q, IDENTITY_QUAT));
  }

  lemma IdentityRelation(q: Quat, e: Quat, r: Quat)
    requires IsProduct(q, e, r) && e.x == 0.0 && e.y == 0.0 && e.z == 0.0 && e.w == 1.0
    ensures r == q
  {
  }

  /** (a * b) * conj(a * b) for unit b. */
  lemma UnitOnRight(a: Quat, b: Quat)
    requires Unit(b)
    ensures Norm2(Hamilton(a, b)) == Norm2(a)
  {
    var p := Hamilton(a, b);
    calc {
      Hamilton(p, Conj(p));
      { ConjProduct(a, b); HamiltonAssociative(p, Conj(b), Conj(a)); }
      Hamilton(Hamilton(p, Conj(b)), Conj(a));
      { HamiltonAssociative(a, b, Conj(b)); TimesConj(b); RightIdentity(a); }
      Hamilton(a, Conj(a));
    }
    TimesConj(p);
    TimesConj(a);
  }

  // ----- Normalization -----

  lemma NormScale(c: real, q: Quat)
    ensures Norm2(ScaleQuat(c, q)) == c * c * Norm2(q)
  {
  }

  lemma ScaledUnit(q: Quat, s: real)
    requires IsScale(q, s)
    ensures Norm2(ScaleQuat(s, q)) == 1.0
  {
    NormScale(s, q);
  }

  /** On unit quaternions normalization is the identity, so multiplication is the Hamilton product. */
  lemma MultiplyUnit(a: Quat, b: Quat, r: Quat)
    requires Unit(b)
    ensures IsMultiply(a, b, r) <==> r == Hamilton(a, b)
  {
    assert IsScale(b, 1.0) && ScaleQuat(1.0, b) == b;
    assert IsNormalized(b, b);
    forall n | IsNormalized(b, n) ensures n == b {
      var s: real :| IsScale(b, s) && n == ScaleQuat(s, b);
      UnitScale(s);
    }
  }

  lemma UnitScale(s: real)
    requires s > 0.0 && s * s == 1.0
    ensures s == 1.0
  {
    assert (s - 1.0) * (s + 1.0) == 0.0;
  }

  /** The norm of a product is that of its left operand, whatever the (non-zero) right operand. */
  lemma MultiplyKeepsLeftNorm(a: Quat, b: Quat, r: Quat)
    requires IsMultiply(a, b, r) && Norm2(b) != 0.0
    ensures Norm2(r) == Norm2(a)
  {
    var n :| IsNormalized(b, n) && r == Hamilton(a, n);
    var s: real :| IsScale(b, s) && n == ScaleQuat(s, b);
    ScaledUnit(b, s);
    UnitOnRight(a, n);
  }

  // ----- Rotations -----

  function Mul(a: Rotation, b: Rotation): Rotation {
    UnitOnRight(a, b);
    Hamilton(a, b)
  }

  lemma InvertUnit(q: Quat)
    requires Unit(q)
    ensures Invert(q) == Conj(q) && Unit(Conj(q))
  {
  }

  function Inv(q: Rotation): Rotation {
    InvertUnit(q);
    Invert(q)
  }

  function Apply(q: Quat, v: Vec3): Vec3 {
    MatVec(ToMatrix(q), v)
  }

  function Sandwich(q: Quat, p: Quat): Quat {
    Hamilton(Hamilton(q, p), Conj(q))
  }

  /** `m` is the rotation matrix of `q`. */
  predicate IsMatrix(q: Quat, m: Mat3) {
    && m.r0.x == 1.0 - (2.0 * q.y * q.y + 2.0 * q.z * q.z)
    && m.r0.y == 2.0 * q.y * q.x - 2.0 * q.z * q.w
    && m.r0.z == 2.0 * q.z * q.x + 2.0 * q.y * q.w
    && m.r1.x == 2.0 * q.y * q.x + 2.0 * q.z * q.w
    && m.r1.y == 1.0 - (2.0 * q.x * q.x + 2.0 * q.z * q.z)
    && m.r1.z == 2.0 * q.z * q.y - 2.0 * q.x * q.w
    && m.r2.x == 2.0 * q.z * q.x - 2.0 * q.y * q.w
    && m.r2.y == 2.0 * q.z * q.y + 2.0 * q.x * q.w
    && m.r2.z == 1.0 - (2.0 * q.x * q.x + 2.0 * q.y * q.y)
  }

  lemma MatrixIs(q: Quat)
    ensures IsMatrix(q, ToMatrix(q))
  {
  }

  /** The product of `q` and the pure quaternion of `v`. */
  predicate IsPureProduct(q: Quat, v: Vec3, p: Quat) {
    && p.x == q.w * v.x + q.y * v.z - q.z * v.y
    && p.y == q.w * v.y + q.z * v.x - q.x * v.z
    && p.z == q.w * v.z + q.x * v.y - q.y * v.x
    && p.w == -(q.x * v.x) - q.y * v.y - q.z * v.z
  }

  lemma PureProductIs(q: Quat, v: Vec3)
    ensures IsPureProduct(q, v, Hamilton(q, Pure(v)))
  {
  }

  predicate IsUnit(q: Quat) {
    q.x * q.x + q.y * q.y + q.z * q.z + q.w * q.w == 1.0
  }

  /** One component of the conjugation of (a, b, c) by the quaternion, and of its matrix times the vector; the
      other components are the same with the axes rotated. */
  function Conjugated(x: real, y: real, z: real, w: real, a: real, b: real, c: real): real {
    (-(x * a) - y * b - z * c) * -x + (w * a + y * c - z * b) * w + (w * b + z * a - x * c) * -z
    - (w * c + x * b - y * a) * -y
  }

  function Rotated(x: real, y: real, z: real, w: real, a: real, b: real, c: real): real {
    (1.0 - (2.0 * y * y + 2.0 * z * z)) * a + (2.0 * y * x - 2.0 * z * w) * b + (2.0 * z * x + 2.0 * y * w) * c
  }

  lemma Identity(x: real, y: real, z: real, w: real, a: real, b: real, c: real)
    ensures Conjugated(x, y, z, w, a, b, c)
         == Rotated(x, y, z, w, a, b, c) + (x * x + y * y + z * z + w * w) * a - a
  {
  }

  lemma SameComponent(x: real, y: real, z: real, w: real, a: real, b: real, c: real)
    requires x * x + y * y + z * z + w * w == 1.0
    ensures Conjugated(x, y, z, w, a, b, c) == Rotated(x, y, z, w, a, b, c)
  {
    Identity(x, y, z, w, a, b, c);
    ProductEq(x * x + y * y + z * z + w * w, 1.0, a, a);
  }

  lemma ConjugatedX(q: Quat, v: Vec3, p: Quat, c: Quat, s: Quat)
    requires IsPureProduct(q, v, p) && IsConj(q, c) && IsProduct(p, c, s)
    ensures s.x == Conjugated(q.x, q.y, q.z, q.w, v.x, v.y, v.z)
  {
    ProductEq(p.w, -(q.x * v.x) - q.y * v.y - q.z * v.z, c.x, -q.x);
    ProductEq(p.x, q.w * v.x + q.y * v.z - q.z * v.y, c.w, q.w);
    ProductEq(p.y, q.w * v.y + q.z * v.x - q.x * v.z, c.z, -q.z);
    ProductEq(p.z, q.w * v.z + q.x * v.y - q.y * v.x, c.y, -q.y);
  }

  lemma ConjugatedY(q: Quat, v: Vec3, p: Quat, c: Quat, s: Quat)
    requires IsPureProduct(q, v, p) && IsConj(q, c) && IsProduct(p, c, s)
    ensures s.y == Conjugated(q.y, q.z, q.x, q.w, v.y, v.z, v.x)
  {
    ProductEq(p.w, -(q.y * v.y) - q.z * v.z - q.x * v.x, c.y, -q.y);
    ProductEq(p.y, q.w * v.y + q.z * v.x - q.x * v.z, c.w, q.w);
    ProductEq(p.z, q.w * v.z + q.x * v.y - q.y * v.x, c.x, -q.x);
    ProductEq(p.x, q.w * v.x + q.y * v.z - q.z * v.y, c.z, -q.z);
  }

  lemma ConjugatedZ(q: Quat, v: Vec3, p: Quat, c: Quat, s: Quat)
    requires IsPureProduct(q, v, p) && IsConj(q, c) && IsProduct(p, c, s)
    ensures s.z == Conjugated(q.z, q.x, q.y, q.w, v.z, v.x, v.y)
  {
    ProductEq(p.w, -(q.z * v.z) - q.x * v.x - q.y * v.y, c.z, -q.z);
    ProductEq(p.z, q.w * v.z + q.x * v.y - q.y * v.x, c.w, q.w);
    ProductEq(p.x, q.w * v.x + q.y * v.z - q.z * v.y, c.y, -q.y);
    ProductEq(p.y, q.w * v.y + q.z * v.x - q.x * v.z, c.x, -q.x);
  }

  /** A row of the matrix of `q`, read with its axis first, times a vector. */
  lemma RowRotates(x: real, y: real, z: real, w: real, m: real, n: real, o: real, a: real, b: real, c: real)
    requires m == 1.0 - (2.0 * y * y + 2.0 * z * z) && n == 2.0 * y * x - 2.0 * z * w && o == 2.0 * z * x + 2.0 * y * w
    ensures m * a + n * b + o * c == Rotated(x, y, z, w, a, b, c)
  {
    ProductEq(m, 1.0 - (2.0 * y * y + 2.0 * z * z), a, a);
    ProductEq(n, 2.0 * y * x - 2.0 * z * w, b, b);
    ProductEq(o, 2.0 * z * x + 2.0 * y * w, c, c);
  }

  lemma RowConjugates(x: real, y: real, z: real, w: real, m: real, n: real, o: real, a: real, b: real, c: real)
    requires x * x + y * y + z * z + w * w == 1.0
    requires m == 1.0 - (2.0 * y * y + 2.0 * z * z) && n == 2.0 * y * x - 2.0 * z * w && o == 2.0 * z * x + 2.0 * y * w
    ensures m * a + n * b + o * c == Conjugated(x, y, z, w, a, b, c)
  {
    RowRotates(x, y, z, w, m, n, o, a, b, c);
    SameComponent(x, y, z, w, a, b, c);
  }

  lemma SandwichW(q: Quat, v: Vec3, p: Quat, c: Quat, s: Quat)
    requires IsPureProduct(q, v, p) && IsConj(q, c) && IsProduct(p, c, s)
    ensures s.w == 0.0
  {
    ProductEq(p.w, -(q.x * v.x) - q.y * v.y - q.z * v.z, c.w, q.w);
    ProductEq(p.x, q.w * v.x + q.y * v.z - q.z * v.y, c.x, -q.x);
    ProductEq(p.y, q.w * v.y + q.z * v.x - q.x * v.z, c.y, -q.y);
    ProductEq(p.z, q.w * v.z + q.x * v.y - q.y * v.x, c.z, -q.z);
  }

  lemma SandwichComponents(q: Quat, v: Vec3)
    ensures var s := Sandwich(q, Pure(v));
            && s.x == Conjugated(q.x, q.y, q.z, q.w, v.x, v.y, v.z)
            && s.y == Conjugated(q.y, q.z, q.x, q.w, v.y, v.z, v.x)
            && s.z == Conjugated(q.z, q.x, q.y, q.w, v.z, v.x, v.y) && s.w == 0.0
  {
    var c, p := Conj(q), Hamilton(q, Pure(v));
    var s := Hamilton(p, c);
    PureProductIs(q, v);
    OperationsAre(p, c, ToMatrix(q), v);
    ConjIs(q);
    ConjugatedX(q, v, p, c, s);
    ConjugatedY(q, v, p, c, s);
    ConjugatedZ(q, v, p, c, s);
    SandwichW(q, v, p, c, s);
  }

  lemma RowX(q: Quat, m: Vec3, v: Vec3, u: real)
    requires IsUnit(q) && IsRow(m, v, u)
    requires m.x == 1.0 - (2.0 * q.y * q.y + 2.0 * q.z * q.z)
    requires m.y == 2.0 * q.y * q.x - 2.0 * q.z * q.w
    requires m.z == 2.0 * q.z * q.x + 2.0 * q.y * q.w
    ensures u == Conjugated(q.x, q.y, q.z, q.w, v.x, v.y, v.z)
  {
    RowConjugates(q.x, q.y, q.z, q.w, m.x, m.y, m.z, v.x, v.y, v.z);
  }

  lemma RowY(q: Quat, m: Vec3, v: Vec3, u: real)
    requires IsUnit(q) && IsRow(m, v, u)
    requires m.x == 2.0 * q.y * q.x + 2.0 * q.z * q.w
    requires m.y == 1.0 - (2.0 * q.x * q.x + 2.0 * q.z * q.z)
    requires m.z == 2.0 * q.z * q.y - 2.0 * q.x * q.w
    ensures u == Conjugated(q.y, q.z, q.x, q.w, v.y, v.z, v.x)
  {
    RowConjugates(q.y, q.z, q.x, q.w, m.y, m.z, m.x, v.y, v.z, v.x);
  }

  lemma RowZ(q: Quat, m: Vec3, v: Vec3, u: real)
    requires IsUnit(q) && IsRow(m, v, u)
    requires m.x == 2.0 * q.z * q.x - 2.0 * q.y * q.w
    requires m.y == 2.0 * q.z * q.y + 2.0 * q.x * q.w
    requires m.z == 1.0 - (2.0 * q.x * q.x + 2.0 * q.y * q.y)
    ensures u == Conjugated(q.z, q.x, q.y, q.w, v.z, v.x, v.y)
  {
    RowConjugates(q.z, q.x, q.y, q.w, m.z, m.x, m.y, v.z, v.x, v.y);
  }

  lemma ApplyComponents(q: Rotation, v: Vec3)
    ensures var u := Apply(q, v);
            && u.x == Conjugated(q.x, q.y, q.z, q.w, v.x, v.y, v.z)
            && u.y == Conjugated(q.y, q.z, q.x, q.w, v.y, v.z, v.x)
            && u.z == Conjugated(q.z, q.x, q.y, q.w, v.z, v.x, v.y)
  {
    var m := ToMatrix(q);
    var u := MatVec(m, v);
    OperationsAre(q, q, m, v);
    MatrixIs(q);
    RowX(q, m.r0, v, u.x);
    RowY(q, m.r1, v, u.y);
    RowZ(q, m.r2, v, u.z);
  }

  /** A unit quaternion's matrix acts on vectors as conjugation by the quaternion. */
  lemma ApplyIsSandwich(q: Rotation, v: Vec3)
    ensures Sandwich(q, Pure(v)) == Pure(Apply(q, v))
  {
    SandwichComponents(q, v);
    ApplyComponents(q, v);
  }

  lemma SandwichProduct(a: Quat, b: Quat, p: Quat)
    ensures Sandwich(Hamilton(a, b), p) == Sandwich(a, Sandwich(b, p))
  {
    calc {
      Sandwich(Hamilton(a, b), p);
      { ConjProduct(a, b); HamiltonAssociative(a, b, p); }
      Hamilton(Hamilton(a, Hamilton(b, p)), Hamilton(Conj(b), Conj(a)));
      { HamiltonAssociative(Hamilton(a, Hamilton(b, p)), Conj(b), Conj(a)); }
      Hamilton(Hamilton(Hamilton(a, Hamilton(b, p)), Conj(b)), Conj(a));
      { HamiltonAssociative(a, Hamilton(b, p), Conj(b)); }
      Sandwich(a, Sandwich(b, p));
    }
  }

  /** Applying a product of rotations is applying the right one and then the left one. */
  lemma ApplyProduct(a: Rotation, b: Rotation, v: Vec3)
    ensures Apply(Mul(a, b), v) == Apply(a, Apply(b, v))
  {
    ApplyIsSandwich(Mul(a, b), v);
    ApplyIsSandwich(b, v);
    ApplyIsSandwich(a, Apply(b, v));
    SandwichProduct(a, b, Pure(v));
  }

  lemma ColumnOfMatVec(m: Mat3)
    ensures MatVec(m, Vec3(1.0, 0.0, 0.0)) == Column(m, 0)
    ensures MatVec(m, Vec3(0.0, 1.0, 0.0)) == Column(m, 1)
    ensures MatVec(m, Vec3(0.0, 0.0, 1.0)) == Column(m, 2)
  {
  }

  /** as_matrix turns * into the matrix product. */
  lemma MatrixOfProduct(a: Rotation, b: Rotation)
    ensures ToMatrix(Mul(a, b)) == MatMul(ToMatrix(a), ToMatrix(b))
  {
    var c, ma, mb := ToMatrix(Mul(a, b)), ToMatrix(a), ToMatrix(b);
    ColumnOfMatVec(c);
    ColumnOfMatVec(mb);
    ApplyProduct(a, b, Vec3(1.0, 0.0, 0.0));
    ApplyProduct(a, b, Vec3(0.0, 1.0, 0.0));
    ApplyProduct(a, b, Vec3(0.0, 0.0, 1.0));
    ColumnsDetermine(c, ma, mb);
  }

  lemma ColumnsDetermine(c: Mat3, a: Mat3, b: Mat3)
    requires Column(c, 0) == MatVec(a, Column(b, 0))
    requires Column(c, 1) == MatVec(a, Column(b, 1))
    requires Column(c, 2) == MatVec(a, Column(b, 2))
    ensures c == MatMul(a, b)
  {
  }

  lemma InverseCancels(q: Rotation)
    ensures Mul(q, Inv(q)) == IDENTITY_QUAT && Mul(Inv(q), q) == IDENTITY_QUAT
  {
    InvertUnit(q);
    TimesConj(q);
    TimesConj(Conj(q));
    ConjConj(q);
  }

  lemma ConjConj(q: Quat)
    ensures Conj(Conj(q)) == q
  {
  }

  lemma ApplyIdentity(v: Vec3)
    ensures Apply(IDENTITY_QUAT, v) == v
  {
    var m := ToMatrix(IDENTITY_QUAT);
    IdentityMatrix();
    OperationsAre(IDENTITY_QUAT, IDENTITY_QUAT, m, v);
    UnitRow(m.r0, v, MatVec(m, v).x);
    UnitRow(m.r1, v, MatVec(m, v).y);
    UnitRow(m.r2, v, MatVec(m, v).z);
  }

  lemma IdentityMatrix()
    ensures ToMatrix(IDENTITY_QUAT) == Mat3(Vec3(1.0, 0.0, 0.0), Vec3(0.0, 1.0, 0.0), Vec3(0.0, 0.0, 1.0))
  {
  }

  lemma UnitRow(m: Vec3, v: Vec3, r: real)
    requires IsRow(m, v, r)
    ensures m == Vec3(1.0, 0.0, 0.0) ==> r == v.x
    ensures m == Vec3(0.0, 1.0, 0.0) ==> r == v.y
    ensures m == Vec3(0.0, 0.0, 1.0) ==> r == v.z
  {
  }

  lemma ApplyInverse(q: Rotation, v: Vec3)
    ensures Apply(q, Apply(Inv(q), v)) == v && Apply(Inv(q), Apply(q, v)) == v
  {
    InverseCancels(q);
    ApplyProduct(q, Inv(q), v);
    ApplyProduct(Inv(q), q, v);
    ApplyIdentity(v);
  }

  /** Rotations preserve lengths. */
  lemma ApplyPreservesLength(q: Rotation, v: Vec3)
    ensures Dot(Apply(q, v), Apply(q, v)) == Dot(v, v)
  {
    var p, u := Pure(v), Apply(q, v);
    ApplyIsSandwich(q, v);
    InvertUnit(q);
    UnitOnRight(Hamilton(q, p), Conj(q));
    UnitOnLeft(q, p);
    PureNorm(v);
    PureNorm(u);
  }

  lemma UnitOnLeft(a: Quat, b: Quat)
    requires Unit(a)
    ensures Norm2(Hamilton(a, b)) == Norm2(b)
  {
    InvertUnit(a);
    ConjProduct(a, b);
    UnitOnRight(Conj(b), Conj(a));
    ConjNorm(b);
    ConjNorm(Hamilton(a, b));
  }

  lemma ConjNorm(q: Quat)
    ensures Norm2(Conj(q)) == Norm2(q)
  {
  }

  lemma PureNorm(v: Vec3)
    ensures Norm2(Pure(v)) == Dot(v, v)
  {
  }

  // ----- Transformations -----

  datatype Transform = Transform(r: Rotation, x: Vec3)

  const IDENTITY: Transform := Transform(IDENTITY_QUAT, Vec3(0.0, 0.0, 0.0))

  function Act(t: Transform, v: Vec3): Vec3 {
    Add(Apply(t.r, v), t.x)
  }

  function Compose(t: Transform, u: Transform): Transform {
    Transform(Mul(t.r, u.r), Add(Apply(t.r, u.x), t.x))
  }

  function Inverse(t: Transform): Transform {
    Transform(Inv(t.r), Neg(Apply(Inv(t.r), t.x)))
  }

  function AsMatrix(t: Transform): Mat4 {
    Mat4(ToMatrix(t.r), t.x)
  }

  lemma MatVecLinear(m: Mat3, a: Vec3, b: Vec3)
    ensures MatVec(m, Add(a, b)) == Add(MatVec(m, a), MatVec(m, b))
  {
  }

  lemma MatVecNeg(m: Mat3, a: Vec3)
    ensures MatVec(m, Neg(a)) == Neg(MatVec(m, a))
  {
  }

  /** (t * u).apply(v) = t.apply(u.apply(v)). */
  lemma ActCompose(t: Transform, u: Transform, v: Vec3)
    ensures Act(Compose(t, u), v) == Act(t, Act(u, v))
  {
    ApplyProduct(t.r, u.r, v);
    MatVecLinear(ToMatrix(t.r), Apply(u.r, v), u.x);
  }

  lemma ComposeAssociative(t: Transform, u: Transform, w: Transform)
    ensures Compose(Compose(t, u), w) == Compose(t, Compose(u, w))
  {
    HamiltonAssociative(t.r, u.r, w.r);
    ActCompose(t, u, w.x);
    assert Compose(Compose(t, u), w).x == Act(Compose(t, u), w.x);
    assert Compose(t, Compose(u, w)).x == Act(t, Act(u, w.x));
  }

  lemma ComposeInverse(t: Transform)
    ensures Compose(t, Inverse(t)) == IDENTITY && Compose(Inverse(t), t) == IDENTITY
  {
    InverseCancels(t.r);
    OffsetCancels(t.r, t.x);
  }

  lemma OffsetCancels(q: Rotation, x: Vec3)
    ensures Add(Apply(q, Neg(Apply(Inv(q), x))), x) == IDENTITY.x
    ensures Add(Apply(Inv(q), x), Neg(Apply(Inv(q), x))) == IDENTITY.x
  {
    ApplyInverse(q, x);
    MatVecNeg(ToMatrix(q), Apply(Inv(q), x));
    AddNeg(x);
    AddNeg(Apply(Inv(q), x));
  }

  lemma AddNeg(a: Vec3)
    ensures Add(Neg(a), a) == Vec3(0.0, 0.0, 0.0) == Add(a, Neg(a))
  {
  }

  lemma ActIdentity(v: Vec3)
    ensures Act(IDENTITY, v) == v
  {
    ApplyIdentity(v);
  }

  /** inv() is a two-sided inverse, as a transformation and hence as a map on points. */
  lemma InverseIsInverse(t: Transform, v: Vec3)
    ensures Compose(t, Inverse(t)) == IDENTITY && Compose(Inverse(t), t) == IDENTITY
    ensures Act(t, Act(Inverse(t), v)) == v && Act(Inverse(t), Act(t, v)) == v
  {
    ComposeInverse(t);
    ActIdentity(v);
    ActCompose(t, Inverse(t), v);
    ActCompose(Inverse(t), t, v);
  }

  /** as_matrix turns * into the product of homogeneous matrices. */
  lemma MatrixOfCompose(t: Transform, u: Transform)
    ensures AsMatrix(Compose(t, u)) == MatMul4(AsMatrix(t), AsMatrix(u))
  {
    MatrixOfProduct(t.r, u.r);
  }

  // ----- What a transformation does to points -----

  function Sub(a: Vec3, b: Vec3): Vec3 {
    Vec3(a.x - b.x, a.y - b.y, a.z - b.z)
  }

  /** A transformation takes the origin to its translation. */
  lemma ActOrigin(t: Transform)
    ensures Act(t, Vec3(0.0, 0.0, 0.0)) == t.x
  {
    MatVecZero(ToMatrix(t.r));
  }

  lemma MatVecZero(m: Mat3)
    ensures MatVec(m, Vec3(0.0, 0.0, 0.0)) == Vec3(0.0, 0.0, 0.0)
  {
  }

  /** It turns the difference of two points by its rotation, so it preserves distances. */
  lemma ActDifference(t: Transform, v: Vec3, w: Vec3)
    ensures var d := Sub(Act(t, v), Act(t, w));
            && Pure(d) == Hamilton(Hamilton(t.r, Pure(Sub(v, w))), Conj(t.r))
            && Dot(d, d) == Dot(Sub(v, w), Sub(v, w))
  {
    ActSub(t, v, w);
    ApplyIsSandwich(t.r, Sub(v, w));
    ApplyPreservesLength(t.r, Sub(v, w));
  }

  lemma ActSub(t: Transform, v: Vec3, w: Vec3)
    ensures Sub(Act(t, v), Act(t, w)) == Apply(t.r, Sub(v, w))
  {
    var m := ToMatrix(t.r);
    SubAdd(v, w);
    MatVecLinear(m, Sub(v, w), w);
    SubOffset(MatVec(m, v), MatVec(m, w), MatVec(m, Sub(v, w)), t.x);
  }

  lemma SubAdd(v: Vec3, w: Vec3)
    ensures Add(Sub(v, w), w) == v
  {
  }

  lemma SubOffset(a: Vec3, b: Vec3, d: Vec3, x: Vec3)
    requires a == Add(d, b)
    ensures Sub(Add(a, x), Add(b, x)) == d
  {
  }

  /** The homogeneous matrix times (v, 1) is (t.apply(v), 1). */
  lemma MatrixActs(t: Transform, v: Vec3)
    ensures var m, u := AsMatrix(t), Act(t, v);
            && IsRow4(m.linear.r0, m.offset.x, v, 1.0, u.x)
            && IsRow4(m.linear.r1, m.offset.y, v, 1.0, u.y)
            && IsRow4(m.linear.r2, m.offset.z, v, 1.0, u.z)
  {
    var m := ToMatrix(t.r);
    var a := MatVec(m, v);
    OperationsAre(t.r, t.r, m, v);
    RowPlus(m.r0, t.x.x, v, a.x);
    RowPlus(m.r1, t.x.y, v, a.y);
    RowPlus(m.r2, t.x.z, v, a.z);
  }

  /** A row of a 4-by-4 matrix times (v, w). */
  predicate IsRow4(m: Vec3, last: real, v: Vec3, w: real, r: real) {
    r == m.x * v.x + m.y * v.y + m.z * v.z + last * w
  }

  lemma RowPlus(m: Vec3, last: real, v: Vec3, r: real)
    requires IsRow(m, v, r)
    ensures IsRow4(m, last, v, 1.0, r + last)
  {
  }

  /** invert_quaternion inverts every quaternion but zero, whatever its norm. */
  lemma InvertCancels(q: Quat)
    requires Norm2(q) != 0.0
    ensures Hamilton(q, Invert(q)) == IDENTITY_QUAT
  {
    var n := Norm2(q);
    NormPositive(q);
    TimesConj(q);
    HamiltonIs(q, Conj(q));
    HamiltonIs(q, Invert(q));
    ScaledConj(q, n);
    ScaledProduct(q, Conj(q), Invert(q), 1.0 / n, Hamilton(q, Conj(q)), Hamilton(q, Invert(q)));
  }

  lemma NormPositive(q: Quat)
    requires Norm2(q) != 0.0
    ensures Norm2(q) > 0.0
  {
    assert q.x * q.x >= 0.0 && q.y * q.y >= 0.0 && q.z * q.z >= 0.0 && q.w * q.w >= 0.0;
  }

  lemma ScaledConj(q: Quat, n: real)
    requires n == Norm2(q) > 0.0
    ensures Invert(q) == ScaleQuat(1.0 / n, Conj(q))
  {
  }

  lemma ScaledProduct(q: Quat, c: Quat, d: Quat, s: real, p: Quat, r: Quat)
    requires IsProduct(q, c, p) && IsProduct(q, d, r) && d == ScaleQuat(s, c)
    ensures r == ScaleQuat(s, p)
  {
  }

  /** `r` is the cross product of the vector part of `q` and `v`. */
  predicate IsCross(q: Quat, v: Vec3, r: Vec3) {
    r.x == q.y * v.z - q.z * v.y && r.y == q.z * v.x - q.x * v.z && r.z == q.x * v.y - q.y * v.x
  }

  /** Rotations are right-handed turns about the vector part u of the quaternion: Rodrigues' formula
      v + 2 w (u x v) + 2 u x (u x v). */
  lemma ApplyIsTurn(q: Quat, v: Vec3, c: Vec3, d: Vec3)
    requires IsCross(q, v, c) && IsCross(q, c, d)
    ensures Apply(q, v).x == v.x + 2.0 * (q.w * c.x) + 2.0 * d.x
    ensures Apply(q, v).y == v.y + 2.0 * (q.w * c.y) + 2.0 * d.y
    ensures Apply(q, v).z == v.z + 2.0 * (q.w * c.z) + 2.0 * d.z
  {
    var m, r := ToMatrix(q), Apply(q, v);
    OperationsAre(q, q, m, v);
    MatrixIs(q);
    TurnX(q, m.r0, v, c, d, r.x);
    TurnY(q, m.r1, v, c, d, r.y);
    TurnZ(q, m.r2, v, c, d, r.z);
  }

  lemma TurnX(q: Quat, m: Vec3, v: Vec3, c: Vec3, d: Vec3, r: real)
    requires IsRow(m, v, r) && IsCross(q, v, c) && IsCross(q, c, d)
    requires m.x == 1.0 - (2.0 * q.y * q.y + 2.0 * q.z * q.z)
    requires m.y == 2.0 * q.y * q.x - 2.0 * q.z * q.w
    requires m.z == 2.0 * q.z * q.x + 2.0 * q.y * q.w
    ensures r == v.x + 2.0 * (q.w * c.x) + 2.0 * d.x
  {
    RowTurns(q.x, q.y, q.z, q.w, m.x, m.y, m.z, v.x, v.y, v.z, c.x, c.y, c.z, d.x, r);
  }

  lemma TurnY(q: Quat, m: Vec3, v: Vec3, c: Vec3, d: Vec3, r: real)
    requires IsRow(m, v, r) && IsCross(q, v, c) && IsCross(q, c, d)
    requires m.x == 2.0 * q.y * q.x + 2.0 * q.z * q.w
    requires m.y == 1.0 - (2.0 * q.x * q.x + 2.0 * q.z * q.z)
    requires m.z == 2.0 * q.z * q.y - 2.0 * q.x * q.w
    ensures r == v.y + 2.0 * (q.w * c.y) + 2.0 * d.y
  {
    RowTurns(q.y, q.z, q.x, q.w, m.y, m.z, m.x, v.y, v.z, v.x, c.y, c.z, c.x, d.y, r);
  }

  lemma TurnZ(q: Quat, m: Vec3, v: Vec3, c: Vec3, d: Vec3, r: real)
    requires IsRow(m, v, r) && IsCross(q, v, c) && IsCross(q, c, d)
    requires m.x == 2.0 * q.z * q.x - 2.0 * q.y * q.w
    requires m.y == 2.0 * q.z * q.y + 2.0 * q.x * q.w
    requires m.z == 1.0 - (2.0 * q.x * q.x + 2.0 * q.y * q.y)
    ensures r == v.z + 2.0 * (q.w * c.z) + 2.0 * d.z
  {
    RowTurns(q.z, q.x, q.y, q.w, m.z, m.x, m.y, v.z, v.x, v.y, c.z, c.x, c.y, d.z, r);
  }

  /** A row of the matrix of a quaternion, read with its axis first, times a vector, and the same axis of the cross
      products. */
  lemma RowTurns(
    x: real, y: real, z: real, w: real, m: real, n: real, o: real, a: real, b: real, c: real,
    cx: real, cy: real, cz: real, dx: real, r: real)
    requires m == 1.0 - (2.0 * y * y + 2.0 * z * z) && n == 2.0 * y * x - 2.0 * z * w && o == 2.0 * z * x + 2.0 * y * w
    requires cx == y * c - z * b && cy == z * a - x * c && cz == x * b - y * a && dx == y * cz - z * cy
    requires r == m * a + n * b + o * c
    ensures r == a + 2.0 * (w * cx) + 2.0 * dx
  {
    RowRotates(x, y, z, w, m, n, o, a, b, c);
    RotatedIsTurned(x, y, z, w, a, b, c);
    CrossTwice(x, y, z, w, a, b, c, cx, cy, cz, dx);
  }

  /** One component of v + 2 w (u x v) + 2 u x (u x v). */
  function Turned(x: real, y: real, z: real, w: real, a: real, b: real, c: real): real {
    a + 2.0 * (w * (y * c - z * b)) + 2.0 * (y * (x * b - y * a) - z * (z * a - x * c))
  }

  lemma RotatedIsTurned(x: real, y: real, z: real, w: real, a: real, b: real, c: real)
    ensures Rotated(x, y, z, w, a, b, c) == Turned(x, y, z, w, a, b, c)
  {
  }

  lemma CrossTwice(
    x: real, y: real, z: real, w: real, a: real, b: real, c: real, cx: real, cy: real, cz: real, dx: real)
    requires cx == y * c - z * b && cy == z * a - x * c && cz == x * b - y * a && dx == y * cz - z * cy
    ensures Turned(x, y, z, w, a, b, c) == a + 2.0 * (w * cx) + 2.0 * dx
  {
    ProductEq(w, w, cx, y * c - z * b);
    ProductEq(y, y, cz, x * b - y * a);
    ProductEq(z, z, cy, z * a - x * c);
  }
}

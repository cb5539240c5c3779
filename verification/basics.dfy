/** Values shared by every component: optional references, 3-vectors over the
    reals, and the "first element in list order" search that the per-tick
    loops over the frame list perform. */
module Basics {

  /** A nullable reference (`T | null` in the TypeScript of the app). */
  datatype Option<+T> = None | Some(value: T)

  /** A point or direction in world space. */
  datatype Vec3 = Vec3(x: real, y: real, z: real)

  const Zero: Vec3 := Vec3(0.0, 0.0, 0.0)

  function Abs(r: real): real { if r < 0.0 then -r else r }

  function Max(a: real, b: real): real { if a < b then b else a }

  function Min(a: real, b: real): real { if a < b then a else b }

  function Dot(u: Vec3, v: Vec3): real { u.x * v.x + u.y * v.y + u.z * v.z }

  function Add(u: Vec3, v: Vec3): Vec3 { Vec3(u.x + v.x, u.y + v.y, u.z + v.z) }

  function Sub(u: Vec3, v: Vec3): Vec3 { Vec3(u.x - v.x, u.y - v.y, u.z - v.z) }

  function Scale(v: Vec3, k: real): Vec3 { Vec3(k * v.x, k * v.y, k * v.z) }

  /** The dot product distributes over addition in its first argument. */
  lemma DotAdd(a: Vec3, b: Vec3, v: Vec3)
    ensures Dot(Add(a, b), v) == Dot(a, v) + Dot(b, v)
  {
    calc {
      Dot(Add(a, b), v);
      (a.x + b.x) * v.x + (a.y + b.y) * v.y + (a.z + b.z) * v.z;
      { assert (a.x + b.x) * v.x == a.x * v.x + b.x * v.x;
        assert (a.y + b.y) * v.y == a.y * v.y + b.y * v.y;
        assert (a.z + b.z) * v.z == a.z * v.z + b.z * v.z; }
      Dot(a, v) + Dot(b, v);
    }
  }

  /** The dot product is linear in a scaled first argument. */
  lemma DotScale(a: Vec3, k: real, v: Vec3)
    ensures Dot(Scale(a, k), v) == k * Dot(a, v)
  {
    assert (k * a.x) * v.x == k * (a.x * v.x);
    assert (k * a.y) * v.y == k * (a.y * v.y);
    assert (k * a.z) * v.z == k * (a.z * v.z);
  }

  /** The index of the first element of `s` that satisfies `p`, or None when
      no element does: what a `for (x of s) { if (p(x)) { ...; break; } }`
      loop settles on. */
  function FirstWhere<T>(s: seq<T>, p: T -> bool): (r: Option<nat>)
    ensures r.Some? ==> r.value < |s| && p(s[r.value])
    ensures r.Some? ==> forall j :: 0 <= j < r.value ==> !p(s[j])
    ensures r.None? ==> forall j :: 0 <= j < |s| ==> !p(s[j])
  {
    if |s| == 0 then None
    else if p(s[0]) then Some(0)
    else match FirstWhere(s[1..], p)
      case None => None
      case Some(k) => Some(k + 1)
  }

  /** Only a satisfying element can be the first one, and an index is the
      first exactly when nothing before it satisfies `p`. */
  lemma {:induction false} FirstWhereUnique<T>(s: seq<T>, p: T -> bool, i: nat)
    requires i < |s| && p(s[i])
    requires forall j :: 0 <= j < i ==> !p(s[j])
    ensures FirstWhere(s, p) == Some(i)
  {
    if i > 0 {
      assert !p(s[0]);
      forall j | 0 <= j < i - 1 ensures !p(s[1..][j]) {
        assert s[1..][j] == s[j + 1];
      }
      FirstWhereUnique(s[1..], p, i - 1);
    }
  }
}

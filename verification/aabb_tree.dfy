/**
 * The bounding-volume tree behind the sector's two range indices, seen only
 * through its contract: a finite association from entity key to the bounds
 * recorded when the entity was last added or moved. The geometry is abstract;
 * callers supply the sphere/box intersection test.
 */
module AabbTree {

  datatype Vec3 = Vec3(x: real, y: real, z: real)

  /** An axis-aligned bounding box. */
  datatype Box = Box(min: Vec3, max: Vec3)

  datatype Sphere = Sphere(center: Vec3, radius: real)

  /** The exact intersection test the tree applies to a query. */
  type Intersects = (Box, Sphere) -> bool

  type Tree<K> = map<K, Box>

  /** Inserts `k`, recording `bounds` for it. */
  function Add<K>(t: Tree<K>, k: K, bounds: Box): (r: Tree<K>)
    ensures r.Keys == t.Keys + {k}
    ensures r[k] == bounds
    ensures forall j :: j in t && j != k ==> r[j] == t[j]
  {
    t[k := bounds]
  }

  /** Drops `k` and its recorded bounds. */
  function Remove<K>(t: Tree<K>, k: K): (r: Tree<K>)
    ensures r.Keys == t.Keys - {k}
    ensures forall j :: j in r ==> r[j] == t[j]
  {
    t - {k}
  }

  /** Re-records the bounds of a key already in the tree; a key not in it is left out. */
  function Move<K>(t: Tree<K>, k: K, bounds: Box): (r: Tree<K>)
    ensures r.Keys == t.Keys
    ensures k in t ==> r[k] == bounds
    ensures forall j :: j in t && j != k ==> r[j] == t[j]
  {
    if k in t then t[k := bounds] else t
  }

  /**
   * `GetAllEntitiesInSphere`: every key whose recorded bounds meet the sphere,
   * no false positives and no false negatives.
   */
  function InSphere<K>(t: Tree<K>, sphere: Sphere, intersects: Intersects): (r: set<K>)
    ensures r <= t.Keys
    ensures forall k :: k in t ==> (k in r <==> intersects(t[k], sphere))
  {
    set k | k in t && intersects(t[k], sphere)
  }
}

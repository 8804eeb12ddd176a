/** Value types shared by the load pipeline: optional values, 32-bit unsigned
    integers and the small float vectors of the vertex layout. */
module Types {

  datatype Option<+T> = None | Some(value: T)

  /** The C++ `unsigned int` used for every SubMesh field and every face index. */
  const U32_LIMIT: nat := 0x1_0000_0000

  type U32 = n: nat | n < U32_LIMIT

  /** Conversion of a size or product into `unsigned int`: wraps modulo 2^32. */
  function Wrap32(n: nat): (r: U32)
    ensures n < U32_LIMIT ==> r == n
    ensures r <= n
  {
    n % U32_LIMIT
  }

  /** glm::vec3 and glm::vec2; the float components are modelled as reals. */
  datatype Vec3 = Vec3(x: real, y: real, z: real)
  datatype Vec2 = Vec2(x: real, y: real)
}

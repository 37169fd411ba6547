/** Values shared by every part of the model: an optional value (the C# `null`
    or a `Nullable<T>` without a value) and Unity's integer vector `Vector2Int`,
    which names a grid cell or a unit step. */
module Common {

  datatype Option<+T> = None | Some(value: T)

  /** Unity's `Vector2Int`. */
  datatype Vec2Int = Vec2Int(x: int, y: int)
  {
    function Plus(d: Vec2Int): Vec2Int
    {
      Vec2Int(x + d.x, y + d.y)
    }
  }

  const Up: Vec2Int := Vec2Int(0, 1)
  const Down: Vec2Int := Vec2Int(0, -1)
  const Left: Vec2Int := Vec2Int(-1, 0)
  const Right: Vec2Int := Vec2Int(1, 0)

  /** One of the four unit steps `Vector2Int.up/down/left/right`. */
  predicate IsUnitStep(d: Vec2Int)
  {
    d == Up || d == Down || d == Left || d == Right
  }

  function Abs(r: real): (a: real)
    ensures a >= 0.0 && (a == r || a == -r)
  {
    if r < 0.0 then -r else r
  }
}

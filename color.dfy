/** RGB colours with unbounded channels and their operators (Common/Color.cs). */
module Colors {
  import G = Global

  datatype Color = Color(r: real, g: real, b: real)

  const Black: Color := Color(0.0, 0.0, 0.0)
  const White: Color := Color(1.0, 1.0, 1.0)

  function Add(a: Color, b: Color): Color { Color(a.r + b.r, a.g + b.g, a.b + b.b) }

  function Sub(a: Color, b: Color): Color { Color(a.r - b.r, a.g - b.g, a.b - b.b) }

  /** The channel-wise product of two colours (operator `*` between colours). */
  function Mul(a: Color, b: Color): Color { Color(a.r * b.r, a.g * b.g, a.b * b.b) }

  /** A colour times a scalar. */
  function Scale(a: Color, f: real): Color { Color(a.r * f, a.g * f, a.b * f) }

  /** The channel-wise quotient (operator `/`), a zero channel divisor giving 0 (see Global.Div). */
  function Quot(a: Color, b: Color): Color
  {
    Color(G.Div(a.r, b.r), G.Div(a.g, b.g), G.Div(a.b, b.b))
  }

  /** Luminance with the weights 0.21, 0.72 and 0.07. */
  function Lum(c: Color): real { 0.21 * c.r + 0.72 * c.g + 0.07 * c.b }

  /** The weights sum to one, so a grey colour has its own level as luminance. */
  lemma LumOfGrey(v: real)
    ensures Lum(Color(v, v, v)) == v
  {
  }

  lemma LumIsAdditive(a: Color, b: Color)
    ensures Lum(Add(a, b)) == Lum(a) + Lum(b)
  {
  }

  lemma LumIsHomogeneous(a: Color, f: real)
    ensures Lum(Scale(a, f)) == f * Lum(a)
  {
  }

  lemma AddSubCancels(a: Color, b: Color)
    ensures Sub(Add(a, b), b) == a
  {
  }

  lemma BlackIsAddIdentity(a: Color)
    ensures Add(Black, a) == a && Add(a, Black) == a
  {
  }

  lemma WhiteIsMulIdentity(a: Color)
    ensures Mul(a, White) == a
  {
  }

  /** Dividing a product by a factor with non-zero channels gives the other factor back. */
  lemma QuotUndoesMul(a: Color, b: Color)
    requires b.r != 0.0 && b.g != 0.0 && b.b != 0.0
    ensures Quot(Mul(a, b), b) == a
  {
  }
}

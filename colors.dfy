/** Colour values as the tool handles them: 8-bit channels, in RGB order for
    display and classification, in BGR order as OpenCV stores pixels. */
module Colors {

  /** One 8-bit colour channel. */
  type Channel = x: int | 0 <= x < 256

  datatype Rgb = Rgb(r: Channel, g: Channel, b: Channel)

  /** A pixel as OpenCV delivers it: blue, green, red. */
  datatype Bgr = Bgr(b: Channel, g: Channel, r: Channel)

  /** `tuple(reversed(bgr_color))`: the same three channels in the opposite
      order, so reversing the result again gives back the stored pixel. */
  function ToRgb(p: Bgr): (c: Rgb)
    ensures Bgr(c.b, c.g, c.r) == p
  {
    Rgb(p.r, p.g, p.b)
  }

  function Square(x: int): nat
  {
    x * x
  }

  /** The squared Euclidean distance between two colours in RGB space.
      The square root is monotone, so comparing squared distances orders
      candidates exactly as comparing the distances themselves does. */
  function SqDist(a: Rgb, b: Rgb): (d: nat)
    ensures d == 0 <==> a == b
  {
    Square(a.r - b.r) + Square(a.g - b.g) + Square(a.b - b.b)
  }

  /** How the channel values being compared are stored: as Python integers,
      or as NumPy `uint8` scalars read out of an image, on which (with
      NumPy 2 or later) every subtraction, power and sum with a Python
      integer wraps around modulo 256. */
  datatype ChannelArithmetic = Unbounded | Uint8

  /** The `uint8` result of an operation whose exact value is x. */
  function Wrap8(x: int): (w: nat)
    ensures w < 256
  {
    x % 256
  }

  /** The distance expression evaluated on `uint8` operands: each
      difference, each square and each partial sum wraps around. */
  function WrappedSqDist(a: Rgb, b: Rgb): (d: nat)
    ensures d < 256
  {
    var dr := Wrap8(Square(Wrap8(a.r - b.r)));
    var dg := Wrap8(Square(Wrap8(a.g - b.g)));
    var db := Wrap8(Square(Wrap8(a.b - b.b)));
    Wrap8(Wrap8(dr + dg) + db)
  }

  /** The wrapped distance is the exact squared distance reduced modulo 256,
      so, unlike the exact one, it is zero for some pairs of different
      colours. */
  lemma WrappedSqDistIsResidue(a: Rgb, b: Rgb)
    ensures WrappedSqDist(a, b) == SqDist(a, b) % 256
  {
    WrappedSquare(a.r - b.r);
    WrappedSquare(a.g - b.g);
    WrappedSquare(a.b - b.b);
    WrappedSum(Square(a.r - b.r), Square(a.g - b.g));
    WrappedSum(Square(a.r - b.r) + Square(a.g - b.g), Square(a.b - b.b));
  }

  /** Squaring commutes with the wrap-around. */
  lemma WrappedSquare(x: int)
    ensures Wrap8(Square(Wrap8(x))) == Wrap8(Square(x))
  {
    var q, m := x / 256, x % 256;
    assert x == 256 * q + m;
    assert Square(x) == 256 * (256 * q * q + 2 * q * m) + Square(m);
    MultipleVanishes(256 * q * q + 2 * q * m, Square(m));
  }

  /** Adding commutes with the wrap-around. */
  lemma WrappedSum(x: int, y: int)
    ensures Wrap8(Wrap8(x) + Wrap8(y)) == Wrap8(x + y)
  {
    assert x + y == 256 * (x / 256 + y / 256) + (x % 256 + y % 256);
    MultipleVanishes(x / 256 + y / 256, x % 256 + y % 256);
  }

  lemma MultipleVanishes(k: int, y: int)
    ensures (256 * k + y) % 256 == y % 256
  {
  }

  /** Under wrap-around two different colours can be at distance zero. */
  lemma WrappedDistanceBlind()
    ensures WrappedSqDist(Rgb(16, 0, 0), Rgb(0, 0, 0)) == 0
    ensures Rgb(16, 0, 0) != Rgb(0, 0, 0)
  {
  }

  /** The distance the scan compares, for the given operand type. */
  function Distance(arith: ChannelArithmetic, a: Rgb, b: Rgb): nat
  {
    match arith
    case Unbounded => SqDist(a, b)
    case Uint8 => WrappedSqDist(a, b)
  }
}

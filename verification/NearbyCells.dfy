/** Map cells of the live "cars near you" feed: which rooms a rider listens to, and which room a car publishes to. */
module NearbyCells {

  const CELLS_PER_DEG: int := 50
  const CELL_RING: nat := 2

  datatype Cell = Cell(i: int, j: int)

  function CellOf(lat: real, lng: real): Cell {
    Cell((lat * CELLS_PER_DEG as real).Floor, (lng * CELLS_PER_DEG as real).Floor)
  }

  function Digit(n: nat): char
    requires n < 10
  {
    '0' + n as char
  }

  function Digits(n: nat): string {
    if n < 10 then [Digit(n)] else Digits(n / 10) + [Digit(n % 10)]
  }

  function IntText(i: int): string { if i < 0 then "-" + Digits(-i) else Digits(i) }

  function RoomOfCell(c: Cell): string { "nearby:" + IntText(c.i) + ":" + IntText(c.j) }

  function RoomOfPoint(lat: real, lng: real): string { RoomOfCell(CellOf(lat, lng)) }

  // ----- The block of rooms around a pickup -----

  /** The rooms of the first `rows` rows of the block around `c`, and of the first `n` cells of the next row. */
  function Block(c: Cell, ring: nat, rows: nat, n: nat): seq<string>
    decreases rows, n
  {
    if n > 0 then Block(c, ring, rows, n - 1) + [RoomOfCell(Cell(c.i - ring + rows, c.j - ring + n - 1))]
    else if rows > 0 then Block(c, ring, rows - 1, 2 * ring + 1)
    else []
  }

  function RoomsAround(lat: real, lng: real, ring: nat): seq<string> {
    Block(CellOf(lat, lng), ring, 2 * ring + 1, 0)
  }

  method CollectRoomsAround(lat: real, lng: real, ring: nat) returns (rooms: seq<string>)
    ensures rooms == RoomsAround(lat, lng, ring)
  {
    var c := CellOf(lat, lng);
    rooms := [];
    var di := 0 - ring;
    while di <= ring
      invariant 0 <= di + ring <= 2 * ring + 1
      invariant rooms == Block(c, ring, di + ring, 0)
    {
      var dj := 0 - ring;
      while dj <= ring
        invariant 0 <= dj + ring <= 2 * ring + 1
        invariant rooms == Block(c, ring, di + ring, dj + ring)
      {
        rooms := rooms + [RoomOfCell(Cell(c.i + di, c.j + dj))];
        dj := dj + 1;
      }
      di := di + 1;
    }
  }

  // ----- A room names one cell -----

  predicate IsDigits(s: string) { forall k :: 0 <= k < |s| ==> '0' <= s[k] <= '9' }

  lemma {:induction false} DigitsAreDigits(n: nat)
    ensures |Digits(n)| > 0 && IsDigits(Digits(n)) && (n >= 10 ==> |Digits(n)| > 1)
  {
    if n >= 10 { DigitsAreDigits(n / 10); }
  }

  lemma {:induction false} DigitsInjective(m: nat, n: nat)
    requires Digits(m) == Digits(n)
    ensures m == n
  {
    DigitsAreDigits(m);
    DigitsAreDigits(n);
    var d, e := Digits(m), Digits(n);
    assert d[|d| - 1] == Digit(m % 10) && e[|e| - 1] == Digit(n % 10);
    assert m % 10 == n % 10;
    if m >= 10 && n >= 10 {
      assert d[..|d| - 1] == Digits(m / 10) && e[..|e| - 1] == Digits(n / 10);
      DigitsInjective(m / 10, n / 10);
    }
  }

  lemma TextHasNoColon(i: int)
    ensures forall k :: 0 <= k < |IntText(i)| ==> IntText(i)[k] != ':'
  {
    DigitsAreDigits(if i < 0 then -i else i);
  }

  lemma TextInjective(i: int, j: int)
    requires IntText(i) == IntText(j)
    ensures i == j
  {
    DigitsAreDigits(if i < 0 then -i else i);
    DigitsAreDigits(if j < 0 then -j else j);
    assert (i < 0 <==> IntText(i)[0] == '-') && (j < 0 <==> IntText(j)[0] == '-');
    if i < 0 && j < 0 {
      assert IntText(i)[1..] == Digits(-i) && IntText(j)[1..] == Digits(-j);
      DigitsInjective(-i, -j);
    } else {
      DigitsInjective(i, j);
    }
  }

  lemma ColonSplits(a: string, b: string, a': string, b': string)
    requires a + ":" + b == a' + ":" + b'
    requires forall k :: 0 <= k < |a| ==> a[k] != ':'
    requires forall k :: 0 <= k < |a'| ==> a'[k] != ':'
    ensures a == a' && b == b'
  {
    var s := a + ":" + b;
    var s' := a' + ":" + b';
    assert s[|a|] == ':' && s'[|a'|] == ':';
    assert forall k :: 0 <= k < |a| ==> s[k] != ':';
    assert forall k :: 0 <= k < |a'| ==> s'[k] != ':';
    assert s[..|a|] == a && s'[..|a'|] == a';
    assert s[|a| + 1..] == b && s'[|a'| + 1..] == b';
  }

  lemma RoomInjective(c: Cell, d: Cell)
    requires RoomOfCell(c) == RoomOfCell(d)
    ensures c == d
  {
    TextHasNoColon(c.i);
    TextHasNoColon(d.i);
    assert RoomOfCell(c)[7..] == IntText(c.i) + ":" + IntText(c.j);
    assert RoomOfCell(d)[7..] == IntText(d.i) + ":" + IntText(d.j);
    ColonSplits(IntText(c.i), IntText(c.j), IntText(d.i), IntText(d.j));
    TextInjective(c.i, d.i);
    TextInjective(c.j, d.j);
  }

  // ----- What a room name says -----

  ghost function Natural(s: string): int {
    if s == "" then 0 else 10 * Natural(s[..|s| - 1]) + (s[|s| - 1] as int - '0' as int)
  }

  ghost function Number(s: string): int { if s != "" && s[0] == '-' then -Natural(s[1..]) else Natural(s) }

  /** Decimal digits without a leading zero, after a minus sign for a number below zero. */
  ghost predicate IsNumeral(s: string) {
    var digits := if s != "" && s[0] == '-' then s[1..] else s;
    && digits != "" && IsDigits(digits)
    && (digits[0] == '0' ==> s == "0")
  }

  lemma {:induction false} DigitsSay(n: nat)
    ensures Natural(Digits(n)) == n && IsDigits(Digits(n)) && Digits(n) != "" && (Digits(n)[0] == '0' ==> n == 0)
  {
    if n >= 10 {
      DigitsSay(n / 10);
      var d := Digits(n);
      assert d[..|d| - 1] == Digits(n / 10) && d[|d| - 1] == Digit(n % 10);
      assert d[0] == Digits(n / 10)[0];
    } else {
      assert Digits(n)[..0] == "";
    }
  }

  lemma TextSays(i: int)
    ensures IsNumeral(IntText(i)) && Number(IntText(i)) == i
  {
    DigitsSay(if i < 0 then -i else i);
    if i < 0 { assert IntText(i)[1..] == Digits(-i); }
  }

  /** A room is named by the numerals of the fiftieths of a degree its cell starts at, latitude first. */
  lemma RoomSays(lat: real, lng: real)
    ensures exists a, b ::
      && RoomOfPoint(lat, lng) == "nearby:" + a + ":" + b && IsNumeral(a) && IsNumeral(b)
      && Number(a) as real <= lat * 50.0 < Number(a) as real + 1.0
      && Number(b) as real <= lng * 50.0 < Number(b) as real + 1.0
  {
    var c := CellOf(lat, lng);
    TextSays(c.i);
    TextSays(c.j);
    assert RoomOfPoint(lat, lng) == "nearby:" + IntText(c.i) + ":" + IntText(c.j);
  }

  // ----- What the block covers -----

  predicate Within(c: Cell, d: Cell, ring: nat) {
    c.i - ring <= d.i <= c.i + ring && c.j - ring <= d.j <= c.j + ring
  }

  lemma SameRoom(c: Cell, d: Cell)
    ensures RoomOfCell(c) == RoomOfCell(d) <==> c == d
  {
    if RoomOfCell(c) == RoomOfCell(d) { RoomInjective(c, d); }
  }

  lemma InPush<T>(x: T, s: seq<T>, y: T)
    ensures x in s + [y] <==> x in s || x == y
  {
  }

  predicate InPart(c: Cell, ring: nat, rows: nat, n: nat, d: Cell) {
    0 <= d.j - c.j + ring < 2 * ring + 1
    && (0 <= d.i - c.i + ring < rows || (d.i - c.i + ring == rows && d.j - c.j + ring < n))
  }

  lemma {:induction false} PartCovers(c: Cell, ring: nat, rows: nat, n: nat, d: Cell)
    requires n <= 2 * ring + 1
    ensures RoomOfCell(d) in Block(c, ring, rows, n) <==> InPart(c, ring, rows, n, d)
    decreases rows, n
  {
    if n > 0 {
      var last := Cell(c.i - ring + rows, c.j - ring + n - 1);
      PartCovers(c, ring, rows, n - 1, d);
      SameRoom(d, last);
      InPush(RoomOfCell(d), Block(c, ring, rows, n - 1), RoomOfCell(last));
    } else if rows > 0 {
      PartCovers(c, ring, rows - 1, 2 * ring + 1, d);
    }
  }

  /** The block holds exactly the rooms of the cells within `ring` of the pickup's cell. */
  lemma BlockCovers(lat: real, lng: real, ring: nat, d: Cell)
    ensures RoomOfCell(d) in RoomsAround(lat, lng, ring) <==> Within(CellOf(lat, lng), d, ring)
  {
    PartCovers(CellOf(lat, lng), ring, 2 * ring + 1, 0, d);
  }

  lemma {:induction false} BlockSize(c: Cell, ring: nat, rows: nat, n: nat)
    ensures |Block(c, ring, rows, n)| == rows * (2 * ring + 1) + n
    decreases rows, n
  {
    if n > 0 {
      BlockSize(c, ring, rows, n - 1);
    } else if rows > 0 {
      BlockSize(c, ring, rows - 1, 2 * ring + 1);
    }
  }

  /** A rider listens to 25 rooms, among them the room of every car within two cell widths each way of the pickup. */
  lemma NearCarsAreHeard(lat: real, lng: real, carLat: real, carLng: real)
    requires -0.04 <= carLat - lat <= 0.04 && -0.04 <= carLng - lng <= 0.04
    ensures |RoomsAround(lat, lng, CELL_RING)| == 25
    ensures RoomOfPoint(carLat, carLng) in RoomsAround(lat, lng, CELL_RING)
  {
    BlockSize(CellOf(lat, lng), CELL_RING, 5, 0);
    BlockCovers(lat, lng, CELL_RING, CellOf(carLat, carLng));
  }

  const GUARANTEED_RADIUS_M: real := 3500.0

  /** Metres north and east of the pickup, on the flat map the radius is stated on. */
  ghost predicate InRadius(north: real, east: real) {
    north * north + east * east <= GUARANTEED_RADIUS_M * GUARANTEED_RADIUS_M
  }

  /** The car's room is among the rider's, with `perLat` and `perLng` metres to a degree. */
  ghost predicate Heard(lat: real, lng: real, north: real, east: real, perLat: real, perLng: real)
    requires perLat > 0.0 && perLng > 0.0
  {
    RoomOfPoint(lat + north / perLat, lng + east / perLng) in RoomsAround(lat, lng, CELL_RING)
  }

  /** Every car within 3500 m is heard, wherever the pickup is, exactly where a degree is at least 87500 m each way. */
  lemma GuaranteedRadius(perLat: real, perLng: real)
    requires perLat > 0.0 && perLng > 0.0
    ensures (forall lat, lng, north, east :: InRadius(north, east) ==> Heard(lat, lng, north, east, perLat, perLng))
       <==> perLat >= 87500.0 && perLng >= 87500.0
  {
    if perLat >= 87500.0 && perLng >= 87500.0 {
      forall lat, lng, north, east | InRadius(north, east) ensures Heard(lat, lng, north, east, perLat, perLng) {
        InRadiusIsNear(north, east);
        NearInDegrees(north, perLat);
        NearInDegrees(east, perLng);
        NearCarsAreHeard(lat, lng, lat + north / perLat, lng + east / perLng);
      }
    } else if perLat < 87500.0 {
      FarInDegrees(perLat);
      assert InRadius(-GUARANTEED_RADIUS_M, 0.0);
      BlockCovers(0.0, 0.0, CELL_RING, CellOf(0.0 + -GUARANTEED_RADIUS_M / perLat, 0.0 + 0.0 / perLng));
      assert !Heard(0.0, 0.0, -GUARANTEED_RADIUS_M, 0.0, perLat, perLng);
    } else {
      FarInDegrees(perLng);
      assert InRadius(0.0, -GUARANTEED_RADIUS_M);
      BlockCovers(0.0, 0.0, CELL_RING, CellOf(0.0 + 0.0 / perLat, 0.0 + -GUARANTEED_RADIUS_M / perLng));
      assert !Heard(0.0, 0.0, 0.0, -GUARANTEED_RADIUS_M, perLat, perLng);
    }
  }

  lemma InRadiusIsNear(north: real, east: real)
    requires InRadius(north, east)
    ensures -GUARANTEED_RADIUS_M <= north <= GUARANTEED_RADIUS_M && -GUARANTEED_RADIUS_M <= east <= GUARANTEED_RADIUS_M
  {
    SquareBound(north, east);
    SquareBound(east, north);
  }

  lemma SquareBound(a: real, b: real)
    requires a * a + b * b <= GUARANTEED_RADIUS_M * GUARANTEED_RADIUS_M
    ensures -GUARANTEED_RADIUS_M <= a <= GUARANTEED_RADIUS_M
  {
    assert b * b >= 0.0;
    SquareGrows(a, GUARANTEED_RADIUS_M);
    SquareGrows(-a, GUARANTEED_RADIUS_M);
    assert (-a) * (-a) == a * a;
  }

  lemma SquareGrows(a: real, r: real)
    requires r > 0.0
    ensures a > r ==> a * a > r * r
  {
    if a > r { assert a * a > a * r > r * r; }
  }

  lemma ScaleGrows(x: real, y: real, per: real)
    requires per > 0.0
    ensures x < y ==> x * per < y * per
  {
  }

  lemma NearInDegrees(metres: real, per: real)
    requires -GUARANTEED_RADIUS_M <= metres <= GUARANTEED_RADIUS_M && per >= 87500.0
    ensures -0.04 <= metres / per <= 0.04
  {
    var d := metres / per;
    assert d * per == metres;
    ScaleGrows(0.04, d, per);
    ScaleGrows(d, -0.04, per);
  }

  lemma FarInDegrees(per: real)
    requires 0.0 < per < 87500.0
    ensures -GUARANTEED_RADIUS_M / per < -0.04
  {
    var d := -GUARANTEED_RADIUS_M / per;
    assert d * per == -GUARANTEED_RADIUS_M < -0.04 * per;
    ScaleGrows(-0.04, d, per);
  }
}

/**
 Google's encoded polylines: the decoder in its two copies, on strings as JavaScript holds them (16-bit code units)
 and with JavaScript's 32-bit operators, against the published encoding algorithm.
 */
module Polyline {
  import opened Options

  type CodeUnit = x: int | 0 <= x < 0x10000

  // ----- 32-bit words, held as the unsigned number with the same bits -----

  const WORD: nat := 0x1_0000_0000
  const SIGN: nat := 0x8000_0000

  function Pow2(n: nat): (r: nat)
    ensures r > 0
  {
    if n == 0 then 1 else 2 * Pow2(n - 1)
  }

  /** Bitwise or. */
  function Or(a: nat, b: nat): nat
    decreases a + b
  {
    if a == 0 && b == 0 then 0
    else (if a % 2 == 1 || b % 2 == 1 then 1 else 0) + 2 * Or(a / 2, b / 2)
  }

  /** `x << shift`: the shift count is taken modulo 32 and bits past the word are lost. */
  function Shl(x: nat, shift: nat): nat { x * Pow2(shift % 32) % WORD }

  /** The number a word stands for in two's complement. */
  function Signed(word: nat): int { if word < SIGN then word else word - WORD }

  /** `result & 1 ? ~(result >> 1) : result >> 1`. */
  function Unfold(result: nat): int {
    var half := Signed(result) / 2;
    if result % 2 == 1 then -half - 1 else half
  }

  // ----- Decoding -----

  /** `charCodeAt(i) - 63`; past the end it is NaN. */
  function At(s: seq<CodeUnit>, i: nat): Option<int> {
    if i < |s| then (var unit: int := s[i]; Some(unit - 63)) else None
  }

  /** `b & 0x1f`; NaN counts as 0. */
  function Low5(b: Option<int>): nat { if b.Some? then b.value % 32 else 0 }

  /** `b >= 0x20`; false of NaN. */
  predicate More(b: Option<int>) { b.Some? && b.value >= 0x20 }

  /** One number from position `i`, with `shift` bits already in `result`; also the position after it. */
  function ReadValue(s: seq<CodeUnit>, i: nat, shift: nat, result: nat): (nat, nat)
    decreases |s| - i
  {
    var result' := Or(result, Shl(Low5(At(s, i)), shift));
    if More(At(s, i)) then ReadValue(s, i + 1, shift + 5, result') else (result', i + 1)
  }

  lemma ReadAdvances(s: seq<CodeUnit>, i: nat, shift: nat, result: nat)
    ensures ReadValue(s, i, shift, result).1 > i
    decreases |s| - i
  {
    if More(At(s, i)) { ReadAdvances(s, i + 1, shift + 5, Or(result, Shl(Low5(At(s, i)), shift))); }
  }

  function Degrees(lat: int, lng: int): (real, real) { (lat as real / 100000.0, lng as real / 100000.0) }

  function ReadPoints(s: seq<CodeUnit>, i: nat, lat: int, lng: int): seq<(real, real)>
    decreases |s| - i
  {
    if i >= |s| then [] else
    ReadAdvances(s, i, 0, 0);
    var (dlat, j) := ReadValue(s, i, 0, 0);
    ReadAdvances(s, j, 0, 0);
    var (dlng, k) := ReadValue(s, j, 0, 0);
    var lat', lng' := lat + Unfold(dlat), lng + Unfold(dlng);
    [Degrees(lat', lng')] + ReadPoints(s, k, lat', lng')
  }

  function Decode(s: seq<CodeUnit>): seq<(real, real)> { ReadPoints(s, 0, 0, 0) }

  /** The inner loop of both decoders: one number from position `i`. */
  method ReadNumber(encoded: seq<CodeUnit>, i: nat) returns (result: nat, next: nat)
    ensures (result, next) == ReadValue(encoded, i, 0, 0)
    ensures next > i
  {
    var shift: nat := 0;
    result, next := 0, i;
    var again := true;
    while again
      invariant ReadValue(encoded, i, 0, 0) ==
                if again then ReadValue(encoded, next, shift, result) else (result, next)
      invariant next >= i && (again || next > i)
      decreases again, |encoded| - next
    {
      var b := At(encoded, next);
      next := next + 1;
      result := Or(result, Shl(Low5(b), shift));
      shift := shift + 5;
      again := More(b);
    }
  }

  lemma OnePoint(s: seq<CodeUnit>, i: nat, lat: int, lng: int, dlat: nat, j: nat, dlng: nat, k: nat)
    requires i < |s| && ReadValue(s, i, 0, 0) == (dlat, j) && ReadValue(s, j, 0, 0) == (dlng, k)
    ensures ReadPoints(s, i, lat, lng) == [Degrees(lat + Unfold(dlat), lng + Unfold(dlng))]
                                          + ReadPoints(s, k, lat + Unfold(dlat), lng + Unfold(dlng))
  {
  }

  lemma MovePoint(pts: seq<(real, real)>, p: (real, real), rest: seq<(real, real)>)
    ensures pts + ([p] + rest) == (pts + [p]) + rest
  {
  }

  /** apps/admin: ends on every string, truncated ones included. */
  method DecodeAdmin(encoded: seq<CodeUnit>) returns (pts: seq<(real, real)>)
    ensures pts == Decode(encoded)
    ensures forall on: seq<Point> :: AllOnEarth(on) && encoded == Encode(on) ==> Says(pts, on)
  {
    forall on: seq<Point> | AllOnEarth(on) && encoded == Encode(on) ensures Says(Decode(encoded), on) { RoundTrip(on); }
    pts := [];
    var i: nat, lat, lng := 0, 0, 0;
    while i < |encoded|
      invariant Decode(encoded) == pts + ReadPoints(encoded, i, lat, lng)
      decreases |encoded| - i
    {
      var dlat, middle := ReadNumber(encoded, i);
      var dlng, end := ReadNumber(encoded, middle);
      OnePoint(encoded, i, lat, lng, dlat, middle, dlng, end);
      lat := lat + Unfold(dlat);
      lng := lng + Unfold(dlng);
      i := end;
      MovePoint(pts, Degrees(lat, lng), ReadPoints(encoded, i, lat, lng));
      pts := pts + [Degrees(lat, lng)];
    }
  }

  /** apps/user: the second copy returns the same points on every string. */
  method DecodeUser(encoded: seq<CodeUnit>) returns (points: seq<(real, real)>)
    ensures points == Decode(encoded)
    ensures forall on: seq<Point> :: AllOnEarth(on) && encoded == Encode(on) ==> Says(points, on)
  {
    forall on: seq<Point> | AllOnEarth(on) && encoded == Encode(on) ensures Says(Decode(encoded), on) { RoundTrip(on); }
    points := [];
    var index: nat, lat, lng := 0, 0, 0;
    while index < |encoded|
      invariant Decode(encoded) == points + ReadPoints(encoded, index, lat, lng)
      decreases |encoded| - index
    {
      var dlat, middle := ReadNumber(encoded, index);
      var dlng, end := ReadNumber(encoded, middle);
      OnePoint(encoded, index, lat, lng, dlat, middle, dlng, end);
      lat := lat + Unfold(dlat);
      lng := lng + Unfold(dlng);
      index := end;
      MovePoint(points, Degrees(lat, lng), ReadPoints(encoded, index, lat, lng));
      points := points + [Degrees(lat, lng)];
    }
  }

  // ----- The published encoding, steps 1 to 11 of the "Encoded Polyline Algorithm Format" -----

  /** A point in units of 1e-5 degrees, as step 2 leaves it. */
  datatype Point = Point(lat: int, lng: int)

  /** Steps 3 to 5: shift left one bit, and invert the bits of a negative number. */
  function Fold(v: int): nat { if v < 0 then -(2 * v) - 1 else 2 * v }

  /** Steps 6 to 11: five bits at a time from the low end, 0x20 marking that more follow, plus 63. */
  function Chunks(z: nat): (r: seq<CodeUnit>)
    ensures |r| > 0
  {
    if z < 32 then [z + 63] else [z % 32 + 0x20 + 63] + Chunks(z / 32)
  }

  /** Each point after the first is encoded as its offset from the one before. */
  function EncodeFrom(points: seq<Point>, lat: int, lng: int): seq<CodeUnit> {
    if points == [] then [] else
    var p := points[0];
    Chunks(Fold(p.lat - lat)) + Chunks(Fold(p.lng - lng)) + EncodeFrom(points[1..], p.lat, p.lng)
  }

  function Encode(points: seq<Point>): seq<CodeUnit> { EncodeFrom(points, 0, 0) }

  function InDegrees(points: seq<Point>): seq<(real, real)> {
    seq(|points|, i requires 0 <= i < |points| => Degrees(points[i].lat, points[i].lng))
  }

  // ----- Words -----

  lemma {:induction false} OrWithZero(a: nat)
    ensures Or(a, 0) == a && Or(0, a) == a
  {
    if a > 0 { OrWithZero(a / 2); }
  }

  /** `x` moved up by `k` bits. */
  function Above(x: nat, k: nat): nat { x * Pow2(k) }

  lemma AboveHalves(x: nat, k: nat)
    requires k > 0
    ensures Above(x, k) == 2 * Above(x, k - 1) && Above(x, k) / 2 == Above(x, k - 1) && Above(x, k) % 2 == 0
  {
    assert x * (2 * Pow2(k - 1)) == 2 * (x * Pow2(k - 1));
  }

  lemma OrStep(a: nat, b: nat)
    requires b % 2 == 0
    ensures Or(a, b) == a % 2 + 2 * Or(a / 2, b / 2)
  {
    if a == 0 && b == 0 { assert Or(0, 0) == 0; }
  }

  /** Or of bits below position `k` with bits from position `k` up is their sum. */
  lemma {:induction false} OrIsSum(low: nat, high: nat, k: nat)
    requires low < Pow2(k)
    ensures Or(low, Above(high, k)) == low + Above(high, k)
    decreases k
  {
    if k == 0 {
      OrWithZero(high);
    } else {
      AboveHalves(high, k);
      OrIsSum(low / 2, high, k - 1);
      OrStep(low, Above(high, k));
    }
  }

  lemma {:induction false} Pow2Grows(m: nat, n: nat)
    requires m <= n
    ensures Pow2(m) <= Pow2(n)
    decreases n
  {
    if m < n { Pow2Grows(m, n - 1); }
  }

  lemma Pow2Word()
    ensures Pow2(32) == WORD
  {
    assert Pow2(8) == 256;
    assert Pow2(16) == 256 * Pow2(8);
    assert Pow2(24) == 256 * Pow2(16);
  }

  lemma Pow2Five(n: nat)
    ensures Pow2(n + 5) == 32 * Pow2(n)
  {
    assert Pow2(n + 2) == 4 * Pow2(n) by { assert Pow2(n + 1) == 2 * Pow2(n); }
    assert Pow2(n + 4) == 4 * Pow2(n + 2) by { assert Pow2(n + 3) == 2 * Pow2(n + 2); }
  }

  lemma SmallMod(x: nat)
    requires x < WORD
    ensures x % WORD == x
  {
  }

  lemma ShlFits(c: nat, shift: nat)
    requires shift < 32 && Above(c, shift) < WORD
    ensures Shl(c, shift) == Above(c, shift)
  {
    assert shift % 32 == shift;
    SmallMod(c * Pow2(shift));
  }

  lemma AtMost31(c: nat, p: nat)
    requires c < 32
    ensures c * p <= 31 * p
  {
  }

  /** A chunk that still fits the word lands above the bits already read. */
  lemma ChunkLands(result: nat, c: nat, shift: nat)
    requires result < Pow2(shift) && c < 32 && shift < 32 && Above(c, shift) < WORD
    ensures Or(result, Shl(c, shift)) == result + Above(c, shift)
    ensures result + Above(c, shift) < Pow2(shift + 5)
  {
    ShlFits(c, shift);
    OrIsSum(result, c, shift);
    Pow2Five(shift);
    AtMost31(c, Pow2(shift));
  }

  // ----- Reading back what was encoded -----

  lemma SplitProduct(z: nat, p: nat)
    ensures z * p == (z % 32) * p + (z / 32) * (32 * p)
  {
    assert z == z % 32 + 32 * (z / 32);
    assert z * p == (z % 32) * p + (32 * (z / 32)) * p;
    assert (32 * (z / 32)) * p == (z / 32) * (32 * p);
  }

  lemma SplitAbove(z: nat, shift: nat)
    ensures Above(z, shift) == Above(z % 32, shift) + Above(z / 32, shift + 5)
  {
    Pow2Five(shift);
    SplitProduct(z, Pow2(shift));
  }

  lemma AtLeast(z: nat, p: nat)
    requires z > 0
    ensures p <= z * p
  {
  }

  /** A nonzero number that fits the word above `shift` bits leaves a shift count below 32. */
  lemma ShiftBelow32(z: nat, shift: nat)
    requires z > 0 && Above(z, shift) < WORD
    ensures shift < 32
  {
    if shift >= 32 {
      Pow2Grows(32, shift);
      Pow2Word();
      AtLeast(z, Pow2(shift));
    }
  }

  /** The first character of the chunks of `z` at position `i`, and where the others are. */
  lemma FirstChunk(s: seq<CodeUnit>, i: nat, z: nat)
    requires i + |Chunks(z)| <= |s| && s[i..i + |Chunks(z)|] == Chunks(z)
    ensures Low5(At(s, i)) == z % 32 && (More(At(s, i)) <==> z >= 32)
    ensures z < 32 ==> |Chunks(z)| == 1
    ensures z >= 32 ==> |Chunks(z)| == 1 + |Chunks(z / 32)| && s[i + 1..i + 1 + |Chunks(z / 32)|] == Chunks(z / 32)
  {
    assert s[i] == Chunks(z)[0];
    if z >= 32 { assert s[i + 1..i + 1 + |Chunks(z / 32)|] == Chunks(z)[1..]; }
  }

  /** The chunks of `z` read back as `z`, above whatever was read before them. */
  lemma {:induction false} ReadChunks(s: seq<CodeUnit>, i: nat, z: nat, shift: nat, result: nat)
    requires i + |Chunks(z)| <= |s| && s[i..i + |Chunks(z)|] == Chunks(z)
    requires result < Pow2(shift) && Above(z, shift) < WORD && shift < 32
    ensures ReadValue(s, i, shift, result) == (result + Above(z, shift), i + |Chunks(z)|)
    decreases z
  {
    FirstChunk(s, i, z);
    SplitAbove(z, shift);
    ChunkLands(result, z % 32, shift);
    if z >= 32 {
      ShiftBelow32(z / 32, shift + 5);
      ReadChunks(s, i + 1, z / 32, shift + 5, result + Above(z % 32, shift));
    } else {
      AboveZero(shift + 5);
    }
  }

  lemma AboveZero(k: nat)
    ensures Above(0, k) == 0
  {
  }

  /** However long its chunks, a number ends where its chunks end. */
  lemma {:induction false} ReadEnds(s: seq<CodeUnit>, i: nat, z: nat, shift: nat, result: nat)
    requires i + |Chunks(z)| <= |s| && s[i..i + |Chunks(z)|] == Chunks(z)
    ensures ReadValue(s, i, shift, result).1 == i + |Chunks(z)|
    decreases z
  {
    FirstChunk(s, i, z);
    if z >= 32 {
      ReadEnds(s, i + 1, z / 32, shift + 5, Or(result, Shl(Low5(At(s, i)), shift)));
    }
  }

  /** What the sign-folding can carry. */
  predicate Fits(v: int) { -0x4000_0000 <= v < 0x4000_0000 }

  lemma UnfoldFold(v: int)
    requires Fits(v)
    ensures Unfold(Fold(v)) == v && Fold(v) < SIGN
  {
  }

  lemma {:induction false} OrBelow(a: nat, b: nat, k: nat)
    requires a < Pow2(k) && b < Pow2(k)
    ensures Or(a, b) < Pow2(k)
    decreases k
  {
    if k > 0 { OrBelow(a / 2, b / 2, k - 1); }
  }

  lemma {:induction false} ReadsAWord(s: seq<CodeUnit>, i: nat, shift: nat, result: nat)
    requires result < WORD
    ensures ReadValue(s, i, shift, result).0 < WORD
    decreases |s| - i
  {
    Pow2Word();
    OrBelow(result, Shl(Low5(At(s, i)), shift), 32);
    if More(At(s, i)) { ReadsAWord(s, i + 1, shift + 5, Or(result, Shl(Low5(At(s, i)), shift))); }
  }

  /** Whatever a word holds, it unfolds to a number that fits. */
  lemma UnfoldFits(word: nat)
    requires word < WORD
    ensures Fits(Unfold(word))
  {
  }

  /** One encoded offset reads back as itself exactly when it fits, and never as anything that does not fit. */
  lemma ReadOffset(s: seq<CodeUnit>, i: nat, v: int)
    requires i + |Chunks(Fold(v))| <= |s| && s[i..i + |Chunks(Fold(v))|] == Chunks(Fold(v))
    ensures var (word, next) := ReadValue(s, i, 0, 0);
      (Unfold(word) == v <==> Fits(v)) && next == i + |Chunks(Fold(v))|
  {
    ReadEnds(s, i, Fold(v), 0, 0);
    if Fits(v) {
      UnfoldFold(v);
      ReadChunks(s, i, Fold(v), 0, 0);
    } else {
      ReadsAWord(s, i, 0, 0);
      UnfoldFits(ReadValue(s, i, 0, 0).0);
    }
  }

  /** The example of the published format: -179.9832104 degrees and "`~oia@" are each other's encoding. */
  lemma PublishedExample()
    ensures Chunks(Fold(-17998321)) == [96, 126, 111, 105, 97, 64]
    ensures Unfold(ReadValue([96, 126, 111, 105, 97, 64], 0, 0, 0).0) == -17998321
  {
    EncodedExample();
    OffsetAlone(-17998321);
  }

  lemma OffsetAlone(v: int)
    requires Fits(v)
    ensures Unfold(ReadValue(Chunks(Fold(v)), 0, 0, 0).0) == v
  {
    var s := Chunks(Fold(v));
    assert s[0..0 + |s|] == s;
    ReadOffset(s, 0, v);
  }

  lemma EncodedExample()
    ensures Chunks(Fold(-17998321)) == [96, 126, 111, 105, 97, 64]
  {
    assert Fold(-17998321) == 35996641;
    assert Chunks(34) == [97, 64];
    assert Chunks(1098) == [105] + Chunks(34);
    assert Chunks(35152) == [111] + Chunks(1098);
    assert Chunks(1124895) == [126] + Chunks(35152);
  }

  /** Every offset between consecutive points fits. */
  predicate AllFit(points: seq<Point>, lat: int, lng: int) {
    points != [] ==>
      Fits(points[0].lat - lat) && Fits(points[0].lng - lng) && AllFit(points[1..], points[0].lat, points[0].lng)
  }

  lemma DegreesInjective(lat: int, lng: int, lat': int, lng': int)
    ensures Degrees(lat, lng) == Degrees(lat', lng') <==> lat == lat' && lng == lng'
  {
  }

  lemma Pieces(s: seq<CodeUnit>, i: nat, a: seq<CodeUnit>, b: seq<CodeUnit>, rest: seq<CodeUnit>)
    requires i <= |s| && s[i..] == a + b + rest
    ensures i + |a| + |b| <= |s|
    ensures s[i..i + |a|] == a && s[i + |a|..i + |a| + |b|] == b && s[i + |a| + |b|..] == rest
  {
    assert |s[i..]| == |a| + |b| + |rest|;
    assert s[i..i + |a|] == s[i..][..|a|] == a;
    assert s[i + |a|..i + |a| + |b|] == s[i..][|a|..|a| + |b|] == b;
    assert s[i + |a| + |b|..] == s[i..][|a| + |b|..] == rest;
  }

  /** Two encoded offsets read back as some point, which is the right one exactly when both fit. */
  lemma ReadPair(s: seq<CodeUnit>, i: nat, v: int, w: int, lat: int, lng: int) returns (q: Point, k: nat)
    requires var a, b := Chunks(Fold(v)), Chunks(Fold(w));
      i + |a| + |b| <= |s| && s[i..i + |a|] == a && s[i + |a|..i + |a| + |b|] == b
    ensures k == i + |Chunks(Fold(v))| + |Chunks(Fold(w))|
    ensures ReadPoints(s, i, lat, lng) == [Degrees(q.lat, q.lng)] + ReadPoints(s, k, q.lat, q.lng)
    ensures q == Point(lat + v, lng + w) <==> Fits(v) && Fits(w)
  {
    var j := i + |Chunks(Fold(v))|;
    k := j + |Chunks(Fold(w))|;
    ReadOffset(s, i, v);
    ReadOffset(s, j, w);
    var v', w' := ReadValue(s, i, 0, 0).0, ReadValue(s, j, 0, 0).0;
    q := Point(lat + Unfold(v'), lng + Unfold(w'));
    OnePoint(s, i, lat, lng, v', j, w', k);
  }

  /** The first encoded point, read from the text that starts with it. */
  lemma ReadFirst(s: seq<CodeUnit>, i: nat, p: Point, rest: seq<CodeUnit>, lat: int, lng: int)
    returns (q: Point, k: nat)
    requires i <= |s| && s[i..] == Chunks(Fold(p.lat - lat)) + Chunks(Fold(p.lng - lng)) + rest
    ensures k <= |s| && s[k..] == rest
    ensures ReadPoints(s, i, lat, lng) == [Degrees(q.lat, q.lng)] + ReadPoints(s, k, q.lat, q.lng)
    ensures q == p <==> Fits(p.lat - lat) && Fits(p.lng - lng)
  {
    Pieces(s, i, Chunks(Fold(p.lat - lat)), Chunks(Fold(p.lng - lng)), rest);
    q, k := ReadPair(s, i, p.lat - lat, p.lng - lng, lat, lng);
  }

  lemma {:induction false} ReadPointsBack(s: seq<CodeUnit>, i: nat, points: seq<Point>, lat: int, lng: int)
    requires i <= |s| && s[i..] == EncodeFrom(points, lat, lng)
    ensures ReadPoints(s, i, lat, lng) == InDegrees(points) <==> AllFit(points, lat, lng)
    decreases |points|
  {
    if points != [] {
      var p := points[0];
      var q, k := ReadFirst(s, i, p, EncodeFrom(points[1..], p.lat, p.lng), lat, lng);
      var tail := ReadPoints(s, k, q.lat, q.lng);
      FirstInDegrees(points);
      DegreesInjective(q.lat, q.lng, p.lat, p.lng);
      HeadAndTail(Degrees(q.lat, q.lng), tail, Degrees(p.lat, p.lng), InDegrees(points[1..]));
      if q == p { ReadPointsBack(s, k, points[1..], p.lat, p.lng); }
    }
  }

  lemma FirstInDegrees(points: seq<Point>)
    requires points != []
    ensures InDegrees(points) == [Degrees(points[0].lat, points[0].lng)] + InDegrees(points[1..])
  {
  }

  lemma HeadAndTail(x: (real, real), xs: seq<(real, real)>, y: (real, real), ys: seq<(real, real)>)
    ensures [x] + xs == [y] + ys <==> x == y && xs == ys
  {
    if [x] + xs == [y] + ys {
      assert ([x] + xs)[0] == ([y] + ys)[0];
      assert ([x] + xs)[1..] == ([y] + ys)[1..];
    }
  }

  /** The decoded pairs are the points in degrees, latitude first. */
  ghost predicate Says(decoded: seq<(real, real)>, points: seq<Point>) {
    && |decoded| == |points|
    && forall i :: 0 <= i < |points| ==>
         decoded[i].0 * 100000.0 == points[i].lat as real && decoded[i].1 * 100000.0 == points[i].lng as real
  }

  lemma SaysInDegrees(decoded: seq<(real, real)>, points: seq<Point>)
    ensures Says(decoded, points) <==> decoded == InDegrees(points)
  {
    if Says(decoded, points) {
      forall i | 0 <= i < |points| ensures decoded[i] == InDegrees(points)[i] {
        assert decoded[i].0 == points[i].lat as real / 100000.0 && decoded[i].1 == points[i].lng as real / 100000.0;
      }
    }
  }

  /** Decoding undoes encoding exactly when every offset between consecutive points fits in 31 bits. */
  lemma DecodeUndoesEncode(points: seq<Point>)
    ensures Says(Decode(Encode(points)), points) <==> AllFit(points, 0, 0)
  {
    assert Encode(points)[0..] == EncodeFrom(points, 0, 0);
    ReadPointsBack(Encode(points), 0, points, 0, 0);
    SaysInDegrees(Decode(Encode(points)), points);
  }

  predicate OnEarth(p: Point) { -9000000 <= p.lat <= 9000000 && -18000000 <= p.lng <= 18000000 }

  lemma {:induction false} OffsetsOnEarthFit(points: seq<Point>, last: Point)
    requires OnEarth(last) && forall i :: 0 <= i < |points| ==> OnEarth(points[i])
    ensures AllFit(points, last.lat, last.lng)
    decreases |points|
  {
    if points != [] { OffsetsOnEarthFit(points[1..], points[0]); }
  }

  predicate AllOnEarth(points: seq<Point>) { forall i :: 0 <= i < |points| ==> OnEarth(points[i]) }

  /** Every polyline of valid coordinates survives the round trip. */
  lemma RoundTrip(points: seq<Point>)
    requires AllOnEarth(points)
    ensures Says(Decode(Encode(points)), points)
  {
    OffsetsOnEarthFit(points, Point(0, 0));
    DecodeUndoesEncode(points);
  }

  // ----- What any string reads as -----

  /** Bit `p` of `x`. */
  predicate Bit(x: nat, p: nat) { if p == 0 then x % 2 == 1 else Bit(x / 2, p - 1) }

  lemma {:induction false} OrBit(a: nat, b: nat, p: nat)
    ensures Bit(Or(a, b), p) <==> Bit(a, p) || Bit(b, p)
  {
    assert Or(a, b) / 2 == Or(a / 2, b / 2);
    if p > 0 { OrBit(a / 2, b / 2, p - 1); }
  }

  lemma {:induction false} ZeroBit(p: nat)
    ensures !Bit(0, p)
  {
    if p > 0 { ZeroBit(p - 1); }
  }

  lemma {:induction false} AboveBit(c: nat, k: nat, p: nat)
    ensures Bit(Above(c, k), p) <==> p >= k && Bit(c, p - k)
    decreases k
  {
    if k > 0 {
      AboveHalves(c, k);
      if p > 0 { AboveBit(c, k - 1, p - 1); }
    }
  }

  lemma {:induction false} SmallBit(c: nat, k: nat, p: nat)
    requires c < Pow2(k) && p >= k
    ensures !Bit(c, p)
    decreases k
  {
    if k == 0 { ZeroBit(p); } else { SmallBit(c / 2, k - 1, p - 1); }
  }

  lemma HalfMod(x: nat, m: nat)
    requires m > 0
    ensures (x % (2 * m)) % 2 == x % 2 && (x % (2 * m)) / 2 == (x / 2) % m
  {
    var q, r := x / (2 * m), x % (2 * m);
    var mq := m * q;
    assert (2 * m) * q == 2 * mq;
    assert x == 2 * mq + r;
    assert x / 2 == mq + r / 2 && r / 2 < m;
    ModOf(x / 2, m, q, r / 2);
  }

  lemma ModOf(x: nat, m: nat, q: nat, r: nat)
    requires x == m * q + r && r < m
    ensures x % m == r
  {
    var d := x / m - q;
    assert m * (x / m) == m * q + m * d;
    Multiple(m, d);
  }

  lemma Multiple(m: int, d: int)
    requires m > 0
    ensures d > 0 ==> m * d >= m
    ensures d < 0 ==> m * d <= -m
  {
    if d > 0 { NotNegative(m, d - 1); }
    if d < 0 { NotNegative(m, -d - 1); }
  }

  lemma NotNegative(m: int, e: int)
    requires m > 0 && e >= 0
    ensures m * e >= 0
  {
  }

  lemma {:induction false} ModBit(x: nat, n: nat, p: nat)
    requires p < n
    ensures Bit(x % Pow2(n), p) <==> Bit(x, p)
    decreases n
  {
    HalfMod(x, Pow2(n - 1));
    if p > 0 { ModBit(x / 2, n - 1, p - 1); }
  }

  lemma ShlBit(c: nat, shift: nat, p: nat)
    requires c < 32 && p < 32
    ensures Bit(Shl(c, shift), p) <==> shift % 32 <= p < shift % 32 + 5 && Bit(c, p - shift % 32)
  {
    Pow2Word();
    ModBit(Above(c, shift % 32), 32, p);
    AboveBit(c, shift % 32, p);
    assert Pow2(5) == 32;
    if p >= shift % 32 + 5 { SmallBit(c, 5, p - shift % 32); }
  }

  /** The character at `j` of a number that starts at `i` lands 5 (j - i) bits up, modulo 32, and sets bit `p`. */
  ghost predicate SetsBit(s: seq<CodeUnit>, i: nat, j: nat, p: nat)
    requires i <= j
  {
    var at := 5 * (j - i) % 32;
    j < |s| && at <= p < at + 5 && (var unit: int := s[j]; Bit((unit - 63) % 32, p - at))
  }

  /** Some character from `k` up to `end` does. */
  ghost predicate SomeSetsBit(s: seq<CodeUnit>, i: nat, k: nat, end: nat, p: nat)
    requires i <= k
  {
    exists j :: k <= j < end && SetsBit(s, i, j, p)
  }

  lemma FirstOrLater(s: seq<CodeUnit>, i: nat, k: nat, end: nat, p: nat)
    requires i <= k < end
    ensures SomeSetsBit(s, i, k, end, p) <==> SetsBit(s, i, k, p) || SomeSetsBit(s, i, k + 1, end, p)
  {
  }

  /** A number ends with the first character below 95, or one past the end of the string. */
  ghost predicate EndsAt(s: seq<CodeUnit>, i: nat, end: nat) {
    && i < end
    && (end - 1 < |s| ==> s[end - 1] < 95)
    && forall j :: i <= j < end - 1 ==> j < |s| && s[j] >= 95
  }

  /** Whatever the string, well formed or not: the bits of a number are all those its characters set. */
  lemma ReadBits(s: seq<CodeUnit>, i: nat, p: nat)
    requires p < 32
    ensures var (word, end) := ReadValue(s, i, 0, 0);
      word < WORD && EndsAt(s, i, end) && (Bit(word, p) <==> SomeSetsBit(s, i, i, end, p))
  {
    ReadsAWord(s, i, 0, 0);
    ReadBitsFrom(s, i, i, 0, p);
    ZeroBit(p);
  }

  lemma {:induction false} ReadBitsFrom(s: seq<CodeUnit>, i: nat, k: nat, result: nat, p: nat)
    requires p < 32 && i <= k
    ensures var (word, end) := ReadValue(s, k, 5 * (k - i), result);
      EndsAt(s, k, end) && (Bit(word, p) <==> Bit(result, p) || SomeSetsBit(s, i, k, end, p))
    decreases |s| - k
  {
    var shift := 5 * (k - i);
    var c := Low5(At(s, k));
    OneCharacter(s, i, k, result, p);
    if More(At(s, k)) {
      ReadBitsFrom(s, i, k + 1, Or(result, Shl(c, shift)), p);
      FirstOrLater(s, i, k, ReadValue(s, k, shift, result).1, p);
    } else {
      FirstOrLater(s, i, k, k + 1, p);
    }
  }

  lemma OneCharacter(s: seq<CodeUnit>, i: nat, k: nat, result: nat, p: nat)
    requires p < 32 && i <= k
    ensures Bit(Or(result, Shl(Low5(At(s, k)), 5 * (k - i))), p) <==> Bit(result, p) || SetsBit(s, i, k, p)
  {
    var shift := 5 * (k - i);
    var c := Low5(At(s, k));
    OrBit(result, Shl(c, shift), p);
    ShlBit(c, shift, p);
    ZeroBit(if p >= shift % 32 then p - shift % 32 else 0);
  }

  /** The 32-bit word a number reads as stands for the one offset in 31 bits that is, modulo 2^31, its upper 31 bits,
      or their complement when its last bit is set. */
  lemma UnfoldExactly(word: nat)
    requires word < WORD
    ensures Fits(Unfold(word))
    ensures word % 2 == 0 ==> (Unfold(word) - word / 2) % 0x8000_0000 == 0
    ensures word % 2 == 1 ==> (Unfold(word) + (word + 1) / 2) % 0x8000_0000 == 0
  {
  }
}
